/** The pure classifiers and normalisers of the native server bridge: the verb
    to method mapping, the wrapper that tags a body with its method, the body
    classifier and the protocol selector. */
module Classify {
  import opened Wrappers

  // ---------------------------------------------------------------------------
  // Methods
  // ---------------------------------------------------------------------------

  /** The four HTTP methods the application layer knows about. */
  datatype MethodKind = Get | Post | Put | Delete

  /** The request-line verb that stands for a method. */
  function MethodName(m: MethodKind): string {
    match m
    case Get => "GET"
    case Post => "POST"
    case Put => "PUT"
    case Delete => "DELETE"
  }

  /** Maps a verb to its method by exact, case-sensitive comparison; any other
      verb has no method (JavaScript `undefined`). */
  function GetMethod(verb: string): (r: Option<MethodKind>)
    ensures forall m :: r == Some(m) <==> verb == MethodName(m)
  {
    if verb == "GET" then Some(Get)
    else if verb == "POST" then Some(Post)
    else if verb == "PUT" then Some(Put)
    else if verb == "DELETE" then Some(Delete)
    else None
  }

  /** `GetMethod` inverts `MethodName`. */
  lemma GetMethodInvertsMethodName(m: MethodKind)
    ensures GetMethod(MethodName(m)) == Some(m)
  {
  }

  /** Lower-case and mixed-case verbs are not recognised. */
  lemma LowerCaseVerbsUnmapped()
    ensures GetMethod("get") == None && GetMethod("Post") == None
    ensures GetMethod("put") == None && GetMethod("delete") == None
    ensures GetMethod("PATCH") == None && GetMethod("") == None
  {
  }

  /** A body tagged with the constructor of its method (the Elm `Method`
      value); `ctor` is `None` where the source leaves it `undefined`. */
  datatype Tagged<B> = Tagged(ctor: Option<MethodKind>, body: B)

  /** Tags `body` with the method of `verb`; the body passes through unchanged. */
  function ToMethod<B>(verb: string, body: B): (r: Tagged<B>)
    ensures r.body == body
    ensures r.ctor.None? <==> verb !in {"GET", "POST", "PUT", "DELETE"}
    ensures forall m :: r.ctor == Some(m) <==> verb == MethodName(m)
  {
    Tagged(GetMethod(verb), body)
  }

  // ---------------------------------------------------------------------------
  // Content classification
  // ---------------------------------------------------------------------------

  /** The JavaScript value held in a connection's `content` variable: still
      `undefined`, a string, or a byte buffer. */
  datatype JsValue = Undefined | Str(text: string) | Buffer(bytes: seq<bv8>)

  /** JavaScript truthiness: `undefined` and the empty string are falsy; a
      buffer is an object and therefore truthy, even when it is empty. */
  predicate Truthy(v: JsValue) {
    match v
    case Undefined => false
    case Str(s) => s != ""
    case Buffer(_) => true
  }

  /** A deferred accessor: it hands the raw bytes to a consumer and returns
      what the consumer produces, without copying them first. */
  type Accessor = (seq<bv8> -> seq<bv8>) -> seq<bv8>

  /** The Elm `Content` value built from a request body. The content type is
      the raw header, `None` when the header is absent. */
  datatype Content =
    | Empty
    | JSON(raw: string)
    | Text(contentType: Option<string>, raw: string)
    | Data(contentType: Option<string>, accessor: Accessor)

  const JsonType: string := "application/json"

  /** Classifies a body: falsy content is `Empty` whatever its type; a string
      is `JSON` exactly when the header equals the JSON media type, otherwise
      `Text` with the header; a buffer is `Data` whose accessor passes the
      bytes through unmodified. */
  function GetData(content: JsValue, contentType: Option<string>): (r: Content)
    ensures r.Empty? <==> !Truthy(content)
    ensures r.JSON? <==> Truthy(content) && content.Str? && contentType == Some(JsonType)
    ensures r.Text? <==> Truthy(content) && content.Str? && contentType != Some(JsonType)
    ensures r.Data? <==> content.Buffer?
    ensures r.JSON? || r.Text? ==> r.raw == content.text
    ensures r.Text? || r.Data? ==> r.contentType == contentType
    ensures r.Data? ==> forall f: seq<bv8> -> seq<bv8> :: r.accessor(f) == f(content.bytes)
  {
    if Truthy(content) then
      match content
      case Str(s) =>
        if contentType == Some(JsonType) then JSON(s) else Text(contentType, s)
      case Buffer(b) =>
        Data(contentType, (f: seq<bv8> -> seq<bv8>) => f(b))
    else
      Empty
  }

  /** The classification examples: no body, a JSON string, a plain string, a
      binary buffer, and an empty string that is falsy even when declared JSON. */
  lemma ClassificationExamples(ct: Option<string>, buf: seq<bv8>)
    ensures GetData(Undefined, ct) == Empty
    ensures GetData(Str(""), Some(JsonType)) == Empty
    ensures GetData(Str("{}"), Some("application/json")) == JSON("{}")
    ensures GetData(Str("hi"), Some("text/plain")) == Text(Some("text/plain"), "hi")
    ensures GetData(Str("{}"), Some("application/json; charset=utf-8")).Text?
    ensures GetData(Buffer(buf), Some("application/octet-stream")).accessor(v => v) == buf
  {
  }

  // ---------------------------------------------------------------------------
  // Protocol
  // ---------------------------------------------------------------------------

  predicate IsLower(c: char) {
    'a' <= c <= 'z'
  }

  /** Upper-cases one ASCII letter and leaves every other character alone. */
  function UpperChar(c: char): (r: char)
    ensures !IsLower(r)
    ensures IsLower(c) ==> r as int == c as int - 32
    ensures !IsLower(c) ==> r == c
  {
    if IsLower(c) then (c as int - 32) as char else c
  }

  /** `String.prototype.toUpperCase`, restricted to ASCII letters. */
  function ToUpper(s: string): (r: string)
    ensures |r| == |s|
    ensures forall i :: 0 <= i < |s| ==> r[i] == UpperChar(s[i])
  {
    if s == [] then [] else [UpperChar(s[0])] + ToUpper(s[1..])
  }

  /** The Elm protocol constructor for a connection's declared protocol: the
      upper-cased string, or "HTTP" when the protocol is absent or empty. */
  function GetProtocol(protocol: Option<string>): (r: string)
    ensures r != []
    ensures forall i :: 0 <= i < |r| ==> !IsLower(r[i])
    ensures protocol.None? || protocol == Some("") ==> r == "HTTP"
    ensures protocol.Some? && protocol.value != "" ==>
              |r| == |protocol.value| &&
              forall i :: 0 <= i < |r| ==> r[i] == UpperChar(protocol.value[i])
  {
    if protocol.Some? && protocol.value != "" then ToUpper(protocol.value) else "HTTP"
  }

  /** A string without lower-case letters is its own upper-case form. */
  lemma ToUpperFixesUpper(s: string)
    requires forall i :: 0 <= i < |s| ==> !IsLower(s[i])
    ensures ToUpper(s) == s
  {
  }

  /** Selecting the protocol of an already selected protocol changes nothing. */
  lemma GetProtocolIdempotent(protocol: Option<string>)
    ensures GetProtocol(Some(GetProtocol(protocol))) == GetProtocol(protocol)
  {
  }

  /** Node's lower-case protocol names select the two Elm protocols. */
  lemma ProtocolExamples()
    ensures GetProtocol(Some("http")) == "HTTP"
    ensures GetProtocol(Some("https")) == "HTTPS"
    ensures GetProtocol(Some("HTTPS")) == "HTTPS"
  {
  }
}
