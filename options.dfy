/** Conversion of the Elm server options record, whose fields are all
    `Maybe` values, into the plain JavaScript object handed to the host's
    server factory. */
module Options {
  import opened Wrappers

  /** A property of the JavaScript options object: `undefined` or a defined
      value. It is kept apart from `Option`, which stands for the Elm
      `Maybe` the property is converted from, so that the conversion between
      the two representations is visible in the contract. */
  datatype Field<V> = Undefined | Defined(value: V)

  /** Builds the options object key by key, as the `reduce` over the record's
      keys does: the same keys, `Nothing` becoming `undefined` and `Just v`
      becoming `v`. */
  method ConvertOptions<V>(options: map<string, Option<V>>) returns (obj: map<string, Field<V>>)
    ensures obj.Keys == options.Keys
    ensures forall k :: k in options ==> (obj[k].Undefined? <==> options[k].None?)
    ensures forall k :: k in options && options[k].Some? ==> obj[k] == Defined(options[k].value)
  {
    obj := map[];
    var todo := options.Keys;
    while todo != {}
      invariant todo <= options.Keys
      invariant obj.Keys == options.Keys - todo
      invariant forall k :: k in obj ==> (obj[k].Undefined? <==> options[k].None?)
      invariant forall k :: k in obj && options[k].Some? ==> obj[k] == Defined(options[k].value)
      decreases todo
    {
      var key :| key in todo;
      var maybeValue := options[key];
      obj := obj[key := if maybeValue.None? then Undefined else Defined(maybeValue.value)];
      todo := todo - {key};
    }
  }
}
