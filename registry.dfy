/** The pending-response registry as a value: the module-level `requests`
    map from correlation id to response handle, together with the log of
    `res.end` calls the send operations make. The server class keeps its
    state equal to this value; the lemmas here state what every sequence of
    registrations and sends guarantees. */
module Registry {

  /** A correlation id: the hex digest the hash function produces. */
  type Id = string

  /** A response handle, identified by the connection that owns it. */
  datatype Response = Response(connection: nat)

  /** The argument of one `res.end` call: bytes, a string, or nothing. */
  datatype EndArg = EndBytes(bytes: seq<bv8>) | EndText(text: string) | EndNone

  /** One `res.end` call on a handle. */
  datatype Write = Write(res: Response, arg: EndArg)

  /** The registry state: `requests`, the writes made so far in order, and
      (for the proofs) every handle that has ever been registered. */
  datatype Pending = Pending(requests: map<Id, Response>, sent: seq<Write>, issued: set<Response>)

  const Initial: Pending := Pending(map[], [], {})

  /** Every handle is registered under at most one id, a registered handle
      has not been written, and no handle has been written twice. */
  ghost predicate Inv(p: Pending) {
    && p.requests.Values <= p.issued
    && (forall a, b :: a in p.requests && b in p.requests && a != b ==> p.requests[a] != p.requests[b])
    && (forall i :: 0 <= i < |p.sent| ==> p.sent[i].res in p.issued && p.sent[i].res !in p.requests.Values)
    && (forall i, j :: 0 <= i < j < |p.sent| ==> p.sent[i].res != p.sent[j].res)
  }

  /** `requests.set(id, res)`: insert, or overwrite whatever was there. */
  function Stored(p: Pending, id: Id, res: Response): (q: Pending)
    ensures q.requests.Keys == p.requests.Keys + {id} && q.requests[id] == res
    ensures forall k :: k in p.requests && k != id ==> q.requests[k] == p.requests[k]
    ensures q.sent == p.sent
  {
    Pending(p.requests[id := res], p.sent, p.issued + {res})
  }

  /** `sendContent`: get the handle for `id`, delete the entry, and write to
      the handle only if there was one. */
  function Sent(p: Pending, id: Id, arg: EndArg): (q: Pending)
    ensures id !in q.requests
    ensures q.requests.Keys == p.requests.Keys - {id}
    ensures forall k :: k in q.requests ==> q.requests[k] == p.requests[k]
    ensures id in p.requests <==> |q.sent| == |p.sent| + 1
    ensures id in p.requests ==> q.sent == p.sent + [Write(p.requests[id], arg)]
    ensures id !in p.requests ==> q.sent == p.sent
    ensures q.issued == p.issued
  {
    Pending(p.requests - {id},
            if id in p.requests then p.sent + [Write(p.requests[id], arg)] else p.sent,
            p.issued)
  }

  /** Storing a handle that has never been registered keeps the invariant. */
  lemma StoredKeepsInv(p: Pending, id: Id, res: Response)
    requires Inv(p) && res !in p.issued
    ensures Inv(Stored(p, id, res))
  {
  }

  /** A send keeps the invariant, with or without a pending entry. */
  lemma SentKeepsInv(p: Pending, id: Id, arg: EndArg)
    requires Inv(p)
    ensures Inv(Sent(p, id, arg))
  {
  }

  /** A second send for the same id finds nothing: it writes nothing and
      leaves the state as the first send left it. */
  lemma SecondSendIsNoOp(p: Pending, id: Id, first: EndArg, second: EndArg)
    ensures Sent(Sent(p, id, first), id, second) == Sent(p, id, first)
  {
  }

  /** Two connections whose ids collide: the later `set` wins, and the
      earlier handle is no longer reachable through the registry. */
  lemma LaterStoreWins(p: Pending, id: Id, first: Response, second: Response)
    requires Inv(p) && first !in p.issued && second != first
    ensures var q := Stored(Stored(p, id, first), id, second);
      && q.requests[id] == second
      && first !in q.requests.Values
  {
  }

  // ---------------------------------------------------------------------------
  // Traces
  // ---------------------------------------------------------------------------

  /** One registry operation: the `set` at the end of a body stream, or a send. */
  datatype Op = Store(id: Id, res: Response) | Send(id: Id, arg: EndArg)

  function Apply(p: Pending, op: Op): Pending {
    match op
    case Store(id, res) => Stored(p, id, res)
    case Send(id, arg) => Sent(p, id, arg)
  }

  /** Every operation an admissible trace can make keeps the invariant. */
  lemma ApplyKeepsInv(p: Pending, op: Op)
    requires Inv(p) && (op.Store? ==> op.res !in p.issued)
    ensures Inv(Apply(p, op))
  {
    match op
    case Store(id, res) => StoredKeepsInv(p, id, res);
    case Send(id, arg) => SentKeepsInv(p, id, arg);
  }

  function Run(p: Pending, ops: seq<Op>): Pending
    decreases |ops|
  {
    if ops == [] then p else Run(Apply(p, ops[0]), ops[1..])
  }

  /** The host hands every connection a response handle of its own, and a
      body stream ends at most once: no handle is stored twice. */
  ghost predicate Admissible(p: Pending, ops: seq<Op>)
    decreases |ops|
  {
    ops == [] ||
    ((ops[0].Store? ==> ops[0].res !in p.issued) && Admissible(Apply(p, ops[0]), ops[1..]))
  }

  /** Every admissible trace keeps the invariant. */
  lemma {:induction false} RunKeepsInv(p: Pending, ops: seq<Op>)
    requires Inv(p) && Admissible(p, ops)
    ensures Inv(Run(p, ops))
    decreases |ops|
  {
    if ops != [] {
      ApplyKeepsInv(p, ops[0]);
      RunKeepsInv(Apply(p, ops[0]), ops[1..]);
    }
  }

  /** Writes are only ever appended: a trace never changes an earlier write. */
  lemma {:induction false} RunExtendsSent(p: Pending, ops: seq<Op>)
    ensures |p.sent| <= |Run(p, ops).sent|
    ensures Run(p, ops).sent[..|p.sent|] == p.sent
    decreases |ops|
  {
    if ops != [] {
      var q := Apply(p, ops[0]);
      assert q.sent[..|p.sent|] == p.sent;
      RunExtendsSent(q, ops[1..]);
    }
  }

  /** Exactly-once delivery: starting from the empty registry, whatever
      connections arrive and whatever sends the application issues, no
      response handle is written more than once, and only registered handles
      are written. */
  lemma AtMostOneWritePerResponse(ops: seq<Op>)
    requires Admissible(Initial, ops)
    ensures var q := Run(Initial, ops);
      && (forall i, j :: 0 <= i < j < |q.sent| ==> q.sent[i].res != q.sent[j].res)
      && (forall i :: 0 <= i < |q.sent| ==> q.sent[i].res in q.issued)
  {
    RunKeepsInv(Initial, ops);
  }

  /** A handle that is registered but no longer reachable (because a
      colliding id overwrote it, or because it was already written) is never
      written by any later admissible operations. */
  lemma {:induction false} UnreachableNeverWritten(p: Pending, ops: seq<Op>, r: Response)
    requires Inv(p) && Admissible(p, ops)
    requires r in p.issued && r !in p.requests.Values
    ensures var q := Run(p, ops);
      forall i :: |p.sent| <= i < |q.sent| ==> q.sent[i].res != r
    decreases |ops|
  {
    if ops != [] {
      var q := Apply(p, ops[0]);
      ApplyKeepsInv(p, ops[0]);
      forall k | k in q.requests
        ensures q.requests[k] != r
      {
        if k in p.requests && q.requests[k] == p.requests[k] {
          assert p.requests[k] in p.requests.Values;
        }
      }
      forall i | |p.sent| <= i < |q.sent|
        ensures q.sent[i].res != r
      {
        assert ops[0].Send? && ops[0].id in p.requests && q.sent[i].res == p.requests[ops[0].id];
      }
      UnreachableNeverWritten(q, ops[1..], r);
      RunExtendsSent(q, ops[1..]);
      var final := Run(q, ops[1..]);
      forall i | |p.sent| <= i < |q.sent|
        ensures final.sent[i] == q.sent[i]
      {
        assert final.sent[..|q.sent|][i] == q.sent[i];
      }
    }
  }
}
