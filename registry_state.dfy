/**
 The server's shared registry as a value: the set of taken names, the set of
 endpoints that receive broadcasts, the name-to-endpoint map, and the lines
 written so far to each endpoint. Each function is one atomic step on it.
 */
module RegistryState {
  import opened Protocol
  import opened Wrappers

  /** Identity of one client's output stream (a `PrintWriter`). */
  type EndpointId = nat

  datatype State = State(
    names: set<string>,
    writers: set<EndpointId>,
    clientMap: map<string, EndpointId>,
    outbox: map<EndpointId, seq<string>>)

  /** The empty registry, before any client connects. */
  const Empty: State := State({}, {}, map[], map[])

  /** Lines written so far to endpoint `e`. */
  function Received(st: State, e: EndpointId): seq<string>
  {
    if e in st.outbox then st.outbox[e] else []
  }

  /** The registry invariant: `names` and the keys of `clientMap` agree. */
  predicate KeysAgree(st: State)
  {
    st.names == st.clientMap.Keys
  }

  /** Write `lines`, in order, to endpoint `e`; writing nothing changes nothing. */
  function Append(st: State, e: EndpointId, lines: seq<string>): (r: State)
    ensures r.names == st.names && r.writers == st.writers && r.clientMap == st.clientMap
    ensures Received(r, e) == Received(st, e) + lines
    ensures forall x :: x != e ==> Received(r, x) == Received(st, x)
  {
    if lines == [] then st else st.(outbox := st.outbox[e := Received(st, e) + lines])
  }

  /** `println` of one line on endpoint `e`. */
  function Println(st: State, e: EndpointId, line: string): State
  {
    Append(st, e, [line])
  }

  lemma {:induction false} AppendAppend(st: State, e: EndpointId, a: seq<string>, b: seq<string>)
    ensures Append(Append(st, e, a), e, b) == Append(st, e, a + b)
  {
    if a != [] && b != [] {
      assert Received(Append(st, e, a), e) + b == Received(st, e) + (a + b);
    } else if a == [] {
      assert a + b == b;
    } else {
      assert a + b == a;
    }
  }

  /** Concatenation regrouped. */
  lemma Assoc<T>(a: seq<T>, b: seq<T>, c: seq<T>)
    ensures (a + b) + c == a + (b + c)
  {
  }

  /** The check-and-insert step: admit `name` for endpoint `out` if it is not taken. */
  function TryAdmit(st: State, name: string, out: EndpointId): (r: (bool, State))
    ensures r.0 <==> name !in st.names
    ensures r.0 ==> r.1.names == st.names + {name} && r.1.clientMap == st.clientMap[name := out]
    ensures !r.0 ==> r.1 == st
    ensures r.1.writers == st.writers && r.1.outbox == st.outbox
    ensures KeysAgree(st) ==> KeysAgree(r.1)
  {
    if name !in st.names then
      (true, st.(names := st.names + {name}, clientMap := st.clientMap[name := out]))
    else
      (false, st)
  }

  /** `writers.add(out)`. */
  function AddWriter(st: State, out: EndpointId): (r: State)
    ensures r.writers == st.writers + {out}
    ensures r.names == st.names && r.clientMap == st.clientMap && r.outbox == st.outbox
  {
    st.(writers := st.writers + {out})
  }

  /** Write `m` once to every endpoint of `targets`. */
  function BroadcastTo(st: State, targets: set<EndpointId>, m: string): (r: State)
    ensures r.names == st.names && r.writers == st.writers && r.clientMap == st.clientMap
    ensures forall e :: Received(r, e) == Received(st, e) + (if e in targets then [m] else [])
  {
    st.(outbox := map e | e in st.outbox.Keys + targets :: Received(st, e) + (if e in targets then [m] else []))
  }

  /** Broadcasting to no endpoint changes nothing. */
  lemma BroadcastToNone(st: State, m: string)
    ensures BroadcastTo(st, {}, m) == st
  {
    var r := BroadcastTo(st, {}, m);
    assert r.outbox.Keys == st.outbox.Keys;
    forall e | e in r.outbox.Keys
      ensures r.outbox[e] == st.outbox[e]
    {
      assert r.outbox[e] == Received(st, e) + [];
    }
  }

  /** Broadcasting to one more endpoint is one more `println`. */
  lemma BroadcastToOneMore(st: State, done: set<EndpointId>, w: EndpointId, m: string)
    requires w !in done
    ensures BroadcastTo(st, done + {w}, m) == Println(BroadcastTo(st, done, m), w, m)
  {
    var lhs := BroadcastTo(st, done + {w}, m);
    var rhs := Println(BroadcastTo(st, done, m), w, m);
    assert lhs.outbox.Keys == rhs.outbox.Keys;
    forall e | e in lhs.outbox.Keys
      ensures lhs.outbox[e] == rhs.outbox[e]
    {
      assert lhs.outbox[e] == Received(lhs, e) && rhs.outbox[e] == Received(rhs, e);
    }
  }

  /** `broadcast(m)`: every endpoint in `writers` receives `m` exactly once;
      nothing else changes. */
  function Broadcast(st: State, m: string): (r: State)
    ensures r.names == st.names && r.writers == st.writers && r.clientMap == st.clientMap
    ensures forall e :: Received(r, e) == Received(st, e) + (if e in st.writers then [m] else [])
  {
    BroadcastTo(st, st.writers, m)
  }

  /** `sendMessageToClient(name, m)`: only the endpoint registered for `name`
      receives `m`; an unknown name changes nothing. */
  function SendToClient(st: State, name: string, m: string): (r: State)
    ensures r.names == st.names && r.writers == st.writers && r.clientMap == st.clientMap
    ensures name in st.clientMap ==> Received(r, st.clientMap[name]) == Received(st, st.clientMap[name]) + [m]
    ensures forall e :: (name !in st.clientMap || e != st.clientMap[name]) ==> Received(r, e) == Received(st, e)
    ensures name !in st.clientMap ==> r == st
  {
    if name in st.clientMap then Println(st, st.clientMap[name], m) else st
  }

  /** The `finally` block: drop `name` (when the field is not null) from
      `names` and `clientMap` together, and drop `out` from `writers`. */
  function Cleanup(st: State, name: Option<string>, out: EndpointId): (r: State)
    ensures r.outbox == st.outbox
    ensures r.writers == st.writers - {out}
    ensures name.None? ==> r.names == st.names && r.clientMap == st.clientMap
    ensures name.Some? ==> r.names == st.names - {name.value}
    ensures name.Some? ==> r.clientMap.Keys == st.clientMap.Keys - {name.value}
    ensures forall n :: n in r.clientMap ==> n in st.clientMap && r.clientMap[n] == st.clientMap[n]
    ensures KeysAgree(st) ==> KeysAgree(r)
  {
    match name
    case None => st.(writers := st.writers - {out})
    case Some(n) => st.(names := st.names - {n}, clientMap := st.clientMap - {n}, writers := st.writers - {out})
  }

  /** Removing a name that is not registered is a no-op on `names` and
      `clientMap`. */
  lemma CleanupAbsent(st: State, n: string, out: EndpointId)
    requires KeysAgree(st) && n !in st.names
    ensures Cleanup(st, Some(n), out).names == st.names
    ensures Cleanup(st, Some(n), out).clientMap == st.clientMap
  {
    assert st.clientMap - {n} == st.clientMap;
  }

  /** Running the cleanup a second time, with the same name field and
      endpoint, changes nothing more. */
  lemma CleanupIdempotent(st: State, name: Option<string>, out: EndpointId)
    ensures Cleanup(Cleanup(st, name, out), name, out) == Cleanup(st, name, out)
  {
    match name
    case None =>
      assert (st.writers - {out}) - {out} == st.writers - {out};
    case Some(v) =>
      assert (st.names - {v}) - {v} == st.names - {v};
      assert (st.clientMap - {v}) - {v} == st.clientMap - {v};
      assert (st.writers - {out}) - {out} == st.writers - {out};
  }
}
