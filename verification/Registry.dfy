/** The table of connections, one per thread: what `upsf_open`, `upsf_close` and `upsf_exists` do to it when nothing
    runs beside them. */
module Registry {
  import opened Messages

  type Tid = nat

  datatype Addr = Addr(host: string, port: int)

  type Table = map<Tid, Addr>

  /** A thread that already has a connection keeps it. */
  function Opened(table: Table, t: Tid, a: Addr): Table {
    if t in table then table else table[t := a]
  }

  function Closed(table: Table, t: Tid): Table {
    table - {t}
  }

  class SlotTable {
    var slots: Table

    constructor ()
      ensures slots == map[]
    {
      slots := map[];
    }

    method Open(t: Tid, host: string, port: int) returns (rc: int)
      modifies this
      ensures rc == 0 && slots == Opened(old(slots), t, Addr(host, port))
    {
      if t !in slots {
        slots := slots[t := Addr(host, port)];
      }
      return 0;
    }

    method Close(t: Tid) returns (rc: int)
      modifies this
      ensures slots == Closed(old(slots), t)
      ensures rc == if t in old(slots) then 0 else -1
    {
      if t !in slots {
        assert slots - {t} == slots;
        return -1;
      }
      slots := slots - {t};
      return 0;
    }

    method Exists(t: Tid) returns (rc: int)
      ensures rc == if t in slots then 1 else 0
    {
      if t !in slots {
        return 0;
      }
      return 1;
    }
  }

  // ---- histories ----

  /** What happened, in the order in which it took effect: a call of the table operations and what it returned, an RPC
      that found no slot, a request that was sent. */
  datatype Event =
    | DidOpen(t: Tid, addr: Addr)
    | DidClose(t: Tid, rc: int)
    | DidExists(t: Tid, rc: int)
    | DidMiss(t: Tid)
    | DidSend(t: Tid, addr: Addr)

  function After(table: Table, e: Event): Table {
    match e
    case DidOpen(t, a) => Opened(table, t, a)
    case DidClose(t, _) => Closed(table, t)
    case _ => table
  }

  /** The table after running the events one at a time. */
  function Replay(h: seq<Event>): Table {
    if h == [] then map[] else After(Replay(h[..|h| - 1]), h[|h| - 1])
  }

  /** What an event says when its thread has this connection, or none: its return code, whether an RPC gets through,
      and where it goes. */
  predicate Answers(e: Event, connection: Option<Addr>) {
    match e
    case DidOpen(_, _) => true
    case DidClose(_, rc) => rc == if connection.Some? then 0 else -1
    case DidExists(_, rc) => rc == if connection.Some? then 1 else 0
    case DidMiss(_) => connection.None?
    case DidSend(_, a) => connection == Some(a)
  }

  function Entry(table: Table, t: Tid): Option<Addr> {
    if t in table then Some(table[t]) else None
  }

  /** Every event answers as the sequential operations do at that moment. */
  ghost predicate Lawful(h: seq<Event>) {
    forall i | 0 <= i < |h| :: Answers(h[i], Entry(Replay(h[..i]), h[i].t))
  }

  /** The address of the first open of `t` since its last successful close: looking only at the events of `t`. */
  function Bound(h: seq<Event>, t: Tid): Option<Addr> {
    if h == [] then None
    else
      var before := Bound(h[..|h| - 1], t);
      match h[|h| - 1]
      case DidOpen(u, a) => if u == t && before.None? then Some(a) else before
      case DidClose(u, rc) => if u == t && rc == 0 then None else before
      case _ => before
  }

  /** In a lawful history the entry of a thread is the address it is bound to. */
  lemma {:induction false} BoundIsEntry(h: seq<Event>, t: Tid)
    requires Lawful(h)
    ensures Bound(h, t) == Entry(Replay(h), t)
  {
    if h != [] {
      var n := |h| - 1;
      LawfulPrefix(h, n);
      BoundIsEntry(h[..n], t);
    }
  }

  /** So every event answers according to the binding of its own thread. */
  lemma AnswersByBinding(h: seq<Event>, i: nat)
    requires Lawful(h) && i < |h|
    ensures Answers(h[i], Bound(h[..i], h[i].t))
  {
    LawfulPrefix(h, i);
    BoundIsEntry(h[..i], h[i].t);
  }

  /** The events of one thread. */
  function Own(h: seq<Event>, t: Tid): seq<Event> {
    if h == [] then []
    else if h[|h| - 1].t == t then Own(h[..|h| - 1], t) + [h[|h| - 1]]
    else Own(h[..|h| - 1], t)
  }

  /** Whatever the other threads open and close, a thread is bound as if it were alone. */
  lemma {:induction false} OthersDoNotMatter(h: seq<Event>, t: Tid)
    ensures Bound(h, t) == Bound(Own(h, t), t)
  {
    if h != [] {
      var n := |h| - 1;
      OthersDoNotMatter(h[..n], t);
      if h[n].t == t {
        assert Own(h, t)[..|Own(h, t)| - 1] == Own(h[..n], t);
      }
    }
  }

  lemma OwnPush(h: seq<Event>, e: Event, t: Tid)
    ensures Own(h + [e], t) == if e.t == t then Own(h, t) + [e] else Own(h, t)
  {
    assert (h + [e])[..|h|] == h;
  }

  lemma LawfulPrefix(h: seq<Event>, n: nat)
    requires Lawful(h) && n <= |h|
    ensures Lawful(h[..n])
  {
    forall i | 0 <= i < n
      ensures Answers(h[..n][i], Entry(Replay(h[..n][..i]), h[..n][i].t))
    {
      assert h[..n][..i] == h[..i];
    }
  }

  lemma LawfulPush(h: seq<Event>, e: Event)
    requires Lawful(h) && Answers(e, Entry(Replay(h), e.t))
    ensures Lawful(h + [e]) && Replay(h + [e]) == After(Replay(h), e)
  {
    var h' := h + [e];
    assert h'[..|h|] == h;
    forall i | 0 <= i < |h'|
      ensures Answers(h'[i], Entry(Replay(h'[..i]), h'[i].t))
    {
      assert h'[..i] == if i < |h| then h[..i] else h;
    }
  }
}
