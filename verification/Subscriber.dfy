/** Subscriptions: the endless read loop of the client, and the subscriber behind `upsf_subscribe` that hands items to
    C callbacks. */
module Subscriber {
  import opened Cells
  import opened Messages
  import opened Items
  import opened Client

  function KindOf(item: Item): (kind: Kind)
    requires item != NoItem
    ensures Has(kind, item)
  {
    match item
    case OfShard(_) => KShard
    case OfSession(_) => KSession
    case OfNetwork(_) => KNetwork
    case OfUserPlane(_) => KUserPlane
    case OfSteering(_) => KSteering
    case OfGateway(_) => KGateway
  }

  /** A C callback was handed a pointer to these cells. */
  datatype Call = Call(kind: Kind, record: seq<int>)

  /** The items there is a callback for. */
  function Wanted(callbacks: set<Kind>, items: seq<Item>): (wanted: seq<Item>)
    ensures forall i | 0 <= i < |wanted| :: wanted[i] != NoItem && KindOf(wanted[i]) in callbacks
  {
    if items == [] then []
    else
      var last, before := items[|items| - 1], Wanted(callbacks, items[..|items| - 1]);
      if last != NoItem && KindOf(last) in callbacks then before + [last] else before
  }

  ghost predicate Delivers(item: Item, call: Call)
    requires item != NoItem
  {
    call.kind == KindOf(item) && Records(call.kind, item, call.record)
  }

  /** `UpsfSubscriberWrapper`. A null callback is a kind that is not in `callbacks`. */
  class UpsfSubscriber {
    const callbacks: set<Kind>
    var watch: bool
    /** What was handed to the callbacks so far. */
    var calls: seq<Call>
    /** What `notify` was called with so far. */
    ghost var notified: seq<Item>

    constructor (callbacks: set<Kind>, watch: bool)
      ensures this.callbacks == callbacks && this.watch == watch && calls == [] && notified == []
      ensures Valid()
    {
      this.callbacks, this.watch, calls, notified := callbacks, watch, [], [];
    }

    /** The callbacks saw the items they are for, in the order of notification, mapped, and nothing else. */
    ghost predicate Valid()
      reads this
    {
      var wanted := Wanted(callbacks, notified);
      |calls| == |wanted| && forall i | 0 <= i < |calls| :: Delivers(wanted[i], calls[i])
    }

    /** `notify`: the record is a local variable of the overload, with whatever the stack held before. */
    method Notify(item: Item)
      requires Valid() && item != NoItem
      modifies this
      ensures Valid() && notified == old(notified) + [item] && watch == old(watch)
      ensures old(calls) <= calls
    {
      hide Records, Size;
      notified := notified + [item];
      assert notified[..|notified| - 1] == old(notified);
      var kind := KindOf(item);
      if kind !in callbacks {
        return;
      }
      var record := new int[Size(kind)];
      Fill(kind, item, record);
      calls := calls + [Call(kind, record[..])];
    }
  }

  method Fill(kind: Kind, item: Item, record: array<int>)
    requires Has(kind, item) && record.Length == Size(kind)
    modifies record
    ensures Records(kind, item, record[..])
  {
    hide Image, Size;
    ghost var order := Put(kind, item, record, 0);
    assert record[..] == record[0..0 + Size(kind)];
  }

  // ---- the read loop ----

  /** What a reader delivers between two calls of `Finish`, and the status of the second. */
  datatype Round = Round(items: seq<Item>, ok: bool)

  /** Items whose `oneof` is set. */
  function Set(items: seq<Item>): (some: seq<Item>)
    ensures forall i | 0 <= i < |some| :: some[i] != NoItem
  {
    if items == [] then []
    else if items[0] != NoItem then [items[0]] + Set(items[1..])
    else Set(items[1..])
  }

  lemma {:induction false} SetConcat(a: seq<Item>, b: seq<Item>)
    ensures Set(a + b) == Set(a) + Set(b)
  {
    if a == [] {
      assert a + b == b;
    } else {
      SetConcat(a[1..], b);
      assert (a + b)[1..] == a[1..] + b && (a + b)[0] == a[0];
      Regroup([a[0]], Set(a[1..]), Set(b));
    }
  }

  /** Everything a subscriber can receive: the rounds up to the first bad status, or one round without `watch`. */
  function Stream(rounds: seq<Round>, watch: bool): seq<Item> {
    if rounds == [] then []
    else if rounds[0].ok && watch then rounds[0].items + Stream(rounds[1..], watch)
    else rounds[0].items
  }

  /** The rounds that are read: up to the first bad status, or one without `watch`. */
  function Served(rounds: seq<Round>, watch: bool): (served: seq<Round>)
    ensures served <= rounds && (served == [] ==> rounds == [])
    ensures forall i | 0 <= i < |served| - 1 :: served[i].ok && watch
    ensures served == rounds || !served[|served| - 1].ok || !watch
  {
    if rounds == [] then []
    else if rounds[0].ok && watch then [rounds[0]] + Served(rounds[1..], watch)
    else [rounds[0]]
  }

  function ItemsOf(rounds: seq<Round>): seq<Item> {
    if rounds == [] then [] else rounds[0].items + ItemsOf(rounds[1..])
  }

  /** What is received is all items of these rounds. */
  lemma {:induction false} StreamIs(rounds: seq<Round>, watch: bool)
    ensures Stream(rounds, watch) == ItemsOf(Served(rounds, watch))
  {
    if rounds != [] {
      StreamIs(rounds[1..], watch);
      var served := Served(rounds, watch);
      if rounds[0].ok && watch {
        assert served[1..] == Served(rounds[1..], watch);
      } else {
        assert served[1..] == [];
      }
    }
  }

  /** One more round adds its items, unless the loop has ended before it. */
  lemma StreamNext(rounds: seq<Round>, round: Round, watch: bool)
    ensures Stream([round], watch) == round.items
    ensures Stream(rounds + [round], watch) ==
            if rounds == [] || (watch && forall i | 0 <= i < |rounds| :: rounds[i].ok)
            then Stream(rounds, watch) + round.items
            else Stream(rounds, watch)
  {
    assert Stream([], watch) == [] && [round][1..] == [];
    StreamGrows(rounds, [round], watch);
    OutcomeIs(rounds, watch);
  }

  /** The result is the status of the last round that is read, once one has ended the loop. */
  lemma {:induction false} OutcomeIs(rounds: seq<Round>, watch: bool)
    ensures var served := Served(rounds, watch);
            Outcome(rounds, watch) ==
            if served == [] || (served[|served| - 1].ok && watch) then None else Some(served[|served| - 1].ok)
    ensures Outcome(rounds, watch).None? <==> rounds == [] || (watch && forall i | 0 <= i < |rounds| :: rounds[i].ok)
  {
    if rounds != [] {
      OutcomeIs(rounds[1..], watch);
      assert forall i | 1 <= i < |rounds| :: rounds[i] == rounds[1..][i - 1];
    }
  }

  /** What `ReadV1` returns; None while it is still serving. */
  function Outcome(rounds: seq<Round>, watch: bool): Option<bool> {
    if rounds == [] then None
    else if !rounds[0].ok then Some(false)
    else if !watch then Some(true)
    else Outcome(rounds[1..], watch)
  }

  /** One item: the overload of `notify` is chosen by the field of the `oneof` that is set. */
  method Serve(subscriber: UpsfSubscriber, reader: Reader)
    requires subscriber.Valid() && reader.Valid()
    modifies subscriber, reader
    ensures subscriber.Valid() && subscriber.watch == old(subscriber.watch)
    ensures subscriber.notified == old(subscriber.notified) + Set(old(reader.Ahead()))
    ensures old(subscriber.calls) <= subscriber.calls
  {
    hide UpsfSubscriber.Valid, Wanted;
    var item, more := NoItem, true;
    ghost var all := old(subscriber.notified) + Set(reader.Ahead());
    while true
      invariant subscriber.Valid() && reader.Valid() && subscriber.watch == old(subscriber.watch)
      invariant subscriber.notified + Set(reader.Ahead()) == all
      invariant old(subscriber.calls) <= subscriber.calls
      decreases |reader.Ahead()|
    {
      ghost var ahead := reader.Ahead();
      more, item := reader.Read(item);
      if !more {
        break;
      }
      assert ahead[0] == item && ahead[1..] == reader.Ahead();
      if item != NoItem {
        subscriber.Notify(item);
      }
    }
  }

  /** ReadV1 for a subscriber, as far as the rounds go. */
  method ReadV1(subscriber: UpsfSubscriber, rounds: seq<Round>) returns (result: Option<bool>)
    requires subscriber.Valid()
    modifies subscriber
    ensures subscriber.Valid()
    ensures subscriber.notified == old(subscriber.notified) + Set(Stream(rounds, subscriber.watch))
    ensures result == Outcome(rounds, subscriber.watch)
    ensures subscriber.watch == old(subscriber.watch) && old(subscriber.calls) <= subscriber.calls
  {
    hide UpsfSubscriber.Valid, Wanted;
    ghost var all := subscriber.notified + Set(Stream(rounds, subscriber.watch));
    var i := 0;
    while i < |rounds|
      invariant i <= |rounds| && subscriber.Valid() && subscriber.watch == old(subscriber.watch)
      invariant old(subscriber.calls) <= subscriber.calls
      invariant subscriber.notified + Set(Stream(rounds[i..], subscriber.watch)) == all
      invariant Outcome(rounds[i..], subscriber.watch) == Outcome(rounds, subscriber.watch)
    {
      var round := rounds[i];
      ghost var rest := rounds[i + 1..];
      assert rounds[i..][1..] == rest;
      SetConcat(round.items, Stream(rest, subscriber.watch));
      var reader := new Reader(round.items, round.ok);
      Serve(subscriber, reader);
      var status := reader.Finish();
      if !status {
        return Some(false);
      }
      if !subscriber.watch {
        return Some(true);
      }
      i := i + 1;
    }
    return None;
  }

  /** `upsf_subscribe`: it has a client and a subscriber of its own. */
  method Subscribe(callbacks: set<Kind>, rounds: seq<Round>) returns (rc: Option<int>, subscriber: UpsfSubscriber)
    ensures fresh(subscriber) && subscriber.Valid() && subscriber.callbacks == callbacks
    ensures subscriber.notified == Set(Stream(rounds, true))
    ensures forall kind :: CalledFor(kind, subscriber.calls,
                                     if kind in callbacks then All(kind, ItemsOf(Served(rounds, true))) else [])
    ensures rc == if exists i :: 0 <= i < |rounds| && !rounds[i].ok then Some(-1) else None
  {
    subscriber := new UpsfSubscriber(callbacks, true);
    var result := ReadV1(subscriber, rounds);
    WatchOnlyFails(rounds);
    assert subscriber.notified == Set(Stream(rounds, true));
    EachKind(callbacks, rounds, subscriber.calls);
    hide UpsfSubscriber.Valid, Wanted, Delivers, CalledFor, Set, Stream, All;
    match result {
      case None => return None, subscriber;
      case Some(ok) =>
        if !ok {
          return Some(-1), subscriber;
        }
        return Some(0), subscriber;
    }
  }

  /** With `watch` the loop only ends by failing, in the first round with a bad status. */
  lemma {:induction false} WatchOnlyFails(rounds: seq<Round>)
    ensures Outcome(rounds, true) == if exists i :: 0 <= i < |rounds| && !rounds[i].ok then Some(false) else None
  {
    if rounds != [] {
      WatchOnlyFails(rounds[1..]);
      assert forall i | 1 <= i < |rounds| :: rounds[i] == rounds[1..][i - 1];
    }
  }

  /** Serving on only adds: what was delivered stays, in its order. */
  lemma {:induction false} StreamGrows(rounds: seq<Round>, more: seq<Round>, watch: bool)
    ensures Stream(rounds + more, watch) ==
            if Outcome(rounds, watch).None? then Stream(rounds, watch) + Stream(more, watch) else Stream(rounds, watch)
  {
    if rounds == [] {
      assert rounds + more == more;
    } else {
      StreamGrows(rounds[1..], more, watch);
      assert (rounds + more)[1..] == rounds[1..] + more && (rounds + more)[0] == rounds[0];
      Regroup(rounds[0].items, Stream(rounds[1..], watch), Stream(more, watch));
    }
  }

  /** The callback of a kind is called once for every item of that kind in the stream, in stream order, and never for
      another: choosing by callback and then by kind is choosing by kind. */
  lemma OncePerItem(callbacks: set<Kind>, items: seq<Item>, kind: Kind)
    ensures All(kind, Wanted(callbacks, Set(items))) == if kind in callbacks then All(kind, items) else []
  {
    AllWanted(callbacks, Set(items), kind);
    AllSet(items, kind);
  }

  function CallsOf(kind: Kind, calls: seq<Call>): (some: seq<Call>)
    ensures forall i | 0 <= i < |some| :: some[i].kind == kind
  {
    if calls == [] then []
    else if calls[0].kind == kind then [calls[0]] + CallsOf(kind, calls[1..])
    else CallsOf(kind, calls[1..])
  }

  /** The callback of a kind was called once for each of these items, in this order, with its record. */
  ghost predicate CalledFor(kind: Kind, calls: seq<Call>, items: seq<Item>)
    requires forall i | 0 <= i < |items| :: Has(kind, items[i])
  {
    var some := CallsOf(kind, calls);
    |some| == |items| && forall i | 0 <= i < |some| :: Records(kind, items[i], some[i].record)
  }

  lemma EachKind(callbacks: set<Kind>, rounds: seq<Round>, calls: seq<Call>)
    requires var wanted := Wanted(callbacks, Set(Stream(rounds, true)));
             |calls| == |wanted| && forall i | 0 <= i < |calls| :: Delivers(wanted[i], calls[i])
    ensures forall kind ::
              CalledFor(kind, calls, if kind in callbacks then All(kind, ItemsOf(Served(rounds, true))) else [])
  {
    hide Delivers, CalledFor, Wanted, Set, Stream, All, ItemsOf, Served;
    StreamIs(rounds, true);
    forall kind
      ensures CalledFor(kind, calls, if kind in callbacks then All(kind, Stream(rounds, true)) else [])
    {
      OncePerItem(callbacks, Stream(rounds, true), kind);
      CallsFor(kind, Wanted(callbacks, Set(Stream(rounds, true))), calls);
    }
  }

  lemma {:induction false} CallsFor(kind: Kind, items: seq<Item>, calls: seq<Call>)
    requires |items| == |calls| && forall i | 0 <= i < |items| :: items[i] != NoItem && Delivers(items[i], calls[i])
    ensures CalledFor(kind, calls, All(kind, items))
  {
    hide Records;
    if items != [] {
      CallsFor(kind, items[1..], calls[1..]);
    }
  }

  lemma {:induction false} AllWanted(callbacks: set<Kind>, items: seq<Item>, kind: Kind)
    ensures All(kind, Wanted(callbacks, items)) == if kind in callbacks then All(kind, items) else []
  {
    if items != [] {
      var n := |items| - 1;
      hide All, Has;
      AllWanted(callbacks, items[..n], kind);
      AllOne(kind, items[n]);
      AllConcat(kind, Wanted(callbacks, items[..n]), [items[n]]);
      AllConcat(kind, items[..n], [items[n]]);
      assert items[..n] + [items[n]] == items;
    }
  }

  lemma AllOne(kind: Kind, item: Item)
    ensures All(kind, [item]) == if item != NoItem && KindOf(item) == kind then [item] else []
  {
  }

  lemma {:induction false} AllSet(items: seq<Item>, kind: Kind)
    ensures All(kind, Set(items)) == All(kind, items)
  {
    if items != [] {
      AllSet(items[1..], kind);
      AllConcat(kind, [items[0]], Set(items[1..]));
    }
  }
}
