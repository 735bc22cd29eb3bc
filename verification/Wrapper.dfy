/** The C API: what one call does to the caller's buffer, from the lookup of the thread's slot to the last cell. The
    buffer is `Size(kind)` cells at `mem + o`; `mem` may be the null pointer. */
module Wrapper {
  import opened Cells
  import opened CStrings
  import opened Messages
  import opened Heads
  import opened KeyValues
  import opened Registry
  import opened Items
  import opened Client
  import N = NetworkConnections
  import S = Shards
  import X = Sessions

  // ---- get ----

  /** `upsf_get_...`: all or nothing. */
  method Get(table: SlotTable, t: Tid, kind: Kind, mem: array?<int>, o: nat, reader: Reader) returns (hit: bool)
    requires mem != null ==> o + Size(kind) <= mem.Length && Terminated(mem[o..o + STR])
    requires reader.Valid()
    modifies mem, reader
    ensures mem == null ==> !hit
    ensures mem != null ==>
              var name, first := CStr(old(mem[o..o + STR])), First(kind, old(reader.Ahead()));
              && (hit <==> t in table.slots && reader.ok && name != [] && first.Some? && NameOf(first.value) == name)
              && if hit then
                   && Records(kind, first.value, mem[o..o + Size(kind)])
                   && mem[o..o + STR] == StrImage(name) && CStr(mem[o..o + STR]) == name
                   && Outside(old(mem[..]), mem[..], o, o + Size(kind))
                 else mem[..] == old(mem[..])
  {
    hide Image, Outside, StrImage, CStr, Terminated, Records, Visits, Fits;
    if mem == null {
      return false;
    }
    if t !in table.slots {
      return false;
    }
    var reply := Default(kind);
    var name := GetString(mem, o);
    var found;
    found, reply := ReadByName(kind, name, reader, reply);
    if !found {
      return false;
    }
    if NameOf(reply) == [] {
      return false;
    }
    ghost var order := Put(kind, reply, mem, o);
    hit := true;
    CStrFits(old(mem[o..o + STR]));
    NameKept(kind, reply, order, mem[..], o);
  }

  /** A name that came out of a C string goes back into one unchanged. */
  lemma NameKept(kind: Kind, item: Item, order: seq<PString>, m: seq<int>, o: nat)
    requires Has(kind, item) && Visits(order, MapKeys(item)) && Fits(NameOf(item))
    requires o + Size(kind) <= |m| && m[o..o + Size(kind)] == Image(kind, item, order)
    ensures Records(kind, item, m[o..o + Size(kind)])
    ensures m[o..o + STR] == StrImage(NameOf(item)) && CStr(m[o..o + STR]) == NameOf(item)
  {
    hide Image, StrImage, CStr, Visits, Fits;
    NameAtFront(kind, item, order);
    SubView(m, o, o + Size(kind), 0, STR);
    StrThere(NameOf(item));
    CutFixed(NameOf(item));
  }

  lemma CStrFits(v: seq<int>)
    requires |v| == STR && Terminated(v)
    ensures Fits(CStr(v))
  {
  }

  // ---- list ----

  /** Conversion of a `size_t` to a 32-bit `int`. */
  function ToInt(x: nat): (i: int)
    ensures -0x8000_0000 <= i < 0x8000_0000
    ensures i == x <==> x < 0x8000_0000
    ensures (x - i) % 0x1_0000_0000 == 0
  {
    var r := x % 0x1_0000_0000;
    if r < 0x8000_0000 then r else r - 0x1_0000_0000
  }

  function Min(a: nat, b: nat): (m: nat)
    ensures m <= a && m <= b && (m == a || m == b)
  {
    if a < b then a else b
  }

  /** How many of `k` received items a buffer of `n` records gets: as many as fit, unless both numbers are beyond the
      range of `int`. */
  function Filled(k: nat, n: nat): (f: nat)
    ensures f <= k && f <= n
    ensures f == Min(k, n) <==> k < 0x8000_0000 || n < 0x8000_0000
  {
    if ToInt(Min(k, n)) < 0 then 0 else ToInt(Min(k, n))
  }

  /** A buffer of `n` records that got the first of some items, in order, and zeros behind them. */
  ghost predicate Listed(kind: Kind, all: seq<Item>, n: nat, recs: seq<seq<int>>, v: seq<int>)
    requires forall i | 0 <= i < |all| :: Has(kind, all[i])
  {
    && |recs| == Filled(|all|, n) && Wide(recs, Size(kind))
    && (forall i | 0 <= i < |recs| :: Records(kind, all[i], recs[i]))
    && 0 <= (n - |recs|) * Size(kind)
    && v == Flat(recs) + Zeros((n - |recs|) * Size(kind))
  }

  /** `upsf_list_...`: on success the records of the first items in stream order, then zeros; the count is the number
      of items received, also when they did not fit. */
  method List(table: SlotTable, t: Tid, kind: Kind, mem: array?<int>, o: nat, n: nat, reader: Reader)
    returns (count: int, ghost recs: seq<seq<int>>)
    requires mem != null ==> o + n * Size(kind) <= mem.Length
    requires reader.Valid()
    modifies mem, reader
    ensures mem == null || t !in table.slots || !reader.ok ==>
              count == -1 && (mem != null ==> mem[..] == old(mem[..]))
    ensures mem != null && t in table.slots && reader.ok ==>
              var all := All(kind, old(reader.Ahead()));
              && count == ToInt(|all|)
              && Listed(kind, all, n, recs, mem[o..o + n * Size(kind)])
              && Outside(old(mem[..]), mem[..], o, o + n * Size(kind))
  {
    hide Outside, Listed;
    recs := [];
    if mem == null {
      return -1, recs;
    }
    if t !in table.slots {
      return -1, recs;
    }
    var items: seq<Item> := [];
    var ok;
    ok, items := ReadAll(kind, reader, items);
    assert items == All(kind, old(reader.Ahead()));
    if !ok {
      return -1, recs;
    }
    recs := Fill(kind, items, mem, o, n);
    count := ToInt(|items|);
  }

  method Fill(kind: Kind, items: seq<Item>, mem: array<int>, o: nat, n: nat) returns (ghost recs: seq<seq<int>>)
    requires o + n * Size(kind) <= mem.Length && forall i | 0 <= i < |items| :: Has(kind, items[i])
    modifies mem
    ensures Listed(kind, items, n, recs, mem[o..o + n * Size(kind)])
    ensures Outside(old(mem[..]), mem[..], o, o + n * Size(kind))
  {
    hide *;
    NoRecords(Size(kind));
    FilledBy(|items|, n);
    recs := [];
    ghost var b := Clear(mem, o, n * Size(kind));
    ghost var b0 := b;
    var maxElems := ToInt(Min(|items|, n));
    var i := 0;
    while i < maxElems
      invariant i == |recs| && i <= Filled(|items|, n)
      invariant Wide(recs, Size(kind)) && forall j | 0 <= j < i :: Records(kind, items[j], recs[j])
      invariant b == b0.(done := Flat(recs)) && Building(mem[..], b)
    {
      recs, b := PutRecord(kind, items[i], mem, o, i, n, recs, b);
      i := i + 1;
    }
    Filling(mem[..], kind, items, n, recs, b);
  }

  lemma NoRecords(w: nat)
    ensures Wide([], w) && Flat([]) == []
  {
  }

  lemma FilledBy(k: nat, n: nat)
    ensures var max := ToInt(Min(k, n));
            Filled(k, n) == if max < 0 then 0 else max
  {
  }

  /** `UpsfMapping::map(items[i], elems[i])` */
  method PutRecord(kind: Kind, item: Item, mem: array<int>, o: nat, i: nat, n: nat,
                   ghost recs: seq<seq<int>>, ghost b: Build)
    returns (ghost recs': seq<seq<int>>, ghost b': Build)
    requires Has(kind, item) && i == |recs| < n && Wide(recs, Size(kind))
    requires Building(mem[..], b) && b.done == Flat(recs) && b.o == o && b.end == o + n * Size(kind)
    modifies mem
    ensures |recs'| == i + 1 && recs'[..i] == recs && Wide(recs', Size(kind)) && Records(kind, item, recs'[i])
    ensures b' == b.(done := Flat(recs')) && Building(mem[..], b')
  {
    hide Outside, Image, Building, Records, Visits, Flat, Size;
    FlatLength(recs, Size(kind));
    SlotBounds(i, n, Size(kind));
    BuildingFits(mem[..], b);
    ghost var m := mem[..];
    ghost var order := Put(kind, item, mem, o + i * Size(kind));
    ghost var rec := Image(kind, item, order);
    RecordsBy(kind, item, order);
    Built(m, mem[..], b, rec);
    FlatPush(recs, rec);
    recs', b' := recs + [rec], b.Then(rec);
  }

  lemma BuildingFits(m: seq<int>, b: Build)
    requires Building(m, b)
    ensures b.end <= |m|
  {
  }

  lemma RecordsBy(kind: Kind, item: Item, order: seq<PString>)
    requires Has(kind, item) && Visits(order, MapKeys(item))
    ensures Records(kind, item, Image(kind, item, order))
  {
    hide Image, Visits;
  }

  lemma Filling(m: seq<int>, kind: Kind, items: seq<Item>, n: nat, recs: seq<seq<int>>, b: Build)
    requires forall i | 0 <= i < |items| :: Has(kind, items[i])
    requires |recs| == Filled(|items|, n) && Wide(recs, Size(kind))
    requires forall i | 0 <= i < |recs| :: Records(kind, items[i], recs[i])
    requires Building(m, b) && b.done == Flat(recs) && b.end == b.o + n * Size(kind)
    ensures b.end <= |m| && Listed(kind, items, n, recs, m[b.o..b.end]) && Outside(b.start, m, b.o, b.end)
  {
    hide Outside, Building, Records, Flat, Size;
    var w := Size(kind);
    FlatLength(recs, w);
    Rest(|recs|, n, w);
    BuiltZeros(m, b, (n - |recs|) * w);
    Finish(m, b.Then(Zeros((n - |recs|) * w)));
  }

  lemma Rest(k: nat, n: nat, w: nat)
    requires k <= n
    ensures 0 <= k * w <= n * w && (n - k) * w == n * w - k * w
  {
  }

  // ---- create, update, lookup ----

  /** `upsf_create_...`: the buffer is the reply, or it is untouched; what the client left in its own reply object when
      the call failed does not reach it. */
  method Create(table: SlotTable, t: Tid, kind: Kind, mem: array?<int>, o: nat, server: Server) returns (done: bool)
    requires mem != null ==> o + Size(kind) <= mem.Length && Wf(kind, mem[o..o + Size(kind)])
    modifies mem
    ensures mem == null ==> !done
    ensures mem != null ==>
              var response := server(Decode(kind, old(mem[o..o + Size(kind)])));
              && (done <==> t in table.slots && response.ok)
              && if done then
                   && Records(kind, As(kind, response.item), mem[o..o + Size(kind)])
                   && Outside(old(mem[..]), mem[..], o, o + Size(kind))
                 else mem[..] == old(mem[..])
  {
    hide Image, Outside, Wf, Decode;
    if mem == null {
      return false;
    }
    if t !in table.slots {
      return false;
    }
    var reply := Default(kind);
    var request := Items.Get(kind, mem, o);
    done, reply := CreateV1(kind, server, request, reply);
    if !done {
      return false;
    }
    ghost var order := Put(kind, reply, mem, o);
  }

  /** `upsf_update_...` */
  method Update(table: SlotTable, t: Tid, kind: Kind, mem: array?<int>, o: nat, server: Server) returns (done: bool)
    requires mem != null ==> o + Size(kind) <= mem.Length && Wf(kind, mem[o..o + Size(kind)])
    modifies mem
    ensures mem == null ==> !done
    ensures mem != null ==>
              var response := server(Decode(kind, old(mem[o..o + Size(kind)])));
              && (done <==> t in table.slots && response.ok)
              && if done then
                   && Records(kind, As(kind, response.item), mem[o..o + Size(kind)])
                   && Outside(old(mem[..]), mem[..], o, o + Size(kind))
                 else mem[..] == old(mem[..])
  {
    hide Image, Outside, Wf, Decode;
    if mem == null {
      return false;
    }
    if t !in table.slots {
      return false;
    }
    var reply := Default(kind);
    var request := Items.Get(kind, mem, o);
    done, reply := UpdateV1(kind, server, request, reply);
    if !done {
      return false;
    }
    ghost var order := Put(kind, reply, mem, o);
  }

  datatype Found = Found(ok: bool, session: SessionContext)

  /** `upsf_lookup`: only the spec of the buffer is sent, the whole buffer is the answer. */
  method Lookup(table: SlotTable, t: Tid, mem: array?<int>, o: nat, server: SessionSpec -> Found) returns (hit: bool)
    requires mem != null ==>
               && o + X.SESSION <= mem.Length
               && X.WfSessionSpec(mem[o + HEAD..o + HEAD + X.SESSION_SPEC])
    modifies mem
    ensures mem == null ==> !hit
    ensures mem != null ==>
              var found := server(X.DecodeSessionSpec(old(mem[o + HEAD..o + HEAD + X.SESSION_SPEC])));
              && (hit <==> t in table.slots && found.ok && found.session.name != [])
              && if hit then
                   && mem[o..o + X.SESSION] == X.SessionImage(found.session)
                   && Outside(old(mem[..]), mem[..], o, o + X.SESSION)
                 else mem[..] == old(mem[..])
  {
    hide X.SessionImage, Outside, X.WfSessionSpec, X.DecodeSessionSpec;
    if mem == null {
      return false;
    }
    if t !in table.slots {
      return false;
    }
    var request := X.GetSessionSpec(mem, o + HEAD);
    var found := server(request);
    if !found.ok {
      return false;
    }
    if found.session.name == [] {
      return false;
    }
    X.PutSession(mem, o, found.session);
    hit := true;
  }

  // ---- what the answers are worth ----

  /** Whatever a server sends, a record written for it is canonical and can be sent back. */
  lemma AnswerIsCanonical(kind: Kind, item: Item, v: seq<int>)
    requires Has(kind, item) && Records(kind, item, v)
    ensures |v| == Size(kind) && Canon(kind, v) && Wf(kind, v)
    ensures exists order :: Visits(order, MapKeys(item)) && Decode(kind, v) == Norm(item, order)
  {
    hide Image, Canon, Wf, Decode, Norm, Visits;
    var order :| Visits(order, MapKeys(item)) && v == Image(kind, item, order);
    There(kind, item, order);
  }

  /** A server that sends back what it gets: `v` is the readable buffer sent, `w` any buffer a successful create or
      update may leave. For four kinds nothing changed exactly when `v` was canonical. */
  lemma EchoUnchanged(kind: Kind, v: seq<int>, w: seq<int>)
    requires Exact(kind) && |v| == Size(kind) && Wf(kind, v)
    ensures Records(kind, Decode(kind, v), w) ==> (w == v <==> Canon(kind, v))
  {
    hide Image, Canon, Wf, Decode, Visits;
    if Records(kind, Decode(kind, v), w) {
      var order :| Visits(order, MapKeys(Decode(kind, v))) && w == Image(kind, Decode(kind, v), order);
      Back(kind, v, order);
    }
  }

  /** A shard comes back the same, up to the order of the map of its TSF network connections, exactly when it is
      canonical and no two entries share a key. */
  lemma EchoShard(v: seq<int>, w: seq<int>)
    requires |v| == Size(KShard) && Wf(KShard, v)
    ensures Records(KShard, Decode(KShard, v), w) ==>
              (S.SameShard(w, v) <==> Canon(KShard, v) && NoDup(KeysOf(DecodeKvs(S.StoredTsfs(v)))))
  {
    hide S.ShardImage, S.CanonShard, S.WfShard, S.DecodeShard, S.SameShard, S.StoredTsfs, Visits, NoDup, KeysOf,
         DecodeKvs;
    if Records(KShard, Decode(KShard, v), w) {
      var order :| Visits(order, MapKeys(Decode(KShard, v))) && w == Image(KShard, Decode(KShard, v), order);
      S.ShardBack(v, order);
    }
  }

  /** A network connection comes back the same, up to the order of its flags, exactly when it is canonical and faithful:
      otherwise the echo alone has changed what the caller holds. */
  lemma EchoNetworkConnection(v: seq<int>, w: seq<int>)
    requires |v| == Size(KNetwork) && Wf(KNetwork, v)
    ensures Records(KNetwork, Decode(KNetwork, v), w) ==>
              (N.SameNc(w, v) <==> Canon(KNetwork, v) && N.Faithful(v))
  {
    hide N.NcImage, N.CanonNc, N.WfNc, N.DecodeNc, N.SameNc, N.Faithful, Visits;
    if Records(KNetwork, Decode(KNetwork, v), w) {
      var order :| Visits(order, MapKeys(Decode(KNetwork, v))) && w == Image(KNetwork, Decode(KNetwork, v), order);
      N.NcBack(v, order);
    }
  }

  /** What a caller finds in a listed buffer: a slot that was filled reads back as the normalised item of the same
      index, every other slot is clear. */
  lemma ListedSlot(kind: Kind, all: seq<Item>, n: nat, recs: seq<seq<int>>, v: seq<int>, i: nat)
    requires (forall i | 0 <= i < |all| :: Has(kind, all[i])) && i < n
    ensures Listed(kind, all, n, recs, v) ==>
              && |v| == n * Size(kind) && (i + 1) * Size(kind) <= |v|
              && var slot := Slot(v, Size(kind), i);
                 if i < Filled(|all|, n) then
                   && |slot| == Size(kind) && Canon(kind, slot) && Wf(kind, slot)
                   && exists order :: Visits(order, MapKeys(all[i])) && Decode(kind, slot) == Norm(all[i], order)
                 else slot == Zeros(Size(kind))
  {
    hide Records, Size, Canon, Wf, Decode, Norm, Visits, Flat, ToInt, Min;
    var w := Size(kind);
    if Listed(kind, all, n, recs, v) {
      FlatLength(recs, w);
      Rest(|recs|, n, w);
      SlotBounds(i, n, w);
      if i < |recs| {
        FlatSlot(recs, w, i);
        assert Slot(v, w, i) == Flat(recs)[i * w..(i + 1) * w];
        AnswerIsCanonical(kind, all[i], recs[i]);
      } else {
        Rest(|recs|, i, w);
        assert Slot(v, w, i) == Zeros(w);
      }
    }
  }
}
