/** The status of a network connection, whose map of flags goes through an array of strings, and the item itself. */
module NetworkConnections {
  import opened Cells
  import opened CStrings
  import opened Messages
  import opened Heads
  import opened KeyValues
  import opened NcSpecs

  /** nc_active, nc_active_size, allocated_shards. */
  const NC_STATUS: nat := 2082
  const NC: nat := 6474
  const NC_SPEC_AT: nat := 132
  const NC_STATUS_AT: nat := 4392

  const CHAR_0 := 48
  const CHAR_1 := 49

  // ---- status ----

  /** How a flag is stored in C. */
  function FlagText(on: bool): PString {
    if on then [CHAR_1] else [CHAR_0]
  }

  function FlagPairs(m: map<PString, bool>, order: seq<PString>): (kvs: seq<Pair>)
    requires forall i | 0 <= i < |order| :: order[i] in m
    ensures |kvs| == |order|
  {
    seq(|order|, i requires 0 <= i < |order| => (order[i], FlagText(m[order[i]])))
  }

  /** `allocated_shards` is not stored: its cell stays clear. */
  function NcStatusImage(s: NcStatus, order: seq<PString>): (v: seq<int>)
    requires Visits(order, s.ncActive.Keys)
    ensures |v| == NC_STATUS
  {
    KvsImage(FlagPairs(s.ncActive, order)) + [0]
  }

  ghost predicate WfNcStatus(v: seq<int>)
    requires |v| == NC_STATUS
  {
    WfKvs(v[0..KVS])
  }

  /** A `char` array decays to a pointer, and a pointer is true: whatever text the flag has. */
  function Raised(kvs: seq<Pair>): (fs: seq<(PString, bool)>)
    ensures |fs| == |kvs|
    ensures forall i | 0 <= i < |fs| :: fs[i] == (kvs[i].0, true)
  {
    seq(|kvs|, i requires 0 <= i < |kvs| => (kvs[i].0, true))
  }

  function DecodeNcStatus(v: seq<int>): NcStatus
    requires |v| == NC_STATUS && WfNcStatus(v)
  {
    NcStatus(Fold(Raised(DecodeKvs(v[0..KVS]))), v[KVS])
  }

  /** The flags as they come back: the cut keys of the entries visited, every one of them true. */
  function NormFlags(order: seq<PString>): (fs: seq<(PString, bool)>)
    ensures |fs| == |order|
    ensures forall i | 0 <= i < |fs| :: fs[i] == (Cut(order[i]), true)
  {
    seq(|order|, i requires 0 <= i < |order| => (Cut(order[i]), true))
  }

  lemma NcStatusThere(s: NcStatus, order: seq<PString>)
    requires Visits(order, s.ncActive.Keys)
    ensures var v := NcStatusImage(s, order);
            && CanonKvs(v[0..KVS]) && WfNcStatus(v)
            && DecodeNcStatus(v) == NcStatus(Fold(NormFlags(order)), 0)
  {
    hide KvsImage, DecodeKvs, CanonKvs, Fold;
    var kvs := FlagPairs(s.ncActive, order);
    KvsThere(kvs);
    assert NcStatusImage(s, order)[0..KVS] == KvsImage(kvs);
    assert Raised(CutKvs(kvs)) == NormFlags(order);
  }

  lemma FlagPairsPush(m: map<PString, bool>, order: seq<PString>, k: PString)
    requires (forall i | 0 <= i < |order| :: order[i] in m) && k in m
    ensures FlagPairs(m, order + [k]) == FlagPairs(m, order) + [(k, FlagText(m[k]))]
  {
  }

  /** Fills the array while it iterates over the map, in the order the map happens to have. */
  method AppendFlags(mem: array<int>, p: nat, m: map<PString, bool>, ghost b: Build)
    returns (ghost b': Build, ghost order: seq<PString>, warned: bool)
    requires Building(mem[..], b) && p == b.At() && p + KVS <= b.end
    modifies mem
    ensures Visits(order, m.Keys)
    ensures b' == b.Then(KvsImage(FlagPairs(m, order))) && Building(mem[..], b')
    ensures warned <==> |m| > CAP
  {
    hide Building, Outside, KvImage, FlagText, FlagPairs, Visiting, ArrayImage, KvSlots;
    ghost var m0, kvs := mem[..], FlagPairs(m, []);
    ClearNext(m0, b, KVS);
    OutsideNone(m0, p + KVS - 1, p + KVS);
    ghost var c := BeginSlots(m0, m0, p, p + KVS - 1);
    assert KvSlots(kvs) == [];
    order := [];
    var rest, i := m.Keys, 0;
    VisitNone(m.Keys);
    while rest != {}
      invariant i == |order| < CAP && Visiting(order, m.Keys, rest)
      invariant (forall j | 0 <= j < i :: order[j] in m) && kvs == FlagPairs(m, order)
      invariant Building(mem[..], c) && c == Build(m0, p, p + KVS - 1, Flat(KvSlots(kvs)))
      decreases |rest|
    {
      var k :| k in rest;
      VisitNext(order, m.Keys, rest, k);
      FlagPairsPush(m, order, k);
      KvSlotsPush(kvs, (k, FlagText(m[k])));
      c := AppendKv(mem, p + i * KV, k, FlagText(m[k]), c);
      rest, order, kvs := rest - {k}, order + [k], kvs + [(k, FlagText(m[k]))];
      i := i + 1;
      if i == CAP {
        break;
      }
    }
    VisitsFrom(order, m.Keys, rest);
    b' := AppendSize(mem, p + KVS - 1, i, KvSlots(kvs), KV, c, b);
    warned := i < |m|;
  }

  method AppendNcStatus(mem: array<int>, p: nat, s: NcStatus, ghost b: Build)
    returns (ghost b': Build, ghost order: seq<PString>, warned: bool)
    requires Building(mem[..], b) && p == b.At() && p + NC_STATUS <= b.end
    modifies mem
    ensures Visits(order, s.ncActive.Keys)
    ensures b' == b.Then(NcStatusImage(s, order)) && Building(mem[..], b')
    ensures warned <==> |s.ncActive| > CAP
  {
    hide Building, Outside, KvsImage, FlagPairs, Visits;
    ghost var c := Open(mem, p, NC_STATUS, b);
    c, order, warned := AppendFlags(mem, p, s.ncActive, c);
    BuiltZeros(mem[..], c, 1);
    c := c.Then(Zeros(1));
    b' := Close(mem[..], b, c);
    assert c.done == NcStatusImage(s, order);
  }

  method GetNcStatus(mem: array<int>, o: nat) returns (s: NcStatus)
    requires o + NC_STATUS <= mem.Length && WfNcStatus(mem[o..o + NC_STATUS])
    ensures s == DecodeNcStatus(mem[o..o + NC_STATUS])
  {
    SubView(mem[..], o, o + NC_STATUS, 0, KVS);
    assert mem[o..o + NC_STATUS][KVS] == mem[o + KVS];
    var active := GetFlags(mem, o);
    s := NcStatus(active, mem[o + KVS]);
  }

  method GetFlags(mem: array<int>, o: nat) returns (m: map<PString, bool>)
    requires o + KVS <= mem.Length && WfKvs(mem[o..o + KVS])
    ensures m == Fold(Raised(DecodeKvs(mem[o..o + KVS])))
  {
    assert mem[o..o + KVS][KVS - 1] == mem[o + KVS - 1];
    ghost var flags := Raised(DecodeKvs(mem[o..o + KVS]));
    m := map[];
    for i := 0 to mem[o + KVS - 1]
      invariant m == Fold(flags[..i])
    {
      var kv := GetKvAt(mem, o, i);
      m := m[kv.0 := true];
      FoldNext(flags, i);
    }
    assert flags[..|flags|] == flags;
  }

  // ---- the item ----

  function NcImage(n: NetworkConnection, order: seq<PString>): (v: seq<int>)
    requires Visits(order, n.status.GetOr(NO_NC_STATUS).ncActive.Keys)
    ensures |v| == NC
  {
    HeadImage(n.name, n.metadata)
    + [n.maintenance.GetOr(NO_MAINTENANCE).maintenanceReq]
    + NcSpecImage(n.spec.GetOr(NO_NC_SPEC))
    + NcStatusImage(n.status.GetOr(NO_NC_STATUS), order)
  }

  ghost predicate WfNc(v: seq<int>)
    requires |v| == NC
  {
    && WfHead(v[0..HEAD])
    && WfNcSpec(v[NC_SPEC_AT..NC_STATUS_AT])
    && WfNcStatus(v[NC_STATUS_AT..NC])
  }

  function DecodeNc(v: seq<int>): NetworkConnection
    requires |v| == NC && WfNc(v)
  {
    NetworkConnection(
      HeadName(v[0..HEAD]), HeadMeta(v[0..HEAD]), Some(Maintenance(v[HEAD])),
      Some(DecodeNcSpec(v[NC_SPEC_AT..NC_STATUS_AT])), Some(DecodeNcStatus(v[NC_STATUS_AT..NC])))
  }

  ghost predicate CanonNc(v: seq<int>) {
    && |v| == NC
    && CanonHead(v[0..HEAD])
    && CanonNcSpec(v[NC_SPEC_AT..NC_STATUS_AT])
    && CanonKvs(v[NC_STATUS_AT..NC][0..KVS])
  }

  /** A network connection as it comes back from C when `order` was the order its flags were visited in. */
  function NormNc(n: NetworkConnection, order: seq<PString>): NetworkConnection {
    var spec := n.spec.GetOr(NO_NC_SPEC);
    NetworkConnection(
      Cut(n.name), NormMeta(n.metadata), Some(n.maintenance.GetOr(NO_MAINTENANCE)),
      Some(NcSpec(spec.maximumSupportedQuality, NormArm(spec.arm))),
      Some(NcStatus(Fold(NormFlags(order)), 0)))
  }

  function Flags(n: NetworkConnection): map<PString, bool> {
    n.status.GetOr(NO_NC_STATUS).ncActive
  }

  function Arm(n: NetworkConnection): NcArm {
    n.spec.GetOr(NO_NC_SPEC).arm
  }

  /** Proto to C and back is `NormNc`, for every message and every iteration order. */
  lemma NcThere(n: NetworkConnection, order: seq<PString>)
    requires Visits(order, Flags(n).Keys)
    ensures CanonNc(NcImage(n, order)) && WfNc(NcImage(n, order))
    ensures DecodeNc(NcImage(n, order)) == NormNc(n, order)
  {
    hide HeadImage, CanonHead, WfHead, HeadName, HeadMeta, NcSpecImage, CanonNcSpec, WfNcSpec, DecodeNcSpec,
         NcStatusImage, WfNcStatus, DecodeNcStatus, CanonKvs, Visits, NormArm, NormMeta, Fold, NormFlags;
    var v := NcImage(n, order);
    var spec, status := n.spec.GetOr(NO_NC_SPEC), n.status.GetOr(NO_NC_STATUS);
    HeadThere(n.name, n.metadata);
    NcSpecThere(spec);
    NcStatusThere(status, order);
    assert v[0..HEAD] == HeadImage(n.name, n.metadata);
    assert v[NC_SPEC_AT..NC_STATUS_AT] == NcSpecImage(spec);
    assert v[NC_STATUS_AT..NC] == NcStatusImage(status, order);
  }

  /** What becomes of the flags: never more than min(16, n), every key the cut of a source key, all the visited ones
      kept exactly when their cut keys differ; and all of them true. */
  lemma FlagsThere(n: NetworkConnection, order: seq<PString>)
    requires Visits(order, Flags(n).Keys)
    ensures var m, m' := Flags(n), Flags(NormNc(n, order));
            && |m'| <= |order| == (if |m| < CAP then |m| else CAP)
            && (|m'| == |order| <==> NoDup(CutAll(order)))
            && (forall k | k in m' :: k in CutAll(order) && m'[k])
  {
    hide Fold, NoDup;
    CutKeys(order, NormFlags(order));
    forall k | k in Fold(NormFlags(order))
      ensures Fold(NormFlags(order))[k]
    {
      var _ := FoldLast(NormFlags(order), k);
    }
  }

  lemma NormFlagsAgain(order: seq<PString>, order': seq<PString>)
    requires |order| <= CAP && Visits(order', Fold(NormFlags(order)).Keys)
    ensures Fold(NormFlags(order')) == Fold(NormFlags(order))
  {
    hide Fold, NormFlags, Visits;
    var m, m' := Fold(NormFlags(order)), Fold(NormFlags(order'));
    FoldCount(NormFlags(order));
    AllVisited(order', m.Keys);
    forall k | k in m
      ensures k in m' && m'[k] && m[k]
    {
      var i := FoldLast(NormFlags(order), k);
      CutFixed(order[i]);
      var j :| 0 <= j < |order'| && order'[j] == k;
      FoldHas(NormFlags(order'), j);
      var _ := FoldLast(NormFlags(order'), k);
    }
    forall k | k in m'
      ensures k in m
    {
      var j := FoldLast(NormFlags(order'), k);
      OnlyKeys(order', m.Keys, j);
      var i := FoldLast(NormFlags(order), order'[j]);
      CutFixed(order[i]);
    }
  }

  /** Whatever the message and whatever order each pass visits its flags in: the third pass changes nothing, and
      the second changes something only for an ss_mptp without endpoints. */
  lemma NcFixpoint(n: NetworkConnection, o1: seq<PString>, o2: seq<PString>, o3: seq<PString>)
    requires Visits(o1, Flags(n).Keys)
    requires Visits(o2, Flags(NormNc(n, o1)).Keys)
    requires Visits(o3, Flags(NormNc(NormNc(n, o1), o2)).Keys)
    ensures NormNc(NormNc(NormNc(n, o1), o2), o3) == NormNc(NormNc(n, o1), o2)
    ensures NormNc(NormNc(n, o1), o2) != NormNc(n, o1) <==> Arm(n) == SsMptpc([], [])
  {
    hide NormArm, NormMeta, NormFlags, Fold;
    CutFixed(n.name);
    NormMetaTwice(n.metadata);
    NormArmTwice(Arm(n));
    NormFlagsAgain(o1, o2);
    NormFlagsAgain(o2, o3);
  }

  // ---- C to proto to C ----

  ghost predicate AllRaised(kvs: seq<Pair>) {
    forall i | 0 <= i < |kvs| :: kvs[i].1 == [CHAR_1]
  }

  /** The pairs written after the flags went to the proto side and back are the old ones, permuted, exactly when
      every old flag was stored as "1" and no two share a key. */
  lemma FlagsBack(kvs: seq<Pair>, order: seq<PString>)
    requires |kvs| <= CAP && CutKvs(kvs) == kvs
    requires Visits(order, Fold(Raised(kvs)).Keys)
    ensures var ps := FlagPairs(Fold(Raised(kvs)), order);
            && CutKvs(ps) == ps
            && (multiset(ps) == multiset(kvs) <==> AllRaised(kvs) && NoDup(KeysOf(kvs)))
  {
    hide Fold, NoDup, KeysOf;
    var m := Fold(Raised(kvs));
    var ps := FlagPairs(m, order);
    forall i | 0 <= i < |ps|
      ensures ps[i] == (order[i], [CHAR_1]) && CutKvs(ps)[i] == ps[i]
    {
      var j := FoldLast(Raised(kvs), order[i]);
      assert CutKvs(kvs)[j] == kvs[j];
      CutFixed([CHAR_1]);
    }
    if AllRaised(kvs) {
      SameKeys(kvs, Raised(kvs));
      forall i | 0 <= i < |ps|
        ensures ps[i] == Entries(Fold(kvs), order)[i]
      {
        var j := FoldLast(kvs, order[i]);
      }
      assert ps == Entries(Fold(kvs), order);
      PairsBack(kvs, order);
    }
    if multiset(ps) == multiset(kvs) {
      forall i | 0 <= i < |kvs|
        ensures kvs[i].1 == [CHAR_1]
      {
        assert kvs[i] in multiset(kvs);
        assert kvs[i] in ps;
      }
    }
  }

  function StoredFlags(v: seq<int>): seq<int>
    requires |v| == NC
  {
    v[NC_STATUS_AT..NC][0..KVS]
  }

  /** The same record, except that the used entries of `nc_active` may be in another order. */
  ghost predicate SameNc(v: seq<int>, w: seq<int>) {
    && |v| == |w| == NC
    && v[0..NC_STATUS_AT] == w[0..NC_STATUS_AT]
    && SamePairs(StoredFlags(v), StoredFlags(w))
    && v[NC - 1] == w[NC - 1]
  }

  /** What a caller can look at in a record before sending it: one of the four tags, not an ss_mptp without
      endpoints, every flag "1", no two flags with the same key, no allocated shards. */
  ghost predicate Faithful(v: seq<int>)
    requires CanonNc(v)
  {
    && ValidTag(v[NC_SPEC_AT + 1])
    && !EmptyMptp(v[NC_SPEC_AT..NC_STATUS_AT])
    && AllRaised(DecodeKvs(StoredFlags(v)))
    && NoDup(KeysOf(DecodeKvs(StoredFlags(v))))
    && v[NC - 1] == 0
  }

  lemma CanonNcWf(v: seq<int>)
    requires CanonNc(v)
    ensures WfNc(v)
  {
    HeadBack(v[0..HEAD]);
    NcSpecBack(v[NC_SPEC_AT..NC_STATUS_AT]);
    KvsBack(StoredFlags(v));
  }

  lemma StatusBack(w: seq<int>, order: seq<PString>)
    requires |w| == NC_STATUS && CanonKvs(w[0..KVS])
    requires WfNcStatus(w) && Visits(order, DecodeNcStatus(w).ncActive.Keys)
    ensures SamePairs(NcStatusImage(DecodeNcStatus(w), order)[0..KVS], w[0..KVS])
            <==> AllRaised(DecodeKvs(w[0..KVS])) && NoDup(KeysOf(DecodeKvs(w[0..KVS])))
  {
    hide KvsImage, Fold, NoDup, KeysOf, AllRaised;
    var kvs := DecodeKvs(w[0..KVS]);
    KvsBack(w[0..KVS]);
    FlagsBack(kvs, order);
    var ps := FlagPairs(DecodeNcStatus(w).ncActive, order);
    KvsThere(ps);
    assert NcStatusImage(DecodeNcStatus(w), order)[0..KVS] == KvsImage(ps);
  }

  lemma StatusEnd(s: NcStatus, order: seq<PString>)
    requires Visits(order, s.ncActive.Keys)
    ensures NcStatusImage(s, order)[KVS] == 0
  {
  }

  /** A readable record survives C to proto to C, up to the order of its flags, exactly when it is canonical and
      `Faithful`; and that for every order the proto map may be iterated in. */
  lemma NcBack(v: seq<int>, order: seq<PString>)
    requires |v| == NC && WfNc(v) && Visits(order, Flags(DecodeNc(v)).Keys)
    ensures SameNc(NcImage(DecodeNc(v), order), v) <==> CanonNc(v) && Faithful(v)
  {
    var x := NcImage(DecodeNc(v), order);
    NcThere(DecodeNc(v), order);
    if CanonNc(v) {
      CanonNcBack(v, order);
    } else if SameNc(x, v) {
      SameNcCanon(x, v);
    }
  }

  lemma SameNcCanon(x: seq<int>, v: seq<int>)
    requires CanonNc(x) && SameNc(x, v)
    ensures CanonNc(v)
  {
    hide CanonHead, CanonNcSpec, CanonKvs, DecodeKvs;
    SubView(x, 0, NC_STATUS_AT, 0, HEAD);
    SubView(v, 0, NC_STATUS_AT, 0, HEAD);
    SubView(x, 0, NC_STATUS_AT, NC_SPEC_AT, NC_STATUS_AT);
    SubView(v, 0, NC_STATUS_AT, NC_SPEC_AT, NC_STATUS_AT);
  }

  lemma CanonNcBack(v: seq<int>, order: seq<PString>)
    requires CanonNc(v) && WfNc(v) && Visits(order, Flags(DecodeNc(v)).Keys)
    ensures SameNc(NcImage(DecodeNc(v), order), v) <==> Faithful(v)
  {
    hide HeadImage, CanonHead, WfHead, HeadName, HeadMeta, NcSpecImage, CanonNcSpec, WfNcSpec, DecodeNcSpec,
         NcStatusImage, WfNcStatus, DecodeNcStatus, CanonKvs, DecodeKvs, Visits, Fold, NoDup, KeysOf, AllRaised,
         EmptyMptp, SamePairs;
    var h, s, w := v[0..HEAD], v[NC_SPEC_AT..NC_STATUS_AT], v[NC_STATUS_AT..NC];
    var n := DecodeNc(v);
    var x := NcImage(n, order);
    HeadBack(h);
    NcSpecBack(s);
    StatusBack(w, order);
    assert x[NC_STATUS_AT..NC] == NcStatusImage(DecodeNcStatus(w), order);
    StatusEnd(DecodeNcStatus(w), order);
    assert x[NC - 1] == x[NC_STATUS_AT..NC][KVS];
    assert x[0..NC_STATUS_AT] == h + [v[HEAD]] + NcSpecImage(DecodeNcSpec(s));
    assert v[0..NC_STATUS_AT] == h + [v[HEAD]] + s;
    assert x[0..NC_STATUS_AT][NC_SPEC_AT..] == NcSpecImage(DecodeNcSpec(s));
    assert v[0..NC_STATUS_AT][NC_SPEC_AT..] == s;
  }

  // ---- the overloads ----

  method PutNc(mem: array<int>, o: nat, n: NetworkConnection) returns (ghost order: seq<PString>)
    requires o + NC <= mem.Length
    modifies mem
    ensures Visits(order, Flags(n).Keys)
    ensures mem[o..o + NC] == NcImage(n, order)
    ensures Outside(old(mem[..]), mem[..], o, o + NC)
  {
    hide Building, Outside, HeadImage, NcSpecImage, NcStatusImage, Visits;
    ghost var b := Clear(mem, o, NC);
    b := AppendHead(mem, o, n.name, n.metadata, b);
    b := Append(mem, o + HEAD, n.maintenance.GetOr(NO_MAINTENANCE).maintenanceReq, b);
    ghost var m := mem[..];
    ClearNext(m, b, NC_SPEC);
    var warnings := PutNcSpec(mem, o + NC_SPEC_AT, n.spec.GetOr(NO_NC_SPEC));
    Built(m, mem[..], b, NcSpecImage(n.spec.GetOr(NO_NC_SPEC)));
    b := b.Then(NcSpecImage(n.spec.GetOr(NO_NC_SPEC)));
    var warned;
    b, order, warned := AppendNcStatus(mem, o + NC_STATUS_AT, n.status.GetOr(NO_NC_STATUS), b);
    Finish(mem[..], b);
  }

  method GetNc(mem: array<int>, o: nat) returns (n: NetworkConnection)
    requires o + NC <= mem.Length && WfNc(mem[o..o + NC])
    ensures n == DecodeNc(mem[o..o + NC])
  {
    hide WfHead, WfNcSpec, WfNcStatus, HeadName, HeadMeta, DecodeNcSpec, DecodeNcStatus;
    SubView(mem[..], o, o + NC, 0, HEAD);
    SubView(mem[..], o, o + NC, NC_SPEC_AT, NC_STATUS_AT);
    SubView(mem[..], o, o + NC, NC_STATUS_AT, NC);
    assert mem[o..o + NC][HEAD] == mem[o + HEAD];
    var name, metadata := GetHead(mem, o);
    var spec, _ := GetNcSpec(mem, o + NC_SPEC_AT);
    var status := GetNcStatus(mem, o + NC_STATUS_AT);
    n := NetworkConnection(name, metadata, Some(Maintenance(mem[o + HEAD])), Some(spec), Some(status));
  }
}
