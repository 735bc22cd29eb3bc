/** The shard: lists of strings, a map of strings, and an open enum. */
module Shards {
  import opened Cells
  import opened CStrings
  import opened Messages
  import opened Heads
  import opened KeyValues

  /** service_gateway_user_plane, network_connection and its size. */
  const DESIRED: nat := 1106
  /** max_session_count, virtual_mac, desired_state, prefix and its size. */
  const SHARD_SPEC: nat := 2213
  const DESIRED_AT: nat := 66
  const PREFIX_AT: nat := 1172
  /** service_gateway_user_plane, tsf_network_connection and its size. */
  const CURRENT: nat := 2146
  /** allocated_session_count, maximum_allocated_quality, service_groups_supported and its size, current_state. */
  const SHARD_STATUS: nat := 3189
  const CURRENT_AT: nat := 1043
  /** name, metadata, spec, status, mbb. */
  const SHARD: nat := 5534
  const SHARD_STATUS_AT: nat := 2344
  const MBB_AT: nat := 5533

  // ---- spec ----

  function DesiredImage(d: ShardDesired): (v: seq<int>)
    ensures |v| == DESIRED
  {
    StrImage(d.serviceGatewayUserPlane) + StrsImage(d.networkConnection)
  }

  function ShardSpecImage(s: ShardSpec): (v: seq<int>)
    ensures |v| == SHARD_SPEC
  {
    [s.maxSessionCount] + StrImage(s.virtualMac) + DesiredImage(s.desiredState.GetOr(NO_SHARD_DESIRED))
    + StrsImage(s.prefix)
  }

  ghost predicate WfDesired(v: seq<int>)
    requires |v| == DESIRED
  {
    Terminated(v[0..STR]) && WfStrs(v[STR..DESIRED])
  }

  function DecodeDesired(v: seq<int>): ShardDesired
    requires |v| == DESIRED && WfDesired(v)
  {
    ShardDesired(CStr(v[0..STR]), DecodeStrs(v[STR..DESIRED]))
  }

  ghost predicate WfShardSpec(v: seq<int>)
    requires |v| == SHARD_SPEC
  {
    Terminated(v[1..DESIRED_AT]) && WfDesired(v[DESIRED_AT..PREFIX_AT]) && WfStrs(v[PREFIX_AT..SHARD_SPEC])
  }

  function DecodeShardSpec(v: seq<int>): ShardSpec
    requires |v| == SHARD_SPEC && WfShardSpec(v)
  {
    ShardSpec(
      v[0], CStr(v[1..DESIRED_AT]), Some(DecodeDesired(v[DESIRED_AT..PREFIX_AT])),
      DecodeStrs(v[PREFIX_AT..SHARD_SPEC]))
  }

  ghost predicate CanonDesired(v: seq<int>) {
    |v| == DESIRED && CanonStr(v[0..STR]) && CanonStrs(v[STR..DESIRED])
  }

  ghost predicate CanonShardSpec(v: seq<int>) {
    && |v| == SHARD_SPEC
    && CanonStr(v[1..DESIRED_AT])
    && CanonDesired(v[DESIRED_AT..PREFIX_AT])
    && CanonStrs(v[PREFIX_AT..SHARD_SPEC])
  }

  function NormDesired(d: ShardDesired): ShardDesired {
    ShardDesired(Cut(d.serviceGatewayUserPlane), NormStrs(d.networkConnection))
  }

  function NormShardSpec(s: ShardSpec): ShardSpec {
    ShardSpec(
      s.maxSessionCount, Cut(s.virtualMac), Some(NormDesired(s.desiredState.GetOr(NO_SHARD_DESIRED))),
      NormStrs(s.prefix))
  }

  lemma DesiredThere(d: ShardDesired)
    ensures CanonDesired(DesiredImage(d)) && WfDesired(DesiredImage(d))
    ensures DecodeDesired(DesiredImage(d)) == NormDesired(d)
  {
    hide StrImage, StrsImage, CanonStr, CanonStrs, WfStrs, Terminated, CStr, DecodeStrs;
    var v := DesiredImage(d);
    StrThere(d.serviceGatewayUserPlane);
    StrsThere(d.networkConnection);
    assert v[0..STR] == StrImage(d.serviceGatewayUserPlane) && v[STR..DESIRED] == StrsImage(d.networkConnection);
  }

  lemma ShardSpecThere(s: ShardSpec)
    ensures CanonShardSpec(ShardSpecImage(s)) && WfShardSpec(ShardSpecImage(s))
    ensures DecodeShardSpec(ShardSpecImage(s)) == NormShardSpec(s)
  {
    hide StrImage, StrsImage, CanonStr, CanonStrs, WfStrs, Terminated, CStr, DecodeStrs, DesiredImage, CanonDesired,
         WfDesired, DecodeDesired, NormDesired;
    var v, d := ShardSpecImage(s), s.desiredState.GetOr(NO_SHARD_DESIRED);
    StrThere(s.virtualMac);
    DesiredThere(d);
    StrsThere(s.prefix);
    assert v[1..DESIRED_AT] == StrImage(s.virtualMac);
    assert v[DESIRED_AT..PREFIX_AT] == DesiredImage(d);
    assert v[PREFIX_AT..SHARD_SPEC] == StrsImage(s.prefix);
  }

  lemma ShardSpecBack(v: seq<int>)
    requires CanonShardSpec(v)
    ensures WfShardSpec(v) && ShardSpecImage(DecodeShardSpec(v)) == v
  {
    hide StrImage, StrsImage, CanonStr, CanonStrs, WfStrs, Terminated, CStr, DecodeStrs;
    var d := v[DESIRED_AT..PREFIX_AT];
    StrBack(v[1..DESIRED_AT]);
    StrBack(d[0..STR]);
    StrsBack(d[STR..DESIRED]);
    StrsBack(v[PREFIX_AT..SHARD_SPEC]);
    assert d == d[0..STR] + d[STR..DESIRED];
    assert v == [v[0]] + v[1..DESIRED_AT] + d + v[PREFIX_AT..SHARD_SPEC];
  }

  // ---- status ----

  function CurrentImage(c: ShardCurrent, order: seq<PString>): (v: seq<int>)
    requires Visits(order, c.tsfNetworkConnection.Keys)
    ensures |v| == CURRENT
  {
    StrImage(c.serviceGatewayUserPlane) + KvsImage(Entries(c.tsfNetworkConnection, order))
  }

  function ShardStatusImage(s: ShardStatus, order: seq<PString>): (v: seq<int>)
    requires Visits(order, s.currentState.GetOr(NO_SHARD_CURRENT).tsfNetworkConnection.Keys)
    ensures |v| == SHARD_STATUS
  {
    [s.allocatedSessionCount] + [s.maximumAllocatedQuality] + StrsImage(s.serviceGroupsSupported)
    + CurrentImage(s.currentState.GetOr(NO_SHARD_CURRENT), order)
  }

  ghost predicate WfCurrent(v: seq<int>)
    requires |v| == CURRENT
  {
    Terminated(v[0..STR]) && WfKvs(v[STR..CURRENT])
  }

  function DecodeCurrent(v: seq<int>): ShardCurrent
    requires |v| == CURRENT && WfCurrent(v)
  {
    ShardCurrent(CStr(v[0..STR]), Fold(DecodeKvs(v[STR..CURRENT])))
  }

  ghost predicate WfShardStatus(v: seq<int>)
    requires |v| == SHARD_STATUS
  {
    WfStrs(v[2..CURRENT_AT]) && WfCurrent(v[CURRENT_AT..SHARD_STATUS])
  }

  function DecodeShardStatus(v: seq<int>): ShardStatus
    requires |v| == SHARD_STATUS && WfShardStatus(v)
  {
    ShardStatus(v[0], v[1], DecodeStrs(v[2..CURRENT_AT]), Some(DecodeCurrent(v[CURRENT_AT..SHARD_STATUS])))
  }

  ghost predicate CanonCurrent(v: seq<int>) {
    |v| == CURRENT && CanonStr(v[0..STR]) && CanonKvs(v[STR..CURRENT])
  }

  ghost predicate CanonShardStatus(v: seq<int>) {
    |v| == SHARD_STATUS && CanonStrs(v[2..CURRENT_AT]) && CanonCurrent(v[CURRENT_AT..SHARD_STATUS])
  }

  /** The current state as it comes back: cut pairs inserted in the order visited. */
  function NormCurrent(c: ShardCurrent, order: seq<PString>): ShardCurrent
    requires Visits(order, c.tsfNetworkConnection.Keys)
  {
    ShardCurrent(Cut(c.serviceGatewayUserPlane), Fold(CutKvs(Entries(c.tsfNetworkConnection, order))))
  }

  function NormShardStatus(s: ShardStatus, order: seq<PString>): ShardStatus
    requires Visits(order, s.currentState.GetOr(NO_SHARD_CURRENT).tsfNetworkConnection.Keys)
  {
    ShardStatus(
      s.allocatedSessionCount, s.maximumAllocatedQuality, NormStrs(s.serviceGroupsSupported),
      Some(NormCurrent(s.currentState.GetOr(NO_SHARD_CURRENT), order)))
  }

  lemma CurrentThere(c: ShardCurrent, order: seq<PString>)
    requires Visits(order, c.tsfNetworkConnection.Keys)
    ensures CanonCurrent(CurrentImage(c, order)) && WfCurrent(CurrentImage(c, order))
    ensures DecodeCurrent(CurrentImage(c, order)) == NormCurrent(c, order)
  {
    hide StrImage, KvsImage, CanonStr, Terminated, CStr, Fold, CanonKvs, WfKvs;
    var v, kvs := CurrentImage(c, order), Entries(c.tsfNetworkConnection, order);
    StrThere(c.serviceGatewayUserPlane);
    KvsThere(kvs);
    assert v[0..STR] == StrImage(c.serviceGatewayUserPlane) && v[STR..CURRENT] == KvsImage(kvs);
  }

  lemma ShardStatusThere(s: ShardStatus, order: seq<PString>)
    requires Visits(order, s.currentState.GetOr(NO_SHARD_CURRENT).tsfNetworkConnection.Keys)
    ensures CanonShardStatus(ShardStatusImage(s, order)) && WfShardStatus(ShardStatusImage(s, order))
    ensures DecodeShardStatus(ShardStatusImage(s, order)) == NormShardStatus(s, order)
  {
    hide StrsImage, CanonStrs, WfStrs, DecodeStrs, CurrentImage, CanonCurrent, WfCurrent, DecodeCurrent, NormCurrent,
         Visits;
    var v, c := ShardStatusImage(s, order), s.currentState.GetOr(NO_SHARD_CURRENT);
    StrsThere(s.serviceGroupsSupported);
    CurrentThere(c, order);
    assert v[2..CURRENT_AT] == StrsImage(s.serviceGroupsSupported);
    assert v[CURRENT_AT..SHARD_STATUS] == CurrentImage(c, order);
  }

  // ---- the item ----

  function Tsfs(s: Shard): map<PString, PString> {
    s.status.GetOr(NO_SHARD_STATUS).currentState.GetOr(NO_SHARD_CURRENT).tsfNetworkConnection
  }

  function ShardImage(s: Shard, order: seq<PString>): (v: seq<int>)
    requires Visits(order, Tsfs(s).Keys)
    ensures |v| == SHARD
  {
    HeadImage(s.name, s.metadata)
    + ShardSpecImage(s.spec.GetOr(NO_SHARD_SPEC))
    + ShardStatusImage(s.status.GetOr(NO_SHARD_STATUS), order)
    + [s.mbb.GetOr(NO_MBB).mbbState]
  }

  ghost predicate WfShard(v: seq<int>)
    requires |v| == SHARD
  {
    WfHead(v[0..HEAD]) && WfShardSpec(v[HEAD..SHARD_STATUS_AT]) && WfShardStatus(v[SHARD_STATUS_AT..MBB_AT])
  }

  function DecodeShard(v: seq<int>): Shard
    requires |v| == SHARD && WfShard(v)
  {
    Shard(
      HeadName(v[0..HEAD]), HeadMeta(v[0..HEAD]), Some(DecodeShardSpec(v[HEAD..SHARD_STATUS_AT])),
      Some(DecodeShardStatus(v[SHARD_STATUS_AT..MBB_AT])), Some(Mbb(v[MBB_AT])))
  }

  ghost predicate CanonShard(v: seq<int>) {
    && |v| == SHARD
    && CanonHead(v[0..HEAD])
    && CanonShardSpec(v[HEAD..SHARD_STATUS_AT])
    && CanonShardStatus(v[SHARD_STATUS_AT..MBB_AT])
  }

  /** A shard as it comes back from C when `order` was the order its map was visited in. */
  function NormShard(s: Shard, order: seq<PString>): Shard
    requires Visits(order, Tsfs(s).Keys)
  {
    Shard(
      Cut(s.name), NormMeta(s.metadata), Some(NormShardSpec(s.spec.GetOr(NO_SHARD_SPEC))),
      Some(NormShardStatus(s.status.GetOr(NO_SHARD_STATUS), order)), Some(s.mbb.GetOr(NO_MBB)))
  }

  /** Proto to C and back is `NormShard`, for every message and every iteration order. */
  lemma ShardThere(s: Shard, order: seq<PString>)
    requires Visits(order, Tsfs(s).Keys)
    ensures CanonShard(ShardImage(s, order)) && WfShard(ShardImage(s, order))
    ensures DecodeShard(ShardImage(s, order)) == NormShard(s, order)
  {
    hide HeadImage, CanonHead, WfHead, HeadName, HeadMeta, ShardSpecImage, CanonShardSpec, WfShardSpec,
         DecodeShardSpec, ShardStatusImage, CanonShardStatus, WfShardStatus, DecodeShardStatus, NormMeta,
         NormShardSpec, NormShardStatus, Visits;
    var v := ShardImage(s, order);
    var spec, status := s.spec.GetOr(NO_SHARD_SPEC), s.status.GetOr(NO_SHARD_STATUS);
    HeadThere(s.name, s.metadata);
    ShardSpecThere(spec);
    ShardStatusThere(status, order);
    assert v[0..HEAD] == HeadImage(s.name, s.metadata);
    assert v[HEAD..SHARD_STATUS_AT] == ShardSpecImage(spec);
    assert v[SHARD_STATUS_AT..MBB_AT] == ShardStatusImage(status, order);
  }

  /** What becomes of the map: never more than min(16, n) entries, every key the cut of a source key, all the
      visited entries kept exactly when their cut keys differ, and otherwise the latest visited wins. */
  lemma TsfsThere(s: Shard, order: seq<PString>)
    requires Visits(order, Tsfs(s).Keys)
    ensures var m, m' := Tsfs(s), Tsfs(NormShard(s, order));
            && |m'| <= |order| == (if |m| < CAP then |m| else CAP)
            && (|m'| == |order| <==> NoDup(CutAll(order)))
            && (forall k | k in m' :: k in CutAll(order))
            && (forall i | 0 <= i < |order| && Cut(order[i]) !in CutAll(order)[i + 1..] ::
                  Cut(order[i]) in m' && m'[Cut(order[i])] == Cut(m[order[i]]))
  {
    hide Fold, NoDup;
    CutKeys(order, CutKvs(Entries(Tsfs(s), order)));
  }

  // ---- C to proto to C ----

  function StoredTsfs(v: seq<int>): seq<int>
    requires |v| == SHARD
  {
    v[SHARD_STATUS_AT..MBB_AT][CURRENT_AT..SHARD_STATUS][STR..CURRENT]
  }

  /** The same record, except that the used entries of `tsf_network_connection` may be in another order. */
  ghost predicate SameShard(v: seq<int>, w: seq<int>) {
    && |v| == |w| == SHARD
    && v[0..SHARD_STATUS_AT + CURRENT_AT + STR] == w[0..SHARD_STATUS_AT + CURRENT_AT + STR]
    && SamePairs(StoredTsfs(v), StoredTsfs(w))
    && v[MBB_AT] == w[MBB_AT]
  }

  /** The pairs of the current state come back, permuted, exactly when no two of them share a key. */
  lemma CurrentBack(w: seq<int>, order: seq<PString>)
    requires CanonCurrent(w) && WfCurrent(w)
    requires Visits(order, DecodeCurrent(w).tsfNetworkConnection.Keys)
    ensures var x := CurrentImage(DecodeCurrent(w), order);
            && x[0..STR] == w[0..STR]
            && (SamePairs(x[STR..CURRENT], w[STR..CURRENT]) <==> NoDup(KeysOf(DecodeKvs(w[STR..CURRENT]))))
  {
    hide Fold, NoDup, KeysOf, StrImage, CanonStr, Terminated, CStr;
    var kvs := DecodeKvs(w[STR..CURRENT]);
    var es := Entries(Fold(kvs), order);
    var x := CurrentImage(DecodeCurrent(w), order);
    StrBack(w[0..STR]);
    KvsBack(w[STR..CURRENT]);
    KvsThere(es);
    EntriesFit(kvs, order);
    PairsBack(kvs, order);
    assert x[0..STR] == StrImage(DecodeCurrent(w).serviceGatewayUserPlane);
    assert x[STR..CURRENT] == KvsImage(es);
  }

  lemma EntriesFit(kvs: seq<Pair>, order: seq<PString>)
    requires CutKvs(kvs) == kvs && Visits(order, Fold(kvs).Keys)
    ensures CutKvs(Entries(Fold(kvs), order)) == Entries(Fold(kvs), order)
  {
    hide Fold;
    forall i | 0 <= i < |order|
      ensures Cut(order[i]) == order[i] && Cut(Fold(kvs)[order[i]]) == Fold(kvs)[order[i]]
    {
      var j := FoldLast(kvs, order[i]);
      assert CutKvs(kvs)[j] == kvs[j];
    }
  }

  lemma CanonShardWf(v: seq<int>)
    requires CanonShard(v)
    ensures WfShard(v) && CanonKvs(StoredTsfs(v))
  {
    hide HeadImage, HeadName, HeadMeta, ShardSpecImage, DecodeShardSpec, CanonStr, Terminated, CanonStrs, WfStrs,
         CanonKvs, WfKvs, CanonShardSpec, WfShardSpec, CanonHead, WfHead;
    HeadBack(v[0..HEAD]);
    ShardSpecBack(v[HEAD..SHARD_STATUS_AT]);
    var s := v[SHARD_STATUS_AT..MBB_AT];
    StrsBack(s[2..CURRENT_AT]);
    StrBack(s[CURRENT_AT..SHARD_STATUS][0..STR]);
    KvsBack(s[CURRENT_AT..SHARD_STATUS][STR..CURRENT]);
  }

  /** A readable shard survives C to proto to C, up to the order of its map, exactly when it is canonical and no two
      entries of its map share a key; and that in whatever order the proto map is iterated and whatever value its open
      enum has. */
  lemma ShardBack(v: seq<int>, order: seq<PString>)
    requires |v| == SHARD && WfShard(v) && Visits(order, Tsfs(DecodeShard(v)).Keys)
    ensures SameShard(ShardImage(DecodeShard(v), order), v) <==>
              CanonShard(v) && NoDup(KeysOf(DecodeKvs(StoredTsfs(v))))
  {
    var x := ShardImage(DecodeShard(v), order);
    ShardThere(DecodeShard(v), order);
    if CanonShard(v) {
      CanonShardBack(v, order);
    } else if SameShard(x, v) {
      SameShardCanon(x, v);
    }
  }

  lemma SameShardCanon(x: seq<int>, v: seq<int>)
    requires CanonShard(x) && SameShard(x, v)
    ensures CanonShard(v)
  {
    hide CanonStr, CanonStrs, CanonKvs, CanonHead, CanonShardSpec;
    SameRun(x, v, 0, HEAD);
    SameRun(x, v, HEAD, SHARD_STATUS_AT);
    SameRun(x, v, SHARD_STATUS_AT + 2, SHARD_STATUS_AT + CURRENT_AT);
    SameRun(x, v, SHARD_STATUS_AT + CURRENT_AT, SHARD_STATUS_AT + CURRENT_AT + STR);
    StatusRuns(x);
    StatusRuns(v);
  }

  lemma SameRun(x: seq<int>, v: seq<int>, a: nat, b: nat)
    requires |x| == |v| == SHARD && a <= b <= SHARD_STATUS_AT + CURRENT_AT + STR
    requires v[0..SHARD_STATUS_AT + CURRENT_AT + STR] == x[0..SHARD_STATUS_AT + CURRENT_AT + STR]
    ensures v[a..b] == x[a..b]
  {
    SubView(x, 0, SHARD_STATUS_AT + CURRENT_AT + STR, a, b);
    SubView(v, 0, SHARD_STATUS_AT + CURRENT_AT + STR, a, b);
  }

  lemma StatusRuns(v: seq<int>)
    requires |v| == SHARD
    ensures var s := v[SHARD_STATUS_AT..MBB_AT];
            && s[2..CURRENT_AT] == v[SHARD_STATUS_AT + 2..SHARD_STATUS_AT + CURRENT_AT]
            && s[CURRENT_AT..SHARD_STATUS][0..STR] ==
               v[SHARD_STATUS_AT + CURRENT_AT..SHARD_STATUS_AT + CURRENT_AT + STR]
  {
    SubView(v, SHARD_STATUS_AT, MBB_AT, 2, CURRENT_AT);
    SubView(v, SHARD_STATUS_AT, MBB_AT, CURRENT_AT, CURRENT_AT + STR);
    SubView(v[SHARD_STATUS_AT..MBB_AT], CURRENT_AT, SHARD_STATUS, 0, STR);
  }

  lemma CanonShardBack(v: seq<int>, order: seq<PString>)
    requires CanonShard(v) && WfShard(v) && Visits(order, Tsfs(DecodeShard(v)).Keys)
    ensures SameShard(ShardImage(DecodeShard(v), order), v) <==> NoDup(KeysOf(DecodeKvs(StoredTsfs(v))))
  {
    hide HeadImage, CanonHead, WfHead, HeadName, HeadMeta, ShardSpecImage, CanonShardSpec, WfShardSpec,
         DecodeShardSpec, CurrentImage, CanonCurrent, WfCurrent, DecodeCurrent, StrsImage, CanonStrs, WfStrs,
         DecodeStrs, Visits, Fold, NoDup, KeysOf, DecodeKvs, SamePairs;
    var h, p, s := v[0..HEAD], v[HEAD..SHARD_STATUS_AT], v[SHARD_STATUS_AT..MBB_AT];
    var c := s[CURRENT_AT..SHARD_STATUS];
    HeadBack(h);
    ShardSpecBack(p);
    StrsBack(s[2..CURRENT_AT]);
    CurrentBack(c, order);
    var y := CurrentImage(DecodeCurrent(c), order);
    var x := ShardImage(DecodeShard(v), order);
    var front := h + p + [s[0]] + [s[1]] + s[2..CURRENT_AT];
    assert x == front + y + [v[MBB_AT]];
    assert v == front + c + [v[MBB_AT]];
    assert x[SHARD_STATUS_AT..MBB_AT][CURRENT_AT..SHARD_STATUS] == y;
    Prefixes(front, y, c, v[MBB_AT]);
  }

  lemma Prefixes(front: seq<int>, y: seq<int>, c: seq<int>, last: int)
    requires |front| == SHARD_STATUS_AT + CURRENT_AT && |y| == |c| == CURRENT && y[0..STR] == c[0..STR]
    ensures (front + y + [last])[0..|front| + STR] == (front + c + [last])[0..|front| + STR]
  {
    assert (front + y + [last])[0..|front| + STR] == front + y[0..STR];
    assert (front + c + [last])[0..|front| + STR] == front + c[0..STR];
  }

  lemma ShardTwice(s: Shard, o1: seq<PString>, o2: seq<PString>)
    requires Visits(o1, Tsfs(s).Keys) && Visits(o2, Tsfs(NormShard(s, o1)).Keys)
    ensures NormShard(NormShard(s, o1), o2) == NormShard(s, o1)
  {
    hide Fold, NormStrs, NormMeta, Visits;
    var spec, status := s.spec.GetOr(NO_SHARD_SPEC), s.status.GetOr(NO_SHARD_STATUS);
    var desired, current := spec.desiredState.GetOr(NO_SHARD_DESIRED), status.currentState.GetOr(NO_SHARD_CURRENT);
    CutFixed(s.name);
    NormMetaTwice(s.metadata);
    CutFixed(spec.virtualMac);
    CutFixed(desired.serviceGatewayUserPlane);
    NormStrsTwice(desired.networkConnection);
    NormStrsTwice(spec.prefix);
    NormStrsTwice(status.serviceGroupsSupported);
    CutFixed(current.serviceGatewayUserPlane);
    TsfsTwice(Tsfs(s), o1, o2);
  }

  lemma TsfsTwice(m: map<PString, PString>, o1: seq<PString>, o2: seq<PString>)
    requires Visits(o1, m.Keys) && Visits(o2, Fold(CutKvs(Entries(m, o1))).Keys)
    ensures Fold(CutKvs(Entries(Fold(CutKvs(Entries(m, o1))), o2))) == Fold(CutKvs(Entries(m, o1)))
  {
    hide Fold, NoDup;
    var kvs := CutKvs(Entries(m, o1));
    forall i | 0 <= i < |kvs|
      ensures CutKvs(kvs)[i] == kvs[i]
    {
      CutFixed(o1[i]);
      CutFixed(m[o1[i]]);
    }
    FoldCount(kvs);
    EntriesFit(kvs, o2);
    FoldAgain(Fold(kvs), o2);
  }

  // ---- the overloads ----

  method AppendDesired(mem: array<int>, p: nat, d: ShardDesired, ghost b: Build)
    returns (ghost b': Build, warned: bool)
    requires Building(mem[..], b) && p == b.At() && p + DESIRED <= b.end
    modifies mem
    ensures b' == b.Then(DesiredImage(d)) && Building(mem[..], b')
    ensures warned <==> Take(d.networkConnection) != d.networkConnection
  {
    hide Building, Outside, StrImage, StrsImage;
    ghost var c := Open(mem, p, DESIRED, b);
    c := AppendString(mem, p, d.serviceGatewayUserPlane, c);
    c, warned := AppendStrings(mem, p + STR, d.networkConnection, c);
    b' := Close(mem[..], b, c);
  }

  method AppendShardSpec(mem: array<int>, p: nat, s: ShardSpec, ghost b: Build)
    returns (ghost b': Build, warned: bool)
    requires Building(mem[..], b) && p == b.At() && p + SHARD_SPEC <= b.end
    modifies mem
    ensures b' == b.Then(ShardSpecImage(s)) && Building(mem[..], b')
    ensures warned <==> Take(s.prefix) != s.prefix
  {
    hide Building, Outside, StrImage, StrsImage, DesiredImage;
    ghost var c := Open(mem, p, SHARD_SPEC, b);
    c := Append(mem, p, s.maxSessionCount, c);
    c := AppendString(mem, p + 1, s.virtualMac, c);
    c, warned := AppendDesired(mem, p + DESIRED_AT, s.desiredState.GetOr(NO_SHARD_DESIRED), c);
    c, warned := AppendStrings(mem, p + PREFIX_AT, s.prefix, c);
    b' := Close(mem[..], b, c);
  }

  lemma EntriesPush(m: map<PString, PString>, order: seq<PString>, k: PString)
    requires (forall i | 0 <= i < |order| :: order[i] in m) && k in m
    ensures Entries(m, order + [k]) == Entries(m, order) + [(k, m[k])]
  {
  }

  /** Fills the array while it iterates over the map, in the order the map happens to have. */
  method AppendTsfs(mem: array<int>, p: nat, m: map<PString, PString>, ghost b: Build)
    returns (ghost b': Build, ghost order: seq<PString>, warned: bool)
    requires Building(mem[..], b) && p == b.At() && p + KVS <= b.end
    modifies mem
    ensures Visits(order, m.Keys)
    ensures b' == b.Then(KvsImage(Entries(m, order))) && Building(mem[..], b')
    ensures warned <==> |m| > CAP
  {
    hide Building, Outside, KvImage, Entries, Visiting, ArrayImage, KvSlots;
    ghost var m0, kvs := mem[..], Entries(m, []);
    ClearNext(m0, b, KVS);
    OutsideNone(m0, p + KVS - 1, p + KVS);
    ghost var c := BeginSlots(m0, m0, p, p + KVS - 1);
    assert KvSlots(kvs) == [];
    order := [];
    var rest, i := m.Keys, 0;
    VisitNone(m.Keys);
    while rest != {}
      invariant i == |order| < CAP && Visiting(order, m.Keys, rest)
      invariant (forall j | 0 <= j < i :: order[j] in m) && kvs == Entries(m, order)
      invariant Building(mem[..], c) && c == Build(m0, p, p + KVS - 1, Flat(KvSlots(kvs)))
      decreases |rest|
    {
      var k :| k in rest;
      VisitNext(order, m.Keys, rest, k);
      EntriesPush(m, order, k);
      KvSlotsPush(kvs, (k, m[k]));
      c := AppendKv(mem, p + i * KV, k, m[k], c);
      rest, order, kvs := rest - {k}, order + [k], kvs + [(k, m[k])];
      i := i + 1;
      if i == CAP {
        break;
      }
    }
    VisitsFrom(order, m.Keys, rest);
    b' := AppendSize(mem, p + KVS - 1, i, KvSlots(kvs), KV, c, b);
    warned := i < |m|;
  }

  method AppendCurrent(mem: array<int>, p: nat, s: ShardCurrent, ghost b: Build)
    returns (ghost b': Build, ghost order: seq<PString>, warned: bool)
    requires Building(mem[..], b) && p == b.At() && p + CURRENT <= b.end
    modifies mem
    ensures Visits(order, s.tsfNetworkConnection.Keys)
    ensures b' == b.Then(CurrentImage(s, order)) && Building(mem[..], b')
    ensures warned <==> |s.tsfNetworkConnection| > CAP
  {
    hide Building, Outside, StrImage, KvsImage, Visits, Entries;
    ghost var c := Open(mem, p, CURRENT, b);
    c := AppendString(mem, p, s.serviceGatewayUserPlane, c);
    c, order, warned := AppendTsfs(mem, p + STR, s.tsfNetworkConnection, c);
    b' := Close(mem[..], b, c);
  }

  method AppendShardStatus(mem: array<int>, p: nat, s: ShardStatus, ghost b: Build)
    returns (ghost b': Build, ghost order: seq<PString>, warned: bool)
    requires Building(mem[..], b) && p == b.At() && p + SHARD_STATUS <= b.end
    modifies mem
    ensures Visits(order, s.currentState.GetOr(NO_SHARD_CURRENT).tsfNetworkConnection.Keys)
    ensures b' == b.Then(ShardStatusImage(s, order)) && Building(mem[..], b')
    ensures warned <==> Take(s.serviceGroupsSupported) != s.serviceGroupsSupported
  {
    hide Building, Outside, StrsImage, CurrentImage, Visits;
    ghost var c := Open(mem, p, SHARD_STATUS, b);
    c := Append(mem, p, s.allocatedSessionCount, c);
    c := Append(mem, p + 1, s.maximumAllocatedQuality, c);
    c, warned := AppendStrings(mem, p + 2, s.serviceGroupsSupported, c);
    var inner;
    c, order, inner := AppendCurrent(mem, p + CURRENT_AT, s.currentState.GetOr(NO_SHARD_CURRENT), c);
    b' := Close(mem[..], b, c);
  }

  method AppendMbb(mem: array<int>, p: nat, s: Mbb, ghost b: Build) returns (ghost b': Build)
    requires Building(mem[..], b) && p == b.At() && p + 1 <= b.end
    modifies mem
    ensures b' == b.Then([s.mbbState]) && Building(mem[..], b')
  {
    hide Building, Outside;
    ghost var c := Open(mem, p, 1, b);
    c := Append(mem, p, s.mbbState, c);
    b' := Close(mem[..], b, c);
  }

  method PutShard(mem: array<int>, o: nat, s: Shard) returns (ghost order: seq<PString>)
    requires o + SHARD <= mem.Length
    modifies mem
    ensures Visits(order, Tsfs(s).Keys)
    ensures mem[o..o + SHARD] == ShardImage(s, order)
    ensures Outside(old(mem[..]), mem[..], o, o + SHARD)
  {
    hide Building, Outside, HeadImage, ShardSpecImage, ShardStatusImage, Visits;
    ghost var b := Clear(mem, o, SHARD);
    var warned;
    b := AppendHead(mem, o, s.name, s.metadata, b);
    b, warned := AppendShardSpec(mem, o + HEAD, s.spec.GetOr(NO_SHARD_SPEC), b);
    b, order, warned := AppendShardStatus(mem, o + SHARD_STATUS_AT, s.status.GetOr(NO_SHARD_STATUS), b);
    b := AppendMbb(mem, o + MBB_AT, s.mbb.GetOr(NO_MBB), b);
    Finish(mem[..], b);
  }

  method GetDesired(mem: array<int>, o: nat) returns (d: ShardDesired)
    requires o + DESIRED <= mem.Length && WfDesired(mem[o..o + DESIRED])
    ensures d == DecodeDesired(mem[o..o + DESIRED])
  {
    hide Terminated, WfStrs, CStr, DecodeStrs;
    SubView(mem[..], o, o + DESIRED, 0, STR);
    SubView(mem[..], o, o + DESIRED, STR, DESIRED);
    var sgup := GetString(mem, o);
    var ncs := GetStrings(mem, o + STR);
    d := ShardDesired(sgup, ncs);
  }

  method GetShardSpec(mem: array<int>, o: nat) returns (s: ShardSpec)
    requires o + SHARD_SPEC <= mem.Length && WfShardSpec(mem[o..o + SHARD_SPEC])
    ensures s == DecodeShardSpec(mem[o..o + SHARD_SPEC])
  {
    hide Terminated, WfStrs, CStr, DecodeStrs, WfDesired, DecodeDesired;
    SubView(mem[..], o, o + SHARD_SPEC, 1, DESIRED_AT);
    SubView(mem[..], o, o + SHARD_SPEC, DESIRED_AT, PREFIX_AT);
    SubView(mem[..], o, o + SHARD_SPEC, PREFIX_AT, SHARD_SPEC);
    assert mem[o..o + SHARD_SPEC][0] == mem[o];
    var mac := GetString(mem, o + 1);
    var desired := GetDesired(mem, o + DESIRED_AT);
    var prefix := GetStrings(mem, o + PREFIX_AT);
    s := ShardSpec(mem[o], mac, Some(desired), prefix);
  }

  method GetTsfs(mem: array<int>, o: nat) returns (m: map<PString, PString>)
    requires o + KVS <= mem.Length && WfKvs(mem[o..o + KVS])
    ensures m == Fold(DecodeKvs(mem[o..o + KVS]))
  {
    assert mem[o..o + KVS][KVS - 1] == mem[o + KVS - 1];
    ghost var kvs := DecodeKvs(mem[o..o + KVS]);
    m := map[];
    for i := 0 to mem[o + KVS - 1]
      invariant m == Fold(kvs[..i])
    {
      var kv := GetKvAt(mem, o, i);
      m := m[kv.0 := kv.1];
      FoldNext(kvs, i);
    }
    assert kvs[..|kvs|] == kvs;
  }

  method GetShardStatus(mem: array<int>, o: nat) returns (s: ShardStatus)
    requires o + SHARD_STATUS <= mem.Length && WfShardStatus(mem[o..o + SHARD_STATUS])
    ensures s == DecodeShardStatus(mem[o..o + SHARD_STATUS])
  {
    hide WfStrs, DecodeStrs, WfCurrent, DecodeCurrent;
    SubView(mem[..], o, o + SHARD_STATUS, 2, CURRENT_AT);
    SubView(mem[..], o, o + SHARD_STATUS, CURRENT_AT, SHARD_STATUS);
    assert mem[o..o + SHARD_STATUS][0] == mem[o] && mem[o..o + SHARD_STATUS][1] == mem[o + 1];
    var groups := GetStrings(mem, o + 2);
    var current := GetCurrent(mem, o + CURRENT_AT);
    s := ShardStatus(mem[o], mem[o + 1], groups, Some(current));
  }

  method GetCurrent(mem: array<int>, o: nat) returns (c: ShardCurrent)
    requires o + CURRENT <= mem.Length && WfCurrent(mem[o..o + CURRENT])
    ensures c == DecodeCurrent(mem[o..o + CURRENT])
  {
    hide Terminated, WfKvs, CStr, Fold;
    SubView(mem[..], o, o + CURRENT, 0, STR);
    SubView(mem[..], o, o + CURRENT, STR, CURRENT);
    var sgup := GetString(mem, o);
    var tsfs := GetTsfs(mem, o + STR);
    c := ShardCurrent(sgup, tsfs);
  }

  method GetShard(mem: array<int>, o: nat) returns (s: Shard)
    requires o + SHARD <= mem.Length && WfShard(mem[o..o + SHARD])
    ensures s == DecodeShard(mem[o..o + SHARD])
  {
    hide WfHead, HeadName, HeadMeta, WfShardSpec, DecodeShardSpec, WfShardStatus, DecodeShardStatus;
    SubView(mem[..], o, o + SHARD, 0, HEAD);
    SubView(mem[..], o, o + SHARD, HEAD, SHARD_STATUS_AT);
    SubView(mem[..], o, o + SHARD, SHARD_STATUS_AT, MBB_AT);
    assert mem[o..o + SHARD][MBB_AT] == mem[o + MBB_AT];
    var name, metadata := GetHead(mem, o);
    var spec := GetShardSpec(mem, o + HEAD);
    var status := GetShardStatus(mem, o + SHARD_STATUS_AT);
    s := Shard(name, metadata, Some(spec), Some(status), Some(Mbb(mem[o + MBB_AT])));
  }
}
