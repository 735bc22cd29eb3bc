/** Which messages the C records can hold. `Storable` is said in terms of the message alone; the lemmas say that these
    are exactly the messages that come back from C unchanged, and for network connections what happens to others. */
module Storable {
  import opened Cells
  import opened CStrings
  import opened Messages
  import opened Heads
  import opened Endpoints
  import opened KeyValues
  import opened Items
  import opened NcSpecs
  import opened NetworkConnections
  import opened Shards
  import opened Gateways
  import opened Sessions

  // ---- parts ----

  ghost predicate StorableMeta(md: Option<MetaData>) {
    md.Some? && Fits(md.value.description) && md.value.created.None? && md.value.lastUpdated.None?
  }

  lemma MetaBack(md: Option<MetaData>)
    ensures NormMeta(md) == md <==> StorableMeta(md)
  {
    CutFixed(md.GetOr(NO_METADATA).description);
  }

  ghost predicate StorableStrs(xs: seq<PString>) {
    |xs| <= CAP && forall i | 0 <= i < |xs| :: Fits(xs[i])
  }

  lemma StrsUnchanged(xs: seq<PString>)
    ensures NormStrs(xs) == xs <==> StorableStrs(xs)
  {
    hide Fits;
    forall i | 0 <= i < |xs|
      ensures Cut(xs[i]) == xs[i] <==> Fits(xs[i])
    {
      CutFixed(xs[i]);
    }
    if NormStrs(xs) == xs {
      forall i | 0 <= i < |xs|
        ensures Fits(xs[i])
      {
        assert NormStrs(xs)[i] == Cut(xs[i]);
      }
    }
  }

  ghost predicate StorableEp(e: Endpoint) {
    && Fits(e.endpointName)
    && match e.transport
       case OfVtep(x) => Fits(x.ipAddress)
       case OfPortVlan(x) => Fits(x.logicalPort)
       case _ => true
  }

  lemma EpUnchanged(e: Endpoint)
    ensures NormEp(e) == e <==> StorableEp(e)
  {
    hide Fits;
    CutFixed(e.endpointName);
    match e.transport {
      case OfVtep(x) => CutFixed(x.ipAddress);
      case OfPortVlan(x) => CutFixed(x.logicalPort);
      case _ =>
    }
  }

  ghost predicate StorableEps(es: seq<Endpoint>) {
    |es| <= CAP && forall i | 0 <= i < |es| :: StorableEp(es[i])
  }

  lemma EpsUnchanged(es: seq<Endpoint>)
    ensures NormEps(es) == es <==> StorableEps(es)
  {
    hide StorableEp;
    forall i | 0 <= i < |es|
      ensures NormEp(es[i]) == es[i] <==> StorableEp(es[i])
    {
      EpUnchanged(es[i]);
    }
    if NormEps(es) == es {
      forall i | 0 <= i < |es|
        ensures StorableEp(es[i])
      {
        assert NormEps(es)[i] == NormEp(es[i]);
      }
    }
  }

  /** An arm is set, it is not an ss_mptp without endpoints, and its endpoints are there and fit. */
  ghost predicate StorableArm(arm: NcArm) {
    match arm
    case NoArm => false
    case SsPtp(sgups, tsf) => StorableEps(sgups) && StorableOpt(tsf)
    case SsMptpc(sgups, tsfs) => (sgups != [] || tsfs != []) && StorableEps(sgups) && StorableEps(tsfs)
    case MsPtp(sgup, tsf) => StorableOpt(sgup) && StorableOpt(tsf)
    case MsMptp(sgup, tsfs) => StorableOpt(sgup) && StorableEps(tsfs)
  }

  ghost predicate StorableOpt(e: Option<Endpoint>) {
    e.Some? && StorableEp(e.value)
  }

  lemma OptUnchanged(e: Option<Endpoint>)
    ensures NormOpt(e) == e <==> StorableOpt(e)
  {
    EpUnchanged(e.GetOr(NO_ENDPOINT));
  }

  lemma ArmUnchanged(arm: NcArm)
    ensures NormArm(arm) == arm <==> StorableArm(arm)
  {
    hide StorableEps, StorableOpt, NormEps, NormOpt;
    match arm {
      case NoArm =>
      case SsPtp(sgups, tsf) =>
        EpsUnchanged(sgups);
        OptUnchanged(tsf);
      case SsMptpc(sgups, tsfs) =>
        EpsUnchanged(sgups);
        EpsUnchanged(tsfs);
      case MsPtp(sgup, tsf) =>
        OptUnchanged(sgup);
        OptUnchanged(tsf);
      case MsMptp(sgup, tsfs) =>
        OptUnchanged(sgup);
        EpsUnchanged(tsfs);
    }
  }

  ghost predicate StorableFlags(m: map<PString, bool>) {
    |m| <= CAP && forall k | k in m :: Fits(k) && m[k]
  }

  lemma FlagsUnchanged(m: map<PString, bool>, order: seq<PString>)
    requires Visits(order, m.Keys)
    ensures Fold(NormFlags(order)) == m <==> StorableFlags(m)
  {
    hide Fold, NoDup, Fits;
    var flags := NormFlags(order);
    FoldCount(flags);
    if Fold(flags) == m {
      forall k | k in m
        ensures Fits(k) && m[k]
      {
        var i := FoldLast(flags, k);
        CutFixed(order[i]);
      }
    }
    if StorableFlags(m) {
      forall i | 0 <= i < |order|
        ensures flags[i] == Entries(m, order)[i]
      {
        CutFixed(order[i]);
      }
      assert flags == Entries(m, order);
      FoldAgain(m, order);
    }
  }

  ghost predicate StorableMap(m: map<PString, PString>) {
    |m| <= CAP && forall k | k in m :: Fits(k) && Fits(m[k])
  }

  lemma MapUnchanged(m: map<PString, PString>, order: seq<PString>)
    requires Visits(order, m.Keys)
    ensures Fold(CutKvs(Entries(m, order))) == m <==> StorableMap(m)
  {
    hide Fold, NoDup, Fits;
    var kvs := CutKvs(Entries(m, order));
    FoldCount(kvs);
    if Fold(kvs) == m {
      forall k | k in m
        ensures Fits(k) && Fits(m[k])
      {
        var i := FoldLast(kvs, k);
        CutFixed(order[i]);
        CutFixed(m[order[i]]);
      }
    }
    if StorableMap(m) {
      forall i | 0 <= i < |order|
        ensures kvs[i] == Entries(m, order)[i]
      {
        CutFixed(order[i]);
        CutFixed(m[order[i]]);
      }
      assert kvs == Entries(m, order);
      FoldAgain(m, order);
    }
  }

  // ---- items ----

  ghost predicate StorableItem(item: Item) {
    match item
    case NoItem => true
    case OfShard(x) =>
      && Fits(x.name) && StorableMeta(x.metadata) && x.spec.Some? && x.status.Some? && x.mbb.Some?
      && StorableShardSpec(x.spec.value) && StorableShardStatus(x.status.value)
    case OfSession(x) =>
      && Fits(x.name) && StorableMeta(x.metadata) && x.spec.Some? && StorableSessionSpec(x.spec.value)
      && x.status.Some? && x.status.value.currentState.Some?
      && Fits(x.status.value.currentState.value.userPlaneShard) && Fits(x.status.value.currentState.value.tsfShard)
    case OfNetwork(x) =>
      && Fits(x.name) && StorableMeta(x.metadata) && x.maintenance.Some?
      && x.spec.Some? && StorableArm(x.spec.value.arm)
      && x.status.Some? && StorableFlags(x.status.value.ncActive) && x.status.value.allocatedShards == 0
    case OfUserPlane(x) =>
      && Fits(x.name) && Fits(x.serviceGatewayName) && StorableMeta(x.metadata) && x.maintenance.Some?
      && x.spec.Some? && StorableStrs(x.spec.value.supportedServiceGroup) && StorableOpt(x.spec.value.defaultEndpoint)
      && x.status.Some?
    case OfSteering(x) =>
      && Fits(x.name) && StorableMeta(x.metadata) && x.spec.Some? && StorableOpt(x.spec.value.defaultEndpoint)
    case OfGateway(x) => Fits(x.name) && StorableMeta(x.metadata)
  }

  ghost predicate StorableShardSpec(s: ShardSpec) {
    && Fits(s.virtualMac) && StorableStrs(s.prefix)
    && s.desiredState.Some? && Fits(s.desiredState.value.serviceGatewayUserPlane)
    && StorableStrs(s.desiredState.value.networkConnection)
  }

  ghost predicate StorableShardStatus(s: ShardStatus) {
    && StorableStrs(s.serviceGroupsSupported)
    && s.currentState.Some? && Fits(s.currentState.value.serviceGatewayUserPlane)
    && StorableMap(s.currentState.value.tsfNetworkConnection)
  }

  ghost predicate StorableSessionSpec(s: SessionSpec) {
    && Fits(s.trafficSteeringFunction) && StorableStrs(s.requiredServiceGroup)
    && Fits(s.circuitId) && Fits(s.remoteId)
    && s.sessionFilter.Some? && Fits(s.sessionFilter.value.sourceMacAddress)
    && s.desiredState.Some? && Fits(s.desiredState.value.shard) && Fits(s.networkConnection)
  }

  /** A message comes back from C as it was exactly when it is storable, whatever the iteration order. */
  lemma Unchanged(item: Item, order: seq<PString>)
    requires Visits(order, MapKeys(item))
    ensures Norm(item, order) == item <==> StorableItem(item)
  {
    hide Fits, StorableMeta, StorableStrs, StorableOpt, StorableArm, StorableFlags, StorableMap, StorableShardSpec,
         StorableShardStatus, StorableSessionSpec, NormMeta, NormShardSpec, NormShardStatus, NormArm, NormFlags,
         NormSessionSpec, NormStrs, Fold, NormEp, NormSgupSpec, TsfEndpoint, Current;
    CutFixed(NameOf(item));
    match item {
      case NoItem =>
      case OfShard(x) =>
        MetaBack(x.metadata);
        ShardSpecUnchanged(x.spec);
        ShardStatusUnchanged(x.status, order);
      case OfSession(x) =>
        MetaBack(x.metadata);
        SessionSpecUnchanged(x.spec);
        CurrentUnchanged(x);
      case OfNetwork(x) =>
        MetaBack(x.metadata);
        ArmUnchanged(Arm(x));
        FlagsUnchanged(Flags(x), order);
      case OfUserPlane(x) =>
        MetaBack(x.metadata);
        CutFixed(x.serviceGatewayName);
        SgupSpecUnchanged(x.spec);
      case OfSteering(x) =>
        MetaBack(x.metadata);
        TsfUnchanged(x);
      case OfGateway(x) =>
        MetaBack(x.metadata);
    }
  }

  lemma ShardSpecUnchanged(s: Option<ShardSpec>)
    ensures Some(NormShardSpec(s.GetOr(NO_SHARD_SPEC))) == s <==> s.Some? && StorableShardSpec(s.value)
  {
    hide Fits, StorableStrs, NormStrs;
    var spec := s.GetOr(NO_SHARD_SPEC);
    var desired := spec.desiredState.GetOr(NO_SHARD_DESIRED);
    CutFixed(spec.virtualMac);
    CutFixed(desired.serviceGatewayUserPlane);
    StrsUnchanged(desired.networkConnection);
    StrsUnchanged(spec.prefix);
  }

  lemma ShardStatusUnchanged(s: Option<ShardStatus>, order: seq<PString>)
    requires Visits(order, s.GetOr(NO_SHARD_STATUS).currentState.GetOr(NO_SHARD_CURRENT).tsfNetworkConnection.Keys)
    ensures Some(NormShardStatus(s.GetOr(NO_SHARD_STATUS), order)) == s <==> s.Some? && StorableShardStatus(s.value)
  {
    hide Fits, StorableStrs, NormStrs, StorableMap, Fold;
    var status := s.GetOr(NO_SHARD_STATUS);
    var current := status.currentState.GetOr(NO_SHARD_CURRENT);
    CutFixed(current.serviceGatewayUserPlane);
    StrsUnchanged(status.serviceGroupsSupported);
    MapUnchanged(current.tsfNetworkConnection, order);
  }

  lemma SessionSpecUnchanged(s: Option<SessionSpec>)
    ensures Some(NormSessionSpec(s.GetOr(NO_SESSION_SPEC))) == s <==> s.Some? && StorableSessionSpec(s.value)
  {
    hide Fits, StorableStrs, NormStrs;
    var spec := s.GetOr(NO_SESSION_SPEC);
    CutFixed(spec.trafficSteeringFunction);
    StrsUnchanged(spec.requiredServiceGroup);
    CutFixed(spec.circuitId);
    CutFixed(spec.remoteId);
    CutFixed(spec.sessionFilter.GetOr(NO_FILTER).sourceMacAddress);
    CutFixed(spec.desiredState.GetOr(NO_SESSION_DESIRED).shard);
    CutFixed(spec.networkConnection);
  }

  lemma CurrentUnchanged(x: SessionContext)
    ensures var c := Current(x);
            Some(SessionStatus(Some(SessionCurrent(Cut(c.userPlaneShard), Cut(c.tsfShard))))) == x.status <==>
              && x.status.Some? && x.status.value.currentState.Some?
              && Fits(x.status.value.currentState.value.userPlaneShard)
              && Fits(x.status.value.currentState.value.tsfShard)
  {
    hide Fits;
    CutFixed(Current(x).userPlaneShard);
    CutFixed(Current(x).tsfShard);
  }

  lemma SgupSpecUnchanged(s: Option<SgupSpec>)
    ensures Some(NormSgupSpec(s.GetOr(NO_SGUP_SPEC))) == s <==>
              s.Some? && StorableStrs(s.value.supportedServiceGroup) && StorableOpt(s.value.defaultEndpoint)
  {
    hide StorableStrs, NormStrs, StorableOpt;
    var spec := s.GetOr(NO_SGUP_SPEC);
    StrsUnchanged(spec.supportedServiceGroup);
    OptUnchanged(spec.defaultEndpoint);
  }

  lemma TsfUnchanged(x: TrafficSteeringFunction)
    ensures Some(TsfSpec(Some(NormEp(TsfEndpoint(x))))) == x.spec <==>
              x.spec.Some? && StorableOpt(x.spec.value.defaultEndpoint)
  {
    hide StorableOpt;
    OptUnchanged(x.spec.GetOr(NO_TSF_SPEC).defaultEndpoint);
  }

  // ---- after one pass ----

  /** Every map can be visited in some order. */
  lemma {:induction false} SomeOrder(keys: set<PString>) returns (order: seq<PString>)
    ensures Visits(order, keys)
  {
    order := [];
    if keys != {} {
      var k :| k in keys;
      var rest := SomeOrder(keys - {k});
      order := rest;
      if |rest| < CAP {
        order := rest + [k];
        NoDupPush(rest, k);
      }
    }
  }

  /** One pass through C makes every message storable, with one exception: an ss_mptp without endpoints. */
  lemma OnePassSettles(item: Item, order: seq<PString>)
    requires Visits(order, MapKeys(item))
    ensures StorableItem(Norm(item, order)) <==> !(item.OfNetwork? && Arm(item.network) == SsMptpc([], []))
  {
    hide StorableItem, Visits, NormShard, NormSession, NormNc, NormSgup, NormTsf, NormSg, Tsfs, Flags;
    var once := Norm(item, order);
    var again := SomeOrder(MapKeys(once));
    Unchanged(once, again);
    match item {
      case NoItem =>
      case OfShard(x) => ShardTwice(x, order, again);
      case OfSession(x) => SessionTwice(x);
      case OfNetwork(x) =>
        var third := SomeOrder(Flags(NormNc(NormNc(x, order), again)).Keys);
        NcFixpoint(x, order, again, third);
      case OfUserPlane(x) => SgupTwice(x);
      case OfSteering(x) => TsfThere(x);
      case OfGateway(x) => SgThere(x);
    }
  }

  // ---- what a network connection loses ----

  /** A flag that is off, the allocated shards and the unset arm of this message do not survive; neither does the arm
      of the second. */
  lemma Losses()
    ensures var off := NetworkConnection([97], None, None, None, Some(NcStatus(map[[98] := false], 7)));
            && Visits([[98]], Flags(off).Keys) && WfNc(NcImage(off, [[98]]))
            && DecodeNc(NcImage(off, [[98]])).status == Some(NcStatus(map[[98] := true], 0))
            && DecodeNc(NcImage(off, [[98]])).spec == Some(NcSpec(0, SsPtp([], Some(NO_ENDPOINT))))
    ensures var empty := NetworkConnection([97], None, None, Some(NcSpec(0, SsMptpc([], []))), None);
            && Visits([], Flags(empty).Keys) && WfNc(NcImage(empty, []))
            && DecodeNc(NcImage(empty, [])).spec == Some(NcSpec(0, NoArm))
  {
    hide NcImage, WfNc, DecodeNc, NormMeta;
    var off := NetworkConnection([97], None, None, None, Some(NcStatus(map[[98] := false], 7)));
    assert Flags(off).Keys == {[98]};
    NcThere(off, [[98]]);
    CutFixed([98]);
    assert NormFlags([[98]]) == [([98], true)];
    var empty := NetworkConnection([97], None, None, Some(NcSpec(0, SsMptpc([], []))), None);
    assert Flags(empty).Keys == {};
    NcThere(empty, []);
  }

  // ---- what any item loses ----

  function Repeat<T>(x: T, n: nat): (xs: seq<T>)
    ensures |xs| == n && forall i | 0 <= i < n :: xs[i] == x
  {
    seq(n, _ => x)
  }

  /** A name of 64 bytes comes back with 63, a time of creation not at all. */
  lemma LossesOfText()
    ensures var g := ServiceGateway(Repeat(97, 64), Some(MetaData([], Some(Timestamp(1, 0)), None, 0)));
            DecodeSg(SgImage(g)) == ServiceGateway(Repeat(97, 63), Some(MetaData([], None, None, 0)))
  {
    hide SgImage, DecodeSg;
    var g := ServiceGateway(Repeat(97, 64), Some(MetaData([], Some(Timestamp(1, 0)), None, 0)));
    SgThere(g);
    FirstNulIs(Repeat(97, 64), 64);
    assert Cut(Repeat(97, 64)) == Repeat(97, 63);
    CutFixed([]);
  }

  /** Of 17 service groups 16 come back. */
  lemma LossOfElement()
    ensures DecodeStrs(StrsImage(Repeat([97], 17))) == Repeat([97], 16)
  {
    hide StrsImage, DecodeStrs;
    StrsThere(Repeat([97], 17));
    CutFixed([97]);
  }

  /** Of two keys that agree in their first 63 bytes one comes back, with the value of the entry visited later. */
  lemma LossOfKey()
    ensures var a, b := Repeat(97, 63) + [98], Repeat(97, 63) + [99];
            var c := ShardCurrent([], map[a := [49], b := [50]]);
            && Visits([a, b], c.tsfNetworkConnection.Keys) && Visits([b, a], c.tsfNetworkConnection.Keys)
            && WfCurrent(CurrentImage(c, [a, b])) && WfCurrent(CurrentImage(c, [b, a]))
            && DecodeCurrent(CurrentImage(c, [a, b])).tsfNetworkConnection == map[Repeat(97, 63) := [50]]
            && DecodeCurrent(CurrentImage(c, [b, a])).tsfNetworkConnection == map[Repeat(97, 63) := [49]]
  {
    hide CurrentImage, WfCurrent, DecodeCurrent, Fold;
    var k, a, b := Repeat(97, 63), Repeat(97, 63) + [98], Repeat(97, 63) + [99];
    var m := map[a := [49], b := [50]];
    assert a[63] != b[63];
    assert m.Keys == {a, b};
    CutShared(98);
    CutShared(99);
    CutFixed([49]);
    CutFixed([50]);
    TwoFolded(k, [49], [50]);
    TwoFolded(k, [50], [49]);
    assert CutKvs(Entries(m, [a, b])) == [(k, [49]), (k, [50])];
    assert CutKvs(Entries(m, [b, a])) == [(k, [50]), (k, [49])];
    CurrentThere(ShardCurrent([], m), [a, b]);
    CurrentThere(ShardCurrent([], m), [b, a]);
  }

  lemma CutShared(x: int)
    requires x != 0
    ensures Cut(Repeat(97, 63) + [x]) == Repeat(97, 63)
  {
    FirstNulIs(Repeat(97, 63) + [x], 64);
  }

  lemma TwoFolded(k: PString, x: PString, y: PString)
    ensures Fold([(k, x), (k, y)]) == map[k := y]
  {
    var kvs := [(k, x), (k, y)];
    FoldNext(kvs, 0);
    FoldNext(kvs, 1);
    assert kvs[..2] == kvs && kvs[..0] == [];
  }
}
