/** The records cell by cell, as the structures of upsf.h lay them out: every field of a message in the cells of the
    field of that name, and every field of a readable record as the field of a message. Offsets are counted here from
    the declarations in upsf.h, and a sub-message that is absent stands for zeros and empty texts. */
module Layout {
  import opened Cells
  import opened CStrings
  import opened Messages
  import opened Heads
  import opened Endpoints
  import opened KeyValues
  import opened NcSpecs
  import opened NetworkConnections
  import opened Shards
  import opened Gateways
  import opened Sessions
  import opened Items

  // ---- arrays ----

  /** 16 texts of 65 cells, then the size. */
  ghost predicate Texts(v: seq<int>, xs: seq<PString>) {
    && |v| == 1041 && v[1040] == |Take(xs)|
    && forall i | 0 <= i < |Take(xs)| :: 65 * i + 65 <= 1040 && v[65 * i..65 * i + 65] == StrImage(xs[i])
  }

  lemma StrsCells(xs: seq<PString>)
    ensures Texts(StrsImage(xs), xs)
  {
    hide StrImage, Flat;
    var v := StrsImage(xs);
    ArrayParts(StrSlots(Take(xs)), STR);
    forall i | 0 <= i < |Take(xs)|
      ensures 65 * i + 65 <= 1040 && v[65 * i..65 * i + 65] == StrImage(xs[i])
    {
      ArraySlot(StrSlots(Take(xs)), STR, i);
      assert Slot(v, STR, i) == v[65 * i..65 * i + 65];
    }
  }

  lemma StrsRead(v: seq<int>)
    requires |v| == 1041 && 0 <= v[1040] <= 16
    ensures var xs := DecodeStrs(v);
            |xs| == v[1040] && forall i | 0 <= i < |xs| :: xs[i] == CStr(v[65 * i..65 * i + 65])
  {
  }

  /** 16 endpoints of 133 cells, then the size. */
  ghost predicate Ends(v: seq<int>, es: seq<Endpoint>) {
    && |v| == 2129 && v[2128] == |Take(es)|
    && forall i | 0 <= i < |Take(es)| :: 133 * i + 133 <= 2128 && v[133 * i..133 * i + 133] == EpImage(es[i])
  }

  lemma EpsCells(es: seq<Endpoint>)
    ensures Ends(EpsImage(es), es)
  {
    hide EpImage, Flat;
    var v := EpsImage(es);
    ArrayParts(EpSlots(Take(es)), EP);
    forall i | 0 <= i < |Take(es)|
      ensures 133 * i + 133 <= 2128 && v[133 * i..133 * i + 133] == EpImage(es[i])
    {
      ArraySlot(EpSlots(Take(es)), EP, i);
      assert Slot(v, EP, i) == v[133 * i..133 * i + 133];
    }
  }

  lemma EpsRead(v: seq<int>)
    requires |v| == 2129 && 0 <= v[2128] <= 16
    ensures var es := DecodeEps(v);
            |es| == v[2128] && forall i | 0 <= i < |es| :: es[i] == DecodeEp(v[133 * i..133 * i + 133])
  {
    hide DecodeEp;
  }

  /** 16 pairs of a key of 65 cells and a value of 65 cells, then the size. */
  ghost predicate Pairs(v: seq<int>, kvs: seq<Pair>) {
    && |v| == 2081 && v[2080] == |kvs|
    && forall i | 0 <= i < |kvs| ::
         && 130 * i + 130 <= 2080
         && v[130 * i..130 * i + 65] == StrImage(kvs[i].0) && v[130 * i + 65..130 * i + 130] == StrImage(kvs[i].1)
  }

  lemma KvsCells(kvs: seq<Pair>)
    requires |kvs| <= 16
    ensures Pairs(KvsImage(kvs), kvs)
  {
    hide StrImage, Flat;
    var v := KvsImage(kvs);
    ArrayParts(KvSlots(kvs), KV);
    forall i | 0 <= i < |kvs|
      ensures 130 * i + 130 <= 2080
      ensures v[130 * i..130 * i + 65] == StrImage(kvs[i].0) && v[130 * i + 65..130 * i + 130] == StrImage(kvs[i].1)
    {
      ArraySlot(KvSlots(kvs), KV, i);
      assert Slot(v, KV, i) == v[130 * i..130 * i + 130];
      SubView(v, 130 * i, 130 * i + 130, 0, 65);
      SubView(v, 130 * i, 130 * i + 130, 65, 130);
      assert KvImage(kvs[i])[0..65] == StrImage(kvs[i].0) && KvImage(kvs[i])[65..130] == StrImage(kvs[i].1);
    }
  }

  lemma KvsRead(v: seq<int>)
    requires |v| == 2081 && 0 <= v[2080] <= 16
    ensures var kvs := DecodeKvs(v);
            && |kvs| == v[2080]
            && forall i | 0 <= i < |kvs| ::
                 kvs[i] == (CStr(v[130 * i..130 * i + 65]), CStr(v[130 * i + 65..130 * i + 130]))
  {
    hide CStr;
    forall i | 0 <= i < v[2080]
      ensures DecodeKvs(v)[i] == (CStr(v[130 * i..130 * i + 65]), CStr(v[130 * i + 65..130 * i + 130]))
    {
      assert Slot(v, KV, i) == v[130 * i..130 * i + 130];
      SubView(v, 130 * i, 130 * i + 130, 0, 65);
      SubView(v, 130 * i, 130 * i + 130, 65, 130);
    }
  }

  // ---- endpoints ----

  lemma EpCells(e: Endpoint)
    ensures var v := EpImage(e);
            && |v| == 133 && v[0..65] == StrImage(e.endpointName)
            && match e.transport
               case NoTransport => v[65] == 0 && v[66..133] == Zeros(67)
               case OfVtep(x) =>
                 v[65] == 1 && v[66..131] == StrImage(x.ipAddress) && v[131] == x.udpPort && v[132] == x.vni
               case OfL2vpn(x) => v[65] == 2 && v[66] == x.vpnId && v[67..133] == Zeros(66)
               case OfPortVlan(x) =>
                 v[65] == 3 && v[66..131] == StrImage(x.logicalPort) && v[131] == x.svlan && v[132] == x.cvlan
  {
    hide StrImage;
  }

  lemma EpRead(v: seq<int>)
    requires |v| == 133
    ensures DecodeEp(v) ==
            Endpoint(CStr(v[0..65]),
                     if v[65] == 1 then OfVtep(Vtep(CStr(v[66..131]), v[131], v[132]))
                     else if v[65] == 2 then OfL2vpn(L2vpn(v[66]))
                     else if v[65] == 3 then OfPortVlan(PortVlan(CStr(v[66..131]), v[131], v[132]))
                     else NoTransport)
  {
    hide CStr;
    SubView(v, 66, 133, 0, 65);
  }

  // ---- what all records start with ----

  ghost predicate Front(v: seq<int>, name: PString, md: Option<MetaData>) {
    && 131 <= |v|
    && v[0..65] == StrImage(name)
    && v[65..130] == StrImage(if md.Some? then md.value.description else [])
    && v[130] == if md.Some? then md.value.derivedState else 0
  }

  function MetaAt(v: seq<int>): Option<MetaData>
    requires 131 <= |v|
  {
    Some(MetaData(CStr(v[65..130]), None, None, v[130]))
  }

  function EndOf(e: Option<Endpoint>): Endpoint {
    if e.Some? then e.value else Endpoint([], NoTransport)
  }

  lemma SgCells(g: ServiceGateway)
    ensures |SgImage(g)| == 131 && Front(SgImage(g), g.name, g.metadata)
  {
    hide StrImage;
  }

  lemma SgRead(v: seq<int>)
    requires |v| == 131
    ensures DecodeSg(v) == ServiceGateway(CStr(v[0..65]), MetaAt(v))
  {
  }

  // ---- service gateway user plane, traffic steering function ----

  lemma SgupCells(g: ServiceGatewayUserPlane)
    ensures var v := SgupImage(g);
            && |v| == 1375 && Front(v, g.name, g.metadata)
            && v[131..196] == StrImage(g.serviceGatewayName)
            && v[196] == (if g.maintenance.Some? then g.maintenance.value.maintenanceReq else 0)
            && v[197] == (if g.spec.Some? then g.spec.value.maxSessionCount else 0)
            && v[198] == (if g.spec.Some? then g.spec.value.maxShards else 0)
            && v[199..1240] == StrsImage(if g.spec.Some? then g.spec.value.supportedServiceGroup else [])
            && v[1240..1373] == EpImage(if g.spec.Some? then EndOf(g.spec.value.defaultEndpoint) else EndOf(None))
            && v[1373] == (if g.status.Some? then g.status.value.allocatedSessionCount else 0)
            && v[1374] == (if g.status.Some? then g.status.value.allocatedShards else 0)
  {
    hide StrImage, StrsImage, EpImage;
  }

  lemma SgupRead(v: seq<int>)
    requires |v| == 1375 && WfSgup(v)
    ensures v[199..1240] == v[197..1373][2..1043] && 0 <= v[199..1240][1040] <= 16
    ensures DecodeSgup(v) ==
            ServiceGatewayUserPlane(
              CStr(v[0..65]), CStr(v[131..196]), MetaAt(v), Some(Maintenance(v[196])),
              Some(SgupSpec(v[197], v[198], DecodeStrs(v[199..1240]), Some(DecodeEp(v[1240..1373])))),
              Some(SgupStatus(v[1373], v[1374])))
  {
    hide CStr, DecodeStrs, DecodeEp, WfEp, Terminated;
    SubView(v, 0, 131, 0, 65);
    SubView(v, 0, 131, 65, 130);
    SubView(v, 197, 1373, 2, 1043);
    SubView(v, 197, 1373, 1043, 1176);
  }

  lemma TsfCells(t: TrafficSteeringFunction)
    ensures var v := TsfImage(t);
            && |v| == 264 && Front(v, t.name, t.metadata)
            && v[131..264] == EpImage(if t.spec.Some? then EndOf(t.spec.value.defaultEndpoint) else EndOf(None))
  {
    hide StrImage, EpImage;
  }

  lemma TsfRead(v: seq<int>)
    requires |v| == 264 && WfTsf(v)
    ensures DecodeTsf(v) ==
            TrafficSteeringFunction(CStr(v[0..65]), MetaAt(v), Some(TsfSpec(Some(DecodeEp(v[131..264])))))
  {
    hide CStr, DecodeEp, WfEp, Terminated;
    SubView(v, 0, 131, 0, 65);
    SubView(v, 0, 131, 65, 130);
  }

  // ---- network connection ----

  /** The union of nc_spec: every arm from its first cell, zeros behind. */
  lemma UnionCells(arm: NcArm)
    ensures var u := UnionImage(arm);
            && |u| == 4258
            && match arm
               case NoArm => u == Zeros(4258)
               case SsPtp(sgups, tsf) =>
                 && u[0..2129] == EpsImage(sgups) && u[2129..2262] == EpImage(EndOf(tsf))
                 && u[2262..4258] == Zeros(1996)
               case SsMptpc(sgups, tsfs) => u[0..2129] == EpsImage(sgups) && u[2129..4258] == EpsImage(tsfs)
               case MsPtp(sgup, tsf) =>
                 && u[0..133] == EpImage(EndOf(sgup)) && u[133..266] == EpImage(EndOf(tsf))
                 && u[266..4258] == Zeros(3992)
               case MsMptp(sgup, tsfs) =>
                 && u[0..133] == EpImage(EndOf(sgup)) && u[133..2262] == EpsImage(tsfs) && u[2262..4258] == Zeros(1996)
  {
    hide EpImage, EpsImage;
  }

  function TagOf(arm: NcArm): int {
    match arm
    case NoArm => 0
    case SsPtp(_, _) => 0
    case SsMptpc(_, _) => 1
    case MsPtp(_, _) => 2
    case MsMptp(_, _) => 3
  }

  lemma UnionRead(tag: int, u: seq<int>)
    requires |u| == 4258 && WfArm(tag, u)
    ensures DecodeArm(tag, u) ==
            if tag == 0 then SsPtp(DecodeEps(u[0..2129]), Some(DecodeEp(u[2129..2262])))
            else if tag == 1 then
              if u[2128] == 0 && u[4257] == 0 then NoArm
              else SsMptpc(DecodeEps(u[0..2129]), DecodeEps(u[2129..4258]))
            else if tag == 2 then MsPtp(Some(DecodeEp(u[0..133])), Some(DecodeEp(u[133..266])))
            else if tag == 3 then MsMptp(Some(DecodeEp(u[0..133])), DecodeEps(u[133..2262]))
            else NoArm
  {
    hide DecodeEp, WfEp;
    assert u[0..2129][2128] == u[2128] && u[2129..4258][2128] == u[4257];
  }

  /** The flags are stored in the order visited, a true one as "1" and a false one as "0"; the last cell, where
      allocated_shards belongs, is clear. */
  lemma NcCells(n: NetworkConnection, order: seq<PString>)
    requires Visits(order, Flags(n).Keys)
    ensures var v := NcImage(n, order);
            && |v| == 6474 && Front(v, n.name, n.metadata)
            && v[131] == (if n.maintenance.Some? then n.maintenance.value.maintenanceReq else 0)
            && v[132] == (if n.spec.Some? then n.spec.value.maximumSupportedQuality else 0)
            && v[133] == (if n.spec.Some? then TagOf(n.spec.value.arm) else 0)
            && v[134..4392] == UnionImage(if n.spec.Some? then n.spec.value.arm else NoArm)
            && v[6472] == |order| && v[6473] == 0
            && forall i | 0 <= i < |order| ::
                 && 4392 + 130 * i + 130 <= 6472
                 && v[4392 + 130 * i..4392 + 130 * i + 65] == StrImage(order[i])
                 && v[4392 + 130 * i + 65..4392 + 130 * i + 130] ==
                    StrImage(if n.status.value.ncActive[order[i]] then [49] else [48])
  {
    hide StrImage, UnionImage, HeadImage, KvsImage, Pairs;
    var v, kvs := NcImage(n, order), FlagPairs(Flags(n), order);
    FrontOf(n.name, n.metadata);
    assert v[0..131] == HeadImage(n.name, n.metadata);
    FrontFirst(v, n.name, n.metadata);
    KvsCells(kvs);
    assert v[4392..6473] == KvsImage(kvs);
    PairsAt(v, 4392, kvs);
  }

  lemma FrontOf(name: PString, md: Option<MetaData>)
    ensures Front(HeadImage(name, md), name, md)
  {
    hide StrImage;
  }

  lemma FrontFirst(v: seq<int>, name: PString, md: Option<MetaData>)
    requires 131 <= |v| && Front(v[0..131], name, md)
    ensures Front(v, name, md)
  {
    hide StrImage;
    SubView(v, 0, 131, 0, 65);
    SubView(v, 0, 131, 65, 130);
  }

  lemma PairsAt(v: seq<int>, o: nat, kvs: seq<Pair>)
    requires o + 2081 <= |v| && Pairs(v[o..o + 2081], kvs)
    ensures v[o + 2080] == |kvs|
    ensures forall i | 0 <= i < |kvs| ::
              && 130 * i + 130 <= 2080
              && v[o + 130 * i..o + 130 * i + 65] == StrImage(kvs[i].0)
              && v[o + 130 * i + 65..o + 130 * i + 130] == StrImage(kvs[i].1)
  {
    hide StrImage;
    forall i | 0 <= i < |kvs|
      ensures 130 * i + 130 <= 2080
      ensures v[o + 130 * i..o + 130 * i + 65] == StrImage(kvs[i].0)
      ensures v[o + 130 * i + 65..o + 130 * i + 130] == StrImage(kvs[i].1)
    {
      SubView(v, o, o + 2081, 130 * i, 130 * i + 65);
      SubView(v, o, o + 2081, 130 * i + 65, 130 * i + 130);
    }
  }

  /** Every readable record: the last cell is allocated_shards. */
  lemma NcRead(v: seq<int>)
    requires |v| == 6474 && WfNc(v)
    ensures WfArm(v[133], v[134..4392]) && 0 <= v[4392..6473][2080] <= 16
    ensures DecodeNc(v) ==
            NetworkConnection(
              CStr(v[0..65]), MetaAt(v), Some(Maintenance(v[131])),
              Some(NcSpec(v[132], DecodeArm(v[133], v[134..4392]))),
              Some(NcStatus(Fold(Raised(DecodeKvs(v[4392..6473]))), v[6473])))
  {
    hide CStr, DecodeArm, WfArm, Terminated, DecodeKvs, Fold, Raised;
    SubView(v, 0, 131, 0, 65);
    SubView(v, 0, 131, 65, 130);
    SubView(v, 132, 4392, 2, 4260);
    SubView(v, 4392, 6474, 0, 2081);
  }

  // ---- shard ----

  lemma ShardCells(s: Shard, order: seq<PString>)
    requires Visits(order, Tsfs(s).Keys)
    ensures var v := ShardImage(s, order);
            && |v| == 5534 && Front(v, s.name, s.metadata)
            && ShardSpecAt(v, if s.spec.Some? then s.spec.value else ShardSpec(0, [], None, []))
            && v[2344] == (if s.status.Some? then s.status.value.allocatedSessionCount else 0)
            && v[2345] == (if s.status.Some? then s.status.value.maximumAllocatedQuality else 0)
            && v[2346..3387] == StrsImage(if s.status.Some? then s.status.value.serviceGroupsSupported else [])
            && v[3387..3452] == StrImage(if s.status.Some? && s.status.value.currentState.Some?
                                         then s.status.value.currentState.value.serviceGatewayUserPlane else [])
            && v[5532] == |order|
            && (forall i | 0 <= i < |order| ::
                  && 3452 + 130 * i + 130 <= 5532
                  && v[3452 + 130 * i..3452 + 130 * i + 65] == StrImage(order[i])
                  && v[3452 + 130 * i + 65..3452 + 130 * i + 130] ==
                     StrImage(s.status.value.currentState.value.tsfNetworkConnection[order[i]]))
            && v[5533] == (if s.mbb.Some? then s.mbb.value.mbbState else 0)
  {
    hide StrImage, StrsImage, HeadImage, KvsImage, Pairs, ShardSpecImage, ShardSpecAt;
    var v, kvs := ShardImage(s, order), Entries(Tsfs(s), order);
    FrontOf(s.name, s.metadata);
    assert v[0..131] == HeadImage(s.name, s.metadata);
    FrontFirst(v, s.name, s.metadata);
    assert v[131..2344] == ShardSpecImage(s.spec.GetOr(NO_SHARD_SPEC));
    ShardSpecCells(v, s.spec.GetOr(NO_SHARD_SPEC));
    KvsCells(kvs);
    assert v[3452..5533] == KvsImage(kvs);
    PairsAt(v, 3452, kvs);
  }

  ghost predicate ShardSpecAt(v: seq<int>, s: ShardSpec) {
    && 2344 <= |v|
    && v[131] == s.maxSessionCount
    && v[132..197] == StrImage(s.virtualMac)
    && v[197..262] == StrImage(if s.desiredState.Some? then s.desiredState.value.serviceGatewayUserPlane else [])
    && v[262..1303] == StrsImage(if s.desiredState.Some? then s.desiredState.value.networkConnection else [])
    && v[1303..2344] == StrsImage(s.prefix)
  }

  lemma ShardSpecCells(v: seq<int>, s: ShardSpec)
    requires 2344 <= |v| && v[131..2344] == ShardSpecImage(s)
    ensures ShardSpecAt(v, s)
  {
    hide StrImage, StrsImage;
    var w, d := ShardSpecImage(s), DesiredImage(s.desiredState.GetOr(NO_SHARD_DESIRED));
    assert w[0] == v[131] && w[66..1172] == d;
    SubView(v, 131, 2344, 1, 66);
    SubView(v, 131, 2344, 66, 1172);
    SubView(v, 131, 2344, 1172, 2213);
    SubView(v, 197, 1303, 0, 65);
    SubView(v, 197, 1303, 65, 1106);
  }

  lemma ShardRead(v: seq<int>)
    requires |v| == 5534 && WfShard(v)
    ensures 0 <= v[262..1303][1040] <= 16 && 0 <= v[1303..2344][1040] <= 16 && 0 <= v[2346..3387][1040] <= 16
    ensures 0 <= v[3452..5533][2080] <= 16
    ensures DecodeShard(v) ==
            Shard(
              CStr(v[0..65]), MetaAt(v),
              Some(ShardSpec(v[131], CStr(v[132..197]),
                             Some(ShardDesired(CStr(v[197..262]), DecodeStrs(v[262..1303]))),
                             DecodeStrs(v[1303..2344]))),
              Some(ShardStatus(v[2344], v[2345], DecodeStrs(v[2346..3387]),
                               Some(ShardCurrent(CStr(v[3387..3452]), Fold(DecodeKvs(v[3452..5533])))))),
              Some(Mbb(v[5533])))
  {
    hide CStr, Terminated, DecodeStrs, DecodeKvs, Fold;
    SubView(v, 0, 131, 0, 65);
    SubView(v, 0, 131, 65, 130);
    SubView(v, 131, 2344, 1, 66);
    SubView(v, 131, 2344, 66, 1172);
    SubView(v, 197, 1303, 0, 65);
    SubView(v, 197, 1303, 65, 1106);
    SubView(v, 131, 2344, 1172, 2213);
    SubView(v, 2344, 5533, 2, 1043);
    SubView(v, 2344, 5533, 1043, 3189);
    SubView(v, 3387, 5533, 0, 65);
    SubView(v, 3387, 5533, 65, 2146);
  }

  // ---- session context ----

  lemma SessionCells(s: SessionContext)
    ensures var v := SessionImage(s);
            && |v| == 1695 && Front(v, s.name, s.metadata)
            && v[131..1565] == SessionSpecImage(if s.spec.Some? then s.spec.value
                                                else SessionSpec([], [], 0, [], [], None, None, []))
            && v[1565..1630] == StrImage(if s.status.Some? && s.status.value.currentState.Some?
                                         then s.status.value.currentState.value.userPlaneShard else [])
            && v[1630..1695] == StrImage(if s.status.Some? && s.status.value.currentState.Some?
                                         then s.status.value.currentState.value.tsfShard else [])
  {
    hide StrImage, SessionSpecImage, HeadImage;
    FrontOf(s.name, s.metadata);
    assert SessionImage(s)[0..131] == HeadImage(s.name, s.metadata);
    FrontFirst(SessionImage(s), s.name, s.metadata);
  }

  lemma SessionSpecCells(s: SessionSpec)
    ensures var v := SessionSpecImage(s);
            && |v| == 1434
            && v[0..65] == StrImage(s.trafficSteeringFunction)
            && v[65..1106] == StrsImage(s.requiredServiceGroup)
            && v[1106] == s.requiredQuality
            && v[1107..1172] == StrImage(s.circuitId)
            && v[1172..1237] == StrImage(s.remoteId)
            && v[1237..1302] == StrImage(if s.sessionFilter.Some? then s.sessionFilter.value.sourceMacAddress else [])
            && v[1302] == (if s.sessionFilter.Some? then s.sessionFilter.value.svlan else 0)
            && v[1303] == (if s.sessionFilter.Some? then s.sessionFilter.value.cvlan else 0)
            && v[1304..1369] == StrImage(if s.desiredState.Some? then s.desiredState.value.shard else [])
            && v[1369..1434] == StrImage(s.networkConnection)
  {
    hide StrImage, StrsImage;
  }

  lemma SessionSpecRead(v: seq<int>)
    requires |v| == 1434 && WfSessionSpec(v)
    ensures DecodeSessionSpec(v) ==
            SessionSpec(
              CStr(v[0..65]), DecodeStrs(v[65..1106]), v[1106], CStr(v[1107..1172]), CStr(v[1172..1237]),
              Some(SessionFilter(CStr(v[1237..1302]), v[1302], v[1303])),
              Some(SessionDesired(CStr(v[1304..1369]))), CStr(v[1369..1434]))
  {
    hide CStr, Terminated, DecodeStrs;
    SubView(v, 1237, 1304, 0, 65);
  }

  lemma SessionRead(v: seq<int>)
    requires |v| == 1695 && WfSession(v)
    ensures WfSessionSpec(v[131..1565])
    ensures DecodeSession(v) ==
            SessionContext(
              CStr(v[0..65]), MetaAt(v), Some(DecodeSessionSpec(v[131..1565])),
              Some(SessionStatus(Some(SessionCurrent(CStr(v[1565..1630]), CStr(v[1630..1695]))))))
  {
    hide CStr, Terminated, DecodeSessionSpec, WfSessionSpec;
    SubView(v, 0, 131, 0, 65);
    SubView(v, 0, 131, 65, 130);
  }

  // ---- what can be read ----

  /** A NUL among the 64 chars of a text, in this and all the conditions below. */
  predicate Ended(v: seq<int>, o: nat)
    requires o + 64 <= |v|
  {
    0 in v[o..o + 64]
  }

  lemma TextReadable(v: seq<int>, o: nat)
    requires o + 65 <= |v|
    ensures Terminated(v[o..o + 65]) <==> Ended(v, o)
  {
    SubView(v, o, o + 65, 0, 64);
    CStrOnText(v[o..o + 65], v[o..o + 65]);
  }

  /** An array of texts at `o`. */
  ghost predicate TextsEnded(v: seq<int>, o: nat)
    requires o + 1041 <= |v|
  {
    0 <= v[o + 1040] <= 16 && forall i | 0 <= i < v[o + 1040] :: Ended(v, o + 65 * i)
  }

  lemma TextReadableAt(v: seq<int>, o: nat, i: nat)
    requires o + 1041 <= |v| && i < 16
    ensures (i + 1) * STR <= 1041 && (Terminated(Slot(v[o..o + 1041], STR, i)) <==> Ended(v, o + 65 * i))
  {
    hide Terminated, Ended;
    SlotBounds(i, 16, STR);
    SubView(v, o, o + 1041, 65 * i, 65 * i + 65);
    TextReadable(v, o + 65 * i);
    assert Slot(v[o..o + 1041], STR, i) == v[o + 65 * i..o + 65 * i + 65];
  }

  lemma TextsReadable(v: seq<int>, o: nat)
    requires o + 1041 <= |v|
    ensures WfStrs(v[o..o + 1041]) <==> TextsEnded(v, o)
  {
    hide Terminated, Ended;
    var w := v[o..o + 1041];
    assert w[1040] == v[o + 1040];
    if WfStrs(w) {
      forall i | 0 <= i < v[o + 1040]
        ensures Ended(v, o + 65 * i)
      {
        assert Terminated(Slot(w, STR, i));
        TextReadableAt(v, o, i);
      }
    }
    if TextsEnded(v, o) {
      forall i | 0 <= i < w[1040]
        ensures Terminated(Slot(w, STR, i))
      {
        assert Ended(v, o + 65 * i);
        TextReadableAt(v, o, i);
      }
    }
  }

  /** An endpoint at `o`: its name, and the text of the arm its tag selects. */
  ghost predicate EndEnded(v: seq<int>, o: nat)
    requires o + 133 <= |v|
  {
    Ended(v, o) && (v[o + 65] == 1 || v[o + 65] == 3 ==> Ended(v, o + 66))
  }

  lemma EndReadable(v: seq<int>, o: nat)
    requires o + 133 <= |v|
    ensures WfEp(v[o..o + 133]) <==> EndEnded(v, o)
  {
    hide Terminated, Ended;
    SubView(v, o, o + 133, 0, 65);
    SubView(v, o, o + 133, 66, 133);
    SubView(v, o + 66, o + 133, 0, 65);
    TextReadable(v, o);
    TextReadable(v, o + 66);
  }

  ghost predicate EndsEnded(v: seq<int>, o: nat)
    requires o + 2129 <= |v|
  {
    0 <= v[o + 2128] <= 16 && forall i | 0 <= i < v[o + 2128] :: EndEnded(v, o + 133 * i)
  }

  lemma EndReadableAt(v: seq<int>, o: nat, i: nat)
    requires o + 2129 <= |v| && i < 16
    ensures (i + 1) * EP <= 2129 && (WfEp(Slot(v[o..o + 2129], EP, i)) <==> EndEnded(v, o + 133 * i))
  {
    hide Terminated, Ended, WfEp, EndEnded;
    SlotBounds(i, 16, EP);
    SubView(v, o, o + 2129, 133 * i, 133 * i + 133);
    EndReadable(v, o + 133 * i);
    assert Slot(v[o..o + 2129], EP, i) == v[o + 133 * i..o + 133 * i + 133];
  }

  lemma EndsReadable(v: seq<int>, o: nat)
    requires o + 2129 <= |v|
    ensures WfEps(v[o..o + 2129]) <==> EndsEnded(v, o)
  {
    hide Terminated, Ended, WfEp, EndEnded;
    var w := v[o..o + 2129];
    assert w[2128] == v[o + 2128];
    if WfEps(w) {
      forall i | 0 <= i < v[o + 2128]
        ensures EndEnded(v, o + 133 * i)
      {
        assert WfEp(Slot(w, EP, i));
        EndReadableAt(v, o, i);
      }
    }
    if EndsEnded(v, o) {
      forall i | 0 <= i < w[2128]
        ensures WfEp(Slot(w, EP, i))
      {
        assert EndEnded(v, o + 133 * i);
        EndReadableAt(v, o, i);
      }
    }
  }

  ghost predicate PairsEnded(v: seq<int>, o: nat)
    requires o + 2081 <= |v|
  {
    0 <= v[o + 2080] <= 16 && forall i | 0 <= i < v[o + 2080] :: Ended(v, o + 130 * i) && Ended(v, o + 130 * i + 65)
  }

  lemma PairReadableAt(v: seq<int>, o: nat, i: nat)
    requires o + 2081 <= |v| && i < 16
    ensures (i + 1) * KV <= 2081
    ensures WfKv(Slot(v[o..o + 2081], KV, i)) <==> Ended(v, o + 130 * i) && Ended(v, o + 130 * i + 65)
  {
    hide Terminated, Ended;
    SlotBounds(i, 16, KV);
    SubView(v, o, o + 2081, 130 * i, 130 * i + 130);
    SubView(v, o + 130 * i, o + 130 * i + 130, 0, 65);
    SubView(v, o + 130 * i, o + 130 * i + 130, 65, 130);
    TextReadable(v, o + 130 * i);
    TextReadable(v, o + 130 * i + 65);
    assert Slot(v[o..o + 2081], KV, i) == v[o + 130 * i..o + 130 * i + 130];
  }

  lemma PairsReadable(v: seq<int>, o: nat)
    requires o + 2081 <= |v|
    ensures WfKvs(v[o..o + 2081]) <==> PairsEnded(v, o)
  {
    hide Terminated, Ended, WfKv;
    var w := v[o..o + 2081];
    assert w[2080] == v[o + 2080];
    if WfKvs(w) {
      forall i | 0 <= i < v[o + 2080]
        ensures Ended(v, o + 130 * i) && Ended(v, o + 130 * i + 65)
      {
        assert WfKv(Slot(w, KV, i));
        PairReadableAt(v, o, i);
      }
    }
    if PairsEnded(v, o) {
      forall i | 0 <= i < w[2080]
        ensures WfKv(Slot(w, KV, i))
      {
        assert Ended(v, o + 130 * i) && Ended(v, o + 130 * i + 65);
        PairReadableAt(v, o, i);
      }
    }
  }

  lemma FrontReadable(v: seq<int>)
    requires 131 <= |v|
    ensures WfHead(v[0..131]) <==> Ended(v, 0) && Ended(v, 65)
  {
    hide Terminated, Ended;
    SubView(v, 0, 131, 0, 65);
    SubView(v, 0, 131, 65, 130);
    TextReadable(v, 0);
    TextReadable(v, 65);
  }

  /** What a record of each kind must fulfil to be read, and nothing more: sizes within the arrays, and a NUL in every
      text that is used. */
  ghost predicate Readable(kind: Kind, v: seq<int>)
    requires |v| == Size(kind)
  {
    Ended(v, 0) && Ended(v, 65) &&
    match kind
    case KGateway => true
    case KSteering => EndEnded(v, 131)
    case KUserPlane => Ended(v, 131) && TextsEnded(v, 199) && EndEnded(v, 1240)
    case KSession =>
      && Ended(v, 131) && TextsEnded(v, 196) && Ended(v, 1238) && Ended(v, 1303) && Ended(v, 1368)
      && Ended(v, 1435) && Ended(v, 1500) && Ended(v, 1565) && Ended(v, 1630)
    case KShard =>
      && Ended(v, 132) && Ended(v, 197) && TextsEnded(v, 262) && TextsEnded(v, 1303)
      && TextsEnded(v, 2346) && Ended(v, 3387) && PairsEnded(v, 3452)
    case KNetwork =>
      && PairsEnded(v, 4392)
      && (v[133] == 0 ==> EndsEnded(v, 134) && EndEnded(v, 2263))
      && (v[133] == 1 ==> EndsEnded(v, 134) && EndsEnded(v, 2263))
      && (v[133] == 2 ==> EndEnded(v, 134) && EndEnded(v, 267))
      && (v[133] == 3 ==> EndEnded(v, 134) && EndsEnded(v, 267))
  }

  lemma ReadableIs(kind: Kind, v: seq<int>)
    requires |v| == Size(kind)
    ensures Wf(kind, v) <==> Readable(kind, v)
  {
    hide Terminated, Ended, WfStrs, TextsEnded, WfEp, EndEnded, WfEps, EndsEnded, WfKvs, PairsEnded, WfHead;
    FrontReadable(v);
    match kind {
      case KGateway => assert v[0..131] == v;
      case KSteering => EndReadable(v, 131);
      case KUserPlane => SgupReadable(v);
      case KSession => SessionReadable(v);
      case KShard => ShardReadable(v);
      case KNetwork => NcReadable(v);
    }
  }

  lemma SgupReadable(v: seq<int>)
    requires |v| == 1375
    ensures WfSgup(v) <==>
              WfHead(v[0..131]) && Ended(v, 131) && TextsEnded(v, 199) && EndEnded(v, 1240)
  {
    hide Terminated, Ended, WfStrs, TextsEnded, WfEp, EndEnded, WfHead;
    SubView(v, 197, 1373, 2, 1043);
    SubView(v, 197, 1373, 1043, 1176);
    TextReadable(v, 131);
    TextsReadable(v, 199);
    EndReadable(v, 1240);
  }

  lemma SessionReadable(v: seq<int>)
    requires |v| == 1695
    ensures WfSession(v) <==>
              && WfHead(v[0..131])
              && Ended(v, 131) && TextsEnded(v, 196) && Ended(v, 1238) && Ended(v, 1303) && Ended(v, 1368)
              && Ended(v, 1435) && Ended(v, 1500) && Ended(v, 1565) && Ended(v, 1630)
  {
    hide Terminated, Ended, WfStrs, TextsEnded, WfHead;
    SubView(v, 131, 1565, 0, 65);
    SubView(v, 131, 1565, 65, 1106);
    SubView(v, 131, 1565, 1107, 1172);
    SubView(v, 131, 1565, 1172, 1237);
    SubView(v, 131, 1565, 1237, 1304);
    SubView(v, 1368, 1435, 0, 65);
    SubView(v, 131, 1565, 1304, 1369);
    SubView(v, 131, 1565, 1369, 1434);
    TextReadable(v, 131);
    TextsReadable(v, 196);
    TextReadable(v, 1238);
    TextReadable(v, 1303);
    TextReadable(v, 1368);
    TextReadable(v, 1435);
    TextReadable(v, 1500);
    TextReadable(v, 1565);
    TextReadable(v, 1630);
  }

  lemma ShardReadable(v: seq<int>)
    requires |v| == 5534
    ensures WfShard(v) <==>
              && WfHead(v[0..131])
              && Ended(v, 132) && Ended(v, 197) && TextsEnded(v, 262) && TextsEnded(v, 1303)
              && TextsEnded(v, 2346) && Ended(v, 3387) && PairsEnded(v, 3452)
  {
    hide Terminated, Ended, WfStrs, TextsEnded, WfKvs, PairsEnded, WfHead;
    SubView(v, 131, 2344, 1, 66);
    SubView(v, 131, 2344, 66, 1172);
    SubView(v, 197, 1303, 0, 65);
    SubView(v, 197, 1303, 65, 1106);
    SubView(v, 131, 2344, 1172, 2213);
    SubView(v, 2344, 5533, 2, 1043);
    SubView(v, 2344, 5533, 1043, 3189);
    SubView(v, 3387, 5533, 0, 65);
    SubView(v, 3387, 5533, 65, 2146);
    TextReadable(v, 132);
    TextReadable(v, 197);
    TextsReadable(v, 262);
    TextsReadable(v, 1303);
    TextsReadable(v, 2346);
    TextReadable(v, 3387);
    PairsReadable(v, 3452);
  }

  lemma NcReadable(v: seq<int>)
    requires |v| == 6474
    ensures WfNc(v) <==>
              && WfHead(v[0..131]) && PairsEnded(v, 4392)
              && (v[133] == 0 ==> EndsEnded(v, 134) && EndEnded(v, 2263))
              && (v[133] == 1 ==> EndsEnded(v, 134) && EndsEnded(v, 2263))
              && (v[133] == 2 ==> EndEnded(v, 134) && EndEnded(v, 267))
              && (v[133] == 3 ==> EndEnded(v, 134) && EndsEnded(v, 267))
  {
    hide WfEp, EndEnded, WfEps, EndsEnded, WfKvs, PairsEnded, WfHead;
    SubView(v, 132, 4392, 2, 4260);
    SubView(v, 4392, 6474, 0, 2081);
    SubView(v, 134, 4392, 0, 2129);
    SubView(v, 134, 4392, 2129, 2262);
    SubView(v, 134, 4392, 2129, 4258);
    SubView(v, 134, 4392, 0, 133);
    SubView(v, 134, 4392, 133, 266);
    SubView(v, 134, 4392, 133, 2262);
    PairsReadable(v, 4392);
    EndsReadable(v, 134);
    EndReadable(v, 2263);
    EndsReadable(v, 2263);
    EndReadable(v, 134);
    EndReadable(v, 267);
    EndsReadable(v, 267);
  }

  // ---- the default message ----

  /** A message in which nothing is set is written as a cleared record. */
  lemma DefaultIsClear(kind: Kind)
    ensures NameOf(Default(kind)) == [] && MapKeys(Default(kind)) == {} && Visits([], {})
    ensures Image(kind, Default(kind), []) == Zeros(Size(kind))
  {
    hide StrImage, StrsImage, EpImage, EpsImage, HeadImage, ShardSpecImage, ShardStatusImage, SessionSpecImage,
         NcSpecImage, NcStatusImage, SgupSpecImage;
    StrZero();
    EpZero();
    FrontZero();
    match kind {
      case KShard => ShardZero();
      case KSession => SessionZero();
      case KNetwork => NcZero();
      case KUserPlane => SgupZero();
      case KSteering =>
      case KGateway =>
    }
  }

  lemma FrontZero()
    ensures HeadImage([], None) == Zeros(131)
  {
    hide StrImage;
    StrZero();
  }

  lemma ShardZero()
    ensures ShardSpecImage(NO_SHARD_SPEC) == Zeros(2213)
    ensures Visits([], {}) && ShardStatusImage(NO_SHARD_STATUS, []) == Zeros(3189)
  {
    hide StrImage, StrsImage, KvsImage;
    StrZero();
    StrsZero();
    KvsZero();
    assert Entries(NO_SHARD_CURRENT.tsfNetworkConnection, []) == [];
  }

  lemma SessionZero()
    ensures SessionSpecImage(NO_SESSION_SPEC) == Zeros(1434)
  {
    hide StrImage, StrsImage;
    StrZero();
    StrsZero();
  }

  lemma NcZero()
    ensures NcSpecImage(NO_NC_SPEC) == Zeros(4260)
    ensures Visits([], {}) && NcStatusImage(NO_NC_STATUS, []) == Zeros(2082)
  {
    hide KvsImage;
    KvsZero();
    assert FlagPairs(NO_NC_STATUS.ncActive, []) == [];
  }

  lemma SgupZero()
    ensures SgupSpecImage(NO_SGUP_SPEC) == Zeros(1176)
  {
    hide StrsImage, EpImage;
    StrsZero();
    EpZero();
  }

  lemma StrsZero()
    ensures StrsImage([]) == Zeros(1041)
  {
    assert StrSlots(Take([])) == [];
  }

  lemma KvsZero()
    ensures KvsImage([]) == Zeros(2081)
  {
    assert KvSlots([]) == [];
  }
}
