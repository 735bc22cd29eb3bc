/** The WT-474 messages. A message-typed field has presence, so it is an `Option`; reading an absent one gives
    the default instance. A `oneof` is a datatype with an arm for "not set". Enums are open: any int. */
module Messages {
  import opened CStrings

  datatype Option<+T> = None | Some(value: T) {
    function GetOr(default: T): T {
      match this
      case Some(v) => v
      case None => default
    }
  }

  datatype Timestamp = Timestamp(seconds: int, nanos: int)

  datatype MetaData = MetaData(
    description: PString, created: Option<Timestamp>, lastUpdated: Option<Timestamp>, derivedState: int)

  const NO_METADATA := MetaData([], None, None, 0)

  datatype Maintenance = Maintenance(maintenanceReq: int)

  const NO_MAINTENANCE := Maintenance(0)

  // ---- network connection ----

  datatype Vtep = Vtep(ipAddress: PString, udpPort: int, vni: int)

  datatype L2vpn = L2vpn(vpnId: int)

  datatype PortVlan = PortVlan(logicalPort: PString, svlan: int, cvlan: int)

  datatype Transport =
    | NoTransport
    | OfVtep(vtep: Vtep)
    | OfL2vpn(l2vpn: L2vpn)
    | OfPortVlan(portVlan: PortVlan)

  datatype Endpoint = Endpoint(endpointName: PString, transport: Transport)

  const NO_ENDPOINT := Endpoint([], NoTransport)

  datatype NcArm =
    | NoArm
    | SsPtp(sgups: seq<Endpoint>, tsf: Option<Endpoint>)
    | SsMptpc(sgups: seq<Endpoint>, tsfs: seq<Endpoint>)
    | MsPtp(sgup: Option<Endpoint>, tsf: Option<Endpoint>)
    | MsMptp(sgup: Option<Endpoint>, tsfs: seq<Endpoint>)

  datatype NcSpec = NcSpec(maximumSupportedQuality: int, arm: NcArm)

  const NO_NC_SPEC := NcSpec(0, NoArm)

  datatype NcStatus = NcStatus(ncActive: map<PString, bool>, allocatedShards: int)

  const NO_NC_STATUS := NcStatus(map[], 0)

  datatype NetworkConnection = NetworkConnection(
    name: PString, metadata: Option<MetaData>, maintenance: Option<Maintenance>,
    spec: Option<NcSpec>, status: Option<NcStatus>)

  // ---- shard ----

  datatype ShardDesired = ShardDesired(serviceGatewayUserPlane: PString, networkConnection: seq<PString>)

  const NO_SHARD_DESIRED := ShardDesired([], [])

  datatype ShardSpec = ShardSpec(
    maxSessionCount: int, virtualMac: PString, desiredState: Option<ShardDesired>, prefix: seq<PString>)

  const NO_SHARD_SPEC := ShardSpec(0, [], None, [])

  datatype ShardCurrent = ShardCurrent(
    serviceGatewayUserPlane: PString, tsfNetworkConnection: map<PString, PString>)

  const NO_SHARD_CURRENT := ShardCurrent([], map[])

  datatype ShardStatus = ShardStatus(
    allocatedSessionCount: int, maximumAllocatedQuality: int, serviceGroupsSupported: seq<PString>,
    currentState: Option<ShardCurrent>)

  const NO_SHARD_STATUS := ShardStatus(0, 0, [], None)

  datatype Mbb = Mbb(mbbState: int)

  const NO_MBB := Mbb(0)

  datatype Shard = Shard(
    name: PString, metadata: Option<MetaData>, spec: Option<ShardSpec>, status: Option<ShardStatus>,
    mbb: Option<Mbb>)

  // ---- service gateway, its user plane, traffic steering function ----

  datatype ServiceGateway = ServiceGateway(name: PString, metadata: Option<MetaData>)

  datatype SgupSpec = SgupSpec(
    maxSessionCount: int, maxShards: int, supportedServiceGroup: seq<PString>, defaultEndpoint: Option<Endpoint>)

  const NO_SGUP_SPEC := SgupSpec(0, 0, [], None)

  datatype SgupStatus = SgupStatus(allocatedSessionCount: int, allocatedShards: int)

  const NO_SGUP_STATUS := SgupStatus(0, 0)

  datatype ServiceGatewayUserPlane = ServiceGatewayUserPlane(
    name: PString, serviceGatewayName: PString, metadata: Option<MetaData>, maintenance: Option<Maintenance>,
    spec: Option<SgupSpec>, status: Option<SgupStatus>)

  datatype TsfSpec = TsfSpec(defaultEndpoint: Option<Endpoint>)

  const NO_TSF_SPEC := TsfSpec(None)

  datatype TrafficSteeringFunction = TrafficSteeringFunction(
    name: PString, metadata: Option<MetaData>, spec: Option<TsfSpec>)

  // ---- session context ----

  datatype SessionFilter = SessionFilter(sourceMacAddress: PString, svlan: int, cvlan: int)

  const NO_FILTER := SessionFilter([], 0, 0)

  datatype SessionDesired = SessionDesired(shard: PString)

  const NO_SESSION_DESIRED := SessionDesired([])

  datatype SessionSpec = SessionSpec(
    trafficSteeringFunction: PString, requiredServiceGroup: seq<PString>, requiredQuality: int,
    circuitId: PString, remoteId: PString, sessionFilter: Option<SessionFilter>,
    desiredState: Option<SessionDesired>, networkConnection: PString)

  const NO_SESSION_SPEC := SessionSpec([], [], 0, [], [], None, None, [])

  datatype SessionCurrent = SessionCurrent(userPlaneShard: PString, tsfShard: PString)

  const NO_SESSION_CURRENT := SessionCurrent([], [])

  datatype SessionStatus = SessionStatus(currentState: Option<SessionCurrent>)

  const NO_SESSION_STATUS := SessionStatus(None)

  datatype SessionContext = SessionContext(
    name: PString, metadata: Option<MetaData>, spec: Option<SessionSpec>, status: Option<SessionStatus>)
}
