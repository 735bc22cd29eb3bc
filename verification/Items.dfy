/** The six kinds of item behind one name: the overload set of the codec, chosen by kind. The C and C++ code
    repeats every operation once for each kind; here the kind is a parameter. */
module Items {
  import opened Cells
  import opened CStrings
  import opened Messages
  import opened Heads
  import opened KeyValues
  import N = NetworkConnections
  import S = Shards
  import G = Gateways
  import X = Sessions

  datatype Kind = KShard | KSession | KNetwork | KUserPlane | KSteering | KGateway

  /** The `oneof` of an Item. */
  datatype Item =
    | NoItem
    | OfShard(shard: Shard)
    | OfSession(session: SessionContext)
    | OfNetwork(network: NetworkConnection)
    | OfUserPlane(userPlane: ServiceGatewayUserPlane)
    | OfSteering(steering: TrafficSteeringFunction)
    | OfGateway(gateway: ServiceGateway)

  /** `item.has_...()` */
  predicate Has(kind: Kind, item: Item) {
    match kind
    case KShard => item.OfShard?
    case KSession => item.OfSession?
    case KNetwork => item.OfNetwork?
    case KUserPlane => item.OfUserPlane?
    case KSteering => item.OfSteering?
    case KGateway => item.OfGateway?
  }

  function Default(kind: Kind): (item: Item)
    ensures Has(kind, item)
  {
    match kind
    case KShard => OfShard(Shard([], None, None, None, None))
    case KSession => OfSession(SessionContext([], None, None, None))
    case KNetwork => OfNetwork(NetworkConnection([], None, None, None, None))
    case KUserPlane => OfUserPlane(ServiceGatewayUserPlane([], [], None, None, None, None))
    case KSteering => OfSteering(TrafficSteeringFunction([], None, None))
    case KGateway => OfGateway(ServiceGateway([], None))
  }

  /** `item.shard()` and its like: the default instance when the `oneof` holds something else. */
  function As(kind: Kind, item: Item): (it: Item)
    ensures Has(kind, it) && (it == item <==> Has(kind, item))
  {
    if Has(kind, item) then item else Default(kind)
  }

  function NameOf(item: Item): PString {
    match item
    case NoItem => []
    case OfShard(x) => x.name
    case OfSession(x) => x.name
    case OfNetwork(x) => x.name
    case OfUserPlane(x) => x.name
    case OfSteering(x) => x.name
    case OfGateway(x) => x.name
  }

  /** Cells of the C record of a kind. */
  function Size(kind: Kind): (n: nat)
    ensures HEAD <= n
  {
    match kind
    case KShard => S.SHARD
    case KSession => X.SESSION
    case KNetwork => N.NC
    case KUserPlane => G.SGUP
    case KSteering => G.TSF
    case KGateway => HEAD
  }

  /** The keys of the one map field an item may have. */
  function MapKeys(item: Item): set<PString> {
    match item
    case OfShard(x) => S.Tsfs(x).Keys
    case OfNetwork(x) => N.Flags(x).Keys
    case _ => {}
  }

  /** The record an item is written to when its map is visited in `order`. */
  function Image(kind: Kind, item: Item, order: seq<PString>): (v: seq<int>)
    requires Has(kind, item) && Visits(order, MapKeys(item))
    ensures |v| == Size(kind)
  {
    hide S.ShardImage, X.SessionImage, N.NcImage, G.SgupImage, G.TsfImage, HeadImage, Visits;
    match item
    case OfShard(x) => S.ShardImage(x, order)
    case OfSession(x) => X.SessionImage(x)
    case OfNetwork(x) => N.NcImage(x, order)
    case OfUserPlane(x) => G.SgupImage(x)
    case OfSteering(x) => G.TsfImage(x)
    case OfGateway(x) => G.SgImage(x)
  }

  /** `v` is the record of `item`, for some order its map may be visited in. */
  ghost predicate Records(kind: Kind, item: Item, v: seq<int>)
    requires Has(kind, item)
  {
    exists order :: Visits(order, MapKeys(item)) && v == Image(kind, item, order)
  }

  ghost predicate Wf(kind: Kind, v: seq<int>)
    requires |v| == Size(kind)
  {
    match kind
    case KShard => S.WfShard(v)
    case KSession => X.WfSession(v)
    case KNetwork => N.WfNc(v)
    case KUserPlane => G.WfSgup(v)
    case KSteering => G.WfTsf(v)
    case KGateway => WfHead(v)
  }

  function Decode(kind: Kind, v: seq<int>): (item: Item)
    requires |v| == Size(kind) && Wf(kind, v)
    ensures Has(kind, item)
  {
    match kind
    case KShard => OfShard(S.DecodeShard(v))
    case KSession => OfSession(X.DecodeSession(v))
    case KNetwork => OfNetwork(N.DecodeNc(v))
    case KUserPlane => OfUserPlane(G.DecodeSgup(v))
    case KSteering => OfSteering(G.DecodeTsf(v))
    case KGateway => OfGateway(G.DecodeSg(v))
  }

  ghost predicate Canon(kind: Kind, v: seq<int>) {
    match kind
    case KShard => S.CanonShard(v)
    case KSession => X.CanonSession(v)
    case KNetwork => N.CanonNc(v)
    case KUserPlane => G.CanonSgup(v)
    case KSteering => G.CanonTsf(v)
    case KGateway => CanonHead(v)
  }

  /** An item as it comes back from its C record. */
  function Norm(item: Item, order: seq<PString>): Item
    requires Visits(order, MapKeys(item))
  {
    match item
    case NoItem => NoItem
    case OfShard(x) => OfShard(S.NormShard(x, order))
    case OfSession(x) => OfSession(X.NormSession(x))
    case OfNetwork(x) => OfNetwork(N.NormNc(x, order))
    case OfUserPlane(x) => OfUserPlane(G.NormSgup(x))
    case OfSteering(x) => OfSteering(G.NormTsf(x))
    case OfGateway(x) => OfGateway(G.NormSg(x))
  }

  /** Whatever the message and the iteration order: the record is canonical, can be read back, and reads back as
      the normalised message. */
  lemma There(kind: Kind, item: Item, order: seq<PString>)
    requires Has(kind, item) && Visits(order, MapKeys(item))
    ensures var v := Image(kind, item, order);
            Canon(kind, v) && Wf(kind, v) && Decode(kind, v) == Norm(item, order)
  {
    hide S.ShardImage, S.CanonShard, S.WfShard, S.DecodeShard, S.NormShard, X.SessionImage, X.CanonSession, X.WfSession,
         X.DecodeSession, X.NormSession, N.NcImage, N.CanonNc, N.WfNc, N.DecodeNc, N.NormNc, G.SgupImage, G.CanonSgup,
         G.WfSgup, G.DecodeSgup, G.NormSgup, G.TsfImage, G.CanonTsf, G.WfTsf, G.DecodeTsf, G.NormTsf, Visits;
    match item {
      case OfShard(x) => S.ShardThere(x, order);
      case OfSession(x) => X.SessionThere(x);
      case OfNetwork(x) => N.NcThere(x, order);
      case OfUserPlane(x) => G.SgupThere(x);
      case OfSteering(x) => G.TsfThere(x);
      case OfGateway(x) => G.SgThere(x);
    }
  }

  /** The four kinds without a map field. */
  predicate Exact(kind: Kind) {
    kind in {KSession, KUserPlane, KSteering, KGateway}
  }

  /** For them a readable record is unchanged by C to proto to C exactly when it is canonical. */
  lemma Back(kind: Kind, v: seq<int>, order: seq<PString>)
    requires Exact(kind) && |v| == Size(kind) && Wf(kind, v) && Visits(order, MapKeys(Decode(kind, v)))
    ensures Image(kind, Decode(kind, v), order) == v <==> Canon(kind, v)
  {
    hide Image, Canon, Wf, Decode, Norm, Visits;
    There(kind, Decode(kind, v), order);
    if Canon(kind, v) {
      CanonBack(kind, v, order);
    }
  }

  lemma CanonBack(kind: Kind, v: seq<int>, order: seq<PString>)
    requires Exact(kind) && Canon(kind, v)
    requires |v| == Size(kind) && Wf(kind, v) && Visits(order, MapKeys(Decode(kind, v)))
    ensures Image(kind, Decode(kind, v), order) == v
  {
    hide X.SessionImage, X.CanonSession, X.WfSession, X.DecodeSession, G.SgupImage, G.CanonSgup, G.WfSgup, G.DecodeSgup,
         G.TsfImage, G.CanonTsf, G.WfTsf, G.DecodeTsf, G.SgImage, G.DecodeSg, CanonHead, WfHead;
    match kind {
      case KSession => X.SessionBack(v);
      case KUserPlane => G.SgupBack(v);
      case KSteering => G.TsfBack(v);
      case KGateway => G.SgBack(v);
    }
  }

  lemma CanonSize(kind: Kind, v: seq<int>)
    requires Canon(kind, v)
    ensures |v| == Size(kind)
  {
  }

  /** Canonical records can be read. */
  lemma CanonWf(kind: Kind, v: seq<int>)
    requires Canon(kind, v)
    ensures |v| == Size(kind) && Wf(kind, v)
  {
    CanonSize(kind, v);
    hide X.SessionImage, X.CanonSession, X.WfSession, X.DecodeSession, G.SgupImage, G.CanonSgup, G.WfSgup, G.DecodeSgup,
         G.TsfImage, G.CanonTsf, G.WfTsf, G.DecodeTsf, G.SgImage, G.DecodeSg, CanonHead, WfHead, S.CanonShard,
         S.WfShard, N.CanonNc, N.WfNc;
    match kind {
      case KShard => S.CanonShardWf(v);
      case KSession => X.SessionBack(v);
      case KNetwork => N.CanonNcWf(v);
      case KUserPlane => G.SgupBack(v);
      case KSteering => G.TsfBack(v);
      case KGateway => G.SgBack(v);
    }
  }

  /** Every record starts with the name. */
  lemma NameAtFront(kind: Kind, item: Item, order: seq<PString>)
    requires Has(kind, item) && Visits(order, MapKeys(item))
    ensures Image(kind, item, order)[0..STR] == StrImage(NameOf(item))
  {
    hide S.ShardSpecImage, S.ShardStatusImage, X.SessionSpecImage, N.NcStatusImage, G.SgupSpecImage,
         StrImage;
  }

  /** `UpsfMapping::map(item, buffer)` */
  method Put(kind: Kind, item: Item, mem: array<int>, o: nat) returns (ghost order: seq<PString>)
    requires Has(kind, item) && o + Size(kind) <= mem.Length
    modifies mem
    ensures Visits(order, MapKeys(item))
    ensures mem[o..o + Size(kind)] == Image(kind, item, order)
    ensures Outside(old(mem[..]), mem[..], o, o + Size(kind))
  {
    hide S.ShardImage, X.SessionImage, N.NcImage, G.SgupImage, G.TsfImage, Outside;
    order := [];
    match item {
      case OfShard(x) => order := S.PutShard(mem, o, x);
      case OfSession(x) => X.PutSession(mem, o, x);
      case OfNetwork(x) => order := N.PutNc(mem, o, x);
      case OfUserPlane(x) => G.PutSgup(mem, o, x);
      case OfSteering(x) => G.PutTsf(mem, o, x);
      case OfGateway(x) => G.PutSg(mem, o, x);
    }
  }

  /** `UpsfMapping::map(buffer, item)` */
  method Get(kind: Kind, mem: array<int>, o: nat) returns (item: Item)
    requires o + Size(kind) <= mem.Length && Wf(kind, mem[o..o + Size(kind)])
    ensures item == Decode(kind, mem[o..o + Size(kind)])
  {
    hide S.WfShard, S.DecodeShard, X.WfSession, X.DecodeSession, N.WfNc, N.DecodeNc, G.WfSgup, G.DecodeSgup, G.WfTsf,
         G.DecodeTsf, WfHead;
    match kind {
      case KShard => var x := S.GetShard(mem, o); item := OfShard(x);
      case KSession => var x := X.GetSession(mem, o); item := OfSession(x);
      case KNetwork => var x := N.GetNc(mem, o); item := OfNetwork(x);
      case KUserPlane => var x := G.GetSgup(mem, o); item := OfUserPlane(x);
      case KSteering => var x := G.GetTsf(mem, o); item := OfSteering(x);
      case KGateway => var x := G.GetSg(mem, o); item := OfGateway(x);
    }
  }
}
