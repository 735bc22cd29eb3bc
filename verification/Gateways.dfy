/** Service gateway, service gateway user plane and traffic steering function. */
module Gateways {
  import opened Cells
  import opened CStrings
  import opened Messages
  import opened Heads
  import opened Endpoints

  /** max_session_count, max_shards, supported_service_group and its size, default_endpoint. */
  const SGUP_SPEC: nat := 1176
  const GROUPS_END: nat := 1043
  /** name, metadata, service_gateway_name, maintenance, spec, status. */
  const SGUP: nat := 1375
  const MAINT_AT: nat := 196
  const SGUP_SPEC_AT: nat := 197
  const SGUP_STATUS_AT: nat := 1373
  /** name, metadata, spec. */
  const TSF: nat := 264

  // ---- service gateway ----

  function NormSg(g: ServiceGateway): ServiceGateway {
    ServiceGateway(Cut(g.name), NormMeta(g.metadata))
  }

  function SgImage(g: ServiceGateway): (v: seq<int>)
    ensures |v| == HEAD
  {
    HeadImage(g.name, g.metadata)
  }

  function DecodeSg(v: seq<int>): ServiceGateway
    requires |v| == HEAD
  {
    ServiceGateway(HeadName(v), HeadMeta(v))
  }

  lemma SgThere(g: ServiceGateway)
    ensures CanonHead(SgImage(g)) && WfHead(SgImage(g)) && DecodeSg(SgImage(g)) == NormSg(g)
    ensures NormSg(NormSg(g)) == NormSg(g)
  {
    HeadThere(g.name, g.metadata);
    CutFixed(g.name);
    NormMetaTwice(g.metadata);
  }

  lemma SgBack(v: seq<int>)
    requires CanonHead(v)
    ensures WfHead(v) && SgImage(DecodeSg(v)) == v
  {
    HeadBack(v);
  }

  method PutSg(mem: array<int>, o: nat, g: ServiceGateway)
    requires o + HEAD <= mem.Length
    modifies mem
    ensures mem[o..o + HEAD] == SgImage(g)
    ensures Outside(old(mem[..]), mem[..], o, o + HEAD)
  {
    hide Building, Outside, HeadImage;
    ghost var b := Clear(mem, o, HEAD);
    b := AppendHead(mem, o, g.name, g.metadata, b);
    Finish(mem[..], b);
  }

  method GetSg(mem: array<int>, o: nat) returns (g: ServiceGateway)
    requires o + HEAD <= mem.Length && WfHead(mem[o..o + HEAD])
    ensures g == DecodeSg(mem[o..o + HEAD])
  {
    var name, metadata := GetHead(mem, o);
    g := ServiceGateway(name, metadata);
  }

  // ---- service gateway user plane ----

  function SgupSpecImage(s: SgupSpec): (v: seq<int>)
    ensures |v| == SGUP_SPEC
  {
    [s.maxSessionCount] + [s.maxShards] + StrsImage(s.supportedServiceGroup)
    + EpImage(s.defaultEndpoint.GetOr(NO_ENDPOINT))
  }

  function SgupImage(g: ServiceGatewayUserPlane): (v: seq<int>)
    ensures |v| == SGUP
  {
    var status := g.status.GetOr(NO_SGUP_STATUS);
    HeadImage(g.name, g.metadata) + StrImage(g.serviceGatewayName)
    + [g.maintenance.GetOr(NO_MAINTENANCE).maintenanceReq]
    + SgupSpecImage(g.spec.GetOr(NO_SGUP_SPEC))
    + [status.allocatedSessionCount] + [status.allocatedShards]
  }

  ghost predicate WfSgupSpec(v: seq<int>)
    requires |v| == SGUP_SPEC
  {
    WfStrs(v[2..GROUPS_END]) && WfEp(v[GROUPS_END..SGUP_SPEC])
  }

  function DecodeSgupSpec(v: seq<int>): SgupSpec
    requires |v| == SGUP_SPEC && WfSgupSpec(v)
  {
    SgupSpec(v[0], v[1], DecodeStrs(v[2..GROUPS_END]), Some(DecodeEp(v[GROUPS_END..SGUP_SPEC])))
  }

  ghost predicate WfSgup(v: seq<int>)
    requires |v| == SGUP
  {
    WfHead(v[0..HEAD]) && Terminated(v[HEAD..MAINT_AT]) && WfSgupSpec(v[SGUP_SPEC_AT..SGUP_STATUS_AT])
  }

  function DecodeSgup(v: seq<int>): ServiceGatewayUserPlane
    requires |v| == SGUP && WfSgup(v)
  {
    ServiceGatewayUserPlane(
      HeadName(v[0..HEAD]), CStr(v[HEAD..MAINT_AT]), HeadMeta(v[0..HEAD]), Some(Maintenance(v[MAINT_AT])),
      Some(DecodeSgupSpec(v[SGUP_SPEC_AT..SGUP_STATUS_AT])), Some(SgupStatus(v[SGUP_STATUS_AT], v[SGUP - 1])))
  }

  ghost predicate CanonSgup(v: seq<int>) {
    && |v| == SGUP
    && CanonHead(v[0..HEAD])
    && CanonStr(v[HEAD..MAINT_AT])
    && CanonStrs(v[SGUP_SPEC_AT..SGUP_STATUS_AT][2..GROUPS_END])
    && CanonEp(v[SGUP_SPEC_AT..SGUP_STATUS_AT][GROUPS_END..SGUP_SPEC])
  }

  function NormSgupSpec(s: SgupSpec): SgupSpec {
    s.(supportedServiceGroup := NormStrs(s.supportedServiceGroup),
       defaultEndpoint := Some(NormEp(s.defaultEndpoint.GetOr(NO_ENDPOINT))))
  }

  function NormSgup(g: ServiceGatewayUserPlane): ServiceGatewayUserPlane {
    ServiceGatewayUserPlane(
      Cut(g.name), Cut(g.serviceGatewayName), NormMeta(g.metadata), Some(g.maintenance.GetOr(NO_MAINTENANCE)),
      Some(NormSgupSpec(g.spec.GetOr(NO_SGUP_SPEC))), Some(g.status.GetOr(NO_SGUP_STATUS)))
  }

  lemma SgupSpecThere(s: SgupSpec)
    ensures var v := SgupSpecImage(s);
            && CanonStrs(v[2..GROUPS_END]) && CanonEp(v[GROUPS_END..SGUP_SPEC])
            && WfSgupSpec(v) && DecodeSgupSpec(v) == NormSgupSpec(s)
  {
    hide StrsImage, CanonStrs, WfStrs, DecodeStrs, EpImage, CanonEp, WfEp, DecodeEp, NormEp, NormStrs;
    var v, e := SgupSpecImage(s), s.defaultEndpoint.GetOr(NO_ENDPOINT);
    StrsThere(s.supportedServiceGroup);
    EpThere(e);
    assert v[2..GROUPS_END] == StrsImage(s.supportedServiceGroup) && v[GROUPS_END..SGUP_SPEC] == EpImage(e);
  }

  lemma SgupThere(g: ServiceGatewayUserPlane)
    ensures CanonSgup(SgupImage(g)) && WfSgup(SgupImage(g)) && DecodeSgup(SgupImage(g)) == NormSgup(g)
  {
    hide HeadImage, CanonHead, WfHead, HeadName, HeadMeta, StrImage, CanonStr, Terminated, CStr, SgupSpecImage,
         WfSgupSpec, DecodeSgupSpec, CanonStrs, CanonEp, NormMeta, NormSgupSpec;
    var v, spec := SgupImage(g), g.spec.GetOr(NO_SGUP_SPEC);
    HeadThere(g.name, g.metadata);
    StrThere(g.serviceGatewayName);
    SgupSpecThere(spec);
    assert v[0..HEAD] == HeadImage(g.name, g.metadata) && v[HEAD..MAINT_AT] == StrImage(g.serviceGatewayName);
    assert v[SGUP_SPEC_AT..SGUP_STATUS_AT] == SgupSpecImage(spec);
  }

  lemma SgupTwice(g: ServiceGatewayUserPlane)
    ensures NormSgup(NormSgup(g)) == NormSgup(g)
  {
    hide NormMeta, NormStrs, NormEp;
    var spec := g.spec.GetOr(NO_SGUP_SPEC);
    CutFixed(g.name);
    CutFixed(g.serviceGatewayName);
    NormMetaTwice(g.metadata);
    NormStrsTwice(spec.supportedServiceGroup);
    NormEpTwice(spec.defaultEndpoint.GetOr(NO_ENDPOINT));
  }

  lemma SgupBack(v: seq<int>)
    requires CanonSgup(v)
    ensures WfSgup(v) && SgupImage(DecodeSgup(v)) == v
  {
    hide HeadImage, CanonHead, WfHead, HeadName, HeadMeta, StrImage, CanonStr, Terminated, CStr, StrsImage, CanonStrs,
         WfStrs, DecodeStrs, EpImage, CanonEp, WfEp, DecodeEp;
    var s := v[SGUP_SPEC_AT..SGUP_STATUS_AT];
    HeadBack(v[0..HEAD]);
    StrBack(v[HEAD..MAINT_AT]);
    StrsBack(s[2..GROUPS_END]);
    EpBack(s[GROUPS_END..SGUP_SPEC]);
    assert s == [s[0]] + [s[1]] + s[2..GROUPS_END] + s[GROUPS_END..SGUP_SPEC];
    assert v == v[0..HEAD] + v[HEAD..MAINT_AT] + [v[MAINT_AT]] + s + [v[SGUP_STATUS_AT]] + [v[SGUP - 1]];
  }

  method AppendSgupSpec(mem: array<int>, p: nat, s: SgupSpec, ghost b: Build)
    returns (ghost b': Build, warned: bool)
    requires Building(mem[..], b) && p == b.At() && p + SGUP_SPEC <= b.end
    modifies mem
    ensures b' == b.Then(SgupSpecImage(s)) && Building(mem[..], b')
    ensures warned <==> Take(s.supportedServiceGroup) != s.supportedServiceGroup
  {
    hide Building, Outside, StrsImage, EpImage;
    ghost var c := Open(mem, p, SGUP_SPEC, b);
    c := Append(mem, p, s.maxSessionCount, c);
    c := Append(mem, p + 1, s.maxShards, c);
    c, warned := AppendStrings(mem, p + 2, s.supportedServiceGroup, c);
    c := AppendEndpoint(mem, p + GROUPS_END, s.defaultEndpoint.GetOr(NO_ENDPOINT), c);
    b' := Close(mem[..], b, c);
  }

  method AppendSgupStatus(mem: array<int>, p: nat, s: SgupStatus, ghost b: Build) returns (ghost b': Build)
    requires Building(mem[..], b) && p == b.At() && p + 2 <= b.end
    modifies mem
    ensures b' == b.Then([s.allocatedSessionCount] + [s.allocatedShards]) && Building(mem[..], b')
  {
    hide Building, Outside;
    ghost var c := Open(mem, p, 2, b);
    c := Append(mem, p, s.allocatedSessionCount, c);
    c := Append(mem, p + 1, s.allocatedShards, c);
    b' := Close(mem[..], b, c);
  }

  method PutSgup(mem: array<int>, o: nat, g: ServiceGatewayUserPlane)
    requires o + SGUP <= mem.Length
    modifies mem
    ensures mem[o..o + SGUP] == SgupImage(g)
    ensures Outside(old(mem[..]), mem[..], o, o + SGUP)
  {
    hide Building, Outside, HeadImage, StrImage, SgupSpecImage;
    ghost var b := Clear(mem, o, SGUP);
    var warned;
    b := AppendHead(mem, o, g.name, g.metadata, b);
    b := AppendString(mem, o + HEAD, g.serviceGatewayName, b);
    b := Append(mem, o + MAINT_AT, g.maintenance.GetOr(NO_MAINTENANCE).maintenanceReq, b);
    b, warned := AppendSgupSpec(mem, o + SGUP_SPEC_AT, g.spec.GetOr(NO_SGUP_SPEC), b);
    b := AppendSgupStatus(mem, o + SGUP_STATUS_AT, g.status.GetOr(NO_SGUP_STATUS), b);
    Finish(mem[..], b);
    assert b.done == SgupImage(g);
  }

  method GetSgupSpec(mem: array<int>, o: nat) returns (s: SgupSpec)
    requires o + SGUP_SPEC <= mem.Length && WfSgupSpec(mem[o..o + SGUP_SPEC])
    ensures s == DecodeSgupSpec(mem[o..o + SGUP_SPEC])
  {
    hide WfStrs, DecodeStrs, WfEp, DecodeEp;
    SubView(mem[..], o, o + SGUP_SPEC, 2, GROUPS_END);
    SubView(mem[..], o, o + SGUP_SPEC, GROUPS_END, SGUP_SPEC);
    assert mem[o..o + SGUP_SPEC][0] == mem[o] && mem[o..o + SGUP_SPEC][1] == mem[o + 1];
    var groups := GetStrings(mem, o + 2);
    var endpoint, _ := GetEndpoint(mem, o + GROUPS_END);
    s := SgupSpec(mem[o], mem[o + 1], groups, Some(endpoint));
  }

  method GetSgup(mem: array<int>, o: nat) returns (g: ServiceGatewayUserPlane)
    requires o + SGUP <= mem.Length && WfSgup(mem[o..o + SGUP])
    ensures g == DecodeSgup(mem[o..o + SGUP])
  {
    hide WfHead, HeadName, HeadMeta, Terminated, CStr, WfSgupSpec, DecodeSgupSpec;
    ghost var v := mem[o..o + SGUP];
    SubView(mem[..], o, o + SGUP, 0, HEAD);
    SubView(mem[..], o, o + SGUP, HEAD, MAINT_AT);
    SubView(mem[..], o, o + SGUP, SGUP_SPEC_AT, SGUP_STATUS_AT);
    assert v[MAINT_AT] == mem[o + MAINT_AT] && v[SGUP_STATUS_AT] == mem[o + SGUP_STATUS_AT];
    assert v[SGUP - 1] == mem[o + SGUP - 1];
    var name, metadata := GetHead(mem, o);
    var gateway := GetString(mem, o + HEAD);
    var spec := GetSgupSpec(mem, o + SGUP_SPEC_AT);
    g := ServiceGatewayUserPlane(
      name, gateway, metadata, Some(Maintenance(mem[o + MAINT_AT])), Some(spec),
      Some(SgupStatus(mem[o + SGUP_STATUS_AT], mem[o + SGUP - 1])));
  }

  // ---- traffic steering function ----

  function TsfEndpoint(t: TrafficSteeringFunction): Endpoint {
    t.spec.GetOr(NO_TSF_SPEC).defaultEndpoint.GetOr(NO_ENDPOINT)
  }

  function TsfImage(t: TrafficSteeringFunction): (v: seq<int>)
    ensures |v| == TSF
  {
    HeadImage(t.name, t.metadata) + EpImage(TsfEndpoint(t))
  }

  ghost predicate WfTsf(v: seq<int>)
    requires |v| == TSF
  {
    WfHead(v[0..HEAD]) && WfEp(v[HEAD..TSF])
  }

  function DecodeTsf(v: seq<int>): TrafficSteeringFunction
    requires |v| == TSF && WfTsf(v)
  {
    TrafficSteeringFunction(HeadName(v[0..HEAD]), HeadMeta(v[0..HEAD]), Some(TsfSpec(Some(DecodeEp(v[HEAD..TSF])))))
  }

  ghost predicate CanonTsf(v: seq<int>) {
    |v| == TSF && CanonHead(v[0..HEAD]) && CanonEp(v[HEAD..TSF])
  }

  function NormTsf(t: TrafficSteeringFunction): TrafficSteeringFunction {
    TrafficSteeringFunction(Cut(t.name), NormMeta(t.metadata), Some(TsfSpec(Some(NormEp(TsfEndpoint(t))))))
  }

  lemma TsfThere(t: TrafficSteeringFunction)
    ensures CanonTsf(TsfImage(t)) && WfTsf(TsfImage(t)) && DecodeTsf(TsfImage(t)) == NormTsf(t)
    ensures NormTsf(NormTsf(t)) == NormTsf(t)
  {
    hide HeadImage, CanonHead, WfHead, HeadName, HeadMeta, EpImage, CanonEp, WfEp, DecodeEp, NormMeta, NormEp;
    HeadThere(t.name, t.metadata);
    EpThere(TsfEndpoint(t));
    assert TsfImage(t)[0..HEAD] == HeadImage(t.name, t.metadata) && TsfImage(t)[HEAD..TSF] == EpImage(TsfEndpoint(t));
    CutFixed(t.name);
    NormMetaTwice(t.metadata);
    NormEpTwice(TsfEndpoint(t));
  }

  lemma TsfBack(v: seq<int>)
    requires CanonTsf(v)
    ensures WfTsf(v) && TsfImage(DecodeTsf(v)) == v
  {
    hide HeadImage, CanonHead, WfHead, HeadName, HeadMeta, EpImage, CanonEp, WfEp, DecodeEp;
    HeadBack(v[0..HEAD]);
    EpBack(v[HEAD..TSF]);
    assert v == v[0..HEAD] + v[HEAD..TSF];
  }

  method AppendTsfSpec(mem: array<int>, p: nat, s: TsfSpec, ghost b: Build) returns (ghost b': Build)
    requires Building(mem[..], b) && p == b.At() && p + EP <= b.end
    modifies mem
    ensures b' == b.Then(EpImage(s.defaultEndpoint.GetOr(NO_ENDPOINT))) && Building(mem[..], b')
  {
    hide Building, Outside, EpImage;
    ghost var c := Open(mem, p, EP, b);
    c := AppendEndpoint(mem, p, s.defaultEndpoint.GetOr(NO_ENDPOINT), c);
    b' := Close(mem[..], b, c);
    assert c.done == EpImage(s.defaultEndpoint.GetOr(NO_ENDPOINT));
  }

  method PutTsf(mem: array<int>, o: nat, t: TrafficSteeringFunction)
    requires o + TSF <= mem.Length
    modifies mem
    ensures mem[o..o + TSF] == TsfImage(t)
    ensures Outside(old(mem[..]), mem[..], o, o + TSF)
  {
    hide Building, Outside, HeadImage, EpImage;
    ghost var b := Clear(mem, o, TSF);
    b := AppendHead(mem, o, t.name, t.metadata, b);
    b := AppendTsfSpec(mem, o + HEAD, t.spec.GetOr(NO_TSF_SPEC), b);
    Finish(mem[..], b);
  }

  method GetTsf(mem: array<int>, o: nat) returns (t: TrafficSteeringFunction)
    requires o + TSF <= mem.Length && WfTsf(mem[o..o + TSF])
    ensures t == DecodeTsf(mem[o..o + TSF])
  {
    hide WfHead, HeadName, HeadMeta, WfEp, DecodeEp;
    SubView(mem[..], o, o + TSF, 0, HEAD);
    SubView(mem[..], o, o + TSF, HEAD, TSF);
    var name, metadata := GetHead(mem, o);
    var endpoint, _ := GetEndpoint(mem, o + HEAD);
    t := TrafficSteeringFunction(name, metadata, Some(TsfSpec(Some(endpoint))));
  }
}
