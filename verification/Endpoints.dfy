/** The endpoint of a network connection: a name, a type tag and a union of three transports. */
module Endpoints {
  import opened Cells
  import opened CStrings
  import opened Messages

  /** A record made of a string and two ints: `upsf_vtep_t`, `upsf_port_vlan_t`, `upsf_session_filter_t`. */
  const TRIPLE: nat := 67
  /** `upsf_network_connection_spec_endpoint_t`: name, ep_type, ep_spec. */
  const EP: nat := 133
  const EPS: nat := 2129

  const EP_VTEP := 1
  const EP_L2VPN := 2
  const EP_PORT_VLAN := 3

  function TripleImage(s: PString, x: int, y: int): (v: seq<int>)
    ensures |v| == TRIPLE
  {
    StrImage(s) + [x] + [y]
  }

  function EpTag(t: Transport): int {
    match t
    case NoTransport => 0
    case OfVtep(_) => EP_VTEP
    case OfL2vpn(_) => EP_L2VPN
    case OfPortVlan(_) => EP_PORT_VLAN
  }

  /** The union: the arm that is set, from offset 0, and zeros behind it. */
  function EpUnion(t: Transport): (v: seq<int>)
    ensures |v| == TRIPLE
  {
    match t
    case NoTransport => Zeros(TRIPLE)
    case OfVtep(x) => TripleImage(x.ipAddress, x.udpPort, x.vni)
    case OfL2vpn(x) => [x.vpnId] + Zeros(TRIPLE - 1)
    case OfPortVlan(x) => TripleImage(x.logicalPort, x.svlan, x.cvlan)
  }

  function EpImage(e: Endpoint): (v: seq<int>)
    ensures |v| == EP
  {
    StrImage(e.endpointName) + [EpTag(e.transport)] + EpUnion(e.transport)
  }

  ghost predicate WfTriple(v: seq<int>)
    requires |v| == TRIPLE
  {
    Terminated(v[0..STR])
  }

  /** What reading an endpoint demands of it: the name, and the text of the selected arm, end in a NUL. */
  ghost predicate WfEp(v: seq<int>)
    requires |v| == EP
  {
    && Terminated(v[0..STR])
    && (v[STR] == EP_VTEP || v[STR] == EP_PORT_VLAN ==> WfTriple(v[66..EP]))
  }

  function DecodeEp(v: seq<int>): Endpoint
    requires |v| == EP
  {
    var u := v[66..EP];
    Endpoint(
      CStr(v[0..STR]),
      if v[STR] == EP_VTEP then OfVtep(Vtep(CStr(u[0..STR]), u[65], u[66]))
      else if v[STR] == EP_L2VPN then OfL2vpn(L2vpn(u[0]))
      else if v[STR] == EP_PORT_VLAN then OfPortVlan(PortVlan(CStr(u[0..STR]), u[65], u[66]))
      else NoTransport)
  }

  ghost predicate CanonTriple(v: seq<int>) {
    |v| == TRIPLE && CanonStr(v[0..STR])
  }

  ghost predicate CanonEp(v: seq<int>) {
    && |v| == EP
    && CanonStr(v[0..STR])
    && 0 <= v[STR] <= 3
    && (v[STR] == 0 ==> v[66..EP] == Zeros(TRIPLE))
    && (v[STR] == EP_VTEP || v[STR] == EP_PORT_VLAN ==> CanonTriple(v[66..EP]))
    && (v[STR] == EP_L2VPN ==> v[67..EP] == Zeros(TRIPLE - 1))
  }

  /** An endpoint as it comes back: strings cut, the same arm. */
  function NormEp(e: Endpoint): Endpoint {
    Endpoint(
      Cut(e.endpointName),
      match e.transport
      case NoTransport => NoTransport
      case OfVtep(x) => OfVtep(x.(ipAddress := Cut(x.ipAddress)))
      case OfL2vpn(x) => OfL2vpn(x)
      case OfPortVlan(x) => OfPortVlan(x.(logicalPort := Cut(x.logicalPort))))
  }

  lemma TripleThere(s: PString, x: int, y: int)
    ensures var v := TripleImage(s, x, y);
            CanonTriple(v) && WfTriple(v) && CStr(v[0..STR]) == Cut(s) && v[65] == x && v[66] == y
  {
    StrThere(s);
    assert TripleImage(s, x, y)[0..STR] == StrImage(s);
  }

  lemma TripleBack(v: seq<int>)
    requires CanonTriple(v)
    ensures WfTriple(v) && TripleImage(CStr(v[0..STR]), v[65], v[66]) == v
  {
    StrBack(v[0..STR]);
    assert v == v[0..STR] + [v[65]] + [v[66]];
  }

  lemma EpThere(e: Endpoint)
    ensures CanonEp(EpImage(e)) && WfEp(EpImage(e))
    ensures DecodeEp(EpImage(e)) == NormEp(e)
  {
    var v, u := EpImage(e), EpUnion(e.transport);
    StrThere(e.endpointName);
    assert v[0..STR] == StrImage(e.endpointName);
    assert v[STR] == EpTag(e.transport);
    assert v[66..EP] == u;
    match e.transport {
      case NoTransport =>
      case OfVtep(x) => TripleThere(x.ipAddress, x.udpPort, x.vni);
      case OfL2vpn(x) => assert v[67..EP] == u[1..] == Zeros(TRIPLE - 1);
      case OfPortVlan(x) => TripleThere(x.logicalPort, x.svlan, x.cvlan);
    }
  }

  lemma EpBack(v: seq<int>)
    requires CanonEp(v)
    ensures WfEp(v) && EpImage(DecodeEp(v)) == v
  {
    var u := v[66..EP];
    StrBack(v[0..STR]);
    if v[STR] == EP_VTEP || v[STR] == EP_PORT_VLAN {
      TripleBack(u);
    } else if v[STR] == EP_L2VPN {
      assert u == [u[0]] + v[67..EP];
    }
    assert v == v[0..STR] + [v[STR]] + u;
  }

  lemma NormEpTwice(e: Endpoint)
    ensures NormEp(NormEp(e)) == NormEp(e)
  {
    CutFixed(e.endpointName);
    match e.transport {
      case NoTransport =>
      case OfVtep(x) => CutFixed(x.ipAddress);
      case OfL2vpn(x) =>
      case OfPortVlan(x) => CutFixed(x.logicalPort);
    }
  }

  lemma EpZero()
    ensures EpImage(NO_ENDPOINT) == Zeros(EP)
  {
    StrZero();
  }

  // ---- the overloads, proto to C ----

  /** The overloads for Vtep, PortVlan and SessionFilter: one shape, three field lists. */
  method PutTriple(mem: array<int>, o: nat, s: PString, x: int, y: int)
    requires o + TRIPLE <= mem.Length
    modifies mem
    ensures mem[o..o + TRIPLE] == TripleImage(s, x, y)
    ensures Outside(old(mem[..]), mem[..], o, o + TRIPLE)
  {
    hide Building, Outside;
    ghost var b := Clear(mem, o, TRIPLE);
    b := AppendString(mem, o, s, b);
    b := Append(mem, o + 65, x, b);
    b := Append(mem, o + 66, y, b);
    Finish(mem[..], b);
  }

  method PutL2vpn(mem: array<int>, o: nat, x: L2vpn)
    requires o < mem.Length
    modifies mem
    ensures mem[o..o + 1] == [x.vpnId]
    ensures Outside(old(mem[..]), mem[..], o, o + 1)
  {
    hide Building, Outside;
    ghost var b := Clear(mem, o, 1);
    b := Append(mem, o, x.vpnId, b);
    Finish(mem[..], b);
  }

  /** The branch of the endpoint overload that fills the union and then sets the tag. */
  method PutTransport(mem: array<int>, o: nat, t: Transport) returns (ok: bool)
    requires o + EP <= mem.Length && mem[o + STR..o + EP] == Zeros(TRIPLE + 1)
    modifies mem
    ensures mem[o + STR..o + EP] == [EpTag(t)] + EpUnion(t)
    ensures Outside(old(mem[..]), mem[..], o + STR, o + EP)
    ensures ok <==> t != NoTransport
  {
    hide Outside, TripleImage, Zeros;
    ghost var m0 := mem[..];
    match t {
      case OfVtep(x) =>
        PutTriple(mem, o + 66, x.ipAddress, x.udpPort, x.vni);
        ghost var m1 := mem[..];
        Store(mem, o + STR, EP_VTEP);
        SideBySide(m0, m1, mem[..], o + STR, o + 66, o + EP);
      case OfL2vpn(x) =>
        PutL2vpn(mem, o + 66, x);
        ghost var m1 := mem[..];
        Store(mem, o + STR, EP_L2VPN);
        SideBySide(m0, m1, mem[..], o + STR, o + 66, o + 67);
        OneCell(m0, mem[..], o, x.vpnId);
      case OfPortVlan(x) =>
        PutTriple(mem, o + 66, x.logicalPort, x.svlan, x.cvlan);
        ghost var m1 := mem[..];
        Store(mem, o + STR, EP_PORT_VLAN);
        SideBySide(m0, m1, mem[..], o + STR, o + 66, o + EP);
      case NoTransport =>
        OutsideNone(m0, o + STR, o + EP);
        return false;
    }
    Glue(mem[..], o + STR, o + 66, o + EP);
    return true;
  }

  /** Behind a one-cell arm the union stays clear. */
  lemma OneCell(m0: seq<int>, m: seq<int>, o: nat, x: int)
    requires o + EP <= |m0| && m0[o + STR..o + EP] == Zeros(TRIPLE + 1)
    requires Outside(m0, m, o + STR, o + 67) && m[o + 66..o + 67] == [x]
    ensures Outside(m0, m, o + STR, o + EP) && m[o + 66..o + EP] == [x] + Zeros(TRIPLE - 1)
  {
    hide Outside;
    OutsideWiden(m0, m, o + STR, o + 67, o + EP);
    Kept(m0, m, o + STR, o + 67, o + 67, o + EP);
    SubView(m0, o + STR, o + EP, 2, 68);
    Glue(m, o + 66, o + 67, o + EP);
  }

  method PutEndpoint(mem: array<int>, o: nat, e: Endpoint) returns (ok: bool)
    requires o + EP <= mem.Length
    modifies mem
    ensures mem[o..o + EP] == EpImage(e)
    ensures Outside(old(mem[..]), mem[..], o, o + EP)
    ensures ok <==> e.transport != NoTransport
  {
    hide Building, Outside;
    ghost var b := Clear(mem, o, EP);
    b := AppendString(mem, o, e.endpointName, b);
    ghost var m := mem[..];
    ClearNext(m, b, TRIPLE + 1);
    ok := PutTransport(mem, o, e.transport);
    Built(m, mem[..], b, [EpTag(e.transport)] + EpUnion(e.transport));
    Finish(mem[..], b.Then([EpTag(e.transport)] + EpUnion(e.transport)));
  }

  method AppendEndpoint(mem: array<int>, p: nat, e: Endpoint, ghost b: Build) returns (ghost b': Build)
    requires Building(mem[..], b) && p == b.At() && p + EP <= b.end
    modifies mem
    ensures b' == b.Then(EpImage(e)) && Building(mem[..], b')
  {
    hide Building, Outside, EpImage;
    ghost var m := mem[..];
    ClearNext(m, b, EP);
    var _ := PutEndpoint(mem, p, e);
    b' := b.Then(EpImage(e));
    Built(m, mem[..], b, EpImage(e));
  }

  // ---- and back ----

  method GetEndpoint(mem: array<int>, o: nat) returns (e: Endpoint, ok: bool)
    requires o + EP <= mem.Length && WfEp(mem[o..o + EP])
    ensures e == DecodeEp(mem[o..o + EP])
    ensures ok <==> e.transport != NoTransport
  {
    ghost var v := mem[o..o + EP];
    SubView(mem[..], o, o + EP, 0, STR);
    SubView(mem[..], o, o + EP, 66, EP);
    SubView(mem[..], o + 66, o + EP, 0, STR);
    assert v[STR] == mem[o + STR];
    var name := GetString(mem, o);
    ok := true;
    if mem[o + STR] == EP_VTEP {
      var s := GetString(mem, o + 66);
      e := Endpoint(name, OfVtep(Vtep(s, mem[o + 131], mem[o + 132])));
    } else if mem[o + STR] == EP_L2VPN {
      e := Endpoint(name, OfL2vpn(L2vpn(mem[o + 66])));
    } else if mem[o + STR] == EP_PORT_VLAN {
      var s := GetString(mem, o + 66);
      e := Endpoint(name, OfPortVlan(PortVlan(s, mem[o + 131], mem[o + 132])));
    } else {
      e := Endpoint(name, NoTransport);
      ok := false;
    }
  }

  // ---- arrays of endpoints ----

  function EpSlots(es: seq<Endpoint>): (slots: seq<seq<int>>)
    ensures |slots| == |es| && Wide(slots, EP)
  {
    seq(|es|, i requires 0 <= i < |es| => EpImage(es[i]))
  }

  function EpsImage(es: seq<Endpoint>): (v: seq<int>)
    ensures |v| == EPS
  {
    FlatLength(EpSlots(Take(es)), EP);
    ArrayImage(EpSlots(Take(es)), EP)
  }

  method AppendEndpoints(mem: array<int>, p: nat, es: seq<Endpoint>, ghost b: Build)
    returns (ghost b': Build, warned: bool)
    requires Building(mem[..], b) && p == b.At() && p + EPS <= b.end
    modifies mem
    ensures b' == b.Then(EpsImage(es)) && Building(mem[..], b')
    ensures warned <==> Take(es) != es
  {
    hide Building, Outside, EpImage;
    ghost var m, slots := mem[..], EpSlots(Take(es));
    ClearNext(m, b, EPS);
    var size := if |es| < CAP then |es| else CAP;
    Store(mem, p + EPS - 1, size);
    ghost var m1 := mem[..];
    ghost var c := BeginSlots(m, m1, p, p + EPS - 1);
    for i := 0 to size
      invariant Building(mem[..], c) && c == Build(m1, p, p + EPS - 1, Flat(slots[..i]))
    {
      FlatNext(slots, i);
      FlatLength(slots[..i], EP);
      c := AppendEndpoint(mem, p + i * EP, es[i], c);
    }
    assert slots[..size] == slots;
    SizeThenSlots(m, mem[..], c, slots, EP);
    b' := b.Then(EpsImage(es));
    Built(m, mem[..], b, EpsImage(es));
    warned := size < |es|;
  }

  /** The array can be read: a size within the capacity, and every used endpoint readable. */
  ghost predicate WfEps(v: seq<int>)
    requires |v| == EPS
  {
    && 0 <= v[EPS - 1] <= CAP
    && forall i | 0 <= i < v[EPS - 1] :: WfEp(Slot(v, EP, i))
  }

  function DecodeEps(v: seq<int>): seq<Endpoint>
    requires |v| == EPS && 0 <= v[EPS - 1] <= CAP
  {
    seq(v[EPS - 1], i requires 0 <= i < v[EPS - 1] => DecodeEp(Slot(v, EP, i)))
  }

  ghost predicate CanonEps(v: seq<int>) {
    && |v| == EPS
    && 0 <= v[EPS - 1] <= CAP
    && (forall i | 0 <= i < v[EPS - 1] :: CanonEp(Slot(v, EP, i)))
    && v[v[EPS - 1] * EP..EPS - 1] == Zeros((CAP - v[EPS - 1]) * EP)
  }

  /** A list of endpoints as it comes back: at most 16, each normalised. */
  function NormEps(es: seq<Endpoint>): (ns: seq<Endpoint>)
    ensures |ns| == |Take(es)|
  {
    var ts := Take(es);
    seq(|ts|, i requires 0 <= i < |ts| => NormEp(ts[i]))
  }

  lemma EpsThere(es: seq<Endpoint>)
    ensures CanonEps(EpsImage(es)) && WfEps(EpsImage(es))
    ensures DecodeEps(EpsImage(es)) == NormEps(es)
  {
    var ts, v := Take(es), EpsImage(es);
    ArrayParts(EpSlots(ts), EP);
    forall i | 0 <= i < |ts|
      ensures Slot(v, EP, i) == EpImage(ts[i]) && CanonEp(Slot(v, EP, i)) && WfEp(Slot(v, EP, i))
      ensures DecodeEp(Slot(v, EP, i)) == NormEp(ts[i])
    {
      ArraySlot(EpSlots(ts), EP, i);
      EpThere(ts[i]);
    }
  }

  lemma EpsBack(v: seq<int>)
    requires CanonEps(v)
    ensures WfEps(v) && EpsImage(DecodeEps(v)) == v
  {
    var es := DecodeEps(v);
    forall i | 0 <= i < v[EPS - 1]
      ensures WfEp(Slot(v, EP, i)) && EpImage(es[i]) == Slot(v, EP, i)
    {
      EpBack(Slot(v, EP, i));
    }
    ArrayBack(v, EpSlots(es), EP);
  }

  lemma NormEpsEmpty(es: seq<Endpoint>)
    ensures NormEps(es) == [] <==> es == []
  {
  }

  lemma EpsZero()
    ensures EpsImage([]) == Zeros(EPS)
  {
    assert EpSlots(Take([])) == [];
  }

  lemma NormEpsTwice(es: seq<Endpoint>)
    ensures NormEps(NormEps(es)) == NormEps(es)
  {
    forall i | 0 <= i < |NormEps(es)|
      ensures NormEp(NormEps(es)[i]) == NormEps(es)[i]
    {
      NormEpTwice(Take(es)[i]);
    }
  }

  /** Reads `sizeAt` and then that many endpoints from `base` on. */
  method GetEndpoints(mem: array<int>, base: nat, sizeAt: nat) returns (es: seq<Endpoint>)
    requires sizeAt == base + CAP * EP && sizeAt < mem.Length && WfEps(mem[base..base + EPS])
    ensures es == DecodeEps(mem[base..base + EPS])
  {
    hide WfEp, DecodeEp;
    ghost var v := mem[base..base + EPS];
    assert v[EPS - 1] == mem[sizeAt];
    es := [];
    for i := 0 to mem[sizeAt]
      invariant |es| == i
      invariant forall j | 0 <= j < i :: es[j] == DecodeEp(Slot(v, EP, j))
    {
      SlotBounds(i, CAP, EP);
      SubView(mem[..], base, base + EPS, i * EP, (i + 1) * EP);
      assert Slot(v, EP, i) == mem[base + i * EP..base + i * EP + EP];
      var e, _ := GetEndpoint(mem, base + i * EP);
      es := es + [e];
    }
  }
}
