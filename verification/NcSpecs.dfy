/** The spec of a network connection: a quality, a type tag, and a union of four shapes that share one store. */
module NcSpecs {
  import opened Cells
  import opened Messages
  import opened Endpoints

  const TYPE_SS_PTP := 0
  const TYPE_SS_MPTP := 1
  const TYPE_MS_PTP := 2
  const TYPE_MS_MPTP := 3

  // Offsets into the union, one view per arm.
  const SS_PTP_SGUP: nat := 0
  const SS_PTP_SGUP_SIZE: nat := 2128
  const SS_PTP_TSF: nat := 2129
  const SS_PTP_END: nat := 2262
  const SS_MPTP_SGUP: nat := 0
  const SS_MPTP_SGUP_SIZE: nat := 2128
  const SS_MPTP_TSF: nat := 2129
  const SS_MPTP_TSF_SIZE: nat := 4257
  const MS_PTP_SGUP: nat := 0
  const MS_PTP_TSF: nat := 133
  const MS_PTP_END: nat := 266
  const MS_MPTP_SGUP: nat := 0
  const MS_MPTP_TSF: nat := 133
  const MS_MPTP_TSF_SIZE: nat := 2261
  const MS_MPTP_END: nat := 2262

  /** The union is as wide as its widest arm, ss_mptp. */
  const UNION: nat := 4258
  const NC_SPEC: nat := 4260

  // ---- proto to C, as cells ----

  function NcTag(arm: NcArm): int {
    match arm
    case NoArm => 0
    case SsPtp(_, _) => TYPE_SS_PTP
    case SsMptpc(_, _) => TYPE_SS_MPTP
    case MsPtp(_, _) => TYPE_MS_PTP
    case MsMptp(_, _) => TYPE_MS_MPTP
  }

  /** The arm that is set, from offset 0; everything behind it is clear. */
  function UnionImage(arm: NcArm): (u: seq<int>)
    ensures |u| == UNION
  {
    match arm
    case NoArm => Zeros(UNION)
    case SsPtp(sgups, tsf) => EpsImage(sgups) + EpImage(tsf.GetOr(NO_ENDPOINT)) + Zeros(UNION - SS_PTP_END)
    case SsMptpc(sgups, tsfs) => EpsImage(sgups) + EpsImage(tsfs)
    case MsPtp(sgup, tsf) =>
      EpImage(sgup.GetOr(NO_ENDPOINT)) + EpImage(tsf.GetOr(NO_ENDPOINT)) + Zeros(UNION - MS_PTP_END)
    case MsMptp(sgup, tsfs) => EpImage(sgup.GetOr(NO_ENDPOINT)) + EpsImage(tsfs) + Zeros(UNION - MS_MPTP_END)
  }

  function NcSpecImage(s: NcSpec): (v: seq<int>)
    ensures |v| == NC_SPEC
  {
    [s.maximumSupportedQuality] + [NcTag(s.arm)] + UnionImage(s.arm)
  }

  // ---- C to proto, from cells ----

  ghost predicate WfArm(tag: int, u: seq<int>)
    requires |u| == UNION
  {
    && (tag == TYPE_SS_PTP ==> WfEps(u[SS_PTP_SGUP..EPS]) && WfEp(u[SS_PTP_TSF..SS_PTP_END]))
    && (tag == TYPE_SS_MPTP ==> WfEps(u[SS_MPTP_SGUP..EPS]) && WfEps(u[SS_MPTP_TSF..UNION]))
    && (tag == TYPE_MS_PTP ==> WfEp(u[MS_PTP_SGUP..EP]) && WfEp(u[MS_PTP_TSF..MS_PTP_END]))
    && (tag == TYPE_MS_MPTP ==> WfEp(u[MS_MPTP_SGUP..EP]) && WfEps(u[MS_MPTP_TSF..MS_MPTP_END]))
  }

  /** Every arm through its own view. The ss_mptp arm of the message comes into being with its first endpoint. */
  function DecodeArm(tag: int, u: seq<int>): NcArm
    requires |u| == UNION && WfArm(tag, u)
  {
    if tag == TYPE_SS_PTP then
      SsPtp(DecodeEps(u[SS_PTP_SGUP..EPS]), Some(DecodeEp(u[SS_PTP_TSF..SS_PTP_END])))
    else if tag == TYPE_SS_MPTP then
      var sgups, tsfs := DecodeEps(u[SS_MPTP_SGUP..EPS]), DecodeEps(u[SS_MPTP_TSF..UNION]);
      if sgups == [] && tsfs == [] then NoArm else SsMptpc(sgups, tsfs)
    else if tag == TYPE_MS_PTP then
      MsPtp(Some(DecodeEp(u[MS_PTP_SGUP..EP])), Some(DecodeEp(u[MS_PTP_TSF..MS_PTP_END])))
    else if tag == TYPE_MS_MPTP then
      MsMptp(Some(DecodeEp(u[MS_MPTP_SGUP..EP])), DecodeEps(u[MS_MPTP_TSF..MS_MPTP_END]))
    else NoArm
  }

  ghost predicate WfNcSpec(v: seq<int>)
    requires |v| == NC_SPEC
  {
    WfArm(v[1], v[2..NC_SPEC])
  }

  function DecodeNcSpec(v: seq<int>): NcSpec
    requires |v| == NC_SPEC && WfNcSpec(v)
  {
    NcSpec(v[0], DecodeArm(v[1], v[2..NC_SPEC]))
  }

  ghost predicate ValidTag(tag: int) {
    TYPE_SS_PTP <= tag <= TYPE_MS_MPTP
  }

  /** The selected arm canonical and nothing else in the store. */
  ghost predicate CanonArm(tag: int, u: seq<int>)
    requires |u| == UNION
  {
    && (tag == TYPE_SS_PTP ==>
          CanonEps(u[SS_PTP_SGUP..EPS]) && CanonEp(u[SS_PTP_TSF..SS_PTP_END]) &&
          u[SS_PTP_END..UNION] == Zeros(UNION - SS_PTP_END))
    && (tag == TYPE_SS_MPTP ==> CanonEps(u[SS_MPTP_SGUP..EPS]) && CanonEps(u[SS_MPTP_TSF..UNION]))
    && (tag == TYPE_MS_PTP ==>
          CanonEp(u[MS_PTP_SGUP..EP]) && CanonEp(u[MS_PTP_TSF..MS_PTP_END]) &&
          u[MS_PTP_END..UNION] == Zeros(UNION - MS_PTP_END))
    && (tag == TYPE_MS_MPTP ==>
          CanonEp(u[MS_MPTP_SGUP..EP]) && CanonEps(u[MS_MPTP_TSF..MS_MPTP_END]) &&
          u[MS_MPTP_END..UNION] == Zeros(UNION - MS_MPTP_END))
  }

  ghost predicate CanonNcSpec(v: seq<int>) {
    |v| == NC_SPEC && CanonArm(v[1], v[2..NC_SPEC])
  }

  /** A tag that says ss_mptp with nothing behind it. */
  ghost predicate EmptyMptp(v: seq<int>)
    requires |v| == NC_SPEC
  {
    v[1] == TYPE_SS_MPTP && v[2 + SS_MPTP_SGUP_SIZE] == 0 && v[2 + SS_MPTP_TSF_SIZE] == 0
  }

  // ---- proto to C to proto ----

  function NormOpt(e: Option<Endpoint>): Option<Endpoint> {
    Some(NormEp(e.GetOr(NO_ENDPOINT)))
  }

  /** An arm as it comes back. "Not set" is stored as tag 0 and so comes back as an empty ss_ptp; an ss_mptp
      without endpoints is stored under its tag but comes back as "not set". */
  function NormArm(arm: NcArm): NcArm {
    match arm
    case NoArm => SsPtp([], Some(NO_ENDPOINT))
    case SsPtp(sgups, tsf) => SsPtp(NormEps(sgups), NormOpt(tsf))
    case SsMptpc(sgups, tsfs) => if sgups == [] && tsfs == [] then NoArm else SsMptpc(NormEps(sgups), NormEps(tsfs))
    case MsPtp(sgup, tsf) => MsPtp(NormOpt(sgup), NormOpt(tsf))
    case MsMptp(sgup, tsfs) => MsMptp(NormOpt(sgup), NormEps(tsfs))
  }

  lemma NormNone()
    ensures NormEp(NO_ENDPOINT) == NO_ENDPOINT && NormEps([]) == []
  {
  }

  /** How many of the arm's lists do not fit. */
  function Overflows(arm: NcArm): (n: nat)
    ensures arm.NoArm? || arm.MsPtp? ==> n == 0
    ensures arm.SsPtp? ==> n == if |arm.sgups| > 16 then 1 else 0
    ensures arm.MsMptp? ==> n == if |arm.tsfs| > 16 then 1 else 0
    ensures arm.SsMptpc? ==> (n == 0 <==> |arm.sgups| <= 16 && |arm.tsfs| <= 16)
    ensures arm.SsMptpc? ==> (n == 2 <==> |arm.sgups| > 16 && |arm.tsfs| > 16) && n <= 2
  {
    match arm
    case SsPtp(sgups, _) => Overflow(sgups)
    case SsMptpc(sgups, tsfs) => Overflow(sgups) + Overflow(tsfs)
    case MsMptp(_, tsfs) => Overflow(tsfs)
    case _ => 0
  }

  function Overflow(es: seq<Endpoint>): (n: nat)
    ensures n == if |es| > 16 then 1 else 0
  {
    if Take(es) == es then 0 else 1
  }

  lemma NormArmTwice(arm: NcArm)
    ensures NormArm(NormArm(NormArm(arm))) == NormArm(NormArm(arm))
    ensures NormArm(NormArm(arm)) != NormArm(arm) <==> arm == SsMptpc([], [])
  {
    hide NormEp, NormEps;
    NormNone();
    match arm {
      case NoArm =>
      case SsPtp(sgups, tsf) =>
        NormEpsTwice(sgups);
        NormEpTwice(tsf.GetOr(NO_ENDPOINT));
      case SsMptpc(sgups, tsfs) =>
        NormEpsTwice(sgups);
        NormEpsTwice(tsfs);
        NormEpsEmpty(sgups);
        NormEpsEmpty(tsfs);
      case MsPtp(sgup, tsf) =>
        NormEpTwice(sgup.GetOr(NO_ENDPOINT));
        NormEpTwice(tsf.GetOr(NO_ENDPOINT));
      case MsMptp(sgup, tsfs) =>
        NormEpTwice(sgup.GetOr(NO_ENDPOINT));
        NormEpsTwice(tsfs);
    }
  }

  lemma UnionThere(arm: NcArm)
    ensures var u := UnionImage(arm);
            CanonArm(NcTag(arm), u) && WfArm(NcTag(arm), u) && DecodeArm(NcTag(arm), u) == NormArm(arm)
  {
    hide EpImage, EpsImage, DecodeEp, DecodeEps, CanonEp, CanonEps, WfEp, WfEps, NormEp, NormEps;
    var u := UnionImage(arm);
    match arm {
      case NoArm =>
        EpZero();
        EpThere(NO_ENDPOINT);
        EpsZero();
        EpsThere([]);
        NormNone();
        assert u[SS_PTP_SGUP..EPS] == EpsImage([]) && u[SS_PTP_TSF..SS_PTP_END] == EpImage(NO_ENDPOINT);
        assert u[SS_PTP_END..UNION] == Zeros(UNION - SS_PTP_END);
      case SsPtp(sgups, tsf) =>
        EpsThere(sgups);
        EpThere(tsf.GetOr(NO_ENDPOINT));
        assert u[SS_PTP_SGUP..EPS] == EpsImage(sgups);
        assert u[SS_PTP_TSF..SS_PTP_END] == EpImage(tsf.GetOr(NO_ENDPOINT));
        assert u[SS_PTP_END..UNION] == Zeros(UNION - SS_PTP_END);
      case SsMptpc(sgups, tsfs) =>
        EpsThere(sgups);
        EpsThere(tsfs);
        NormEpsEmpty(sgups);
        NormEpsEmpty(tsfs);
        assert u[SS_MPTP_SGUP..EPS] == EpsImage(sgups) && u[SS_MPTP_TSF..UNION] == EpsImage(tsfs);
      case MsPtp(sgup, tsf) =>
        EpThere(sgup.GetOr(NO_ENDPOINT));
        EpThere(tsf.GetOr(NO_ENDPOINT));
        assert u[MS_PTP_SGUP..EP] == EpImage(sgup.GetOr(NO_ENDPOINT));
        assert u[MS_PTP_TSF..MS_PTP_END] == EpImage(tsf.GetOr(NO_ENDPOINT));
        assert u[MS_PTP_END..UNION] == Zeros(UNION - MS_PTP_END);
      case MsMptp(sgup, tsfs) =>
        EpThere(sgup.GetOr(NO_ENDPOINT));
        EpsThere(tsfs);
        assert u[MS_MPTP_SGUP..EP] == EpImage(sgup.GetOr(NO_ENDPOINT));
        assert u[MS_MPTP_TSF..MS_MPTP_END] == EpsImage(tsfs);
        assert u[MS_MPTP_END..UNION] == Zeros(UNION - MS_MPTP_END);
    }
  }

  lemma NcSpecThere(s: NcSpec)
    ensures var v := NcSpecImage(s);
            && CanonNcSpec(v) && WfNcSpec(v) && ValidTag(v[1])
            && DecodeNcSpec(v) == NcSpec(s.maximumSupportedQuality, NormArm(s.arm))
  {
    hide UnionImage, CanonArm, WfArm, DecodeArm;
    UnionThere(s.arm);
    assert NcSpecImage(s)[2..NC_SPEC] == UnionImage(s.arm);
  }

  // ---- C to proto to C ----

  lemma UnionBack(tag: int, u: seq<int>)
    requires |u| == UNION && CanonArm(tag, u) && ValidTag(tag)
    ensures WfArm(tag, u)
    ensures tag == TYPE_SS_MPTP && u[SS_MPTP_SGUP_SIZE] == 0 && u[SS_MPTP_TSF_SIZE] == 0 ==> DecodeArm(tag, u) == NoArm
    ensures !(tag == TYPE_SS_MPTP && u[SS_MPTP_SGUP_SIZE] == 0 && u[SS_MPTP_TSF_SIZE] == 0) ==>
              NcTag(DecodeArm(tag, u)) == tag && UnionImage(DecodeArm(tag, u)) == u
  {
    hide EpImage, EpsImage, DecodeEp, CanonEp, WfEp, WfEps;
    if tag == TYPE_SS_PTP {
      EpsBack(u[SS_PTP_SGUP..EPS]);
      EpBack(u[SS_PTP_TSF..SS_PTP_END]);
      assert u == u[SS_PTP_SGUP..EPS] + u[SS_PTP_TSF..SS_PTP_END] + u[SS_PTP_END..UNION];
    } else if tag == TYPE_SS_MPTP {
      EpsBack(u[SS_MPTP_SGUP..EPS]);
      EpsBack(u[SS_MPTP_TSF..UNION]);
      assert u == u[SS_MPTP_SGUP..EPS] + u[SS_MPTP_TSF..UNION];
      assert u[SS_MPTP_TSF..UNION][EPS - 1] == u[SS_MPTP_TSF_SIZE];
    } else if tag == TYPE_MS_PTP {
      EpBack(u[MS_PTP_SGUP..EP]);
      EpBack(u[MS_PTP_TSF..MS_PTP_END]);
      assert u == u[MS_PTP_SGUP..EP] + u[MS_PTP_TSF..MS_PTP_END] + u[MS_PTP_END..UNION];
    } else {
      EpBack(u[MS_MPTP_SGUP..EP]);
      EpsBack(u[MS_MPTP_TSF..MS_MPTP_END]);
      assert u == u[MS_MPTP_SGUP..EP] + u[MS_MPTP_TSF..MS_MPTP_END] + u[MS_MPTP_END..UNION];
    }
  }

  /** A canonical spec survives C to proto to C exactly when its tag is one of the four and not an ss_mptp
      without endpoints. */
  lemma NcSpecBack(v: seq<int>)
    requires CanonNcSpec(v)
    ensures WfNcSpec(v)
    ensures NcSpecImage(DecodeNcSpec(v)) == v <==> ValidTag(v[1]) && !EmptyMptp(v)
  {
    hide UnionImage, CanonArm, WfArm, DecodeArm;
    var u := v[2..NC_SPEC];
    assert u[SS_MPTP_SGUP_SIZE] == v[2 + SS_MPTP_SGUP_SIZE] && u[SS_MPTP_TSF_SIZE] == v[2 + SS_MPTP_TSF_SIZE];
    if ValidTag(v[1]) {
      UnionBack(v[1], u);
      assert v == [v[0]] + [v[1]] + u;
    } else {
      NoSuchArm(v[1], u);
    }
    if !ValidTag(v[1]) || EmptyMptp(v) {
      assert NcSpecImage(DecodeNcSpec(v))[1] == 0;
    }
  }

  lemma NoSuchArm(tag: int, u: seq<int>)
    requires |u| == UNION && !ValidTag(tag)
    ensures WfArm(tag, u) && DecodeArm(tag, u) == NoArm
  {
  }

  // ---- the overloads ----

  method PutNcSpec(mem: array<int>, o: nat, s: NcSpec) returns (warnings: nat)
    requires o + NC_SPEC <= mem.Length
    modifies mem
    ensures mem[o..o + NC_SPEC] == NcSpecImage(s)
    ensures Outside(old(mem[..]), mem[..], o, o + NC_SPEC)
    ensures warnings == Overflows(s.arm)
  {
    hide Building, Outside, EpImage, EpsImage;
    ghost var b := Clear(mem, o, NC_SPEC);
    b := Append(mem, o, s.maximumSupportedQuality, b);
    b, warnings := AppendArm(mem, o + 1, s.arm, b);
    Finish(mem[..], b);
  }

  method AppendArm(mem: array<int>, p: nat, arm: NcArm, ghost b: Build) returns (ghost b': Build, warnings: nat)
    requires Building(mem[..], b) && p == b.At() && p + 1 + UNION <= b.end
    modifies mem
    ensures b' == b.Then([NcTag(arm)] + UnionImage(arm)) && Building(mem[..], b')
    ensures warnings == Overflows(arm)
  {
    hide Building, Outside, EpImage, EpsImage, Zeros;
    ghost var part: seq<int>;
    match arm {
      case SsPtp(sgups, tsf) => b', warnings, part := AppendSsPtp(mem, p, sgups, tsf, b);
      case SsMptpc(sgups, tsfs) => b', warnings, part := AppendSsMptp(mem, p, sgups, tsfs, b);
      case MsPtp(sgup, tsf) => b', part := AppendMsPtp(mem, p, sgup, tsf, b); warnings := 0;
      case MsMptp(sgup, tsfs) => b', warnings, part := AppendMsMptp(mem, p, sgup, tsfs, b);
      case NoArm =>
        NoArmImage();
        b', part, warnings := b, [], 0;
    }
    ghost var rest := 1 + UNION - |part|;
    BuiltZeros(mem[..], b', rest);
    Regroup(b.done, part, Zeros(rest));
    b' := b'.Then(Zeros(rest));
  }

  /** Tag 0 and an empty union: nothing has to be written. */
  lemma NoArmImage()
    ensures [NcTag(NoArm)] + UnionImage(NoArm) == Zeros(1 + UNION) == [] + Zeros(1 + UNION)
  {
  }

  // One method for each branch. `part` is what the branch writes; the rest of the union stays clear behind it.

  method AppendSsPtp(mem: array<int>, p: nat, sgups: seq<Endpoint>, tsf: Option<Endpoint>, ghost b: Build)
    returns (ghost b': Build, warnings: nat, ghost part: seq<int>)
    requires Building(mem[..], b) && p == b.At() && p + 1 + UNION <= b.end
    modifies mem
    ensures b' == b.Then(part) && Building(mem[..], b') && |part| == 1 + SS_PTP_END
    ensures [NcTag(SsPtp(sgups, tsf))] + UnionImage(SsPtp(sgups, tsf)) == part + Zeros(1 + UNION - |part|)
    ensures warnings == Overflow(sgups)
  {
    hide Building, Outside, EpImage, EpsImage;
    part := [TYPE_SS_PTP] + EpsImage(sgups) + EpImage(tsf.GetOr(NO_ENDPOINT));
    var warned;
    b' := Append(mem, p, TYPE_SS_PTP, b);
    b', warned := AppendEndpoints(mem, p + 1 + SS_PTP_SGUP, sgups, b');
    b' := AppendEndpoint(mem, p + 1 + SS_PTP_TSF, tsf.GetOr(NO_ENDPOINT), b');
    warnings := if warned then 1 else 0;
    assert b'.done == b.done + part;
  }

  method AppendSsMptp(mem: array<int>, p: nat, sgups: seq<Endpoint>, tsfs: seq<Endpoint>, ghost b: Build)
    returns (ghost b': Build, warnings: nat, ghost part: seq<int>)
    requires Building(mem[..], b) && p == b.At() && p + 1 + UNION <= b.end
    modifies mem
    ensures b' == b.Then(part) && Building(mem[..], b') && |part| == 1 + UNION
    ensures [NcTag(SsMptpc(sgups, tsfs))] + UnionImage(SsMptpc(sgups, tsfs)) == part + Zeros(1 + UNION - |part|)
    ensures warnings == Overflow(sgups) + Overflow(tsfs)
  {
    hide Building, Outside, EpImage, EpsImage;
    part := [TYPE_SS_MPTP] + EpsImage(sgups) + EpsImage(tsfs);
    var cutSgups, cutTsfs;
    b' := Append(mem, p, TYPE_SS_MPTP, b);
    b', cutSgups := AppendEndpoints(mem, p + 1 + SS_MPTP_SGUP, sgups, b');
    b', cutTsfs := AppendEndpoints(mem, p + 1 + SS_MPTP_TSF, tsfs, b');
    warnings := (if cutSgups then 1 else 0) + (if cutTsfs then 1 else 0);
    assert b'.done == b.done + part;
  }

  method AppendMsPtp(mem: array<int>, p: nat, sgup: Option<Endpoint>, tsf: Option<Endpoint>, ghost b: Build)
    returns (ghost b': Build, ghost part: seq<int>)
    requires Building(mem[..], b) && p == b.At() && p + 1 + UNION <= b.end
    modifies mem
    ensures b' == b.Then(part) && Building(mem[..], b') && |part| == 1 + MS_PTP_END
    ensures [NcTag(MsPtp(sgup, tsf))] + UnionImage(MsPtp(sgup, tsf)) == part + Zeros(1 + UNION - |part|)
  {
    hide Building, Outside, EpImage, EpsImage;
    part := [TYPE_MS_PTP] + EpImage(sgup.GetOr(NO_ENDPOINT)) + EpImage(tsf.GetOr(NO_ENDPOINT));
    b' := Append(mem, p, TYPE_MS_PTP, b);
    b' := AppendEndpoint(mem, p + 1 + MS_PTP_SGUP, sgup.GetOr(NO_ENDPOINT), b');
    b' := AppendEndpoint(mem, p + 1 + MS_PTP_TSF, tsf.GetOr(NO_ENDPOINT), b');
    assert b'.done == b.done + part;
  }

  method AppendMsMptp(mem: array<int>, p: nat, sgup: Option<Endpoint>, tsfs: seq<Endpoint>, ghost b: Build)
    returns (ghost b': Build, warnings: nat, ghost part: seq<int>)
    requires Building(mem[..], b) && p == b.At() && p + 1 + UNION <= b.end
    modifies mem
    ensures b' == b.Then(part) && Building(mem[..], b') && |part| == 1 + MS_MPTP_END
    ensures [NcTag(MsMptp(sgup, tsfs))] + UnionImage(MsMptp(sgup, tsfs)) == part + Zeros(1 + UNION - |part|)
    ensures warnings == Overflow(tsfs)
  {
    hide Building, Outside, EpImage, EpsImage;
    part := [TYPE_MS_MPTP] + EpImage(sgup.GetOr(NO_ENDPOINT)) + EpsImage(tsfs);
    var warned;
    b' := Append(mem, p, TYPE_MS_MPTP, b);
    b' := AppendEndpoint(mem, p + 1 + MS_MPTP_SGUP, sgup.GetOr(NO_ENDPOINT), b');
    b', warned := AppendEndpoints(mem, p + 1 + MS_MPTP_TSF, tsfs, b');
    warnings := if warned then 1 else 0;
    assert b'.done == b.done + part;
  }

  /** The way back. The ss_mptp branch counts with its own view but reads its SGUP endpoints through the ss_ptp
      view; it builds the arm only when there is an endpoint to add. */
  method GetNcSpec(mem: array<int>, o: nat) returns (s: NcSpec, ok: bool)
    requires o + NC_SPEC <= mem.Length && WfNcSpec(mem[o..o + NC_SPEC])
    ensures s == DecodeNcSpec(mem[o..o + NC_SPEC])
    ensures ok <==> ValidTag(mem[o + 1])
  {
    hide WfArm, DecodeArm;
    ghost var v := mem[o..o + NC_SPEC];
    SubView(mem[..], o, o + NC_SPEC, 2, NC_SPEC);
    assert v[0] == mem[o] && v[1] == mem[o + 1];
    var arm;
    arm, ok := GetArm(mem, mem[o + 1], o + 2);
    s := NcSpec(mem[o], arm);
  }

  method GetArm(mem: array<int>, tag: int, u: nat) returns (arm: NcArm, ok: bool)
    requires u + UNION <= mem.Length && WfArm(tag, mem[u..u + UNION])
    ensures arm == DecodeArm(tag, mem[u..u + UNION])
    ensures ok <==> ValidTag(tag)
  {
    hide WfEp, WfEps, DecodeEp, DecodeEps;
    ghost var end := u + UNION;
    ok := true;
    if tag == TYPE_SS_PTP {
      SubView(mem[..], u, end, SS_PTP_SGUP, EPS);
      SubView(mem[..], u, end, SS_PTP_TSF, SS_PTP_END);
      var sgups := GetEndpoints(mem, u + SS_PTP_SGUP, u + SS_PTP_SGUP_SIZE);
      var tsf, _ := GetEndpoint(mem, u + SS_PTP_TSF);
      arm := SsPtp(sgups, Some(tsf));
    } else if tag == TYPE_SS_MPTP {
      SubView(mem[..], u, end, SS_MPTP_SGUP, EPS);
      SubView(mem[..], u, end, SS_MPTP_TSF, UNION);
      var sgups := GetEndpoints(mem, u + SS_PTP_SGUP, u + SS_MPTP_SGUP_SIZE);
      var tsfs := GetEndpoints(mem, u + SS_MPTP_TSF, u + SS_MPTP_TSF_SIZE);
      arm := if sgups == [] && tsfs == [] then NoArm else SsMptpc(sgups, tsfs);
    } else if tag == TYPE_MS_PTP {
      SubView(mem[..], u, end, MS_PTP_SGUP, EP);
      SubView(mem[..], u, end, MS_PTP_TSF, MS_PTP_END);
      var sgup, _ := GetEndpoint(mem, u + MS_PTP_SGUP);
      var tsf, _ := GetEndpoint(mem, u + MS_PTP_TSF);
      arm := MsPtp(Some(sgup), Some(tsf));
    } else if tag == TYPE_MS_MPTP {
      SubView(mem[..], u, end, MS_MPTP_SGUP, EP);
      SubView(mem[..], u, end, MS_MPTP_TSF, MS_MPTP_END);
      var sgup, _ := GetEndpoint(mem, u + MS_MPTP_SGUP);
      var tsfs := GetEndpoints(mem, u + MS_MPTP_TSF, u + MS_MPTP_TSF_SIZE);
      arm := MsMptp(Some(sgup), tsfs);
    } else {
      arm := NoArm;
      ok := false;
    }
  }
}
