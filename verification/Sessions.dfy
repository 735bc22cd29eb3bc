/** The session context. */
module Sessions {
  import opened Cells
  import opened CStrings
  import opened Messages
  import opened Heads
  import opened Endpoints

  // Offsets in the spec.
  const GROUPS_AT: nat := 65
  const QUALITY_AT: nat := 1106
  const CIRCUIT_AT: nat := 1107
  const REMOTE_AT: nat := 1172
  const FILTER_AT: nat := 1237
  const SHARD_AT: nat := 1304
  const NETWORK_AT: nat := 1369
  const SESSION_SPEC: nat := 1434
  /** name, metadata, spec, status. */
  const SESSION: nat := 1695
  const SESSION_STATUS_AT: nat := 1565
  const TSF_SHARD_AT: nat := 1630

  function FilterImage(f: SessionFilter): (v: seq<int>)
    ensures |v| == TRIPLE
  {
    TripleImage(f.sourceMacAddress, f.svlan, f.cvlan)
  }

  function SessionSpecImage(s: SessionSpec): (v: seq<int>)
    ensures |v| == SESSION_SPEC
  {
    StrImage(s.trafficSteeringFunction) + StrsImage(s.requiredServiceGroup) + [s.requiredQuality]
    + StrImage(s.circuitId) + StrImage(s.remoteId) + FilterImage(s.sessionFilter.GetOr(NO_FILTER))
    + StrImage(s.desiredState.GetOr(NO_SESSION_DESIRED).shard) + StrImage(s.networkConnection)
  }

  function Current(s: SessionContext): SessionCurrent {
    s.status.GetOr(NO_SESSION_STATUS).currentState.GetOr(NO_SESSION_CURRENT)
  }

  function SessionImage(s: SessionContext): (v: seq<int>)
    ensures |v| == SESSION
  {
    HeadImage(s.name, s.metadata) + SessionSpecImage(s.spec.GetOr(NO_SESSION_SPEC))
    + StrImage(Current(s).userPlaneShard) + StrImage(Current(s).tsfShard)
  }

  ghost predicate WfSessionSpec(v: seq<int>)
    requires |v| == SESSION_SPEC
  {
    && Terminated(v[0..GROUPS_AT])
    && WfStrs(v[GROUPS_AT..QUALITY_AT])
    && Terminated(v[CIRCUIT_AT..REMOTE_AT])
    && Terminated(v[REMOTE_AT..FILTER_AT])
    && WfTriple(v[FILTER_AT..SHARD_AT])
    && Terminated(v[SHARD_AT..NETWORK_AT])
    && Terminated(v[NETWORK_AT..SESSION_SPEC])
  }

  function DecodeFilter(v: seq<int>): SessionFilter
    requires |v| == TRIPLE
  {
    SessionFilter(CStr(v[0..STR]), v[65], v[66])
  }

  function DecodeSessionSpec(v: seq<int>): SessionSpec
    requires |v| == SESSION_SPEC && WfSessionSpec(v)
  {
    SessionSpec(
      CStr(v[0..GROUPS_AT]), DecodeStrs(v[GROUPS_AT..QUALITY_AT]), v[QUALITY_AT], CStr(v[CIRCUIT_AT..REMOTE_AT]),
      CStr(v[REMOTE_AT..FILTER_AT]), Some(DecodeFilter(v[FILTER_AT..SHARD_AT])),
      Some(SessionDesired(CStr(v[SHARD_AT..NETWORK_AT]))), CStr(v[NETWORK_AT..SESSION_SPEC]))
  }

  ghost predicate WfSession(v: seq<int>)
    requires |v| == SESSION
  {
    && WfHead(v[0..HEAD])
    && WfSessionSpec(v[HEAD..SESSION_STATUS_AT])
    && Terminated(v[SESSION_STATUS_AT..TSF_SHARD_AT])
    && Terminated(v[TSF_SHARD_AT..SESSION])
  }

  function DecodeSession(v: seq<int>): SessionContext
    requires |v| == SESSION && WfSession(v)
  {
    SessionContext(
      HeadName(v[0..HEAD]), HeadMeta(v[0..HEAD]), Some(DecodeSessionSpec(v[HEAD..SESSION_STATUS_AT])),
      Some(SessionStatus(Some(
        SessionCurrent(CStr(v[SESSION_STATUS_AT..TSF_SHARD_AT]), CStr(v[TSF_SHARD_AT..SESSION]))))))
  }

  ghost predicate CanonSessionSpec(v: seq<int>) {
    && |v| == SESSION_SPEC
    && CanonStr(v[0..GROUPS_AT])
    && CanonStrs(v[GROUPS_AT..QUALITY_AT])
    && CanonStr(v[CIRCUIT_AT..REMOTE_AT])
    && CanonStr(v[REMOTE_AT..FILTER_AT])
    && CanonTriple(v[FILTER_AT..SHARD_AT])
    && CanonStr(v[SHARD_AT..NETWORK_AT])
    && CanonStr(v[NETWORK_AT..SESSION_SPEC])
  }

  ghost predicate CanonSession(v: seq<int>) {
    && |v| == SESSION
    && CanonHead(v[0..HEAD])
    && CanonSessionSpec(v[HEAD..SESSION_STATUS_AT])
    && CanonStr(v[SESSION_STATUS_AT..TSF_SHARD_AT])
    && CanonStr(v[TSF_SHARD_AT..SESSION])
  }

  function NormFilter(f: SessionFilter): SessionFilter {
    f.(sourceMacAddress := Cut(f.sourceMacAddress))
  }

  function NormSessionSpec(s: SessionSpec): SessionSpec {
    SessionSpec(
      Cut(s.trafficSteeringFunction), NormStrs(s.requiredServiceGroup), s.requiredQuality, Cut(s.circuitId),
      Cut(s.remoteId), Some(NormFilter(s.sessionFilter.GetOr(NO_FILTER))),
      Some(SessionDesired(Cut(s.desiredState.GetOr(NO_SESSION_DESIRED).shard))), Cut(s.networkConnection))
  }

  /** A session context as it comes back from C. */
  function NormSession(s: SessionContext): SessionContext {
    SessionContext(
      Cut(s.name), NormMeta(s.metadata), Some(NormSessionSpec(s.spec.GetOr(NO_SESSION_SPEC))),
      Some(SessionStatus(Some(SessionCurrent(Cut(Current(s).userPlaneShard), Cut(Current(s).tsfShard))))))
  }

  lemma SessionSpecThere(s: SessionSpec)
    ensures var v := SessionSpecImage(s);
            CanonSessionSpec(v) && WfSessionSpec(v) && DecodeSessionSpec(v) == NormSessionSpec(s)
  {
    hide StrImage, CanonStr, Terminated, CStr, StrsImage, CanonStrs, WfStrs, DecodeStrs, TripleImage, CanonTriple,
         WfTriple, NormStrs;
    var v, f := SessionSpecImage(s), s.sessionFilter.GetOr(NO_FILTER);
    StrThere(s.trafficSteeringFunction);
    StrsThere(s.requiredServiceGroup);
    StrThere(s.circuitId);
    StrThere(s.remoteId);
    TripleThere(f.sourceMacAddress, f.svlan, f.cvlan);
    StrThere(s.desiredState.GetOr(NO_SESSION_DESIRED).shard);
    StrThere(s.networkConnection);
    assert v[0..GROUPS_AT] == StrImage(s.trafficSteeringFunction);
    assert v[GROUPS_AT..QUALITY_AT] == StrsImage(s.requiredServiceGroup);
    assert v[CIRCUIT_AT..REMOTE_AT] == StrImage(s.circuitId);
    assert v[REMOTE_AT..FILTER_AT] == StrImage(s.remoteId);
    assert v[FILTER_AT..SHARD_AT] == FilterImage(f);
    assert v[SHARD_AT..NETWORK_AT] == StrImage(s.desiredState.GetOr(NO_SESSION_DESIRED).shard);
    assert v[NETWORK_AT..SESSION_SPEC] == StrImage(s.networkConnection);
  }

  /** Proto to C and back is `NormSession`. */
  lemma SessionThere(s: SessionContext)
    ensures CanonSession(SessionImage(s)) && WfSession(SessionImage(s))
    ensures DecodeSession(SessionImage(s)) == NormSession(s)
  {
    hide HeadImage, CanonHead, WfHead, HeadName, HeadMeta, StrImage, CanonStr, Terminated, CStr, SessionSpecImage,
         CanonSessionSpec, WfSessionSpec, DecodeSessionSpec, NormMeta, NormSessionSpec;
    var v, spec := SessionImage(s), s.spec.GetOr(NO_SESSION_SPEC);
    HeadThere(s.name, s.metadata);
    SessionSpecThere(spec);
    StrThere(Current(s).userPlaneShard);
    StrThere(Current(s).tsfShard);
    assert v[0..HEAD] == HeadImage(s.name, s.metadata);
    assert v[HEAD..SESSION_STATUS_AT] == SessionSpecImage(spec);
    assert v[SESSION_STATUS_AT..TSF_SHARD_AT] == StrImage(Current(s).userPlaneShard);
    assert v[TSF_SHARD_AT..SESSION] == StrImage(Current(s).tsfShard);
  }

  lemma SessionTwice(s: SessionContext)
    ensures NormSession(NormSession(s)) == NormSession(s)
  {
    hide NormMeta, NormStrs;
    var spec := s.spec.GetOr(NO_SESSION_SPEC);
    CutFixed(s.name);
    NormMetaTwice(s.metadata);
    CutFixed(spec.trafficSteeringFunction);
    NormStrsTwice(spec.requiredServiceGroup);
    CutFixed(spec.circuitId);
    CutFixed(spec.remoteId);
    CutFixed(spec.sessionFilter.GetOr(NO_FILTER).sourceMacAddress);
    CutFixed(spec.desiredState.GetOr(NO_SESSION_DESIRED).shard);
    CutFixed(spec.networkConnection);
    CutFixed(Current(s).userPlaneShard);
    CutFixed(Current(s).tsfShard);
  }

  lemma SessionSpecBack(v: seq<int>)
    requires CanonSessionSpec(v)
    ensures WfSessionSpec(v) && SessionSpecImage(DecodeSessionSpec(v)) == v
  {
    hide StrImage, CanonStr, Terminated, CStr, StrsImage, CanonStrs, WfStrs, DecodeStrs, TripleImage, CanonTriple,
         WfTriple;
    StrBack(v[0..GROUPS_AT]);
    StrsBack(v[GROUPS_AT..QUALITY_AT]);
    StrBack(v[CIRCUIT_AT..REMOTE_AT]);
    StrBack(v[REMOTE_AT..FILTER_AT]);
    TripleBack(v[FILTER_AT..SHARD_AT]);
    StrBack(v[SHARD_AT..NETWORK_AT]);
    StrBack(v[NETWORK_AT..SESSION_SPEC]);
    assert v == v[0..GROUPS_AT] + v[GROUPS_AT..QUALITY_AT] + [v[QUALITY_AT]] + v[CIRCUIT_AT..REMOTE_AT]
                + v[REMOTE_AT..FILTER_AT] + v[FILTER_AT..SHARD_AT] + v[SHARD_AT..NETWORK_AT]
                + v[NETWORK_AT..SESSION_SPEC];
  }

  lemma SessionBack(v: seq<int>)
    requires CanonSession(v)
    ensures WfSession(v) && SessionImage(DecodeSession(v)) == v
  {
    hide HeadImage, CanonHead, WfHead, HeadName, HeadMeta, StrImage, CanonStr, Terminated, CStr, SessionSpecImage,
         CanonSessionSpec, WfSessionSpec, DecodeSessionSpec;
    HeadBack(v[0..HEAD]);
    SessionSpecBack(v[HEAD..SESSION_STATUS_AT]);
    StrBack(v[SESSION_STATUS_AT..TSF_SHARD_AT]);
    StrBack(v[TSF_SHARD_AT..SESSION]);
    assert v == v[0..HEAD] + v[HEAD..SESSION_STATUS_AT] + v[SESSION_STATUS_AT..TSF_SHARD_AT]
                + v[TSF_SHARD_AT..SESSION];
  }

  // ---- the overloads ----

  method AppendFilter(mem: array<int>, p: nat, f: SessionFilter, ghost b: Build) returns (ghost b': Build)
    requires Building(mem[..], b) && p == b.At() && p + TRIPLE <= b.end
    modifies mem
    ensures b' == b.Then(FilterImage(f)) && Building(mem[..], b')
  {
    hide Building, Outside, TripleImage;
    ghost var m := mem[..];
    ClearNext(m, b, TRIPLE);
    PutTriple(mem, p, f.sourceMacAddress, f.svlan, f.cvlan);
    b' := b.Then(FilterImage(f));
    Built(m, mem[..], b, FilterImage(f));
  }

  method AppendSessionDesired(mem: array<int>, p: nat, d: SessionDesired, ghost b: Build) returns (ghost b': Build)
    requires Building(mem[..], b) && p == b.At() && p + STR <= b.end
    modifies mem
    ensures b' == b.Then(StrImage(d.shard)) && Building(mem[..], b')
  {
    hide Building, Outside, StrImage;
    ghost var c := Open(mem, p, STR, b);
    c := AppendString(mem, p, d.shard, c);
    b' := Close(mem[..], b, c);
    assert c.done == StrImage(d.shard);
  }

  /** Returns whether the warning about too many service groups is logged. */
  method PutSessionSpec(mem: array<int>, o: nat, s: SessionSpec) returns (warned: bool)
    requires o + SESSION_SPEC <= mem.Length
    modifies mem
    ensures mem[o..o + SESSION_SPEC] == SessionSpecImage(s)
    ensures Outside(old(mem[..]), mem[..], o, o + SESSION_SPEC)
    ensures warned <==> Take(s.requiredServiceGroup) != s.requiredServiceGroup
  {
    hide Building, Outside, StrImage, StrsImage, FilterImage;
    ghost var b := Clear(mem, o, SESSION_SPEC);
    b := AppendString(mem, o, s.trafficSteeringFunction, b);
    b, warned := AppendStringsUntilFull(mem, o + GROUPS_AT, s.requiredServiceGroup, b);
    b := Append(mem, o + QUALITY_AT, s.requiredQuality, b);
    b := AppendString(mem, o + CIRCUIT_AT, s.circuitId, b);
    b := AppendString(mem, o + REMOTE_AT, s.remoteId, b);
    b := AppendFilter(mem, o + FILTER_AT, s.sessionFilter.GetOr(NO_FILTER), b);
    b := AppendSessionDesired(mem, o + SHARD_AT, s.desiredState.GetOr(NO_SESSION_DESIRED), b);
    b := AppendString(mem, o + NETWORK_AT, s.networkConnection, b);
    Finish(mem[..], b);
  }

  method AppendSessionStatus(mem: array<int>, p: nat, s: SessionStatus, ghost b: Build) returns (ghost b': Build)
    requires Building(mem[..], b) && p == b.At() && p + 2 * STR <= b.end
    modifies mem
    ensures var c := s.currentState.GetOr(NO_SESSION_CURRENT);
            b' == b.Then(StrImage(c.userPlaneShard) + StrImage(c.tsfShard)) && Building(mem[..], b')
  {
    hide Building, Outside, StrImage;
    var current := s.currentState.GetOr(NO_SESSION_CURRENT);
    ghost var c := Open(mem, p, 2 * STR, b);
    c := AppendSessionCurrent(mem, p, current, c);
    b' := Close(mem[..], b, c);
    assert c.done == StrImage(current.userPlaneShard) + StrImage(current.tsfShard);
  }

  method AppendSessionCurrent(mem: array<int>, p: nat, s: SessionCurrent, ghost b: Build) returns (ghost b': Build)
    requires Building(mem[..], b) && p == b.At() && p + 2 * STR <= b.end
    modifies mem
    ensures b' == b.Then(StrImage(s.userPlaneShard) + StrImage(s.tsfShard)) && Building(mem[..], b')
  {
    hide Building, Outside, StrImage;
    ghost var c := Open(mem, p, 2 * STR, b);
    c := AppendString(mem, p, s.userPlaneShard, c);
    c := AppendString(mem, p + STR, s.tsfShard, c);
    b' := Close(mem[..], b, c);
    assert c.done == StrImage(s.userPlaneShard) + StrImage(s.tsfShard);
  }

  method PutSession(mem: array<int>, o: nat, s: SessionContext)
    requires o + SESSION <= mem.Length
    modifies mem
    ensures mem[o..o + SESSION] == SessionImage(s)
    ensures Outside(old(mem[..]), mem[..], o, o + SESSION)
  {
    hide Building, Outside, HeadImage, StrImage, SessionSpecImage;
    ghost var b := Clear(mem, o, SESSION);
    b := AppendHead(mem, o, s.name, s.metadata, b);
    ghost var m := mem[..];
    ClearNext(m, b, SESSION_SPEC);
    var warned := PutSessionSpec(mem, o + HEAD, s.spec.GetOr(NO_SESSION_SPEC));
    Built(m, mem[..], b, SessionSpecImage(s.spec.GetOr(NO_SESSION_SPEC)));
    b := b.Then(SessionSpecImage(s.spec.GetOr(NO_SESSION_SPEC)));
    b := AppendSessionStatus(mem, o + SESSION_STATUS_AT, s.status.GetOr(NO_SESSION_STATUS), b);
    Finish(mem[..], b);
    assert b.done == SessionImage(s);
  }

  method GetFilter(mem: array<int>, o: nat) returns (f: SessionFilter)
    requires o + TRIPLE <= mem.Length && WfTriple(mem[o..o + TRIPLE])
    ensures f == DecodeFilter(mem[o..o + TRIPLE])
  {
    SubView(mem[..], o, o + TRIPLE, 0, STR);
    var mac := GetString(mem, o);
    f := SessionFilter(mac, mem[o + 65], mem[o + 66]);
  }

  method GetSessionSpec(mem: array<int>, o: nat) returns (s: SessionSpec)
    requires o + SESSION_SPEC <= mem.Length && WfSessionSpec(mem[o..o + SESSION_SPEC])
    ensures s == DecodeSessionSpec(mem[o..o + SESSION_SPEC])
  {
    hide Terminated, CStr, WfStrs, DecodeStrs, WfTriple, DecodeFilter;
    ghost var end := o + SESSION_SPEC;
    SubView(mem[..], o, end, 0, GROUPS_AT);
    SubView(mem[..], o, end, GROUPS_AT, QUALITY_AT);
    SubView(mem[..], o, end, CIRCUIT_AT, REMOTE_AT);
    SubView(mem[..], o, end, REMOTE_AT, FILTER_AT);
    SubView(mem[..], o, end, FILTER_AT, SHARD_AT);
    SubView(mem[..], o, end, SHARD_AT, NETWORK_AT);
    SubView(mem[..], o, end, NETWORK_AT, SESSION_SPEC);
    assert mem[o..end][QUALITY_AT] == mem[o + QUALITY_AT];
    var tsf := GetString(mem, o);
    var groups := GetStrings(mem, o + GROUPS_AT);
    var circuit := GetString(mem, o + CIRCUIT_AT);
    var remote := GetString(mem, o + REMOTE_AT);
    var filter := GetFilter(mem, o + FILTER_AT);
    var shard := GetString(mem, o + SHARD_AT);
    var network := GetString(mem, o + NETWORK_AT);
    s := SessionSpec(
      tsf, groups, mem[o + QUALITY_AT], circuit, remote, Some(filter), Some(SessionDesired(shard)), network);
  }

  method GetSession(mem: array<int>, o: nat) returns (s: SessionContext)
    requires o + SESSION <= mem.Length && WfSession(mem[o..o + SESSION])
    ensures s == DecodeSession(mem[o..o + SESSION])
  {
    hide WfHead, HeadName, HeadMeta, Terminated, CStr, WfSessionSpec, DecodeSessionSpec;
    SubView(mem[..], o, o + SESSION, 0, HEAD);
    SubView(mem[..], o, o + SESSION, HEAD, SESSION_STATUS_AT);
    SubView(mem[..], o, o + SESSION, SESSION_STATUS_AT, TSF_SHARD_AT);
    SubView(mem[..], o, o + SESSION, TSF_SHARD_AT, SESSION);
    var name, metadata := GetHead(mem, o);
    var spec := GetSessionSpec(mem, o + HEAD);
    var userPlane := GetString(mem, o + SESSION_STATUS_AT);
    var tsf := GetString(mem, o + TSF_SHARD_AT);
    s := SessionContext(
      name, metadata, Some(spec), Some(SessionStatus(Some(SessionCurrent(userPlane, tsf)))));
  }
}
