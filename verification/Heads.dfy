/** What all six items start with in C: `name` and `metadata`, in this order. */
module Heads {
  import opened Cells
  import opened CStrings
  import opened Messages

  /** name, metadata.description, metadata.derived_state. The C record has no room for the timestamps. */
  const HEAD: nat := 131

  function HeadImage(name: PString, md: Option<MetaData>): (v: seq<int>)
    ensures |v| == HEAD
  {
    var d := md.GetOr(NO_METADATA);
    StrImage(name) + StrImage(d.description) + [d.derivedState]
  }

  ghost predicate WfHead(v: seq<int>)
    requires |v| == HEAD
  {
    Terminated(v[0..STR]) && Terminated(v[STR..130])
  }

  function HeadName(v: seq<int>): PString
    requires |v| == HEAD
  {
    CStr(v[0..STR])
  }

  function HeadMeta(v: seq<int>): Option<MetaData>
    requires |v| == HEAD
  {
    Some(MetaData(CStr(v[STR..130]), None, None, v[130]))
  }

  ghost predicate CanonHead(v: seq<int>) {
    |v| == HEAD && CanonStr(v[0..STR]) && CanonStr(v[STR..130])
  }

  /** Metadata as it comes back: present, the description cut, the timestamps gone. */
  function NormMeta(md: Option<MetaData>): Option<MetaData> {
    var d := md.GetOr(NO_METADATA);
    Some(MetaData(Cut(d.description), None, None, d.derivedState))
  }

  lemma HeadThere(name: PString, md: Option<MetaData>)
    ensures var v := HeadImage(name, md);
            CanonHead(v) && WfHead(v) && HeadName(v) == Cut(name) && HeadMeta(v) == NormMeta(md)
  {
    var v, d := HeadImage(name, md), md.GetOr(NO_METADATA);
    StrThere(name);
    StrThere(d.description);
    assert v[0..STR] == StrImage(name) && v[STR..130] == StrImage(d.description);
  }

  lemma HeadBack(v: seq<int>)
    requires CanonHead(v)
    ensures WfHead(v) && HeadImage(HeadName(v), HeadMeta(v)) == v
    ensures Fits(HeadName(v))
  {
    StrBack(v[0..STR]);
    StrBack(v[STR..130]);
    assert v == v[0..STR] + v[STR..130] + [v[130]];
  }

  lemma NormMetaTwice(md: Option<MetaData>)
    ensures NormMeta(NormMeta(md)) == NormMeta(md)
  {
    CutFixed(md.GetOr(NO_METADATA).description);
  }

  method AppendHead(mem: array<int>, p: nat, name: PString, md: Option<MetaData>, ghost b: Build)
    returns (ghost b': Build)
    requires Building(mem[..], b) && p == b.At() && p + HEAD <= b.end
    modifies mem
    ensures b' == b.Then(HeadImage(name, md)) && Building(mem[..], b')
  {
    hide Building, StrImage;
    var d := md.GetOr(NO_METADATA);
    b' := AppendString(mem, p, name, b);
    b' := AppendString(mem, p + STR, d.description, b');
    b' := Append(mem, p + 130, d.derivedState, b');
    assert b' == b.Then(HeadImage(name, md));
  }

  method GetHead(mem: array<int>, o: nat) returns (name: PString, md: Option<MetaData>)
    requires o + HEAD <= mem.Length && WfHead(mem[o..o + HEAD])
    ensures name == HeadName(mem[o..o + HEAD]) && md == HeadMeta(mem[o..o + HEAD])
  {
    SubView(mem[..], o, o + HEAD, 0, STR);
    SubView(mem[..], o, o + HEAD, STR, 130);
    name := GetString(mem, o);
    var description := GetString(mem, o + STR);
    md := Some(MetaData(description, None, None, mem[o + 130]));
  }
}
