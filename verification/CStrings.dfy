/** Strings on both sides of the codec. A protobuf string is a sequence of bytes of any length, NUL bytes
    included; `upsf_string_t` is 64 chars and a `len`. The string primitive is `strncpy`, section 7.24.2.4
    of ISO/IEC 9899:2011. */
module CStrings {
  import opened Cells

  type PString = seq<int>

  /** UPSF_MAX_STRING_SIZE */
  const CHARS: nat := 64
  /** Cells of an `upsf_string_t`: the chars, then `len`. */
  const STR: nat := 65
  /** Cells of an array of 16 strings and the size behind it. */
  const STRS: nat := 1041

  /** Index of the first NUL byte, or the length when there is none. */
  function FirstNul(s: seq<int>): (n: nat)
    ensures n <= |s|
    ensures forall i | 0 <= i < n :: s[i] != 0
    ensures n < |s| ==> s[n] == 0
  {
    if s == [] || s[0] == 0 then 0 else 1 + FirstNul(s[1..])
  }

  lemma FirstNulIs(s: seq<int>, n: nat)
    requires n <= |s| && (forall i | 0 <= i < n :: s[i] != 0) && (n < |s| ==> s[n] == 0)
    ensures FirstNul(s) == n
  {
    assert !(FirstNul(s) < n);
  }

  /** What survives of a string in a C record: it ends at the first NUL byte or after 63 bytes. */
  function Cut(s: PString): (c: PString)
    ensures |c| == (if FirstNul(s) < CHARS then FirstNul(s) else CHARS - 1) && c <= s
    ensures forall i | 0 <= i < |c| :: c[i] != 0
  {
    var n := FirstNul(s);
    if n < CHARS then s[..n] else s[..CHARS - 1]
  }

  /** The strings a C record can hold, and exactly the ones it does not change. */
  ghost predicate Fits(s: PString) {
    |s| <= CHARS - 1 && forall i | 0 <= i < |s| :: s[i] != 0
  }

  lemma CutFixed(s: PString)
    ensures Cut(s) == s <==> Fits(s)
    ensures Fits(Cut(s)) && Cut(Cut(s)) == Cut(s)
  {
    if Fits(s) {
      FirstNulIs(s, |s|);
    }
    FirstNulIs(Cut(s), |Cut(s)|);
  }

  /** The cells of an `upsf_string_t` that a proto string is written to. */
  function StrImage(s: PString): (v: seq<int>)
    ensures |v| == STR
  {
    Cut(s) + Zeros(CHARS - |Cut(s)|) + [|Cut(s)|]
  }

  /** `std::string(x.str)`: the bytes before the NUL; `len` is not consulted. */
  function CStr(v: seq<int>): (s: PString)
    requires |v| == STR
  {
    v[..FirstNul(v[..CHARS])]
  }

  /** A NUL is there to stop `std::string(x.str)` before it leaves the record. */
  ghost predicate Terminated(v: seq<int>)
    requires |v| == STR
  {
    FirstNul(v[..CHARS]) < CHARS
  }

  /** Whatever its `len` says: a record with a NUL among its chars is read as the chars before the first one. */
  lemma CStrIs(v: seq<int>)
    requires |v| == STR && 0 in v[..64]
    ensures Terminated(v)
    ensures var s := CStr(v);
            |s| < 64 && s == v[..|s|] && v[|s|] == 0 && forall i | 0 <= i < |s| :: v[i] != 0
  {
    var i :| 0 <= i < 64 && v[..64][i] == 0;
    assert !(i < FirstNul(v[..64]));
    assert v[..64][FirstNul(v[..64])] == 0;
    forall j | 0 <= j < FirstNul(v[..64])
      ensures v[j] != 0
    {
      assert v[..64][j] != 0;
    }
  }

  lemma CStrOnText(v: seq<int>, w: seq<int>)
    requires |v| == |w| == STR && v[..64] == w[..64]
    ensures CStr(v) == CStr(w) && (Terminated(v) <==> Terminated(w)) && (Terminated(v) <==> 0 in v[..64])
  {
    var n := FirstNul(v[..64]);
    assert v[..n] == v[..64][..n] && w[..n] == w[..64][..n];
    if 0 in v[..64] {
      CStrIs(v);
    }
  }

  /** NUL-terminated, `len` right, nothing but zeros behind the text. */
  ghost predicate CanonStr(v: seq<int>) {
    && |v| == STR
    && 0 <= v[CHARS] < CHARS
    && (forall i | 0 <= i < v[CHARS] :: v[i] != 0)
    && (forall i | v[CHARS] <= i < CHARS :: v[i] == 0)
  }

  lemma StrThere(s: PString)
    ensures CanonStr(StrImage(s)) && Terminated(StrImage(s))
    ensures CStr(StrImage(s)) == Cut(s)
  {
    var v := StrImage(s);
    assert v[CHARS] == |Cut(s)|;
    FirstNulIs(v[..CHARS], |Cut(s)|);
  }

  /** Cell by cell: the text, then NULs, and its length in `len`. */
  lemma StrCells(s: PString)
    ensures var v, n := StrImage(s), |Cut(s)|;
            && (forall i | 0 <= i < n :: v[i] == s[i])
            && (forall i | n <= i < 64 :: v[i] == 0)
            && v[64] == n
  {
  }

  lemma StrBack(v: seq<int>)
    requires CanonStr(v)
    ensures Terminated(v) && Fits(CStr(v)) && StrImage(CStr(v)) == v
  {
    FirstNulIs(v[..CHARS], v[CHARS]);
    CutFixed(CStr(v));
    assert |StrImage(CStr(v))| == |v|;
    forall i | 0 <= i < STR
      ensures StrImage(CStr(v))[i] == v[i]
    {
    }
  }

  lemma StrZero()
    ensures CanonStr(Zeros(STR)) && StrImage([]) == Zeros(STR)
  {
  }

  /** The bytes before the NUL, but no more than `n`. */
  method CopyText(mem: array<int>, o: nat, s: PString, n: nat) returns (i: nat)
    requires o + n <= mem.Length
    modifies mem
    ensures i == (if FirstNul(s) < n then FirstNul(s) else n) && i <= |s|
    ensures mem[o..o + i] == s[..i]
    ensures Outside(old(mem[..]), mem[..], o, o + i)
  {
    i := 0;
    while i < n && i < |s| && s[i] != 0
      invariant i <= n && i <= |s|
      invariant forall j | 0 <= j < i :: s[j] != 0
      invariant forall j | 0 <= j < i :: mem[o + j] == s[j]
      invariant forall k | 0 <= k < mem.Length && !(o <= k < o + i) :: mem[k] == old(mem[k])
    {
      mem[o + i] := s[i];
      i := i + 1;
    }
    if i == |s| || s[i] == 0 {
      FirstNulIs(s, i);
    }
    OutsideByCell(old(mem[..]), mem[..], o, o + i);
  }

  /** `strncpy(mem + o, s.c_str(), n)`: copy up to the NUL, pad with NULs to `n`. */
  method Strncpy(mem: array<int>, o: nat, s: PString, n: nat)
    requires o + n <= mem.Length
    modifies mem
    ensures var k := if FirstNul(s) < n then FirstNul(s) else n;
            mem[o..o + n] == s[..k] + Zeros(n - k)
    ensures Outside(old(mem[..]), mem[..], o, o + n)
  {
    hide Outside, Zeros;
    ghost var m0 := mem[..];
    var i := CopyText(mem, o, s, n);
    ghost var m := mem[..];
    OutsideWiden(m0, m, o, o + i, o + n);
    Memset(mem, o + i, n - i);
    Kept(m, mem[..], o + i, o + n, o, o + i);
    Glue(mem[..], o, o + i, o + n);
    OutsideThen(m0, m, mem[..], o, o + n, o + i, o + n);
  }

  method Strlen(mem: array<int>, o: nat) returns (n: nat)
    requires o + STR <= mem.Length && Terminated(mem[o..o + STR])
    ensures n == FirstNul(mem[o..o + CHARS])
  {
    assert mem[o..o + STR][..CHARS] == mem[o..o + CHARS];
    ghost var v := mem[o..o + CHARS];
    n := 0;
    while mem[o + n] != 0
      invariant n <= FirstNul(v) < CHARS
      decreases CHARS - n
    {
      assert v[n] == mem[o + n];
      n := n + 1;
    }
    assert v[n] == mem[o + n];
  }

  /** The three statements that fill every `upsf_string_t`. `strncpy` stops one cell short of the last char,
      so that cell must have been cleared before. */
  method PutString(mem: array<int>, o: nat, s: PString)
    requires o + STR <= mem.Length && mem[o + CHARS - 1] == 0
    modifies mem
    ensures mem[o..o + STR] == StrImage(s)
    ensures Outside(old(mem[..]), mem[..], o, o + STR)
  {
    Strncpy(mem, o, s, CHARS - 1);
    assert mem[o + CHARS - 1..o + CHARS] == old(mem[o + CHARS - 1..o + CHARS]) == [0];
    Glue(mem[..], o, o + CHARS - 1, o + CHARS);
    assert mem[o..o + CHARS] == Cut(s) + Zeros(CHARS - |Cut(s)|);
    FirstNulIs(mem[o..o + CHARS], |Cut(s)|);
    assert mem[o..o + STR][..CHARS] == mem[o..o + CHARS];
    var n := Strlen(mem, o);
    Store(mem, o + CHARS, n);
    Glue(mem[..], o, o + CHARS, o + STR);
  }

  method AppendString(mem: array<int>, p: nat, s: PString, ghost b: Build) returns (ghost b': Build)
    requires Building(mem[..], b) && p == b.At() && p + STR <= b.end
    modifies mem
    ensures b' == b.Then(StrImage(s)) && Building(mem[..], b')
  {
    hide Building, Outside;
    ghost var m := mem[..];
    ClearNext(m, b, STR);
    PutString(mem, p, s);
    b' := b.Then(StrImage(s));
    Built(m, mem[..], b, StrImage(s));
  }

  method GetString(mem: array<int>, o: nat) returns (s: PString)
    requires o + STR <= mem.Length && Terminated(mem[o..o + STR])
    ensures s == CStr(mem[o..o + STR])
  {
    var n := Strlen(mem, o);
    assert mem[o..o + STR][..CHARS] == mem[o..o + CHARS];
    s := mem[o..o + n];
  }

  // ---- arrays of strings ----

  function StrSlots(xs: seq<PString>): (slots: seq<seq<int>>)
    ensures |slots| == |xs| && Wide(slots, STR)
  {
    seq(|xs|, i requires 0 <= i < |xs| => StrImage(xs[i]))
  }

  /** An array of strings with its size, as a repeated field is written to it. */
  function StrsImage(xs: seq<PString>): (v: seq<int>)
    ensures |v| == STRS
  {
    FlatLength(StrSlots(Take(xs)), STR);
    ArrayImage(StrSlots(Take(xs)), STR)
  }

  /** The list idiom that clamps the size first and then counts up to it. */
  method AppendStrings(mem: array<int>, p: nat, xs: seq<PString>, ghost b: Build)
    returns (ghost b': Build, warned: bool)
    requires Building(mem[..], b) && p == b.At() && p + STRS <= b.end
    modifies mem
    ensures b' == b.Then(StrsImage(xs)) && Building(mem[..], b')
    ensures warned <==> Take(xs) != xs
  {
    hide Building, Outside, StrImage;
    ghost var m, slots := mem[..], StrSlots(Take(xs));
    ClearNext(m, b, STRS);
    var size := if |xs| < CAP then |xs| else CAP;
    Store(mem, p + STRS - 1, size);
    ghost var m1 := mem[..];
    ghost var c := BeginSlots(m, m1, p, p + STRS - 1);
    for i := 0 to size
      invariant Building(mem[..], c) && c == Build(m1, p, p + STRS - 1, Flat(slots[..i]))
    {
      FlatNext(slots, i);
      FlatLength(slots[..i], STR);
      c := AppendString(mem, p + i * STR, xs[i], c);
    }
    assert slots[..size] == slots;
    SizeThenSlots(m, mem[..], c, slots, STR);
    b' := b.Then(StrsImage(xs));
    Built(m, mem[..], b, StrsImage(xs));
    warned := size < |xs|;
  }

  ghost predicate WfStrs(v: seq<int>)
    requires |v| == STRS
  {
    && 0 <= v[STRS - 1] <= CAP
    && forall i | 0 <= i < v[STRS - 1] :: Terminated(Slot(v, STR, i))
  }

  function DecodeStrs(v: seq<int>): seq<PString>
    requires |v| == STRS && 0 <= v[STRS - 1] <= CAP
  {
    seq(v[STRS - 1], i requires 0 <= i < v[STRS - 1] => CStr(Slot(v, STR, i)))
  }

  ghost predicate CanonStrs(v: seq<int>) {
    && |v| == STRS
    && 0 <= v[STRS - 1] <= CAP
    && (forall i | 0 <= i < v[STRS - 1] :: CanonStr(Slot(v, STR, i)))
    && v[v[STRS - 1] * STR..STRS - 1] == Zeros((CAP - v[STRS - 1]) * STR)
  }

  /** A list of strings as it comes back: at most 16, each cut. */
  function NormStrs(xs: seq<PString>): (ns: seq<PString>)
    ensures |ns| == |Take(xs)|
  {
    var ts := Take(xs);
    seq(|ts|, i requires 0 <= i < |ts| => Cut(ts[i]))
  }

  lemma StrsThere(xs: seq<PString>)
    ensures CanonStrs(StrsImage(xs)) && WfStrs(StrsImage(xs))
    ensures DecodeStrs(StrsImage(xs)) == NormStrs(xs)
  {
    var ts, v := Take(xs), StrsImage(xs);
    ArrayParts(StrSlots(ts), STR);
    forall i | 0 <= i < |ts|
      ensures Slot(v, STR, i) == StrImage(ts[i]) && CanonStr(Slot(v, STR, i)) && Terminated(Slot(v, STR, i))
      ensures CStr(Slot(v, STR, i)) == Cut(ts[i])
    {
      ArraySlot(StrSlots(ts), STR, i);
      StrThere(ts[i]);
    }
  }

  lemma StrsBack(v: seq<int>)
    requires CanonStrs(v)
    ensures WfStrs(v) && StrsImage(DecodeStrs(v)) == v
  {
    var xs := DecodeStrs(v);
    forall i | 0 <= i < v[STRS - 1]
      ensures Terminated(Slot(v, STR, i)) && StrImage(xs[i]) == Slot(v, STR, i)
    {
      StrBack(Slot(v, STR, i));
    }
    ArrayBack(v, StrSlots(xs), STR);
  }

  lemma NormStrsTwice(xs: seq<PString>)
    ensures NormStrs(NormStrs(xs)) == NormStrs(xs)
  {
    forall i | 0 <= i < |NormStrs(xs)|
      ensures Cut(NormStrs(xs)[i]) == NormStrs(xs)[i]
    {
      CutFixed(Take(xs)[i]);
    }
  }

  /** The list idiom that walks the whole list and breaks when the array is full. */
  method AppendStringsUntilFull(mem: array<int>, p: nat, xs: seq<PString>, ghost b: Build)
    returns (ghost b': Build, warned: bool)
    requires Building(mem[..], b) && p == b.At() && p + STRS <= b.end
    modifies mem
    ensures b' == b.Then(StrsImage(xs)) && Building(mem[..], b')
    ensures warned <==> Take(xs) != xs
  {
    hide Building, Outside, StrImage;
    ghost var m, slots := mem[..], StrSlots(Take(xs));
    ClearNext(m, b, STRS);
    OutsideNone(m, p + STRS - 1, p + STRS);
    ghost var c := BeginSlots(m, m, p, p + STRS - 1);
    var i := 0;
    while i < |xs|
      invariant i <= |xs| && i < CAP
      invariant Building(mem[..], c) && c == Build(m, p, p + STRS - 1, Flat(slots[..i]))
    {
      FlatNext(slots, i);
      FlatLength(slots[..i], STR);
      c := AppendString(mem, p + i * STR, xs[i], c);
      i := i + 1;
      if i == CAP {
        break;
      }
    }
    assert slots[..i] == slots && i == |slots|;
    b' := AppendSize(mem, p + STRS - 1, i, slots, STR, c, b);
    warned := i < |xs|;
  }

  method GetStrings(mem: array<int>, o: nat) returns (xs: seq<PString>)
    requires o + STRS <= mem.Length && WfStrs(mem[o..o + STRS])
    ensures xs == DecodeStrs(mem[o..o + STRS])
  {
    ghost var v := mem[o..o + STRS];
    assert v[STRS - 1] == mem[o + STRS - 1];
    xs := [];
    for i := 0 to mem[o + STRS - 1]
      invariant |xs| == i
      invariant forall j | 0 <= j < i :: xs[j] == CStr(Slot(v, STR, j))
    {
      SlotBounds(i, CAP, STR);
      SubView(mem[..], o, o + STRS, i * STR, (i + 1) * STR);
      assert Slot(v, STR, i) == mem[o + i * STR..o + i * STR + STR];
      var s := GetString(mem, o + i * STR);
      xs := xs + [s];
    }
  }
}
