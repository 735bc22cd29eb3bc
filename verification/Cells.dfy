/** The memory a C caller hands to libupsf: a flat array with one cell for every `char` and one cell for
    every scalar (`int`, `enum`, `size_t`). A C structure is a run of cells, a field is an offset into it,
    an array of structures is a run of equally wide slots, and a union is a run of cells that several
    structures read through their own offsets. */
module Cells {

  /** Capacity of every fixed array in upsf.h. */
  const CAP: nat := 16

  function Zeros(n: nat): (z: seq<int>)
    ensures |z| == n
    ensures forall i | 0 <= i < n :: z[i] == 0
  {
    seq(n, _ => 0)
  }

  /** The cells of `m` outside [lo, hi) are the same in `m'`: no run of cells beside that range changed. */
  ghost predicate Outside(m: seq<int>, m': seq<int>, lo: nat, hi: nat) {
    && |m'| == |m|
    && forall a, b {:trigger m'[a..b]} | 0 <= a <= b <= |m| && (b <= lo || hi <= a) :: m'[a..b] == m[a..b]
  }

  lemma OutsideByCell(m: seq<int>, m': seq<int>, lo: nat, hi: nat)
    requires |m| == |m'|
    requires forall k | 0 <= k < |m| && !(lo <= k < hi) :: m'[k] == m[k]
    ensures Outside(m, m', lo, hi)
  {
  }

  lemma OutsideNone(m: seq<int>, lo: nat, hi: nat)
    ensures Outside(m, m, lo, hi)
  {
  }

  lemma Kept(m: seq<int>, m': seq<int>, lo: nat, hi: nat, a: nat, b: nat)
    requires Outside(m, m', lo, hi) && a <= b <= |m| && (b <= lo || hi <= a)
    ensures |m'| == |m| && m'[a..b] == m[a..b]
  {
  }

  lemma OutsideThen(m0: seq<int>, m1: seq<int>, m2: seq<int>, lo: nat, hi: nat, a: nat, b: nat)
    requires Outside(m0, m1, lo, hi) && Outside(m1, m2, a, b) && lo <= a && b <= hi
    ensures Outside(m0, m2, lo, hi)
  {
  }

  lemma OutsideWiden(m: seq<int>, m': seq<int>, lo: nat, hi: nat, top: nat)
    requires Outside(m, m', lo, hi) && hi <= top
    ensures Outside(m, m', lo, top)
  {
  }

  /** The upper of two neighbouring runs is written first, then the lower one. */
  lemma SideBySide(m0: seq<int>, m1: seq<int>, m2: seq<int>, lo: nat, mid: nat, hi: nat)
    requires lo <= mid <= hi <= |m0| && Outside(m0, m1, mid, hi) && Outside(m1, m2, lo, mid)
    ensures Outside(m0, m2, lo, hi) && m2[mid..hi] == m1[mid..hi]
  {
  }

  lemma Glue(m: seq<int>, a: nat, b: nat, c: nat)
    requires a <= b <= c <= |m|
    ensures m[a..c] == m[a..b] + m[b..c]
  {
  }

  lemma Regroup<T>(x: seq<T>, y: seq<T>, z: seq<T>)
    ensures x + (y + z) == (x + y) + z
  {
  }

  lemma SubView(m: seq<int>, a: nat, b: nat, c: nat, d: nat)
    requires a <= b <= |m| && c <= d <= b - a
    ensures m[a..b][c..d] == m[a + c..a + d]
  {
    assert |m[a..b][c..d]| == |m[a + c..a + d]|;
    forall k | 0 <= k < d - c
      ensures m[a..b][c..d][k] == m[a + c..a + d][k]
    {
      assert m[a..b][c..d][k] == m[a..b][c + k] == m[a + c + k];
    }
  }

  method Memset(mem: array<int>, o: nat, n: nat)
    requires o + n <= mem.Length
    modifies mem
    ensures mem[o..o + n] == Zeros(n)
    ensures Outside(old(mem[..]), mem[..], o, o + n)
  {
    for i := 0 to n
      invariant forall k | o <= k < o + i :: mem[k] == 0
      invariant forall k | 0 <= k < mem.Length && !(o <= k < o + n) :: mem[k] == old(mem[k])
    {
      mem[o + i] := 0;
    }
    OutsideByCell(old(mem[..]), mem[..], o, o + n);
  }

  method Store(mem: array<int>, o: nat, x: int)
    requires o < mem.Length
    modifies mem
    ensures mem[o..o + 1] == [x]
    ensures Outside(old(mem[..]), mem[..], o, o + 1)
  {
    mem[o] := x;
    OutsideByCell(old(mem[..]), mem[..], o, o + 1);
  }

  // ---- fixed arrays with a size behind them ----

  function Take<T>(xs: seq<T>): (ys: seq<T>)
    ensures |ys| == (if |xs| < CAP then |xs| else CAP) && ys <= xs
    ensures |xs| <= CAP ==> ys == xs
  {
    if |xs| < CAP then xs else xs[..CAP]
  }

  /** Equally wide slots, one behind the other. */
  function Flat(slots: seq<seq<int>>): seq<int> {
    if slots == [] then [] else Flat(slots[..|slots| - 1]) + slots[|slots| - 1]
  }

  ghost predicate Wide(slots: seq<seq<int>>, w: nat) {
    forall i | 0 <= i < |slots| :: |slots[i]| == w
  }

  lemma {:induction false} FlatLength(slots: seq<seq<int>>, w: nat)
    requires Wide(slots, w)
    ensures |Flat(slots)| == |slots| * w
  {
    if slots != [] {
      var n := |slots| - 1;
      FlatLength(slots[..n], w);
      assert (n + 1) * w == n * w + w;
    }
  }

  lemma {:induction false} FlatSlot(slots: seq<seq<int>>, w: nat, i: nat)
    requires Wide(slots, w) && i < |slots|
    ensures 0 <= i * w <= (i + 1) * w <= |Flat(slots)|
    ensures Flat(slots)[i * w..(i + 1) * w] == slots[i]
  {
    var n := |slots| - 1;
    var front := slots[..n];
    FlatLength(slots, w);
    FlatLength(front, w);
    assert i * w <= (i + 1) * w <= |slots| * w by { SlotBounds(i, |slots|, w); }
    if i < n {
      FlatSlot(front, w, i);
      assert Flat(slots)[i * w..(i + 1) * w] == Flat(front)[i * w..(i + 1) * w];
    }
  }

  lemma SlotBounds(i: nat, n: nat, w: nat)
    requires i < n
    ensures 0 <= i * w <= (i + 1) * w <= n * w
    ensures (i + 1) * w == i * w + w
  {
  }

  lemma FlatPush(slots: seq<seq<int>>, x: seq<int>)
    ensures Flat(slots + [x]) == Flat(slots) + x
  {
    assert (slots + [x])[..|slots|] == slots;
  }

  /** Slot `i` of an array of `w`-wide slots. */
  function Slot(v: seq<int>, w: nat, i: nat): seq<int>
    requires (i + 1) * w <= |v|
  {
    SlotBounds(i, i + 1, w);
    v[i * w..(i + 1) * w]
  }

  /** A full C array: the used slots, zeros in the unused ones, and the size field behind the array. */
  function ArrayImage(slots: seq<seq<int>>, w: nat): seq<int>
    requires |slots| <= CAP
  {
    Flat(slots) + Zeros((CAP - |slots|) * w) + [|slots|]
  }

  lemma ArrayParts(slots: seq<seq<int>>, w: nat)
    requires |slots| <= CAP && Wide(slots, w)
    ensures var v := ArrayImage(slots, w);
            && |v| == CAP * w + 1 && v[CAP * w] == |slots|
            && 0 <= |slots| * w <= CAP * w
            && v[|slots| * w..CAP * w] == Zeros((CAP - |slots|) * w)
  {
    FlatLength(slots, w);
    assert |slots| * w + (CAP - |slots|) * w == CAP * w;
  }

  lemma ArraySlot(slots: seq<seq<int>>, w: nat, i: nat)
    requires i < |slots| <= CAP && Wide(slots, w)
    ensures (i + 1) * w <= |ArrayImage(slots, w)|
    ensures Slot(ArrayImage(slots, w), w, i) == slots[i]
  {
    FlatSlot(slots, w, i);
    var f, v := Flat(slots), ArrayImage(slots, w);
    assert v[i * w..(i + 1) * w] == f[i * w..(i + 1) * w];
  }

  /** A full array is its used slots, its clear slots and its size. */
  lemma ArrayBack(v: seq<int>, slots: seq<seq<int>>, w: nat)
    requires |slots| <= CAP && Wide(slots, w)
    requires |v| == CAP * w + 1 && v[CAP * w] == |slots|
    requires forall i | 0 <= i < |slots| :: (i + 1) * w <= |v| && Slot(v, w, i) == slots[i]
    requires 0 <= |slots| * w <= CAP * w && v[|slots| * w..CAP * w] == Zeros((CAP - |slots|) * w)
    ensures ArrayImage(slots, w) == v
  {
    FlatOf(v, slots, w);
    Glue(v, 0, |slots| * w, CAP * w);
    Glue(v, 0, CAP * w, CAP * w + 1);
    assert v == v[0..CAP * w + 1];
  }

  lemma {:induction false} FlatOf(v: seq<int>, slots: seq<seq<int>>, w: nat)
    requires Wide(slots, w) && 0 <= |slots| * w <= |v|
    requires forall i | 0 <= i < |slots| :: (i + 1) * w <= |v| && Slot(v, w, i) == slots[i]
    ensures Flat(slots) == v[0..|slots| * w]
  {
    if slots != [] {
      var n := |slots| - 1;
      SlotBounds(n, |slots|, w);
      FlatOf(v, slots[..n], w);
      assert slots[n] == Slot(v, w, n);
      Glue(v, 0, n * w, |slots| * w);
    }
  }

  // ---- writing a run of cells front to back ----

  /** A structure or an array under construction: `start` is the memory before, [o, end) its run of cells and
      `done` what has been written so far. */
  datatype Build = Build(start: seq<int>, o: nat, end: nat, done: seq<int>) {
    function At(): nat {
      o + |done|
    }

    function Then(x: seq<int>): Build {
      this.(done := done + x)
    }
  }

  /** `m` holds what is done, then clear cells up to `end`, and is the memory before everywhere else. */
  ghost predicate Building(m: seq<int>, b: Build) {
    && b.At() <= b.end <= |m|
    && Outside(b.start, m, b.o, b.end)
    && m[b.o..b.At()] == b.done
    && m[b.At()..b.end] == Zeros(b.end - b.At())
  }

  lemma Begin(m0: seq<int>, m: seq<int>, o: nat, end: nat)
    requires o <= end <= |m| && Outside(m0, m, o, end) && m[o..end] == Zeros(end - o)
    ensures Building(m, Build(m0, o, end, []))
  {
  }

  lemma ClearNext(m: seq<int>, b: Build, n: nat)
    requires Building(m, b) && b.At() + n <= b.end
    ensures b.end <= |m| && m[b.At()..b.At() + n] == Zeros(n)
    ensures forall k | b.At() <= k < b.At() + n :: m[k] == 0
  {
    var p := b.At();
    SubView(m, p, b.end, 0, n);
    forall k | p <= k < p + n
      ensures m[k] == 0
    {
      assert m[p..b.end][k - p] == 0;
    }
  }

  /** The next `x` has been written behind what is done. */
  lemma Built(m: seq<int>, m': seq<int>, b: Build, x: seq<int>)
    requires Building(m, b) && b.At() + |x| <= b.end
    requires Outside(m, m', b.At(), b.At() + |x|) && m'[b.At()..b.At() + |x|] == x
    ensures Building(m', b.Then(x))
  {
    var p := b.At();
    assert m'[b.o..p] == m[b.o..p];
    Glue(m', b.o, p, p + |x|);
    assert m'[p + |x|..b.end] == m[p + |x|..b.end];
    SubView(m, p, b.end, |x|, b.end - p);
    assert m[p..b.end][|x|..b.end - p] == Zeros(b.end - p - |x|);
  }

  /** Cells left as they were cleared count as written zeros. */
  lemma BuiltZeros(m: seq<int>, b: Build, n: nat)
    requires Building(m, b) && b.At() + n <= b.end
    ensures Building(m, b.Then(Zeros(n)))
  {
    hide Building;
    ClearNext(m, b, n);
    OutsideNone(m, b.At(), b.At() + n);
    Built(m, m, b, Zeros(n));
  }

  lemma Finish(m: seq<int>, b: Build)
    requires Building(m, b) && b.At() == b.end
    ensures b.o <= b.end <= |m| && m[b.o..b.end] == b.done && Outside(b.start, m, b.o, b.end)
  {
  }

  lemma FlatNext(slots: seq<seq<int>>, i: nat)
    requires i < |slots|
    ensures Flat(slots[..i + 1]) == Flat(slots[..i]) + slots[i]
  {
    assert slots[..i + 1] == slots[..i] + [slots[i]];
    FlatPush(slots[..i], slots[i]);
  }

  /** The slots of an array, the memory around them untouched so far, are clear. */
  lemma BeginSlots(m0: seq<int>, m: seq<int>, o: nat, end: nat) returns (c: Build)
    requires o <= end < |m0| && m0[o..end + 1] == Zeros(end + 1 - o) && Outside(m0, m, end, end + 1)
    ensures c == Build(m, o, end, []) && Building(m, c)
  {
    c := Build(m, o, end, []);
    assert m[o..end] == m0[o..end];
    SubView(m0, o, end + 1, 0, end - o);
  }

  /** Size field first, then the slots. */
  lemma SizeThenSlots(m0: seq<int>, m: seq<int>, c: Build, slots: seq<seq<int>>, w: nat)
    requires Outside(m0, c.start, c.end, c.end + 1) && c.end < |m0| && c.start[c.end..c.end + 1] == [|slots|]
    requires |slots| <= CAP && Wide(slots, w) && c.end == c.o + CAP * w
    requires Building(m, c) && c.done == Flat(slots)
    ensures Outside(m0, m, c.o, c.end + 1)
    ensures m[c.o..c.end + 1] == ArrayImage(slots, w)
  {
    SideBySide(m0, c.start, m, c.o, c.end, c.end + 1);
    ArrayDone(m, c, slots, w);
  }

  /** Slots first, then the size field. */
  lemma SlotsThenSize(m: seq<int>, m': seq<int>, c: Build, slots: seq<seq<int>>, w: nat)
    requires Building(m, c) && c.done == Flat(slots)
    requires |slots| <= CAP && Wide(slots, w) && c.end == c.o + CAP * w < |m|
    requires Outside(m, m', c.end, c.end + 1) && m'[c.end..c.end + 1] == [|slots|]
    ensures Outside(c.start, m', c.o, c.end + 1)
    ensures m'[c.o..c.end + 1] == ArrayImage(slots, w)
  {
    hide Flat, Wide, ArrayImage, Zeros;
    assert m'[c.o..c.At()] == m[c.o..c.At()] && m'[c.At()..c.end] == m[c.At()..c.end];
    ArrayDone(m', c.(start := m'), slots, w);
  }

  lemma ArrayDone(m: seq<int>, c: Build, slots: seq<seq<int>>, w: nat)
    requires Building(m, c) && c.done == Flat(slots)
    requires |slots| <= CAP && Wide(slots, w) && c.end == c.o + CAP * w < |m|
    requires m[c.end..c.end + 1] == [|slots|]
    ensures m[c.o..c.end + 1] == ArrayImage(slots, w)
  {
    hide Flat, Outside;
    FlatLength(slots, w);
    Spare(|slots|, w);
    Glue(m, c.o, c.At(), c.end);
    Glue(m, c.o, c.end, c.end + 1);
  }

  lemma Spare(n: nat, w: nat)
    requires n <= CAP
    ensures 0 <= n * w <= CAP * w && (CAP - n) * w == CAP * w - n * w
  {
  }

  method Clear(mem: array<int>, o: nat, n: nat) returns (ghost b: Build)
    requires o + n <= mem.Length
    modifies mem
    ensures b == Build(old(mem[..]), o, o + n, []) && Building(mem[..], b)
  {
    Memset(mem, o, n);
    b := Build(old(mem[..]), o, o + n, []);
    Begin(old(mem[..]), mem[..], o, o + n);
  }

  method Append(mem: array<int>, p: nat, x: int, ghost b: Build) returns (ghost b': Build)
    requires Building(mem[..], b) && p == b.At() < b.end
    modifies mem
    ensures b' == b.Then([x]) && Building(mem[..], b')
  {
    hide Building, Outside;
    ghost var m := mem[..];
    ClearNext(m, b, 1);
    Store(mem, p, x);
    b' := b.Then([x]);
    Built(m, mem[..], b, [x]);
  }

  /** Clears the run of a structure nested in `b`. */
  method Open(mem: array<int>, p: nat, n: nat, ghost b: Build) returns (ghost c: Build)
    requires Building(mem[..], b) && p == b.At() && p + n <= b.end
    modifies mem
    ensures c == Build(old(mem[..]), p, p + n, []) && Building(mem[..], c)
  {
    hide Building;
    ClearNext(mem[..], b, n);
    c := Clear(mem, p, n);
  }

  /** The nested structure is complete, and so is one more part of `b`. */
  lemma Close(m: seq<int>, b: Build, c: Build) returns (b': Build)
    requires Building(c.start, b) && c.o == b.At() && c.At() == c.end <= b.end && Building(m, c)
    ensures b' == b.Then(c.done) && Building(m, b')
  {
    hide Building;
    Finish(m, c);
    b' := b.Then(c.done);
    Built(c.start, m, b, c.done);
  }

  /** Writes the size behind slots that were filled inside the record `b`, which completes the array field. */
  method AppendSize(mem: array<int>, at: nat, size: nat,
                    ghost slots: seq<seq<int>>, ghost w: nat, ghost c: Build, ghost b: Build)
    returns (ghost b': Build)
    requires Building(c.start, b) && b.At() == c.o && at + 1 <= b.end
    requires Building(mem[..], c) && c.done == Flat(slots) && c.end == at == c.o + CAP * w < mem.Length
    requires Wide(slots, w) && size == |slots| <= CAP
    modifies mem
    ensures b' == b.Then(ArrayImage(slots, w)) && Building(mem[..], b')
  {
    hide Building, Outside, ArrayImage;
    ghost var m := mem[..];
    Store(mem, at, size);
    SlotsThenSize(m, mem[..], c, slots, w);
    b' := b.Then(ArrayImage(slots, w));
    ArrayParts(slots, w);
    Built(c.start, mem[..], b, ArrayImage(slots, w));
  }
}
