/** Protobuf map fields and the arrays of `upsf_key_value_t` they are stored in. A protobuf map promises no
    iteration order, so everything here holds for whatever keys an iteration visits first. */
module KeyValues {
  import opened Cells
  import opened CStrings

  type Pair = (PString, PString)

  /** `upsf_key_value_t`: key, value. */
  const KV: nat := 130
  /** 16 of them and the size. */
  const KVS: nat := 2081

  // ---- maps ----

  ghost predicate NoDup<T(!new)>(xs: seq<T>) {
    forall i, j | 0 <= i < j < |xs| :: xs[i] != xs[j]
  }

  /** The keys a full iteration that stops after 16 elements may visit, in the order it visits them. */
  ghost predicate Visits(order: seq<PString>, keys: set<PString>) {
    && NoDup(order)
    && (forall i | 0 <= i < |order| :: order[i] in keys)
    && |order| == if |keys| < CAP then |keys| else CAP
  }

  /** The entries of `m` in the order visited. */
  function Entries<V>(m: map<PString, V>, order: seq<PString>): (kvs: seq<(PString, V)>)
    requires forall i | 0 <= i < |order| :: order[i] in m
    ensures |kvs| == |order|
    ensures forall i | 0 <= i < |kvs| :: kvs[i] == (order[i], m[order[i]])
  {
    seq(|order|, i requires 0 <= i < |order| => (order[i], m[order[i]]))
  }

  /** `map[key] = value` for each pair in turn, starting from an empty map. */
  function Fold<V>(kvs: seq<(PString, V)>): map<PString, V> {
    if kvs == [] then map[] else Fold(kvs[..|kvs| - 1])[kvs[|kvs| - 1].0 := kvs[|kvs| - 1].1]
  }

  lemma FoldNext<V>(kvs: seq<(PString, V)>, i: nat)
    requires i < |kvs|
    ensures Fold(kvs[..i + 1]) == Fold(kvs[..i])[kvs[i].0 := kvs[i].1]
  {
    assert kvs[..i + 1][..i] == kvs[..i];
  }

  function KeysOf<V>(kvs: seq<(PString, V)>): (ks: seq<PString>)
    ensures |ks| == |kvs|
    ensures forall i | 0 <= i < |kvs| :: ks[i] == kvs[i].0
  {
    seq(|kvs|, i requires 0 <= i < |kvs| => kvs[i].0)
  }

  /** The last pair with a key decides the value of that key. */
  lemma {:induction false} FoldLast<V>(kvs: seq<(PString, V)>, k: PString) returns (i: nat)
    requires k in Fold(kvs)
    ensures i < |kvs| && kvs[i].0 == k && kvs[i].1 == Fold(kvs)[k]
    ensures forall j | i < j < |kvs| :: kvs[j].0 != k
  {
    i := |kvs| - 1;
    if kvs[i].0 != k {
      i := FoldLast(kvs[..i], k);
    }
  }

  lemma {:induction false} FoldHas<V>(kvs: seq<(PString, V)>, i: nat)
    requires i < |kvs|
    ensures kvs[i].0 in Fold(kvs)
  {
    if i < |kvs| - 1 {
      FoldHas(kvs[..|kvs| - 1], i);
    }
  }

  /** Inserting n pairs gives at most n keys, and n of them only when no two pairs share a key. */
  lemma {:induction false} FoldCount<V>(kvs: seq<(PString, V)>)
    ensures |Fold(kvs)| <= |kvs|
    ensures |Fold(kvs)| == |kvs| <==> NoDup(KeysOf(kvs))
  {
    if kvs != [] {
      var n := |kvs| - 1;
      var k, front := kvs[n].0, kvs[..n];
      FoldCount(front);
      assert KeysOf(kvs) == KeysOf(front) + [k];
      NoDupPush(KeysOf(front), k);
      assert Fold(kvs).Keys == Fold(front).Keys + {k};
      if k in Fold(front) {
        var i := FoldLast(front, k);
        assert KeysOf(front)[i] == k;
        assert Fold(kvs).Keys == Fold(front).Keys;
      } else {
        if k in KeysOf(front) {
          var i :| 0 <= i < n && KeysOf(front)[i] == k;
          FoldHas(front, i);
        }
      }
    }
  }

  lemma NoDupPush<T(!new)>(xs: seq<T>, x: T)
    ensures NoDup(xs + [x]) <==> NoDup(xs) && x !in xs
  {
    var ys := xs + [x];
    assert ys[|xs|] == x && forall i | 0 <= i < |xs| :: ys[i] == xs[i];
    if NoDup(ys) {
      assert forall i | 0 <= i < |xs| :: ys[i] != ys[|xs|];
    }
  }

  lemma OnlyOnce<T(!new)>(xs: seq<T>, i: nat, j: nat)
    requires NoDup(xs) && i < |xs| && j < |xs| && xs[i] == xs[j]
    ensures i == j
  {
  }

  /** With no key twice, the folded map holds exactly the pairs. */
  lemma FoldDistinct<V>(kvs: seq<(PString, V)>, i: nat)
    requires NoDup(KeysOf(kvs)) && i < |kvs|
    ensures kvs[i].0 in Fold(kvs) && Fold(kvs)[kvs[i].0] == kvs[i].1
  {
    hide Fold, NoDup, KeysOf;
    FoldHas(kvs, i);
    var j := FoldLast(kvs, kvs[i].0);
    OnlyOnce(KeysOf(kvs), i, j);
  }

  lemma {:induction false} CountNoDup<T(!new)>(xs: seq<T>, x: T)
    requires NoDup(xs)
    ensures multiset(xs)[x] == if x in xs then 1 else 0
  {
    if xs != [] {
      var n := |xs| - 1;
      CountNoDup(xs[..n], x);
      assert xs == xs[..n] + [xs[n]];
      assert xs[n] !in xs[..n];
    }
  }

  /** Storing distinct pairs in a map and visiting the map in any order gives the pairs back, permuted. */
  lemma {:induction false} Permuted<V(!new)>(kvs: seq<(PString, V)>, order: seq<PString>)
    requires |kvs| <= CAP && NoDup(KeysOf(kvs)) && Visits(order, Fold(kvs).Keys)
    ensures |order| == |kvs|
    ensures multiset(Entries(Fold(kvs), order)) == multiset(kvs)
  {
    hide Fold, KeysOf, Entries, NoDup;
    var es := Entries(Fold(kvs), order);
    FoldCount(kvs);
    DistinctPairs(kvs, KeysOf(kvs));
    DistinctPairs(es, order);
    forall x: (PString, V)
      ensures multiset(es)[x] == multiset(kvs)[x]
    {
      CountNoDup(es, x);
      CountNoDup(kvs, x);
      SameEntries(kvs, order, x);
    }
  }

  /** Of pairs that share a key only one comes back, so that nothing less than distinct keys will do. */
  lemma PairsBack<V(!new)>(kvs: seq<(PString, V)>, order: seq<PString>)
    requires |kvs| <= CAP && Visits(order, Fold(kvs).Keys)
    ensures multiset(Entries(Fold(kvs), order)) == multiset(kvs) <==> NoDup(KeysOf(kvs))
  {
    hide Fold, KeysOf, Entries, NoDup;
    FoldCount(kvs);
    if NoDup(KeysOf(kvs)) {
      Permuted(kvs, order);
    } else {
      assert |multiset(Entries(Fold(kvs), order))| < |multiset(kvs)|;
    }
  }

  lemma DistinctPairs<V(!new)>(kvs: seq<(PString, V)>, keys: seq<PString>)
    requires NoDup(keys) && |kvs| == |keys| && forall i | 0 <= i < |kvs| :: kvs[i].0 == keys[i]
    ensures NoDup(kvs)
  {
  }

  lemma SameEntries<V>(kvs: seq<(PString, V)>, order: seq<PString>, x: (PString, V))
    requires |kvs| <= CAP && NoDup(KeysOf(kvs)) && Visits(order, Fold(kvs).Keys)
    ensures x in Entries(Fold(kvs), order) <==> x in kvs
  {
    hide Fold, KeysOf, NoDup, Entries;
    var es := Entries(Fold(kvs), order);
    if x in es {
      var _ := FoldLast(kvs, x.0);
    }
    if x in kvs {
      var i :| 0 <= i < |kvs| && kvs[i] == x;
      FoldDistinct(kvs, i);
      FoldCount(kvs);
      AllVisited(order, Fold(kvs).Keys);
      var j :| 0 <= j < |order| && order[j] == x.0;
      assert es[j] == x;
    }
  }

  lemma OnlyKeys(order: seq<PString>, keys: set<PString>, i: nat)
    requires Visits(order, keys) && i < |order|
    ensures order[i] in keys
  {
  }

  /** A map with at most 16 entries is visited completely. */
  lemma AllVisited(order: seq<PString>, keys: set<PString>)
    requires Visits(order, keys) && |keys| <= CAP
    ensures forall k | k in keys :: k in order
  {
    var seen := set i | 0 <= i < |order| :: order[i];
    SeenCount(order);
    assert seen <= keys;
    if exists k :: k in keys && k !in order {
      var k :| k in keys && k !in order;
      assert seen <= keys - {k};
      Smaller(seen, keys - {k});
    }
  }

  lemma {:induction false} SeenCount(order: seq<PString>)
    requires NoDup(order)
    ensures |set i | 0 <= i < |order| :: order[i]| == |order|
  {
    var seen := set i | 0 <= i < |order| :: order[i];
    if order != [] {
      var n := |order| - 1;
      var front := order[..n];
      SeenCount(front);
      var before := set i | 0 <= i < |front| :: front[i];
      assert seen == before + {order[n]} by {
        forall k | k in seen
          ensures k in before + {order[n]}
        {
          var i :| 0 <= i < |order| && order[i] == k;
          if i < n { assert front[i] == k; }
        }
        forall k | k in before
          ensures k in seen
        {
          var i :| 0 <= i < n && front[i] == k;
          assert order[i] == k;
        }
      }
      assert order[n] !in before;
    }
  }

  lemma {:induction false} Smaller<T>(a: set<T>, b: set<T>)
    requires a <= b
    ensures |a| <= |b|
  {
    if a != {} {
      var x :| x in a;
      Smaller(a - {x}, b - {x});
    }
  }

  // ---- arrays of pairs ----

  function KvImage(kv: Pair): (v: seq<int>)
    ensures |v| == KV
  {
    StrImage(kv.0) + StrImage(kv.1)
  }

  function KvSlots(kvs: seq<Pair>): (slots: seq<seq<int>>)
    ensures |slots| == |kvs| && Wide(slots, KV)
  {
    seq(|kvs|, i requires 0 <= i < |kvs| => KvImage(kvs[i]))
  }

  function KvsImage(kvs: seq<Pair>): (v: seq<int>)
    requires |kvs| <= CAP
    ensures |v| == KVS
  {
    FlatLength(KvSlots(kvs), KV);
    ArrayImage(KvSlots(kvs), KV)
  }

  ghost predicate WfKv(v: seq<int>)
    requires |v| == KV
  {
    Terminated(v[0..STR]) && Terminated(v[STR..KV])
  }

  function DecodeKv(v: seq<int>): Pair
    requires |v| == KV
  {
    (CStr(v[0..STR]), CStr(v[STR..KV]))
  }

  ghost predicate WfKvs(v: seq<int>)
    requires |v| == KVS
  {
    && 0 <= v[KVS - 1] <= CAP
    && forall i | 0 <= i < v[KVS - 1] :: WfKv(Slot(v, KV, i))
  }

  function DecodeKvs(v: seq<int>): seq<Pair>
    requires |v| == KVS && 0 <= v[KVS - 1] <= CAP
  {
    seq(v[KVS - 1], i requires 0 <= i < v[KVS - 1] => DecodeKv(Slot(v, KV, i)))
  }

  ghost predicate CanonKvs(v: seq<int>) {
    && |v| == KVS
    && 0 <= v[KVS - 1] <= CAP
    && (forall i | 0 <= i < v[KVS - 1] :: CanonStr(Slot(v, KV, i)[0..STR]) && CanonStr(Slot(v, KV, i)[STR..KV]))
    && v[v[KVS - 1] * KV..KVS - 1] == Zeros((CAP - v[KVS - 1]) * KV)
  }

  function CutKvs(kvs: seq<Pair>): (cs: seq<Pair>)
    ensures |cs| == |kvs|
  {
    seq(|kvs|, i requires 0 <= i < |kvs| => (Cut(kvs[i].0), Cut(kvs[i].1)))
  }

  lemma KvThere(kv: Pair)
    ensures var w := KvImage(kv);
            && CanonStr(w[0..STR]) && CanonStr(w[STR..KV]) && WfKv(w)
            && DecodeKv(w) == (Cut(kv.0), Cut(kv.1))
  {
    hide StrImage, CanonStr, Terminated, CStr;
    StrThere(kv.0);
    StrThere(kv.1);
    assert KvImage(kv)[0..STR] == StrImage(kv.0) && KvImage(kv)[STR..KV] == StrImage(kv.1);
  }

  lemma KvsThere(kvs: seq<Pair>)
    requires |kvs| <= CAP
    ensures CanonKvs(KvsImage(kvs)) && WfKvs(KvsImage(kvs))
    ensures DecodeKvs(KvsImage(kvs)) == CutKvs(kvs)
  {
    hide KvImage, CanonStr, WfKv, DecodeKv, Flat;
    var v := KvsImage(kvs);
    ArrayParts(KvSlots(kvs), KV);
    forall i | 0 <= i < |kvs|
      ensures Slot(v, KV, i) == KvImage(kvs[i])
      ensures CanonStr(Slot(v, KV, i)[0..STR]) && CanonStr(Slot(v, KV, i)[STR..KV]) && WfKv(Slot(v, KV, i))
      ensures DecodeKv(Slot(v, KV, i)) == CutKvs(kvs)[i]
    {
      ArraySlot(KvSlots(kvs), KV, i);
      KvThere(kvs[i]);
    }
  }

  lemma KvsBack(v: seq<int>)
    requires CanonKvs(v)
    ensures WfKvs(v) && KvsImage(DecodeKvs(v)) == v
    ensures CutKvs(DecodeKvs(v)) == DecodeKvs(v)
  {
    var kvs := DecodeKvs(v);
    forall i | 0 <= i < v[KVS - 1]
      ensures WfKv(Slot(v, KV, i)) && KvImage(kvs[i]) == Slot(v, KV, i)
      ensures Cut(kvs[i].0) == kvs[i].0 && Cut(kvs[i].1) == kvs[i].1
    {
      KvBack(Slot(v, KV, i));
    }
    ArrayBack(v, KvSlots(kvs), KV);
  }

  lemma KvBack(w: seq<int>)
    requires |w| == KV && CanonStr(w[0..STR]) && CanonStr(w[STR..KV])
    ensures WfKv(w) && KvImage(DecodeKv(w)) == w
    ensures Cut(DecodeKv(w).0) == DecodeKv(w).0 && Cut(DecodeKv(w).1) == DecodeKv(w).1
  {
    StrBack(w[0..STR]);
    StrBack(w[STR..KV]);
    CutFixed(DecodeKv(w).0);
    CutFixed(DecodeKv(w).1);
    assert w == w[0..STR] + w[STR..KV];
  }

  method AppendKv(mem: array<int>, p: nat, k: PString, x: PString, ghost b: Build) returns (ghost b': Build)
    requires Building(mem[..], b) && p == b.At() && p + KV <= b.end
    modifies mem
    ensures b' == b.Then(KvImage((k, x))) && Building(mem[..], b')
  {
    hide Building, StrImage;
    b' := AppendString(mem, p, k, b);
    b' := AppendString(mem, p + STR, x, b');
    assert b' == b.Then(StrImage(k) + StrImage(x));
  }

  method GetKv(mem: array<int>, o: nat) returns (kv: Pair)
    requires o + KV <= mem.Length && WfKv(mem[o..o + KV])
    ensures kv == DecodeKv(mem[o..o + KV])
  {
    SubView(mem[..], o, o + KV, 0, STR);
    SubView(mem[..], o, o + KV, STR, KV);
    var k := GetString(mem, o);
    var x := GetString(mem, o + STR);
    kv := (k, x);
  }

  lemma KvSlotsPush(kvs: seq<Pair>, kv: Pair)
    ensures Flat(KvSlots(kvs + [kv])) == Flat(KvSlots(kvs)) + KvImage(kv)
    ensures |Flat(KvSlots(kvs))| == |kvs| * KV
  {
    FlatLength(KvSlots(kvs), KV);
    FlatPush(KvSlots(kvs), KvImage(kv));
    assert KvSlots(kvs + [kv]) == KvSlots(kvs) + [KvImage(kv)];
  }

  // ---- iterating over a map ----

  /** `order` has been visited, `rest` is still ahead. */
  ghost predicate Visiting(order: seq<PString>, keys: set<PString>, rest: set<PString>) {
    && NoDup(order)
    && rest <= keys
    && |rest| == |keys| - |order|
    && forall i | 0 <= i < |order| :: order[i] in keys && order[i] !in rest
  }

  lemma VisitNone(keys: set<PString>)
    ensures Visiting([], keys, keys)
  {
  }

  lemma VisitNext(order: seq<PString>, keys: set<PString>, rest: set<PString>, k: PString)
    requires Visiting(order, keys, rest) && k in rest
    ensures k in keys && |rest - {k}| < |rest| && Visiting(order + [k], keys, rest - {k})
  {
    NoDupPush(order, k);
  }

  lemma VisitsFrom(order: seq<PString>, keys: set<PString>, rest: set<PString>)
    requires Visiting(order, keys, rest) && |order| <= CAP && (|order| == CAP || rest == {})
    ensures Visits(order, keys)
  {
  }

  /** What cutting keys does to a map field of any value type. `kvs` are the pairs inserted on the way back, one
      for each key visited: no new keys, none more than were visited, all of them kept exactly when the cuts are
      distinct, and of the keys that are cut to the same one the latest visited decides the value. */
  lemma CutKeys<V>(order: seq<PString>, kvs: seq<(PString, V)>)
    requires |kvs| == |order| && forall i | 0 <= i < |kvs| :: kvs[i].0 == Cut(order[i])
    ensures |Fold(kvs)| <= |order|
    ensures |Fold(kvs)| == |order| <==> NoDup(CutAll(order))
    ensures forall k | k in Fold(kvs) :: k in CutAll(order)
    ensures forall i | 0 <= i < |order| && Cut(order[i]) !in CutAll(order)[i + 1..] ::
              Cut(order[i]) in Fold(kvs) && Fold(kvs)[Cut(order[i])] == kvs[i].1
  {
    hide Fold, NoDup;
    FoldCount(kvs);
    assert KeysOf(kvs) == CutAll(order);
    forall k | k in Fold(kvs)
      ensures k in CutAll(order)
    {
      var i := FoldLast(kvs, k);
      assert CutAll(order)[i] == k;
    }
    forall i | 0 <= i < |order| && Cut(order[i]) !in CutAll(order)[i + 1..]
      ensures Cut(order[i]) in Fold(kvs) && Fold(kvs)[Cut(order[i])] == kvs[i].1
    {
      LatestWins(CutAll(order), kvs, i);
    }
  }

  lemma LatestWins<V>(keys: seq<PString>, kvs: seq<(PString, V)>, i: nat)
    requires |kvs| == |keys| && forall j | 0 <= j < |kvs| :: kvs[j].0 == keys[j]
    requires i < |keys| && keys[i] !in keys[i + 1..]
    ensures keys[i] in Fold(kvs) && Fold(kvs)[keys[i]] == kvs[i].1
  {
    hide Fold;
    FoldHas(kvs, i);
    var j := FoldLast(kvs, keys[i]);
    LastIsLast(keys, i, j);
  }

  lemma LastIsLast<T>(xs: seq<T>, i: nat, j: nat)
    requires i < |xs| && j < |xs| && xs[i] == xs[j] && xs[i] !in xs[i + 1..]
    ensures j <= i
  {
  }

  function CutAll(order: seq<PString>): (cs: seq<PString>)
    ensures |cs| == |order|
    ensures forall i | 0 <= i < |cs| :: cs[i] == Cut(order[i])
  {
    seq(|order|, i requires 0 <= i < |order| => Cut(order[i]))
  }

  /** Two canonical arrays that hold the same pairs, perhaps in another order. */
  ghost predicate SamePairs(a: seq<int>, b: seq<int>) {
    CanonKvs(a) && CanonKvs(b) && multiset(DecodeKvs(a)) == multiset(DecodeKvs(b))
  }

  lemma SameKeys<V, W>(kvs: seq<(PString, V)>, lws: seq<(PString, W)>)
    requires |kvs| == |lws| && forall i | 0 <= i < |kvs| :: kvs[i].0 == lws[i].0
    ensures Fold(kvs).Keys == Fold(lws).Keys
  {
    hide Fold;
    forall k | k in Fold(kvs)
      ensures k in Fold(lws)
    {
      var i := FoldLast(kvs, k);
      FoldHas(lws, i);
    }
    forall k | k in Fold(lws)
      ensures k in Fold(kvs)
    {
      var i := FoldLast(lws, k);
      FoldHas(kvs, i);
    }
  }

  /** A map of at most 16 entries, visited in any order and inserted again, is the same map. */
  lemma FoldAgain<V(!new)>(m: map<PString, V>, order: seq<PString>)
    requires |m| <= CAP && Visits(order, m.Keys)
    ensures Fold(Entries(m, order)) == m
  {
    hide Fold;
    var m' := Fold(Entries(m, order));
    AllVisited(order, m.Keys);
    forall k | k in m
      ensures k in m' && m'[k] == m[k]
    {
      var j :| 0 <= j < |order| && order[j] == k;
      FoldHas(Entries(m, order), j);
      var _ := FoldLast(Entries(m, order), k);
    }
    forall k | k in m'
      ensures k in m
    {
      var j := FoldLast(Entries(m, order), k);
      OnlyKeys(order, m.Keys, j);
    }
  }

  /** Entry `i` of an array of pairs. */
  method GetKvAt(mem: array<int>, o: nat, i: nat) returns (kv: Pair)
    requires o + KVS <= mem.Length && WfKvs(mem[o..o + KVS]) && i < mem[o + KVS - 1]
    ensures mem[o..o + KVS][KVS - 1] == mem[o + KVS - 1]
    ensures kv == DecodeKvs(mem[o..o + KVS])[i]
  {
    ghost var v := mem[o..o + KVS];
    assert v[KVS - 1] == mem[o + KVS - 1];
    SlotBounds(i, CAP, KV);
    SubView(mem[..], o, o + KVS, i * KV, (i + 1) * KV);
    assert Slot(v, KV, i) == mem[o + i * KV..o + i * KV + KV];
    kv := GetKv(mem, o + i * KV);
  }
}
