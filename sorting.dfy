/**
 * Python's `sorted()` as `default_compare` uses it: a stable sort of a
 * list, either by the elements themselves or by one field of each
 * element, under Python's `<`.
 */
module Sorting {
  import opened Trees

  /**
   * How a list is sorted: by the elements themselves (`sorted(xs)`), by one
   * dict field (`sorted(xs, key=lambda x: x.get(f, None))`), or with
   * `key=None` chosen, where every element's key is `None`.
   */
  datatype SortKey = Natural | Field(name: string) | NoField

  function KeyOf(order: SortKey, x: Value): Value {
    match order
    case Natural => x
    case Field(f) => Get(x, f)
    case NoField => Null
  }

  /** Keys Python's `<` can compare with each other. */
  predicate IsScalarKey(k: Value) {
    IsNumber(k) || k.Str?
  }

  /** Python's `<` on strings: lexicographic by code point. */
  predicate StrLt(a: string, b: string) {
    if |a| == 0 then |b| > 0
    else if |b| == 0 then false
    else if a[0] != b[0] then a[0] < b[0]
    else StrLt(a[1..], b[1..])
  }

  /**
   * Python's `<` between numbers and between strings; Python raises
   * `TypeError` for the other pairs, and for those this order places
   * `None` before numbers, numbers before strings, and strings before
   * composites, so that the sort below is total.
   */
  function Rank(v: Value): nat {
    if v.Null? then 0
    else if IsNumber(v) then 1
    else if v.Str? then 2
    else 3
  }

  predicate Lt(a: Value, b: Value) {
    if Rank(a) != Rank(b) then Rank(a) < Rank(b)
    else if IsNumber(a) then Num(a) < Num(b)
    else if a.Str? then StrLt(a.s, b.s)
    else false
  }

  /** Neither sorts before the other. */
  predicate Equiv(a: Value, b: Value) {
    !Lt(a, b) && !Lt(b, a)
  }

  lemma {:induction false} StrLtIrreflexive(a: string)
    ensures !StrLt(a, a)
  {
    if |a| > 0 {
      StrLtIrreflexive(a[1..]);
    }
  }

  lemma {:induction false} StrLtTransitive(a: string, b: string, c: string)
    requires StrLt(a, b) && StrLt(b, c)
    ensures StrLt(a, c)
  {
    if |a| > 0 && a[0] == b[0] && b[0] == c[0] {
      StrLtTransitive(a[1..], b[1..], c[1..]);
    }
  }

  lemma {:induction false} StrLtTotal(a: string, b: string)
    requires a != b
    ensures StrLt(a, b) || StrLt(b, a)
  {
    if |a| > 0 && |b| > 0 && a[0] == b[0] {
      assert a == [a[0]] + a[1..] && b == [b[0]] + b[1..];
      StrLtTotal(a[1..], b[1..]);
    }
  }

  lemma LtIrreflexive(a: Value)
    ensures !Lt(a, a)
  {
    if a.Str? {
      StrLtIrreflexive(a.s);
    }
  }

  lemma LtTransitive(a: Value, b: Value, c: Value)
    requires Lt(a, b) && Lt(b, c)
    ensures Lt(a, c)
  {
    if a.Str? && b.Str? && c.Str? {
      StrLtTransitive(a.s, b.s, c.s);
    }
  }

  /** `Lt` is a strict weak order: what is not below is at least as large. */
  lemma LtNegativelyTransitive(a: Value, b: Value, c: Value)
    requires !Lt(a, b) && !Lt(b, c)
    ensures !Lt(a, c)
  {
    if Lt(a, c) {
      if a.Str? && b.Str? && c.Str? {
        if a.s == b.s {
        } else if b.s == c.s {
        } else {
          StrLtTotal(a.s, b.s);
          StrLtTotal(b.s, c.s);
          StrLtTransitive(c.s, b.s, a.s);
          StrLtIrreflexive(a.s);
          StrLtTransitive(a.s, c.s, a.s);
        }
      }
    }
  }

  /** Equivalent keys are interchangeable under `Lt`. */
  lemma LtRespectsEquiv(a: Value, a': Value, b: Value)
    requires Equiv(a, a')
    ensures Lt(a, b) <==> Lt(a', b)
    ensures Lt(b, a) <==> Lt(b, a')
  {
    if Lt(a, b) && !Lt(a', b) { LtNegativelyTransitive(a, a', b); }
    if Lt(a', b) && !Lt(a, b) { LtNegativelyTransitive(a', a, b); }
    if Lt(b, a) && !Lt(b, a') { LtNegativelyTransitive(b, a', a); }
    if Lt(b, a') && !Lt(b, a) { LtNegativelyTransitive(b, a, a'); }
  }

  /** Equal strings and equal numbers of one kind are the only equivalent scalars of that kind. */
  lemma EquivStrings(a: Value, b: Value)
    requires a.Str? && b.Str? && Equiv(a, b)
    ensures a == b
  {
    if a.s != b.s {
      StrLtTotal(a.s, b.s);
    }
  }

  /** Sorted in non-decreasing order of the chosen key. */
  predicate SortedBy(order: SortKey, s: seq<Value>) {
    forall i, j :: 0 <= i < j < |s| ==> !Lt(KeyOf(order, s[j]), KeyOf(order, s[i]))
  }

  /**
   * Inserts `x` before the first element whose key is not below `x`'s, so
   * that `x` stays in front of the elements with an equivalent key that
   * follow it in the input.
   */
  function Insert(order: SortKey, x: Value, s: seq<Value>): (r: seq<Value>)
    ensures multiset(r) == multiset(s) + multiset{x}
    ensures |r| == |s| + 1
    ensures forall i :: 0 <= i < |r| ==> r[i] == x || r[i] in s
  {
    if s == [] then [x]
    else if !Lt(KeyOf(order, s[0]), KeyOf(order, x)) then [x] + s
    else
      assert s == [s[0]] + s[1..];
      [s[0]] + Insert(order, x, s[1..])
  }

  /** `sorted(s, key=...)`: a stable insertion sort. */
  function Sort(order: SortKey, s: seq<Value>): (r: seq<Value>)
    ensures multiset(r) == multiset(s)
    ensures |r| == |s|
    ensures forall i :: 0 <= i < |r| ==> r[i] in s
  {
    if s == [] then []
    else
      assert s == [s[0]] + s[1..];
      assert forall y :: y in s[1..] ==> y in s;
      Insert(order, s[0], Sort(order, s[1..]))
  }

  /** Putting in front of a sorted list an element whose key is not above any of its keys keeps it sorted. */
  lemma SortedCons(order: SortKey, h: Value, t: seq<Value>)
    requires SortedBy(order, t)
    requires forall y | y in t :: !Lt(KeyOf(order, y), KeyOf(order, h))
    ensures SortedBy(order, [h] + t)
  {
    var r := [h] + t;
    forall i, j | 0 <= i < j < |r| ensures !Lt(KeyOf(order, r[j]), KeyOf(order, r[i])) {
      assert r[j] == t[j - 1] && r[j] in t;
      if i > 0 {
        assert r[i] == t[i - 1];
      }
    }
  }

  lemma {:induction false} InsertSorted(order: SortKey, x: Value, s: seq<Value>)
    requires SortedBy(order, s)
    ensures SortedBy(order, Insert(order, x, s))
  {
    if s == [] {
      assert Insert(order, x, s) == [x];
    } else if Lt(KeyOf(order, s[0]), KeyOf(order, x)) {
      var t := s[1..];
      assert SortedBy(order, t) by {
        forall i, j | 0 <= i < j < |t| ensures !Lt(KeyOf(order, t[j]), KeyOf(order, t[i])) {
          assert t[i] == s[i + 1] && t[j] == s[j + 1];
        }
      }
      InsertSorted(order, x, t);
      var r' := Insert(order, x, t);
      forall y | y in r' ensures !Lt(KeyOf(order, y), KeyOf(order, s[0])) {
        var j :| 0 <= j < |r'| && r'[j] == y;
        if y == x {
          LtIrreflexive(KeyOf(order, x));
          if Lt(KeyOf(order, x), KeyOf(order, s[0])) {
            LtTransitive(KeyOf(order, x), KeyOf(order, s[0]), KeyOf(order, x));
          }
        } else {
          var k :| 0 <= k < |t| && t[k] == y;
          assert s[k + 1] == y;
        }
      }
      SortedCons(order, s[0], r');
      assert Insert(order, x, s) == [s[0]] + r';
    } else {
      forall y | y in s ensures !Lt(KeyOf(order, y), KeyOf(order, x)) {
        var k :| 0 <= k < |s| && s[k] == y;
        if k > 0 {
          LtNegativelyTransitive(KeyOf(order, y), KeyOf(order, s[0]), KeyOf(order, x));
        }
      }
      SortedCons(order, x, s);
      assert Insert(order, x, s) == [x] + s;
    }
  }

  lemma {:induction false} SortSorted(order: SortKey, s: seq<Value>)
    ensures SortedBy(order, Sort(order, s))
  {
    if s != [] {
      SortSorted(order, s[1..]);
      InsertSorted(order, s[0], Sort(order, s[1..]));
    }
  }

  /** No two different elements of `s` have equivalent keys. */
  predicate TiesIdentical(order: SortKey, s: seq<Value>) {
    forall x, y :: x in s && y in s && Equiv(KeyOf(order, x), KeyOf(order, y)) ==> x == y
  }

  /** The tail of a sorted list is sorted. */
  lemma SortedTail(order: SortKey, s: seq<Value>)
    requires s != [] && SortedBy(order, s)
    ensures SortedBy(order, s[1..])
  {
    forall i, j | 0 <= i < j < |s| - 1
      ensures !Lt(KeyOf(order, s[1..][j]), KeyOf(order, s[1..][i]))
    {
      assert s[1..][j] == s[j + 1] && s[1..][i] == s[i + 1];
    }
  }

  lemma TiesIdenticalTail(order: SortKey, s: seq<Value>)
    requires s != [] && TiesIdentical(order, s)
    ensures TiesIdentical(order, s[1..])
  {
    forall x, y | x in s[1..] && y in s[1..] && Equiv(KeyOf(order, x), KeyOf(order, y))
      ensures x == y
    {
      assert x in s && y in s;
    }
  }

  /** The first element of a sorted list has a key no other element is below. */
  lemma SortedHeadIsLeast(order: SortKey, s: seq<Value>, x: Value)
    requires SortedBy(order, s) && x in s
    ensures !Lt(KeyOf(order, x), KeyOf(order, s[0]))
  {
    var i :| 0 <= i < |s| && s[i] == x;
    if i == 0 {
      LtIrreflexive(KeyOf(order, x));
    }
  }

  /**
   * A sorted arrangement of a list whose equivalent keys belong to equal
   * elements is unique: it is fixed by the multiset of the elements.
   */
  lemma {:induction false} SortedUnique(order: SortKey, a: seq<Value>, b: seq<Value>)
    requires SortedBy(order, a) && SortedBy(order, b)
    requires multiset(a) == multiset(b)
    requires TiesIdentical(order, a)
    ensures a == b
  {
    assert |b| == |a| by { assert |multiset(a)| == |multiset(b)|; }
    if a != [] {
      SameHead(order, a, b);
      SameTail(a, b);
      SortedTail(order, a);
      SortedTail(order, b);
      TiesIdenticalTail(order, a);
      SortedUnique(order, a[1..], b[1..]);
      assert a == [a[0]] + a[1..] && b == [b[0]] + b[1..];
    }
  }

  /** Two sorted arrangements of the same elements, with identical ties, start alike. */
  lemma SameHead(order: SortKey, a: seq<Value>, b: seq<Value>)
    requires a != [] && b != [] && SortedBy(order, a) && SortedBy(order, b)
    requires multiset(a) == multiset(b)
    requires TiesIdentical(order, a)
    ensures a[0] == b[0]
  {
    assert b[0] in multiset(a) && a[0] in multiset(b);
    SortedHeadIsLeast(order, a, b[0]);
    SortedHeadIsLeast(order, b, a[0]);
    assert a[0] in a && b[0] in a;
    assert Equiv(KeyOf(order, a[0]), KeyOf(order, b[0]));
  }

  /** Removing equal heads leaves equal multisets. */
  lemma SameTail(a: seq<Value>, b: seq<Value>)
    requires a != [] && b != [] && a[0] == b[0] && multiset(a) == multiset(b)
    ensures multiset(a[1..]) == multiset(b[1..])
  {
    assert a == [a[0]] + a[1..] && b == [b[0]] + b[1..];
    assert multiset(a) == multiset{a[0]} + multiset(a[1..]);
    assert multiset(b) == multiset{b[0]} + multiset(b[1..]);
    assert multiset(a[1..]) == multiset(a) - multiset{a[0]};
    assert multiset(b[1..]) == multiset(b) - multiset{b[0]};
  }

  /**
   * Sorting ignores the input's order when ties are identical: any two
   * arrangements of the same elements sort to the same list.
   */
  lemma SortPermutationInvariant(order: SortKey, s: seq<Value>, t: seq<Value>)
    requires multiset(s) == multiset(t)
    requires TiesIdentical(order, s)
    ensures Sort(order, s) == Sort(order, t)
  {
    SortSorted(order, s);
    SortSorted(order, t);
    var a, b := Sort(order, s), Sort(order, t);
    assert TiesIdentical(order, a) by {
      forall x | x in a ensures x in s {
        assert x in multiset(a);
      }
    }
    SortedUnique(order, a, b);
  }

  /** The elements of `s` that satisfy `p`, in the order of `s`. */
  function Filter(p: Value -> bool, s: seq<Value>): seq<Value> {
    if s == [] then [] else (if p(s[0]) then [s[0]] else []) + Filter(p, s[1..])
  }

  /** `p` holds only of elements whose keys are tied with each other. */
  ghost predicate TiedClass(order: SortKey, p: Value -> bool) {
    forall a, b | p(a) && p(b) :: !Lt(KeyOf(order, b), KeyOf(order, a))
  }

  /** The elements of `s` whose key is equivalent to `k`, in the order of `s`. */
  function Tied(order: SortKey, k: Value, s: seq<Value>): seq<Value> {
    Filter(x => Equiv(KeyOf(order, x), k), s)
  }

  lemma EquivClassTied(order: SortKey, k: Value)
    ensures TiedClass(order, x => Equiv(KeyOf(order, x), k))
  {
    forall a, b | Equiv(KeyOf(order, a), k) && Equiv(KeyOf(order, b), k)
      ensures !Lt(KeyOf(order, b), KeyOf(order, a))
    {
      LtRespectsEquiv(KeyOf(order, a), k, KeyOf(order, b));
    }
  }

  lemma FilterCons(p: Value -> bool, h: Value, t: seq<Value>)
    ensures Filter(p, [h] + t) == (if p(h) then [h] else []) + Filter(p, t)
  {
    assert ([h] + t)[0] == h && ([h] + t)[1..] == t;
  }

  /**
   * Inserting `x` puts it in front of every element tied with it: only
   * elements with a key below `x`'s are passed over.
   */
  lemma {:induction false} InsertFiltered(order: SortKey, p: Value -> bool, x: Value, t: seq<Value>)
    requires TiedClass(order, p)
    ensures Filter(p, Insert(order, x, t)) == (if p(x) then [x] else []) + Filter(p, t)
  {
    if t == [] || !Lt(KeyOf(order, t[0]), KeyOf(order, x)) {
      assert Insert(order, x, t) == [x] + t;
      FilterCons(p, x, t);
    } else {
      InsertFiltered(order, p, x, t[1..]);
      InsertPasses(order, x, t);
      assert t == [t[0]] + t[1..];
      FilterPassing(order, p, x, t[0], t[1..], Insert(order, x, t[1..]));
    }
  }

  /** The step of `InsertFiltered` where `x` passes over an element `h` below it. */
  lemma FilterPassing(order: SortKey, p: Value -> bool, x: Value, h: Value, rest: seq<Value>, r': seq<Value>)
    requires TiedClass(order, p) && Lt(KeyOf(order, h), KeyOf(order, x))
    requires Filter(p, r') == (if p(x) then [x] else []) + Filter(p, rest)
    ensures Filter(p, [h] + r') == (if p(x) then [x] else []) + Filter(p, [h] + rest)
  {
    var hx, hh := (if p(x) then [x] else []), (if p(h) then [h] else []);
    assert hx == [] || hh == [];
    FilterCons(p, h, r');
    FilterCons(p, h, rest);
    SwapEmpty(hh, hx, Filter(p, rest));
  }

  lemma InsertPasses(order: SortKey, x: Value, t: seq<Value>)
    requires t != [] && Lt(KeyOf(order, t[0]), KeyOf(order, x))
    ensures Insert(order, x, t) == [t[0]] + Insert(order, x, t[1..])
  {
  }

  lemma SwapEmpty(a: seq<Value>, b: seq<Value>, c: seq<Value>)
    requires a == [] || b == []
    ensures a + (b + c) == b + (a + c)
  {
    if a == [] {
      assert a + (b + c) == b + c;
    } else {
      assert b + (a + c) == a + c;
    }
  }

  /** Sorting keeps the order among the elements `p` selects, when they are all tied. */
  lemma {:induction false} SortFiltered(order: SortKey, p: Value -> bool, s: seq<Value>)
    requires TiedClass(order, p)
    ensures Filter(p, Sort(order, s)) == Filter(p, s)
  {
    if s != [] {
      var h, rest := s[0], s[1..];
      var sorted := Sort(order, rest);
      calc {
        Filter(p, Sort(order, s));
        == { assert Sort(order, s) == Insert(order, h, sorted); }
        Filter(p, Insert(order, h, sorted));
        == { InsertFiltered(order, p, h, sorted); SortFiltered(order, p, rest); }
        (if p(h) then [h] else []) + Filter(p, rest);
        == { FilterCons(p, h, rest); assert s == [h] + rest; }
        Filter(p, s);
      }
    }
  }

  /**
   * `sorted()` is stable: the elements whose keys are equivalent come out
   * in the order they went in.
   */
  lemma SortStable(order: SortKey, k: Value, s: seq<Value>)
    ensures Tied(order, k, Sort(order, s)) == Tied(order, k, s)
  {
    EquivClassTied(order, k);
    SortFiltered(order, x => Equiv(KeyOf(order, x), k), s);
  }

  /** A one-element list is already sorted. */
  lemma SortSingleton(order: SortKey, x: Value)
    ensures Sort(order, [x]) == [x]
  {
    assert [x][1..] == [];
  }

  /**
   * Two lists whose keys are pairwise equivalent are rearranged by the same
   * permutation, so any relation `R` that held position by position before
   * sorting holds position by position after it.
   */
  predicate Aligned(order: SortKey, a: seq<Value>, b: seq<Value>, R: (Value, Value) -> bool) {
    |a| == |b| &&
    forall i :: 0 <= i < |a| ==> Equiv(KeyOf(order, a[i]), KeyOf(order, b[i])) && R(a[i], b[i])
  }

  lemma AlignedTail(order: SortKey, a: seq<Value>, b: seq<Value>, R: (Value, Value) -> bool)
    requires a != [] && Aligned(order, a, b, R)
    ensures Aligned(order, a[1..], b[1..], R)
  {
    forall i | 0 <= i < |a| - 1
      ensures Equiv(KeyOf(order, a[1..][i]), KeyOf(order, b[1..][i])) && R(a[1..][i], b[1..][i])
    {
      assert a[1..][i] == a[i + 1] && b[1..][i] == b[i + 1];
    }
  }

  lemma AlignedCons(order: SortKey, x: Value, y: Value, a: seq<Value>, b: seq<Value>, R: (Value, Value) -> bool)
    requires Equiv(KeyOf(order, x), KeyOf(order, y)) && R(x, y)
    requires Aligned(order, a, b, R)
    ensures Aligned(order, [x] + a, [y] + b, R)
  {
    forall i | 0 <= i < |a| + 1
      ensures Equiv(KeyOf(order, ([x] + a)[i]), KeyOf(order, ([y] + b)[i]))
      ensures R(([x] + a)[i], ([y] + b)[i])
    {
      if i > 0 {
        assert ([x] + a)[i] == a[i - 1] && ([y] + b)[i] == b[i - 1];
      }
    }
  }

  lemma {:induction false} InsertAligned(order: SortKey, x: Value, y: Value, a: seq<Value>, b: seq<Value>, R: (Value, Value) -> bool)
    requires Equiv(KeyOf(order, x), KeyOf(order, y)) && R(x, y)
    requires Aligned(order, a, b, R)
    ensures Aligned(order, Insert(order, x, a), Insert(order, y, b), R)
  {
    if a == [] {
      assert Insert(order, x, a) == [x] && Insert(order, y, b) == [y];
    } else {
      var ka, kb := KeyOf(order, a[0]), KeyOf(order, b[0]);
      var kx, ky := KeyOf(order, x), KeyOf(order, y);
      LtRespectsEquiv(ka, kb, kx);
      LtRespectsEquiv(kx, ky, kb);
      if Lt(ka, kx) {
        AlignedTail(order, a, b, R);
        InsertAligned(order, x, y, a[1..], b[1..], R);
        var ra, rb := Insert(order, x, a[1..]), Insert(order, y, b[1..]);
        AlignedCons(order, a[0], b[0], ra, rb, R);
        assert Insert(order, x, a) == [a[0]] + ra;
        assert Insert(order, y, b) == [b[0]] + rb;
      } else {
        AlignedCons(order, x, y, a, b, R);
        assert Insert(order, x, a) == [x] + a;
        assert Insert(order, y, b) == [y] + b;
      }
    }
  }

  lemma {:induction false} SortAligned(order: SortKey, a: seq<Value>, b: seq<Value>, R: (Value, Value) -> bool)
    requires Aligned(order, a, b, R)
    ensures Aligned(order, Sort(order, a), Sort(order, b), R)
  {
    if a != [] {
      SortAligned(order, a[1..], b[1..], R);
      InsertAligned(order, a[0], b[0], Sort(order, a[1..]), Sort(order, b[1..]), R);
    }
  }
}
