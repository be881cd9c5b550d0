/**
 * `default_compare(new, old, path)`: the one-directional structural
 * comparison that decides whether the desired load balancer differs from
 * the existing one.  Both sides are serialised trees (`as_dict()` output).
 * The `path` argument only accumulates a string that is never read and is
 * not modelled.
 */
module Differ {
  import opened Trees
  import opened Sorting

  /**
   * The key two lists of dicts are sorted by: `'id'` when the first element
   * of both lists carries it, else `'name'` when both carry that, else
   * `None`.  Only the first elements are looked at.
   */
  function ChooseKey(newFirst: Value, oldFirst: Value): SortKey {
    if HasKey(oldFirst, "id") && HasKey(newFirst, "id") then Field("id")
    else if HasKey(oldFirst, "name") && HasKey(newFirst, "name") then Field("name")
    else NoField
  }

  /** Lists whose old first element is a dict are sorted by a key; others naturally. */
  function ListOrder(ns: seq<Value>, os: seq<Value>): SortKey
    requires ns != [] && os != []
  {
    if os[0].Dict? then ChooseKey(ns[0], os[0]) else Natural
  }

  /**
   * `sorted(s, ...)` returns instead of raising: a key function calls
   * `x.get`, so every element must be a dict, and with two or more
   * elements all keys must be numbers or all strings (`None` compares with
   * nothing).
   */
  predicate Sortable(order: SortKey, s: seq<Value>) {
    (order != Natural ==> forall x | x in s :: x.Dict?) &&
    (|s| <= 1 ||
     (forall x | x in s :: IsNumber(KeyOf(order, x))) ||
     (forall x | x in s :: KeyOf(order, x).Str?))
  }

  /**
   * `default_compare(n, o)` runs without an exception: every pair of lists
   * it sorts is sortable.  Every pair of children is required, also those
   * after a first mismatch, which the source would not reach.
   */
  predicate Defined(n: Value, o: Value)
    decreases n, 1
  {
    match n
    case Dict(m) =>
      o.Dict? ==> forall k | k in m :: Defined(m[k], Get(o, k))
    case List(ns) =>
      o.List? && |o.items| == |ns| && ns != [] ==> DefinedList(ns, o.items)
    case _ => true
  }

  predicate DefinedList(ns: seq<Value>, os: seq<Value>)
    requires ns != [] && |os| == |ns|
    decreases List(ns), 0
  {
    var order := ListOrder(ns, os);
    var sn, so := Sort(order, ns), Sort(order, os);
    Sortable(order, ns) && Sortable(order, os) &&
    forall i | 0 <= i < |sn| :: Defined(sn[i], so[i])
  }

  /**
   * `default_compare(n, o)`.  A dict matches only a dict, and only the keys
   * of `n` are compared, a key missing from `o` standing for `None`; lists
   * match only lists of the same length, are sorted and compared position
   * by position; anything else is compared with Python's `==`.
   */
  function Compare(n: Value, o: Value): (r: bool)
    requires Defined(n, o)
    decreases n, 1
    ensures n.Dict? && !o.Dict? ==> !r
    ensures n.List? && (!o.List? || |o.items| != |n.items|) ==> !r
    ensures n.List? && o.List? && n.items == [] && o.items == [] ==> r
  {
    match n
    case Dict(m) =>
      o.Dict? && forall k | k in m :: Compare(m[k], Get(o, k))
    case List(ns) =>
      o.List? && |o.items| == |ns| && (ns == [] || CompareList(ns, o.items))
    case _ => PyEq(n, o)
  }

  /** Both lists sorted by the chosen key, then compared position by position. */
  function CompareList(ns: seq<Value>, os: seq<Value>): bool
    requires ns != [] && |os| == |ns| && DefinedList(ns, os)
    decreases List(ns), 0
  {
    var order := ListOrder(ns, os);
    var sn, so := Sort(order, ns), Sort(order, os);
    forall i | 0 <= i < |sn| :: Compare(sn[i], so[i])
  }

  /** Keys only the old dict carries never change the verdict. */
  lemma ExtraOldKeysIgnored(m: map<string, Value>, o1: Value, o2: Value)
    requires o1.Dict? && o2.Dict?
    requires forall k | k in m :: Get(o1, k) == Get(o2, k)
    requires Defined(Dict(m), o1)
    ensures Defined(Dict(m), o2)
    ensures Compare(Dict(m), o1) == Compare(Dict(m), o2)
  {
  }

  /** Leaving a key out of the new dict never turns a match into a mismatch. */
  lemma FewerNewKeysStillMatch(m: map<string, Value>, m': map<string, Value>, o: Value)
    requires forall k | k in m' :: k in m && m'[k] == m[k]
    requires Defined(Dict(m), o) && Compare(Dict(m), o)
    ensures Defined(Dict(m'), o) && Compare(Dict(m'), o)
  {
  }

  /** The comparison is not symmetric: `{}` matches `{'x': 1}` but not the reverse. */
  lemma NotSymmetric()
    ensures Compare(Dict(map[]), Dict(map["x" := Int(1)]))
    ensures !Compare(Dict(map["x" := Int(1)]), Dict(map[]))
  {
    assert Get(Dict(map[]), "x") == Null;
  }

  /**
   * Rearranging either list does not change the verdict when the sort key
   * stays the same and no two different elements of a list have equivalent
   * keys.
   */
  lemma ListPermutationInsensitive(ns: seq<Value>, ns': seq<Value>, os: seq<Value>, os': seq<Value>)
    requires ns != [] && os != []
    requires multiset(ns') == multiset(ns) && multiset(os') == multiset(os)
    requires ns' != [] && os' != [] && ListOrder(ns', os') == ListOrder(ns, os)
    requires TiesIdentical(ListOrder(ns, os), ns) && TiesIdentical(ListOrder(ns, os), os)
    requires Defined(List(ns), List(os))
    ensures Defined(List(ns'), List(os'))
    ensures Compare(List(ns'), List(os')) == Compare(List(ns), List(os))
  {
    assert |ns'| == |ns| by { assert |multiset(ns')| == |multiset(ns)|; }
    assert |os'| == |os| by { assert |multiset(os')| == |multiset(os)|; }
    if |ns| == |os| {
      ListsOfEqualLength(ns, os);
      SortedPermutationsAgree(ns, ns', os, os');
      ListsOfEqualLength(ns', os');
    }
  }

  /** Two non-empty lists of the same length are compared by `CompareList`. */
  lemma ListsOfEqualLength(ns: seq<Value>, os: seq<Value>)
    requires ns != [] && |os| == |ns|
    ensures Defined(List(ns), List(os)) == DefinedList(ns, os)
    ensures DefinedList(ns, os) ==> Compare(List(ns), List(os)) == CompareList(ns, os)
  {
  }

  /** The step of `ListPermutationInsensitive` on the two sorted lists. */
  lemma SortedPermutationsAgree(ns: seq<Value>, ns': seq<Value>, os: seq<Value>, os': seq<Value>)
    requires ns != [] && |os| == |ns| && |ns'| == |ns| && |os'| == |os|
    requires multiset(ns') == multiset(ns) && multiset(os') == multiset(os)
    requires ListOrder(ns', os') == ListOrder(ns, os)
    requires TiesIdentical(ListOrder(ns, os), ns) && TiesIdentical(ListOrder(ns, os), os)
    requires DefinedList(ns, os)
    ensures DefinedList(ns', os')
    ensures CompareList(ns', os') == CompareList(ns, os)
  {
    var order := ListOrder(ns, os);
    SortPermutationInvariant(order, ns, ns');
    SortPermutationInvariant(order, os, os');
    SortablePermutation(order, ns, ns');
    SortablePermutation(order, os, os');
  }

  /** Whether a list can be sorted does not depend on its order. */
  lemma SortablePermutation(order: SortKey, s: seq<Value>, t: seq<Value>)
    requires multiset(t) == multiset(s) && Sortable(order, s)
    ensures Sortable(order, t)
  {
    assert |t| == |s| by { assert |multiset(t)| == |multiset(s)|; }
    forall x | x in t ensures x in s {
      assert x in multiset(t);
    }
  }

  lemma SameElements(s: seq<Value>, t: seq<Value>)
    requires multiset(s) == multiset(t)
    ensures |s| == |t|
    ensures forall x :: x in s <==> x in t
  {
    assert |multiset(s)| == |multiset(t)|;
    forall x ensures x in s <==> x in t {
      assert x in s <==> x in multiset(s);
      assert x in t <==> x in multiset(t);
    }
  }

  /** Dicts carrying the key `k`, with no two different dicts sharing a key value. */
  predicate UniquelyKeyed(s: seq<Value>, k: string) {
    (forall x | x in s :: HasKey(x, k) && IsScalarKey(x.fields[k])) &&
    (forall x, y | x in s && y in s && Equiv(Get(x, k), Get(y, k)) :: x == y)
  }

  /** Lists of resources identified by `'id'` compare the same in any order. */
  lemma ByIdInAnyOrder(ns: seq<Value>, ns': seq<Value>, os: seq<Value>, os': seq<Value>)
    requires ns != [] && os != []
    requires multiset(ns') == multiset(ns) && multiset(os') == multiset(os)
    requires UniquelyKeyed(ns, "id") && UniquelyKeyed(os, "id")
    requires Defined(List(ns), List(os))
    ensures Defined(List(ns'), List(os'))
    ensures Compare(List(ns'), List(os')) == Compare(List(ns), List(os))
  {
    SameElements(ns, ns');
    SameElements(os, os');
    assert ns[0] in ns && os[0] in os && ns'[0] in ns && os'[0] in os;
    ListPermutationInsensitive(ns, ns', os, os');
  }

  /**
   * Lists of resources identified by `'name'` compare the same in any order,
   * when one side carries no `'id'` (as the desired side built from user
   * input does not).
   */
  lemma ByNameInAnyOrder(ns: seq<Value>, ns': seq<Value>, os: seq<Value>, os': seq<Value>)
    requires ns != [] && os != []
    requires multiset(ns') == multiset(ns) && multiset(os') == multiset(os)
    requires UniquelyKeyed(ns, "name") && UniquelyKeyed(os, "name")
    requires (forall x | x in ns :: !HasKey(x, "id")) || (forall x | x in os :: !HasKey(x, "id"))
    requires Defined(List(ns), List(os))
    ensures Defined(List(ns'), List(os'))
    ensures Compare(List(ns'), List(os')) == Compare(List(ns), List(os))
  {
    SameElements(ns, ns');
    SameElements(os, os');
    assert ns[0] in ns && os[0] in os && ns'[0] in ns && os'[0] in os;
    ListPermutationInsensitive(ns, ns', os, os');
  }

  /** All strings or all integers. */
  predicate Homogeneous(s: seq<Value>) {
    (forall x | x in s :: x.Str?) || (forall x | x in s :: x.Int?)
  }

  /** Lists of strings or of integers compare the same in any order. */
  lemma ScalarsInAnyOrder(ns: seq<Value>, ns': seq<Value>, os: seq<Value>, os': seq<Value>)
    requires ns != [] && os != []
    requires multiset(ns') == multiset(ns) && multiset(os') == multiset(os)
    requires Homogeneous(ns) && Homogeneous(os)
    requires Defined(List(ns), List(os))
    ensures Defined(List(ns'), List(os'))
    ensures Compare(List(ns'), List(os')) == Compare(List(ns), List(os))
  {
    SameElements(ns, ns');
    SameElements(os, os');
    assert ns[0] in ns && os[0] in os && ns'[0] in ns && os'[0] in os;
    forall s | s == ns || s == os ensures TiesIdentical(Natural, s) {
      forall x, y | x in s && y in s && Equiv(x, y) ensures x == y {
        if x.Str? { EquivStrings(x, y); }
      }
    }
    ListPermutationInsensitive(ns, ns', os, os');
  }

  /**
   * `o` carries everything `n` carries: every key of a dict in `n` is in
   * the matching dict of `o` with a value that extends it, lists have the
   * same length and extend position by position, other values are equal.
   * This is what a service that stores a submitted resource and adds
   * fields of its own returns.
   */
  predicate Extends(o: Value, n: Value)
    decreases n
  {
    match n
    case Dict(m) => o.Dict? && forall k | k in m :: k in o.fields && Extends(o.fields[k], m[k])
    case List(ns) => o.List? && |o.items| == |ns| && forall i | 0 <= i < |ns| :: Extends(o.items[i], ns[i])
    case _ => o == n
  }

  lemma {:induction false} ExtendsReflexive(t: Value)
    ensures Extends(t, t)
  {
    match t
    case Dict(m) =>
      forall k | k in m ensures Extends(t.fields[k], m[k]) {
        ExtendsReflexive(m[k]);
      }
    case List(ns) =>
      forall i | 0 <= i < |ns| ensures Extends(t.items[i], ns[i]) {
        ExtendsReflexive(ns[i]);
      }
    case _ =>
  }

  lemma {:induction false} ExtendsTransitive(a: Value, b: Value, c: Value)
    requires Extends(a, b) && Extends(b, c)
    ensures Extends(a, c)
    decreases c
  {
    match c
    case Dict(m) =>
      forall k | k in m ensures k in a.fields && Extends(a.fields[k], m[k]) {
        ExtendsTransitive(a.fields[k], b.fields[k], m[k]);
      }
    case List(cs) =>
      forall i | 0 <= i < |cs| ensures Extends(a.items[i], cs[i]) {
        ExtendsTransitive(a.items[i], b.items[i], cs[i]);
      }
    case _ =>
  }

  /** Extension keeps sort keys: a key `n` gives to sorting, `o` gives too. */
  lemma ExtendsKeepsKey(order: SortKey, o: Value, n: Value)
    requires Extends(o, n)
    requires order.Natural? || IsScalarKey(KeyOf(order, n))
    ensures Equiv(KeyOf(order, n), KeyOf(order, o))
  {
    match order
    case Natural =>
      if !n.Dict? && !n.List? {
        LtIrreflexive(n);
      }
    case Field(f) =>
      assert n.Dict? && f in n.fields;
      LtIrreflexive(KeyOf(order, n));
    case NoField =>
  }

  /**
   * A tree matches every tree that extends it.  With `ExtendsReflexive`
   * this makes the comparison reflexive, and it is why re-submitting a
   * resource the service has stored is recognised as no change.
   */
  lemma {:induction false} CompareExtends(n: Value, o: Value)
    requires Defined(n, o) && Extends(o, n)
    ensures Compare(n, o)
    decreases n, 1
  {
    match n
    case Dict(m) =>
      forall k | k in m ensures Compare(m[k], Get(o, k)) {
        CompareExtends(m[k], Get(o, k));
      }
    case List(ns) =>
      if ns != [] {
        CompareListExtends(ns, o.items);
      }
    case _ =>
      PyEqReflexive(n);
  }

  lemma {:induction false} CompareListExtends(ns: seq<Value>, os: seq<Value>)
    requires ns != [] && |os| == |ns| && DefinedList(ns, os)
    requires forall i | 0 <= i < |ns| :: Extends(os[i], ns[i])
    ensures CompareList(ns, os)
    decreases List(ns), 0
  {
    var order := ListOrder(ns, os);
    var sn, so := Sort(order, ns), Sort(order, os);
    if |ns| == 1 {
      SortSingleton(order, ns[0]);
      SortSingleton(order, os[0]);
      assert ns == [ns[0]] && os == [os[0]];
      CompareExtends(ns[0], os[0]);
    } else {
      var R := (x: Value, y: Value) => Extends(y, x);
      forall i | 0 <= i < |ns| ensures Equiv(KeyOf(order, ns[i]), KeyOf(order, os[i])) && R(ns[i], os[i]) {
        assert ns[i] in ns;
        ExtendsKeepsKey(order, os[i], ns[i]);
      }
      SortAligned(order, ns, os, R);
      forall i | 0 <= i < |sn| ensures Compare(sn[i], so[i]) {
        assert R(sn[i], so[i]);
        CompareExtends(sn[i], so[i]);
      }
    }
  }

  /** Every tree the comparison is defined on matches itself. */
  lemma CompareReflexive(t: Value)
    requires Defined(t, t)
    ensures Compare(t, t)
  {
    ExtendsReflexive(t);
    CompareExtends(t, t);
  }
}
