/**
 * Shared vocabulary: optional values (SQL NULL, Python None) and the
 * aggregations the application runs over lists of rows (sums, filters and
 * GROUP BY on a key).
 */
module Common {

  datatype Option<T> = None | Some(value: T)

  /** Sum of f over the rows, in order. */
  function SumOf<T(!new)>(s: seq<T>, f: T -> int): int {
    if s == [] then 0 else SumOf(s[..|s| - 1], f) + f(s[|s| - 1])
  }

  /** The rows satisfying p, in order (a `.filter()` on a query set). */
  function Where<T(!new)>(s: seq<T>, p: T -> bool): (r: seq<T>)
    ensures |r| <= |s|
    ensures forall x :: x in r <==> x in s && p(x)
  {
    if s == [] then [] else Where(s[..|s| - 1], p) + (if p(s[|s| - 1]) then [s[|s| - 1]] else [])
  }

  /**
   * Each row repeated count(row) times, in order: what a join on a
   * multi-valued relation does to the rows of a query set.
   */
  function Repeat<T(!new)>(s: seq<T>, count: T -> nat): (r: seq<T>)
    ensures forall x :: x in r <==> x in s && count(x) > 0
  {
    if s == [] then []
    else
      var x := s[|s| - 1];
      var copies := seq(count(x), _ => x);
      assert forall y :: y in copies <==> y == x && count(x) > 0 by {
        if count(x) > 0 { assert copies[0] == x; }
      }
      Repeat(s[..|s| - 1], count) + copies
  }

  /** Sum of f over the rows whose key is k: the aggregate of one GROUP BY group. */
  function GroupSum<T(!new), K(==,!new)>(s: seq<T>, key: T -> K, k: K, f: T -> int): int {
    if s == [] then 0
    else GroupSum(s[..|s| - 1], key, k, f) + (if key(s[|s| - 1]) == k then f(s[|s| - 1]) else 0)
  }

  /** The distinct keys of the rows, in order of first appearance: the groups of a GROUP BY. */
  function Keys<T(!new), K(==,!new)>(s: seq<T>, key: T -> K): (r: seq<K>)
    ensures forall k :: k in r <==> exists x :: x in s && key(x) == k
  {
    if s == [] then []
    else
      var ks := Keys(s[..|s| - 1], key);
      var x := s[|s| - 1];
      assert forall y :: y in s <==> y in s[..|s| - 1] || y == x;
      if key(x) in ks then ks else ks + [key(x)]
  }

  predicate Distinct<K(==)>(ks: seq<K>) {
    forall i, j :: 0 <= i < j < |ks| ==> ks[i] != ks[j]
  }

  lemma {:induction false} SumAppend<T(!new)>(a: seq<T>, b: seq<T>, f: T -> int)
    ensures SumOf(a + b, f) == SumOf(a, f) + SumOf(b, f)
    decreases |b|
  {
    if b == [] {
      assert a + b == a;
    } else {
      assert (a + b)[..|a + b| - 1] == a + b[..|b| - 1];
      SumAppend(a, b[..|b| - 1], f);
    }
  }

  lemma {:induction false} WhereAppend<T(!new)>(a: seq<T>, b: seq<T>, p: T -> bool)
    ensures Where(a + b, p) == Where(a, p) + Where(b, p)
    decreases |b|
  {
    if b == [] {
      assert a + b == a;
    } else {
      assert (a + b)[..|a + b| - 1] == a + b[..|b| - 1];
      WhereAppend(a, b[..|b| - 1], p);
    }
  }

  /** Summing f over the filtered rows is summing the masked f over all rows. */
  lemma {:induction false} SumWhere<T(!new)>(s: seq<T>, p: T -> bool, f: T -> int)
    ensures SumOf(Where(s, p), f) == SumOf(s, (x: T) => if p(x) then f(x) else 0)
  {
    if s != [] {
      var init := s[..|s| - 1];
      var x := s[|s| - 1];
      SumWhere(init, p, f);
      SumAppend(Where(init, p), if p(x) then [x] else [], f);
      if p(x) { assert SumOf([x], f) == SumOf([], f) + f(x); }
    }
  }

  /** Sums are linear: summing f + g is summing f plus summing g. */
  lemma {:induction false} SumAdd<T(!new)>(s: seq<T>, f: T -> int, g: T -> int, h: T -> int)
    requires forall x :: h(x) == f(x) + g(x)
    ensures SumOf(s, h) == SumOf(s, f) + SumOf(s, g)
  {
    if s != [] {
      SumAdd(s[..|s| - 1], f, g, h);
    }
  }

  lemma {:induction false} SumZero<T(!new)>(s: seq<T>, f: T -> int)
    requires forall x :: x in s ==> f(x) == 0
    ensures SumOf(s, f) == 0
  {
    if s != [] {
      SumZero(s[..|s| - 1], f);
    }
  }

  /** Sums only depend on the values of the summand. */
  lemma {:induction false} SumExt<T(!new)>(s: seq<T>, f: T -> int, g: T -> int)
    requires forall x :: x in s ==> f(x) == g(x)
    ensures SumOf(s, f) == SumOf(s, g)
  {
    if s != [] {
      SumExt(s[..|s| - 1], f, g);
    }
  }

  /** `[f(x) for x in s]` */
  function MapSeq<A, B>(s: seq<A>, f: A -> B): (r: seq<B>)
    ensures |r| == |s| && forall i :: 0 <= i < |s| ==> r[i] == f(s[i])
  {
    if s == [] then [] else MapSeq(s[..|s| - 1], f) + [f(s[|s| - 1])]
  }

  lemma ConcatAssoc<T>(a: seq<T>, b: seq<T>, c: seq<T>, d: seq<T>)
    ensures a + b + c + d == a + (b + c + d)
  {
  }

  /** A non-empty sequence is its prefix followed by its last element. */
  lemma LastSplit<T>(s: seq<T>)
    requires s != []
    ensures s == s[..|s| - 1] + [s[|s| - 1]]
  {
  }

  lemma SumSingle<T(!new)>(x: T, f: T -> int)
    ensures SumOf([x], f) == f(x)
  {
    assert [x][..0] == [];
  }

  /** Mapping one more element of s appends its image. */
  lemma MapSeqSnoc<A, B>(s: seq<A>, i: nat, f: A -> B)
    requires i < |s|
    ensures MapSeq(s[..i + 1], f) == MapSeq(s[..i], f) + [f(s[i])]
  {
    assert s[..i + 1][..i] == s[..i];
  }

  lemma {:induction false} SumMapSeq<A(!new), B(!new)>(s: seq<A>, f: A -> B, g: B -> int, h: A -> int)
    requires forall x :: h(x) == g(f(x))
    ensures SumOf(MapSeq(s, f), g) == SumOf(s, h)
  {
    if s != [] {
      SumMapSeq(s[..|s| - 1], f, g, h);
      assert MapSeq(s, f)[..|s| - 1] == MapSeq(s[..|s| - 1], f);
    }
  }

  /** A row that fails the filter does not change its result. */
  lemma WhereSkip<T(!new)>(s: seq<T>, x: T, p: T -> bool)
    requires !p(x)
    ensures Where(s + [x], p) == Where(s, p)
  {
    assert (s + [x])[..|s|] == s;
  }

  /** A row that passes the filter is appended to its result. */
  lemma WhereKeep<T(!new)>(s: seq<T>, x: T, p: T -> bool)
    requires p(x)
    ensures Where(s + [x], p) == Where(s, p) + [x]
  {
    assert (s + [x])[..|s|] == s;
  }

  /** A filter that no row passes is empty. */
  lemma WhereNone<T(!new)>(s: seq<T>, p: T -> bool)
    requires forall x :: x in s ==> !p(x)
    ensures Where(s, p) == []
  {
    if Where(s, p) != [] {
      assert Where(s, p)[0] in Where(s, p);
    }
  }

  lemma {:induction false} KeysDistinct<T(!new), K(!new)>(s: seq<T>, key: T -> K)
    ensures Distinct(Keys(s, key))
  {
    if s != [] {
      KeysDistinct(s[..|s| - 1], key);
    }
  }

  /**
   * Among items with distinct keys, an indicator of one key summed over the items
   * picks out one term.
   */
  lemma {:induction false} SumPoint<G(!new), K(!new)>(gs: seq<G>, proj: G -> K, c: K, v: int, g: G -> int)
    requires forall i, j :: 0 <= i < j < |gs| ==> proj(gs[i]) != proj(gs[j])
    requires forall y :: g(y) == if proj(y) == c then v else 0
    ensures SumOf(gs, g) == if exists y :: y in gs && proj(y) == c then v else 0
  {
    if gs != [] {
      var init := gs[..|gs| - 1];
      var last := gs[|gs| - 1];
      SumPoint(init, proj, c, v, g);
      assert forall y :: y in gs <==> y in init || y == last;
      if proj(last) == c {
        assert !exists y :: y in init && proj(y) == c;
      }
    }
  }

  /**
   * GROUP BY conservation: over any list of groups with distinct keys that covers
   * every row's key, the group sums add up to the sum over all rows.
   */
  lemma {:induction false} GroupSumsCovered<T(!new), G(!new), K(!new)>(s: seq<T>, key: T -> K, f: T -> int, gs: seq<G>, proj: G -> K)
    requires forall i, j :: 0 <= i < j < |gs| ==> proj(gs[i]) != proj(gs[j])
    requires forall x :: x in s ==> exists g :: g in gs && proj(g) == key(x)
    ensures SumOf(gs, (g: G) => GroupSum(s, key, proj(g), f)) == SumOf(s, f)
  {
    if s != [] {
      var init := s[..|s| - 1];
      var x := s[|s| - 1];
      assert forall y :: y in init ==> y in s;
      GroupSumsCovered(init, key, f, gs, proj);
      var gInit := (g: G) => GroupSum(init, key, proj(g), f);
      var gAll := (g: G) => GroupSum(s, key, proj(g), f);
      var point := (g: G) => if proj(g) == key(x) then f(x) else 0;
      assert forall g :: gAll(g) == gInit(g) + point(g);
      SumAdd(gs, gInit, point, gAll);
      SumPoint(gs, proj, key(x), f(x), point);
      assert x in s;
      assert exists y :: y in gs && proj(y) == key(x);
    } else {
      SumZero(gs, (g: G) => GroupSum(s, key, proj(g), f));
    }
  }

  /** The same over the distinct keys of the rows themselves. */
  lemma GroupSumsAddUp<T(!new), K(!new)>(s: seq<T>, key: T -> K, f: T -> int)
    ensures SumOf(Keys(s, key), (k: K) => GroupSum(s, key, k, f)) == SumOf(s, f)
  {
    var ks := Keys(s, key);
    KeysDistinct(s, key);
    forall x | x in s
      ensures exists k :: k in ks && (k => k)(k) == key(x)
    {
      assert key(x) in ks;
    }
    GroupSumsCovered(s, key, f, ks, k => k);
    SumExt(ks, (g: K) => GroupSum(s, key, (k => k)(g), f), (k: K) => GroupSum(s, key, k, f));
  }

  /** A key that no row carries has an empty group. */
  lemma {:induction false} GroupSumAbsent<T(!new), K(!new)>(s: seq<T>, key: T -> K, k: K, f: T -> int)
    requires forall x :: x in s ==> key(x) != k
    ensures GroupSum(s, key, k, f) == 0
  {
    if s != [] {
      GroupSumAbsent(s[..|s| - 1], key, k, f);
    }
  }

  /**
   * A grouped query's rows, one per distinct key, add up to the whole: when a row
   * field holds the group sum of f, the field summed over the rows is f summed
   * over all the input rows.
   */
  lemma GroupRowsAddUp<T(!new), K(!new), R(!new)>(s: seq<T>, key: T -> K, f: T -> int, rowOf: K -> R, field: R -> int)
    requires forall k :: field(rowOf(k)) == GroupSum(s, key, k, f)
    ensures SumOf(MapSeq(Keys(s, key), rowOf), field) == SumOf(s, f)
  {
    SumMapSeq(Keys(s, key), rowOf, field, (k: K) => GroupSum(s, key, k, f));
    GroupSumsAddUp(s, key, f);
  }

  /** A group sum only depends on the summand's values on the group's rows. */
  lemma {:induction false} GroupSumExt<T(!new), K(!new)>(s: seq<T>, key: T -> K, k: K, f: T -> int, g: T -> int)
    requires forall x :: x in s && key(x) == k ==> f(x) == g(x)
    ensures GroupSum(s, key, k, f) == GroupSum(s, key, k, g)
  {
    if s != [] {
      GroupSumExt(s[..|s| - 1], key, k, f, g);
    }
  }

  /** A summand that vanishes on the group's rows gives an empty group sum. */
  lemma {:induction false} GroupSumVanishes<T(!new), K(!new)>(s: seq<T>, key: T -> K, k: K, f: T -> int)
    requires forall x :: x in s && key(x) == k ==> f(x) == 0
    ensures GroupSum(s, key, k, f) == 0
  {
    if s != [] {
      GroupSumVanishes(s[..|s| - 1], key, k, f);
    }
  }

  /** SumWhere with the masked summand given by name. */
  lemma SumWhereBy<T(!new)>(s: seq<T>, p: T -> bool, f: T -> int, h: T -> int)
    requires forall x :: h(x) == if p(x) then f(x) else 0
    ensures SumOf(Where(s, p), f) == SumOf(s, h)
  {
    SumWhere(s, p, f);
    SumExt(s, (x: T) => if p(x) then f(x) else 0, h);
  }

  /** GroupSumsCovered with the per-group sum given by name. */
  lemma GroupSumsCoveredBy<T(!new), G(!new), K(!new)>(s: seq<T>, key: T -> K, f: T -> int, gs: seq<G>, proj: G -> K, h: G -> int)
    requires forall i, j :: 0 <= i < j < |gs| ==> proj(gs[i]) != proj(gs[j])
    requires forall x :: x in s ==> exists g :: g in gs && proj(g) == key(x)
    requires forall g :: h(g) == GroupSum(s, key, proj(g), f)
    ensures SumOf(gs, h) == SumOf(s, f)
  {
    GroupSumsCovered(s, key, f, gs, proj);
    SumExt(gs, (g: G) => GroupSum(s, key, proj(g), f), h);
  }

  /** How many times a row occurs in the copies of one row. */
  lemma {:induction false} CopiesCount<T>(x: T, k: nat, y: T)
    ensures multiset(seq(k, _ => x))[y] == if y == x then k else 0
  {
    if k > 0 {
      CopiesCount(x, k - 1, y);
      assert seq(k, _ => x) == seq(k - 1, _ => x) + [x];
    }
  }

  /** A join multiplies each row's occurrences by its count of related rows. */
  lemma {:induction false} RepeatCount<T(!new)>(s: seq<T>, count: T -> nat, y: T)
    ensures multiset(Repeat(s, count))[y] == multiset(s)[y] * count(y)
  {
    if s != [] {
      var init, x := s[..|s| - 1], s[|s| - 1];
      var copies := seq(count(x), _ => x);
      assert s == init + [x];
      assert Repeat(s, count) == Repeat(init, count) + copies;
      RepeatCount(init, count, y);
      CopiesCount(x, count(x), y);
      var m, c := multiset(init)[y], count(y);
      assert multiset(Repeat(s, count)) == multiset(Repeat(init, count)) + multiset(copies);
      assert multiset(Repeat(s, count))[y] == m * c + (if y == x then c else 0);
      assert multiset(s) == multiset(init) + multiset{x};
      assert multiset(s)[y] == m + (if y == x then 1 else 0);
      MultiplyStep(m, c, y == x);
    }
  }

  /** One more occurrence adds one more count of rows. */
  lemma MultiplyStep(m: nat, c: nat, more: bool)
    ensures (m + if more then 1 else 0) * c == m * c + if more then c else 0
  {
  }

  /** A filter keeps every occurrence of the rows it accepts and none of the others. */
  lemma {:induction false} WhereCount<T(!new)>(s: seq<T>, p: T -> bool, y: T)
    ensures multiset(Where(s, p))[y] == if p(y) then multiset(s)[y] else 0
  {
    if s != [] {
      var init, x := s[..|s| - 1], s[|s| - 1];
      assert s == init + [x];
      WhereCount(init, p, y);
    }
  }

  /** In a list without repetition every element occurs exactly once. */
  lemma {:induction false} DistinctCount<T>(s: seq<T>, y: T)
    requires Distinct(s)
    ensures multiset(s)[y] == if y in s then 1 else 0
  {
    if s != [] {
      var init, x := s[..|s| - 1], s[|s| - 1];
      assert s == init + [x];
      assert Distinct(init);
      DistinctCount(init, y);
      forall i | 0 <= i < |init|
        ensures init[i] != x
      {
        assert s[i] == init[i];
      }
    }
  }

  /** A filter leaves some row exactly when some row passes it. */
  lemma WhereNonEmpty<T(!new)>(s: seq<T>, p: T -> bool)
    ensures |Where(s, p)| > 0 <==> exists x :: x in s && p(x)
  {
    if |Where(s, p)| > 0 {
      assert Where(s, p)[0] in Where(s, p);
    }
    if exists x :: x in s && p(x) {
      var x :| x in s && p(x);
      assert x in Where(s, p);
    }
  }
}
