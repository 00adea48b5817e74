/** Small shared vocabulary: optional values, pass/fail outcomes, and the
    order-preserving filter that several queries of the bot are built from. */
module Common {

  datatype Option<T> = None | Some(value: T)

  /** The result of an operation that either succeeds or throws `error`. */
  datatype Outcome<E> = Pass | Fail(error: E)

  datatype Result<T, E> = Success(value: T) | Failure(error: E)

  /** `a` is obtained from `b` by deleting elements, keeping the order of the rest. */
  ghost predicate IsSubsequence<T>(a: seq<T>, b: seq<T>)
    decreases |b|
  {
    a == [] ||
    (b != [] &&
     ((a[|a| - 1] == b[|b| - 1] && IsSubsequence(a[..|a| - 1], b[..|b| - 1])) ||
      IsSubsequence(a, b[..|b| - 1])))
  }

  /** Array.prototype.filter: the elements of `s` that satisfy `p`, in order. */
  function Filter<T>(s: seq<T>, p: T -> bool): (r: seq<T>)
    ensures |r| <= |s|
    ensures forall x :: x in r ==> x in s && p(x)
  {
    if s == [] then []
    else
      var init := Filter(s[..|s| - 1], p);
      if p(s[|s| - 1]) then init + [s[|s| - 1]] else init
  }

  lemma {:induction false} FilterIsSubsequence<T>(s: seq<T>, p: T -> bool)
    ensures IsSubsequence(Filter(s, p), s)
  {
    if s != [] {
      var init := s[..|s| - 1];
      FilterIsSubsequence(init, p);
      var f := Filter(init, p);
      if p(s[|s| - 1]) {
        assert (f + [s[|s| - 1]])[..|f|] == f;
      }
    }
  }

  /** Filtering keeps every occurrence of an element that satisfies `p` and
      drops every occurrence of one that does not. */
  lemma {:induction false} FilterCount<T>(s: seq<T>, p: T -> bool, x: T)
    ensures multiset(Filter(s, p))[x] == if p(x) then multiset(s)[x] else 0
  {
    if s != [] {
      var init := s[..|s| - 1];
      FilterCount(init, p, x);
      assert s == init + [s[|s| - 1]];
    }
  }

  lemma FilterCounts<T>(s: seq<T>, p: T -> bool)
    ensures forall x :: multiset(Filter(s, p))[x] == if p(x) then multiset(s)[x] else 0
  {
    forall x ensures multiset(Filter(s, p))[x] == if p(x) then multiset(s)[x] else 0 {
      FilterCount(s, p, x);
    }
  }

  lemma {:induction false} FilterAppend<T>(s: seq<T>, t: seq<T>, p: T -> bool)
    ensures Filter(s + t, p) == Filter(s, p) + Filter(t, p)
    decreases |t|
  {
    if t != [] {
      var t' := t[..|t| - 1];
      assert (s + t)[..|s + t| - 1] == s + t';
      FilterAppend(s, t', p);
    } else {
      assert s + t == s;
    }
  }

  lemma {:induction false} FilterNoneKept<T>(s: seq<T>, p: T -> bool)
    requires forall x :: x in s ==> !p(x)
    ensures Filter(s, p) == []
  {
    if s != [] {
      FilterNoneKept(s[..|s| - 1], p);
    }
  }

  lemma {:induction false} FilterAllKept<T>(s: seq<T>, p: T -> bool)
    requires forall x :: x in s ==> p(x)
    ensures Filter(s, p) == s
  {
    if s != [] {
      FilterAllKept(s[..|s| - 1], p);
      assert s == s[..|s| - 1] + [s[|s| - 1]];
    }
  }

  /** Filtering out the first element, and only it, leaves the rest. */
  lemma FilterDropsFirst<T>(s: seq<T>, p: T -> bool)
    requires s != [] && !p(s[0])
    requires forall i :: 1 <= i < |s| ==> p(s[i])
    ensures Filter(s, p) == s[1..]
  {
    assert s == [s[0]] + s[1..];
    FilterAppend([s[0]], s[1..], p);
    assert [s[0]][..0] == [];
    forall x | x in s[1..] ensures p(x) {
      var k :| 0 <= k < |s[1..]| && s[1..][k] == x;
      assert s[k + 1] == x;
    }
    FilterAllKept(s[1..], p);
  }

  /** An element of a non-empty sequence is in its prefix or is its last element. */
  lemma InInitOrLast<T>(s: seq<T>, x: T)
    requires x in s
    ensures x in s[..|s| - 1] || x == s[|s| - 1]
  {
    var k :| 0 <= k < |s| && s[k] == x;
    if k < |s| - 1 {
      assert s[..|s| - 1][k] == x;
    }
  }

  lemma PrefixIncluded<T>(s: seq<T>, n: nat)
    requires n <= |s|
    ensures multiset(s[..n]) <= multiset(s)
  {
    assert s == s[..n] + s[n..];
  }

  /** An element that a prefix leaves out sits at an index past the prefix. */
  lemma PrefixRemainder<T>(s: seq<T>, n: nat, y: T) returns (j: nat)
    requires n <= |s| && y in multiset(s) - multiset(s[..n])
    ensures n <= j < |s| && s[j] == y
  {
    assert s == s[..n] + s[n..];
    assert multiset(s) - multiset(s[..n]) == multiset(s[n..]);
    assert y in s[n..];
    var k :| 0 <= k < |s| - n && s[n..][k] == y;
    j := n + k;
  }

  lemma PrefixSnoc<T>(s: seq<T>, i: nat)
    requires i < |s|
    ensures s[..i + 1] == s[..i] + [s[i]] && s[..i + 1][..i] == s[..i]
  {
  }

  lemma WholePrefix<T>(s: seq<T>)
    ensures s[..|s|] == s
  {
  }

  lemma SnocInit<T>(s: seq<T>, a: T)
    ensures (s + [a])[..|s|] == s && (s + [a])[|s|] == a
  {
  }

  lemma AppendRegroup<T>(prefix: seq<T>, a: seq<T>, b: seq<T>, c: seq<T>)
    ensures prefix + (a + b + c) == prefix + a + b + c
    ensures c == [] ==> prefix + (a + b + c) == prefix + a + b
  {
  }

  /** Where the parts of `y-m-d w` sit when the year has four characters and
      the month and day two each. */
  lemma DateLayout<C>(y: seq<C>, dash: C, m: seq<C>, d: seq<C>, space: C, w: seq<C>)
    requires |y| == 4 && |m| == 2 && |d| == 2
    ensures var r := y + [dash] + m + [dash] + d + [space] + w;
      |r| == 11 + |w| && r[4] == dash && r[7] == dash && r[10] == space &&
      r[..4] == y && r[5..7] == m && r[8..10] == d && r[11..] == w
  {
  }

  // Grouping by a key

  ghost predicate Distinct<K>(ks: seq<K>) {
    forall i, j :: 0 <= i < j < |ks| ==> ks[i] != ks[j]
  }

  /** The keys of the elements of `s`, each once, in order of first occurrence. */
  function KeysOf<T, K(==)>(s: seq<T>, key: T -> K): (r: seq<K>)
    ensures Distinct(r)
    ensures forall i :: 0 <= i < |s| ==> key(s[i]) in r
    ensures forall k :: k in r ==> exists i :: 0 <= i < |s| && key(s[i]) == k
  {
    if s == [] then []
    else
      var init := s[..|s| - 1];
      var keys := KeysOf(init, key);
      var k := key(s[|s| - 1]);
      assert forall i :: 0 <= i < |init| ==> init[i] == s[i];
      if k in keys then keys else keys + [k]
  }

  function KeyIs<T, K(==)>(key: T -> K, k: K): T -> bool {
    x => key(x) == k
  }

  /** The elements of `s` whose key is `k`, in order. */
  function GroupOf<T, K(==)>(s: seq<T>, key: T -> K, k: K): seq<T> {
    Filter(s, KeyIs(key, k))
  }

  /** `keys` and `grouped` hold the key order and the groups of `s`. */
  ghost predicate GroupedAs<T, K(!new)>(keys: seq<K>, grouped: map<K, seq<T>>, s: seq<T>, key: T -> K) {
    && keys == KeysOf(s, key)
    && (forall k :: k in grouped <==> k in keys)
    && (forall k :: k in grouped ==> grouped[k] == GroupOf(s, key, k))
  }

  lemma KeysStep<T, K>(s: seq<T>, a: T, key: T -> K)
    ensures KeysOf(s + [a], key) ==
      if key(a) in KeysOf(s, key) then KeysOf(s, key) else KeysOf(s, key) + [key(a)]
  {
    SnocInit(s, a);
  }

  lemma GroupAbsent<T, K>(s: seq<T>, key: T -> K, k: K)
    requires k !in KeysOf(s, key)
    ensures GroupOf(s, key, k) == []
  {
    FilterNoneKept(s, KeyIs(key, k));
  }

  lemma GroupStep<T, K>(s: seq<T>, a: T, key: T -> K, k: K)
    ensures GroupOf(s + [a], key, k) == GroupOf(s, key, k) + (if key(a) == k then [a] else [])
  {
    SnocInit(s, a);
  }

  /** Adding an element to the existing group of its key groups the extended sequence. */
  lemma GroupJoin<T, K(!new)>(keys: seq<K>, grouped: map<K, seq<T>>, s: seq<T>, a: T, key: T -> K)
    requires GroupedAs(keys, grouped, s, key) && key(a) in grouped
    ensures GroupedAs(keys, grouped[key(a) := grouped[key(a)] + [a]], s + [a], key)
  {
    KeysStep(s, a, key);
    var after := grouped[key(a) := grouped[key(a)] + [a]];
    forall k | k in after ensures after[k] == GroupOf(s + [a], key, k) {
      GroupStep(s, a, key, k);
    }
  }

  /** Opening the group of a new key with one element groups the extended sequence. */
  lemma GroupOpen<T, K(!new)>(keys: seq<K>, grouped: map<K, seq<T>>, s: seq<T>, a: T, key: T -> K)
    requires GroupedAs(keys, grouped, s, key) && key(a) !in grouped
    ensures GroupedAs(keys + [key(a)], grouped[key(a) := [a]], s + [a], key)
  {
    KeysStep(s, a, key);
    GroupAbsent(s, key, key(a));
    var after := grouped[key(a) := [a]];
    forall k | k in after ensures after[k] == GroupOf(s + [a], key, k) {
      GroupStep(s, a, key, k);
    }
  }

  /** The concatenation of `f(x)` over the elements `x` of `s`, in order. */
  function FlatMap<T, U>(s: seq<T>, f: T -> seq<U>): seq<U> {
    if s == [] then [] else FlatMap(s[..|s| - 1], f) + f(s[|s| - 1])
  }

  lemma FlatMapPrefixStep<T, U>(s: seq<T>, j: nat, f: T -> seq<U>)
    requires j < |s|
    ensures FlatMap(s[..j + 1], f) == FlatMap(s[..j], f) + f(s[j])
  {
    assert s[..j + 1][..j] == s[..j];
  }

  lemma FlatMapPush<T, U>(prefix: seq<U>, s: seq<T>, j: nat, f: T -> seq<U>)
    requires j < |s|
    ensures prefix + FlatMap(s[..j + 1], f) == prefix + FlatMap(s[..j], f) + f(s[j])
  {
    FlatMapPrefixStep(s, j, f);
  }

  /** When the last element's image is non-empty, it supplies the last element of the concatenation. */
  lemma FlatMapLast<T, U>(prefix: seq<U>, s: seq<T>, f: T -> seq<U>)
    requires s != [] && f(s[|s| - 1]) != []
    ensures var r := prefix + FlatMap(s, f); var t := f(s[|s| - 1]);
            |r| > 0 && r[|r| - 1] == t[|t| - 1]
  {
    var t := f(s[|s| - 1]);
    assert prefix + FlatMap(s, f) == (prefix + FlatMap(s[..|s| - 1], f)) + t;
  }

  lemma {:induction false} FlatMapAppend<T, U>(s: seq<T>, t: seq<T>, f: T -> seq<U>)
    ensures FlatMap(s + t, f) == FlatMap(s, f) + FlatMap(t, f)
    decreases |t|
  {
    if t == [] {
      assert s + t == s;
    } else {
      var t' := t[..|t| - 1];
      assert (s + t)[..|s + t| - 1] == s + t';
      FlatMapAppend(s, t', f);
    }
  }

  /** The first `n` of `items`, each rendered with its 1-based index by
      `render`, with `sep` after each item except the last one of `items`. */
  function Run<T, E>(items: seq<T>, n: nat, render: (T, nat) -> seq<E>, sep: E): seq<E>
    requires n <= |items|
  {
    if n == 0 then []
    else Run(items, n - 1, render, sep) + render(items[n - 1], n) + (if n - 1 < |items| - 1 then [sep] else [])
  }

  /** Pushing item `i` and, unless it is the last, the separator extends the run by one item. */
  lemma RunPush<T, E>(prefix: seq<E>, items: seq<T>, i: nat, render: (T, nat) -> seq<E>, sep: E)
    requires i < |items|
    ensures prefix + Run(items, i + 1, render, sep) ==
      prefix + Run(items, i, render, sep) + render(items[i], i + 1) + (if i < |items| - 1 then [sep] else [])
  {
  }

  lemma {:induction false} RunLength<T, E>(items: seq<T>, n: nat, render: (T, nat) -> seq<E>, sep: E)
    requires n <= |items|
    requires forall x, i :: |render(x, i)| == 3
    ensures |Run(items, n, render, sep)| == 4 * n - (if n == |items| && n > 0 then 1 else 0)
  {
    if n > 0 {
      RunLength(items, n - 1, render, sep);
    }
  }

  /** Item `k` occupies positions `4k` to `4k + 2`, rendered with index
      `k + 1`, and the separator follows it unless it is the last item. */
  lemma {:induction false} RunLayout<T, E>(items: seq<T>, n: nat, k: nat, render: (T, nat) -> seq<E>, sep: E)
    requires k < n <= |items|
    requires forall x, i :: |render(x, i)| == 3
    ensures 4 * k + 3 <= |Run(items, n, render, sep)|
    ensures Run(items, n, render, sep)[4 * k .. 4 * k + 3] == render(items[k], k + 1)
    ensures k < |items| - 1 ==> 4 * k + 3 < |Run(items, n, render, sep)| && Run(items, n, render, sep)[4 * k + 3] == sep
  {
    RunLength(items, n, render, sep);
    RunLength(items, n - 1, render, sep);
    var prev := Run(items, n - 1, render, sep);
    var run := Run(items, n, render, sep);
    assert run == prev + render(items[n - 1], n) + (if n - 1 < |items| - 1 then [sep] else []);
    if k < n - 1 {
      RunLayout(items, n - 1, k, render, sep);
      assert run[..|prev|] == prev;
    } else {
      assert |prev| == 4 * k;
    }
  }

  /** A complete run ends with its last item, not with the separator. */
  lemma RunEnd<T, E>(items: seq<T>, render: (T, nat) -> seq<E>, sep: E)
    requires items != []
    requires forall x, i :: |render(x, i)| == 3 && render(x, i)[2] != sep
    ensures var run := Run(items, |items|, render, sep); |run| > 0 && run[|run| - 1] != sep
  {
    var n := |items|;
    var last := render(items[n - 1], n);
    var run := Run(items, n, render, sep);
    assert run == Run(items, n - 1, render, sep) + last;
    assert run[|run| - 1] == last[2];
  }
}
