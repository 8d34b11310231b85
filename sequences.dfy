/** The list operations the JavaScript code builds on, as functions on
    sequences: `Array.prototype.filter`, `Array.from(new Set(xs))` generalised
    to a key, and `findIndex`-based de-duplication. */
module Sequences {

  /** `r` is `s` with some elements deleted and the rest kept in order.
      Matching greedily from the end is complete for this relation. */
  predicate IsSubsequence<T(==)>(r: seq<T>, s: seq<T>)
    decreases |s|
  {
    if r == [] then true
    else if s == [] then false
    else if r[|r| - 1] == s[|s| - 1] then IsSubsequence(r[..|r| - 1], s[..|s| - 1])
    else IsSubsequence(r, s[..|s| - 1])
  }

  lemma {:induction false} SubsequenceDropLast<T>(r: seq<T>, s: seq<T>)
    requires r != [] && IsSubsequence(r, s)
    ensures IsSubsequence(r[..|r| - 1], s)
    decreases |s|
  {
    var r', s' := r[..|r| - 1], s[..|s| - 1];
    if r[|r| - 1] != s[|s| - 1] {
      SubsequenceDropLast(r, s');
    }
    if r' != [] && r'[|r'| - 1] == s[|s| - 1] {
      SubsequenceDropLast(r', s');
    }
  }

  /** Appending to the longer sequence keeps a subsequence a subsequence. */
  lemma SubsequenceExtend<T>(r: seq<T>, s: seq<T>, x: T)
    requires IsSubsequence(r, s)
    ensures IsSubsequence(r, s + [x])
  {
    assert (s + [x])[..|s|] == s;
    if r != [] && r[|r| - 1] == x {
      SubsequenceDropLast(r, s);
    }
  }

  /** `s.filter(p)`: the elements of `s` that satisfy `p`, in order. What it
      keeps and that the order is kept are stated by `FilterSpec`. */
  function Filter<T(==)>(s: seq<T>, p: T -> bool): (r: seq<T>)
    ensures |r| <= |s|
    ensures forall i :: 0 <= i < |r| ==> p(r[i])
    decreases |s|
  {
    if s == [] then []
    else
      var rest := Filter(s[..|s| - 1], p);
      if p(s[|s| - 1]) then rest + [s[|s| - 1]] else rest
  }

  /** The filter keeps exactly the elements of `s` that pass, as a
      subsequence of `s`. */
  lemma {:induction false} FilterSpec<T>(s: seq<T>, p: T -> bool)
    ensures forall i :: 0 <= i < |Filter(s, p)| ==> Filter(s, p)[i] in s
    ensures forall i :: 0 <= i < |s| && p(s[i]) ==> s[i] in Filter(s, p)
    ensures IsSubsequence(Filter(s, p), s)
    decreases |s|
  {
    if s != [] {
      var init, last := s[..|s| - 1], s[|s| - 1];
      assert s == init + [last];
      FilterSpec(init, p);
      var rest := Filter(init, p);
      if p(last) {
        assert Filter(s, p) == rest + [last];
        assert (rest + [last])[..|rest|] == rest;
      } else {
        SubsequenceExtend(rest, init, last);
      }
      forall i | 0 <= i < |s| && p(s[i]) ensures s[i] in Filter(s, p) {
        if i < |s| - 1 {
          assert s[i] == init[i];
        }
      }
    }
  }

  /** Membership in a filtered sequence: present in `s` and passing `p`. */
  lemma FilterMembers<T>(s: seq<T>, p: T -> bool)
    ensures forall x :: x in Filter(s, p) <==> x in s && p(x)
  {
    var r := Filter(s, p);
    FilterSpec(s, p);
    forall x | x in r ensures x in s && p(x) {
      var i :| 0 <= i < |r| && r[i] == x;
    }
    forall x | x in s && p(x) ensures x in r {
      var i :| 0 <= i < |s| && s[i] == x;
    }
  }

  /** Dropping part of the first operand of a concatenation. */
  lemma DropAppend<T>(a: seq<T>, b: seq<T>, k: nat)
    requires k <= |a|
    ensures (a + b)[k..] == a[k..] + b
    ensures forall i :: 0 <= i < k ==> (a + b)[i] == a[i]
  {
  }

  /** Regrouping a four-part concatenation. */
  lemma ConcatRegroup<T>(h: seq<T>, x: seq<T>, g: seq<T>, y: seq<T>)
    ensures h + (x + g + y) == (h + x) + g + y
  {
  }

  /** If `whole` is `h + (a + b)` and `left` is `h + a`, then `whole` is
      `left + b`. */
  lemma SplitAfterPrefix<T>(whole: seq<T>, left: seq<T>, h: seq<T>, a: seq<T>, b: seq<T>)
    requires whole == h + (a + b) && left == h + a
    ensures whole == left + b
  {
  }

  /** A non-empty sequence is its head followed by its tail. */
  lemma HeadTail<T>(s: seq<T>)
    requires |s| > 0
    ensures s == [s[0]] + s[1..]
  {
  }

  /** Filtering keeps a sequence unchanged when every element passes. */
  lemma {:induction false} FilterKeepsAll<T>(s: seq<T>, p: T -> bool)
    requires forall i :: 0 <= i < |s| ==> p(s[i])
    ensures Filter(s, p) == s
    decreases |s|
  {
    if s != [] {
      FilterKeepsAll(s[..|s| - 1], p);
      assert s == s[..|s| - 1] + [s[|s| - 1]];
    }
  }

  /** Filtering distributes over concatenation. */
  lemma {:induction false} FilterAppend<T>(a: seq<T>, b: seq<T>, p: T -> bool)
    ensures Filter(a + b, p) == Filter(a, p) + Filter(b, p)
    decreases |b|
  {
    if b == [] {
      assert a + b == a;
    } else {
      var b' := b[..|b| - 1];
      assert (a + b)[..|a + b| - 1] == a + b';
      FilterAppend(a, b', p);
    }
  }

  /** Filtering a sequence given by its first element and the rest. */
  lemma FilterCons<T>(x: T, s: seq<T>, p: T -> bool)
    ensures Filter([x] + s, p) == (if p(x) then [x] else []) + Filter(s, p)
  {
    FilterAppend([x], s, p);
    assert [x][..0] == [];
  }

  /** Filtering a filtered sequence again with the same test changes nothing. */
  lemma FilterIdempotent<T>(s: seq<T>, p: T -> bool)
    ensures Filter(Filter(s, p), p) == Filter(s, p)
  {
    var r := Filter(s, p);
    FilterKeepsAll(r, p);
  }

  /** One filter after another is one filter by the conjunction. */
  lemma {:induction false} FilterFuse<T>(s: seq<T>, p: T -> bool, q: T -> bool, pq: T -> bool)
    requires forall x :: pq(x) == (p(x) && q(x))
    ensures Filter(Filter(s, p), q) == Filter(s, pq)
    decreases |s|
  {
    if s != [] {
      var init, last := s[..|s| - 1], s[|s| - 1];
      FilterFuse(init, p, q, pq);
      var fp := Filter(init, p);
      if p(last) {
        assert Filter(s, p) == fp + [last];
        assert (fp + [last])[..|fp|] == fp;
      } else {
        assert Filter(s, p) == fp;
      }
    }
  }

  /** Two filters applied in either order give the same sequence. */
  lemma {:induction false} FilterCommutes<T>(s: seq<T>, p: T -> bool, q: T -> bool)
    ensures Filter(Filter(s, p), q) == Filter(Filter(s, q), p)
    decreases |s|
  {
    if s != [] {
      var init, last := s[..|s| - 1], s[|s| - 1];
      FilterCommutes(init, p, q);
      var fp, fq := Filter(init, p), Filter(init, q);
      if p(last) {
        assert Filter(s, p) == fp + [last];
        assert (fp + [last])[..|fp|] == fp;
      } else {
        assert Filter(s, p) == fp;
      }
      if q(last) {
        assert Filter(s, q) == fq + [last];
        assert (fq + [last])[..|fq|] == fq;
      } else {
        assert Filter(s, q) == fq;
      }
    }
  }

  /** `xs.map(f)`, built front to back. */
  function Map<A, B>(xs: seq<A>, f: A -> B): (ys: seq<B>)
    ensures |ys| == |xs|
    ensures forall i :: 0 <= i < |xs| ==> ys[i] == f(xs[i])
    decreases |xs|
  {
    if xs == [] then []
    else
      var init := xs[..|xs| - 1];
      assert forall i :: 0 <= i < |init| ==> init[i] == xs[i];
      Map(init, f) + [f(xs[|xs| - 1])]
  }

  /** Mapping distributes over concatenation. */
  lemma {:induction false} MapAppend<A, B>(a: seq<A>, b: seq<A>, f: A -> B)
    ensures Map(a + b, f) == Map(a, f) + Map(b, f)
    decreases |b|
  {
    if b == [] {
      assert a + b == a;
    } else {
      var b' := b[..|b| - 1];
      assert (a + b)[..|a + b| - 1] == a + b';
      MapAppend(a, b', f);
    }
  }

  /** Mapping keeps the keys when the key of an image is the key of its source. */
  lemma MapKeys<A, B, K>(xs: seq<A>, f: A -> B, keyA: A -> K, keyB: B -> K, k: K)
    requires forall i :: 0 <= i < |xs| ==> keyB(f(xs[i])) == keyA(xs[i])
    ensures HasKey(Map(xs, f), keyB, k) <==> HasKey(xs, keyA, k)
  {
    var ys := Map(xs, f);
    if HasKey(ys, keyB, k) {
      var i :| 0 <= i < |ys| && keyB(ys[i]) == k;
      assert keyA(xs[i]) == k;
    }
    if HasKey(xs, keyA, k) {
      var i :| 0 <= i < |xs| && keyA(xs[i]) == k;
      assert keyB(ys[i]) == k;
    }
  }

  function Identity<T>(x: T): T { x }

  /** Some element of `xs` has key `k`. */
  predicate HasKey<T, K(==)>(xs: seq<T>, key: T -> K, k: K) {
    exists i :: 0 <= i < |xs| && key(xs[i]) == k
  }

  /** No two elements of `xs` share a key. */
  predicate DistinctKeys<T, K(==)>(xs: seq<T>, key: T -> K) {
    forall i, j :: 0 <= i < j < |xs| ==> key(xs[i]) != key(xs[j])
  }

  lemma HasKeyAppend<T, K>(xs: seq<T>, x: T, key: T -> K)
    ensures forall k :: HasKey(xs + [x], key, k) <==> HasKey(xs, key, k) || key(x) == k
  {
    forall k | HasKey(xs + [x], key, k) ensures HasKey(xs, key, k) || key(x) == k {
      var i :| 0 <= i < |xs| + 1 && key((xs + [x])[i]) == k;
      if i < |xs| { assert key(xs[i]) == k; }
    }
    forall k | HasKey(xs, key, k) ensures HasKey(xs + [x], key, k) {
      var i :| 0 <= i < |xs| && key(xs[i]) == k;
      assert key((xs + [x])[i]) == k;
    }
    assert key((xs + [x])[|xs|]) == key(x);
  }

  /** Insertion into a JavaScript `Set` keyed by `key`, element by element:
      an element is appended only when no earlier element has its key.
      With `key` the identity this is `Array.from(new Set(xs))`. */
  function Unique<T(==), K(==)>(xs: seq<T>, key: T -> K): seq<T>
    decreases |xs|
  {
    if xs == [] then []
    else
      var d := Unique(xs[..|xs| - 1], key);
      if HasKey(d, key, key(xs[|xs| - 1])) then d else d + [xs[|xs| - 1]]
  }

  /** What a JavaScript `Set` guarantees: no key twice, nothing invented,
      every key kept, first occurrences in their original order. */
  lemma {:induction false} UniqueSpec<T, K>(xs: seq<T>, key: T -> K)
    ensures var r := Unique(xs, key);
      DistinctKeys(r, key) &&
      (forall i :: 0 <= i < |r| ==> r[i] in xs) &&
      (forall i :: 0 <= i < |xs| ==> HasKey(r, key, key(xs[i]))) &&
      IsSubsequence(r, xs)
    decreases |xs|
  {
    if xs != [] {
      var init, last := xs[..|xs| - 1], xs[|xs| - 1];
      assert xs == init + [last];
      UniqueSpec(init, key);
      UniqueStep(init, last, key, Unique(init, key));
    }
  }

  /** The inductive step of `UniqueSpec`. */
  lemma UniqueStep<T, K>(init: seq<T>, last: T, key: T -> K, d: seq<T>)
    requires DistinctKeys(d, key)
    requires forall i :: 0 <= i < |d| ==> d[i] in init
    requires forall i :: 0 <= i < |init| ==> HasKey(d, key, key(init[i]))
    requires IsSubsequence(d, init)
    ensures var xs, r := init + [last], if HasKey(d, key, key(last)) then d else d + [last];
      DistinctKeys(r, key) &&
      (forall i :: 0 <= i < |r| ==> r[i] in xs) &&
      (forall i :: 0 <= i < |xs| ==> HasKey(r, key, key(xs[i]))) &&
      IsSubsequence(r, xs)
  {
    if HasKey(d, key, key(last)) {
      UniqueStepSkip(init, last, key, d);
    } else {
      UniqueStepAppend(init, last, key, d);
    }
  }

  lemma UniqueStepSkip<T, K>(init: seq<T>, last: T, key: T -> K, d: seq<T>)
    requires forall i :: 0 <= i < |d| ==> d[i] in init
    requires forall i :: 0 <= i < |init| ==> HasKey(d, key, key(init[i]))
    requires IsSubsequence(d, init)
    requires HasKey(d, key, key(last))
    ensures var xs := init + [last];
      (forall i :: 0 <= i < |d| ==> d[i] in xs) &&
      (forall i :: 0 <= i < |xs| ==> HasKey(d, key, key(xs[i]))) &&
      IsSubsequence(d, xs)
  {
    var xs := init + [last];
    SubsequenceExtend(d, init, last);
    assert forall i :: 0 <= i < |init| ==> xs[i] == init[i];
  }

  lemma UniqueStepAppend<T, K>(init: seq<T>, last: T, key: T -> K, d: seq<T>)
    requires DistinctKeys(d, key)
    requires forall i :: 0 <= i < |d| ==> d[i] in init
    requires forall i :: 0 <= i < |init| ==> HasKey(d, key, key(init[i]))
    requires IsSubsequence(d, init)
    requires !HasKey(d, key, key(last))
    ensures var xs, r := init + [last], d + [last];
      DistinctKeys(r, key) &&
      (forall i :: 0 <= i < |r| ==> r[i] in xs) &&
      (forall i :: 0 <= i < |xs| ==> HasKey(r, key, key(xs[i]))) &&
      IsSubsequence(r, xs)
  {
    var xs, r := init + [last], d + [last];
    forall i, j | 0 <= i < j < |r| ensures key(r[i]) != key(r[j]) {
      if j == |d| {
        assert r[i] == d[i];
      }
    }
    forall i | 0 <= i < |r| ensures r[i] in xs {
      if i < |d| {
        assert r[i] == d[i];
      }
    }
    forall i | 0 <= i < |xs| ensures HasKey(r, key, key(xs[i])) {
      if i < |init| {
        assert xs[i] == init[i];
        var j :| 0 <= j < |d| && key(d[j]) == key(init[i]);
        assert r[j] == d[j];
      } else {
        assert r[|d|] == last;
      }
    }
    assert xs[..|xs| - 1] == init;
    assert r[..|r| - 1] == d;
  }

  /** One step of `Unique`: the last element is appended unless its key is
      already present. */
  lemma UniqueLast<T, K>(xs: seq<T>, key: T -> K)
    requires xs != []
    ensures var u := Unique(xs[..|xs| - 1], key);
      Unique(xs, key) == if HasKey(u, key, key(xs[|xs| - 1])) then u else u + [xs[|xs| - 1]]
  {
  }

  /** De-duplication loses no key and invents none. */
  lemma UniqueHasKey<T, K>(xs: seq<T>, key: T -> K, k: K)
    ensures HasKey(Unique(xs, key), key, k) <==> HasKey(xs, key, k)
  {
    var r := Unique(xs, key);
    UniqueSpec(xs, key);
    if HasKey(r, key, k) {
      var i :| 0 <= i < |r| && key(r[i]) == k;
      var j :| 0 <= j < |xs| && xs[j] == r[i];
    }
    if HasKey(xs, key, k) {
      var j :| 0 <= j < |xs| && key(xs[j]) == k;
      assert HasKey(r, key, key(xs[j]));
    }
  }

  /** The elements kept from a prefix stay in front, in the same order:
      existing entries come first. */
  lemma {:induction false} UniquePrefix<T, K>(a: seq<T>, b: seq<T>, key: T -> K)
    ensures |Unique(a, key)| <= |Unique(a + b, key)|
    ensures Unique(a + b, key)[..|Unique(a, key)|] == Unique(a, key)
    decreases |b|
  {
    if b == [] {
      assert a + b == a;
    } else {
      var b', y := b[..|b| - 1], b[|b| - 1];
      UniquePrefix(a, b', key);
      assert (a + b)[..|a + b| - 1] == a + b';
      UniqueLast(a + b, key);
      var u := Unique(a + b', key);
      if Unique(a + b, key) != u {
        SnocKeepsPrefix(u, y, |Unique(a, key)|);
      }
    }
  }

  lemma SnocKeepsPrefix<T>(u: seq<T>, y: T, n: nat)
    requires n <= |u|
    ensures (u + [y])[..n] == u[..n]
  {
    assert forall i :: 0 <= i < n ==> (u + [y])[i] == u[i];
  }

  /** A sequence whose keys are already distinct is its own de-duplication. */
  lemma {:induction false} UniqueOfDistinct<T, K>(xs: seq<T>, key: T -> K)
    requires DistinctKeys(xs, key)
    ensures Unique(xs, key) == xs
    decreases |xs|
  {
    if xs != [] {
      var init, last := xs[..|xs| - 1], xs[|xs| - 1];
      assert xs == init + [last];
      assert DistinctKeys(init, key) by {
        forall i, j | 0 <= i < j < |init| ensures key(init[i]) != key(init[j]) {
          assert init[i] == xs[i] && init[j] == xs[j];
        }
      }
      UniqueOfDistinct(init, key);
      forall i | 0 <= i < |init| ensures key(init[i]) != key(last) {
        assert init[i] == xs[i];
      }
      assert !HasKey(init, key, key(last));
    }
  }

  /** Elements whose keys are already present add nothing. */
  lemma {:induction false} UniqueAbsorbs<T, K>(a: seq<T>, b: seq<T>, key: T -> K)
    requires forall i :: 0 <= i < |b| ==> HasKey(a, key, key(b[i]))
    ensures Unique(a + b, key) == Unique(a, key)
    decreases |b|
  {
    if b == [] {
      assert a + b == a;
    } else {
      var b', y := b[..|b| - 1], b[|b| - 1];
      UniqueAbsorbs(a, b', key);
      assert (a + b)[..|a + b| - 1] == a + b';
      UniqueHasKey(a, key, key(y));
      assert HasKey(Unique(a + b', key), key, key(y));
    }
  }

  /** `xs.findIndex(t => key(t) === k)`: the first index holding key `k`, or -1. */
  function FindIndex<T, K(==)>(xs: seq<T>, key: T -> K, k: K): (i: int)
    ensures -1 <= i < |xs|
    ensures 0 <= i ==> key(xs[i]) == k && forall j :: 0 <= j < i ==> key(xs[j]) != k
    ensures i == -1 <==> !HasKey(xs, key, k)
    decreases |xs|
  {
    if xs == [] then -1
    else if key(xs[0]) == k then 0
    else
      var j := FindIndex(xs[1..], key, k);
      if j == -1 then
        assert forall i :: 1 <= i < |xs| ==> xs[i] == xs[1..][i - 1];
        -1
      else
        assert forall i :: 1 <= i < |xs| ==> xs[i] == xs[1..][i - 1];
        j + 1
  }

  /** Appending an element leaves an existing first match where it was, and
      becomes the first match when there was none. */
  lemma FindIndexAppend<T, K>(xs: seq<T>, x: T, key: T -> K, k: K)
    ensures HasKey(xs, key, k) ==> FindIndex(xs + [x], key, k) == FindIndex(xs, key, k)
    ensures !HasKey(xs, key, k) && key(x) == k ==> FindIndex(xs + [x], key, k) == |xs|
  {
    var f, g := FindIndex(xs, key, k), FindIndex(xs + [x], key, k);
    assert forall i :: 0 <= i < |xs| ==> (xs + [x])[i] == xs[i];
    HasKeyAppend(xs, x, key);
    if HasKey(xs, key, k) {
      assert key((xs + [x])[f]) == k;
      assert forall j :: 0 <= j < f ==> key((xs + [x])[j]) != k;
    }
  }

  /** `xs.filter((x, i, self) => i === self.findIndex(t => key(t) === key(x)))`
      over the first `n` indices: index `i` survives when no earlier element
      shares its key. */
  function KeepFirstOccurrences<T, K(==)>(xs: seq<T>, key: T -> K, n: nat): seq<T>
    requires n <= |xs|
    decreases n
  {
    if n == 0 then []
    else
      KeepFirstOccurrences(xs, key, n - 1)
      + (if FindIndex(xs, key, key(xs[n - 1])) == n - 1 then [xs[n - 1]] else [])
  }

  /** The `findIndex` filter keeps exactly what `Set` insertion keeps. */
  lemma {:induction false} KeepFirstOccurrencesIsUnique<T, K>(xs: seq<T>, key: T -> K, n: nat)
    requires n <= |xs|
    ensures KeepFirstOccurrences(xs, key, n) == Unique(xs[..n], key)
    decreases n
  {
    if n > 0 {
      var init, x := xs[..n - 1], xs[n - 1];
      KeepFirstOccurrencesIsUnique(xs, key, n - 1);
      var u := Unique(init, key);
      assert xs[..n][..n - 1] == init && xs[..n][n - 1] == x;
      UniqueLast(xs[..n], key);
      assert Unique(xs[..n], key) == if HasKey(u, key, key(x)) then u else u + [x];
      UniqueHasKey(init, key, key(x));
      assert (FindIndex(xs, key, key(x)) == n - 1) == !HasKey(init, key, key(x)) by {
        FirstIndexIsLast(xs, init, key, n);
      }
    }
  }

  lemma FirstIndexIsLast<T, K>(xs: seq<T>, init: seq<T>, key: T -> K, n: nat)
    requires 0 < n <= |xs| && init == xs[..n - 1]
    ensures (FindIndex(xs, key, key(xs[n - 1])) == n - 1) == !HasKey(init, key, key(xs[n - 1]))
  {
    var k := key(xs[n - 1]);
    var f := FindIndex(xs, key, k);
    assert 0 <= f <= n - 1;
    if HasKey(init, key, k) {
      var j :| 0 <= j < |init| && key(init[j]) == k;
      assert key(xs[j]) == k;
    } else {
      forall j | 0 <= j < n - 1 ensures key(xs[j]) != k {
        assert xs[j] == init[j];
      }
    }
  }
}
