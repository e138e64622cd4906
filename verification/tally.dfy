/** Insertion-ordered counters: Python's `defaultdict(int)` / `Counter` used as
    `d[k] += 1`, and the `d[k] = d.get(k, 0) + 1` idiom. A tally is an
    association list whose keys appear in first-increment order. */
module Tally {

  datatype Entry<K> = Entry(key: K, count: nat)

  type Tally<K> = seq<Entry<K>>

  /** The keys, as a set. */
  function KeySet<K>(t: Tally<K>): set<K>
    decreases |t|
  {
    if t == [] then {} else {t[0].key} + KeySet(t[1..])
  }

  /** No key is listed twice (a dictionary). */
  predicate DistinctKeys<K(==)>(t: Tally<K>)
    decreases |t|
  {
    t == [] || (t[0].key !in KeySet(t[1..]) && DistinctKeys(t[1..]))
  }

  /** Every listed key was incremented at least once. */
  predicate Positive<K>(t: Tally<K>) {
    forall i :: 0 <= i < |t| ==> t[i].count >= 1
  }

  /** `d[k]` of a defaultdict: the count of `k`, zero when absent. */
  function Get<K(==)>(t: Tally<K>, k: K): nat
    decreases |t|
  {
    if t == [] then 0
    else if t[0].key == k then t[0].count
    else Get(t[1..], k)
  }

  /** Sum of all counts (`sum(d.values())`). */
  function Sum<K>(t: Tally<K>): nat
    decreases |t|
  {
    if t == [] then 0 else t[0].count + Sum(t[1..])
  }

  /** `d[k] += 1`. */
  function Bump<K(==)>(t: Tally<K>, k: K): (r: Tally<K>)
    decreases |t|
  {
    if t == [] then [Entry(k, 1)]
    else if t[0].key == k then [Entry(k, t[0].count + 1)] + t[1..]
    else [t[0]] + Bump(t[1..], k)
  }

  /** One increment raises the count of `k` by one and leaves every other
      count alone. */
  lemma {:induction false} BumpGet<K>(t: Tally<K>, k: K, k': K)
    ensures Get(Bump(t, k), k') == Get(t, k') + (if k' == k then 1 else 0)
    decreases |t|
  {
    if t != [] && t[0].key != k {
      assert Bump(t, k)[1..] == Bump(t[1..], k);
      BumpGet(t[1..], k, k');
    }
  }

  /** One increment raises the total by one. */
  lemma {:induction false} BumpSum<K>(t: Tally<K>, k: K)
    ensures Sum(Bump(t, k)) == Sum(t) + 1
    decreases |t|
  {
    if t != [] {
      if t[0].key == k {
        assert Bump(t, k)[1..] == t[1..];
      } else {
        assert Bump(t, k)[1..] == Bump(t[1..], k);
        BumpSum(t[1..], k);
      }
    }
  }

  /** One increment adds `k` to the key set and keeps keys distinct and counts
      positive. */
  lemma {:induction false} BumpKeys<K>(t: Tally<K>, k: K)
    ensures KeySet(Bump(t, k)) == KeySet(t) + {k}
    ensures DistinctKeys(t) ==> DistinctKeys(Bump(t, k))
    ensures Positive(t) ==> Positive(Bump(t, k))
    decreases |t|
  {
    if t != [] {
      if t[0].key == k {
        assert Bump(t, k)[1..] == t[1..];
      } else {
        assert Bump(t, k)[1..] == Bump(t[1..], k);
        BumpKeys(t[1..], k);
      }
    }
  }

  /** How many times `k` occurs in `xs`. */
  function Occurrences<K(==)>(xs: seq<K>, k: K): nat
    decreases |xs|
  {
    if xs == [] then 0
    else Occurrences(xs[..|xs| - 1], k) + (if xs[|xs| - 1] == k then 1 else 0)
  }

  /** The counter obtained by incrementing the keys `xs` one after another. */
  function TallyOf<K(==)>(xs: seq<K>): Tally<K>
    decreases |xs|
  {
    if xs == [] then [] else Bump(TallyOf(xs[..|xs| - 1]), xs[|xs| - 1])
  }

  /** Counting a sequence of keys: each key's count is its number of
      occurrences, the counts sum to the number of keys, the keys are exactly
      those that occur, listed once each, with positive counts. */
  lemma {:induction false} TallyOfCounts<K>(xs: seq<K>)
    ensures DistinctKeys(TallyOf(xs)) && Positive(TallyOf(xs))
    ensures forall k :: Get(TallyOf(xs), k) == Occurrences(xs, k)
    ensures Sum(TallyOf(xs)) == |xs|
    ensures KeySet(TallyOf(xs)) == set x | x in xs
    decreases |xs|
  {
    if xs != [] {
      var init := xs[..|xs| - 1];
      var last := xs[|xs| - 1];
      assert xs == init + [last];
      TallyOfCounts(init);
      BumpSum(TallyOf(init), last);
      BumpKeys(TallyOf(init), last);
      forall k ensures Get(TallyOf(xs), k) == Occurrences(xs, k) {
        BumpGet(TallyOf(init), last, k);
      }
    }
  }

  /** Occurrence counting distributes over concatenation. */
  lemma {:induction false} OccurrencesAppend<K>(xs: seq<K>, ys: seq<K>, k: K)
    ensures Occurrences(xs + ys, k) == Occurrences(xs, k) + Occurrences(ys, k)
    decreases |ys|
  {
    if ys == [] {
      assert xs + ys == xs;
    } else {
      var ys' := ys[..|ys| - 1];
      assert (xs + ys)[..|xs + ys| - 1] == xs + ys';
      OccurrencesAppend(xs, ys', k);
    }
  }

  /** A key that does not occur is counted zero times. */
  lemma {:induction false} OccurrencesAbsent<K>(xs: seq<K>, k: K)
    requires k !in xs
    ensures Occurrences(xs, k) == 0
    decreases |xs|
  {
    if xs != [] {
      assert forall x :: x in xs[..|xs| - 1] ==> x in xs;
      OccurrencesAbsent(xs[..|xs| - 1], k);
    }
  }

  /** In a sequence without repeats, a key occurs once or not at all. */
  lemma {:induction false} OccurrencesDistinct<K>(xs: seq<K>, k: K)
    requires forall i, j :: 0 <= i < j < |xs| ==> xs[i] != xs[j]
    ensures Occurrences(xs, k) == if k in xs then 1 else 0
    decreases |xs|
  {
    if xs != [] {
      var init := xs[..|xs| - 1];
      OccurrencesDistinct(init, k);
      assert xs == init + [xs[|xs| - 1]];
      if xs[|xs| - 1] == k {
        assert k !in init;
      }
    }
  }
}
