/** Grouped money totals.

    Three places in the app accumulate amounts per key into a `Map` or a plain
    object: spending per category id, spending per category name and spending
    per date. Each of them is modelled as a list of (key, amount) entries; the
    value the accumulator holds for a key is `KeyTotal` of that list. */
module Ledger {

  datatype Entry<K> = Entry(key: K, amount: int)

  /** `m.get(k) || 0`: the value under `k`, or 0 when `k` is not a key. */
  function Get0<K>(m: map<K, int>, k: K): int
  {
    if k in m then m[k] else 0
  }

  /** Sum of every amount in the list. */
  function Total<K>(es: seq<Entry<K>>): int
  {
    if es == [] then 0 else Total(es[..|es| - 1]) + es[|es| - 1].amount
  }

  /** Sum of the amounts filed under key `k`. */
  function KeyTotal<K(==)>(es: seq<Entry<K>>, k: K): int
  {
    if es == [] then 0
    else KeyTotal(es[..|es| - 1], k) + (if es[|es| - 1].key == k then es[|es| - 1].amount else 0)
  }

  /** The keys that occur in the list. */
  function KeysOf<K>(es: seq<Entry<K>>): (ks: set<K>)
    ensures forall i :: 0 <= i < |es| ==> es[i].key in ks
    ensures forall k :: k in ks ==> exists i :: 0 <= i < |es| && es[i].key == k
  {
    set e | e in es :: e.key
  }

  predicate NoDup<K(==)>(ks: seq<K>)
  {
    forall i, j :: 0 <= i < j < |ks| ==> ks[i] != ks[j]
  }

  /** Sum of the per-key totals over a list of keys. */
  function SumKeyTotals<K(==)>(es: seq<Entry<K>>, ks: seq<K>): int
  {
    if ks == [] then 0 else KeyTotal(es, ks[0]) + SumKeyTotals(es, ks[1..])
  }

  /** Sum of the values a map holds under a list of its keys. */
  function SumValues<K>(m: map<K, int>, ks: seq<K>): int
    requires forall i :: 0 <= i < |ks| ==> ks[i] in m
  {
    if ks == [] then 0 else m[ks[0]] + SumValues(m, ks[1..])
  }

  /** Appending an entry adds its amount to its own key and to no other. */
  lemma KeyTotalSnoc<K>(es: seq<Entry<K>>, e: Entry<K>, k: K)
    ensures KeyTotal(es + [e], k) == KeyTotal(es, k) + (if e.key == k then e.amount else 0)
    ensures Total(es + [e]) == Total(es) + e.amount
  {
    assert (es + [e])[..|es|] == es;
  }

  /** A key that never occurs has total 0. */
  lemma {:induction false} KeyTotalAbsent<K>(es: seq<Entry<K>>, k: K)
    requires k !in KeysOf(es)
    ensures KeyTotal(es, k) == 0
  {
    if es != [] {
      var init := es[..|es| - 1];
      assert KeysOf(init) <= KeysOf(es);
      KeyTotalAbsent(init, k);
    }
  }

  /** Appending an entry raises the sum over a duplicate-free key list by that
      entry's amount exactly when its key is in the list. */
  lemma {:induction false} SumKeyTotalsSnoc<K>(es: seq<Entry<K>>, e: Entry<K>, ks: seq<K>)
    requires NoDup(ks)
    ensures SumKeyTotals(es + [e], ks) == SumKeyTotals(es, ks) + (if e.key in ks then e.amount else 0)
  {
    if ks != [] {
      KeyTotalSnoc(es, e, ks[0]);
      assert NoDup(ks[1..]);
      SumKeyTotalsSnoc(es, e, ks[1..]);
      assert e.key in ks <==> e.key == ks[0] || e.key in ks[1..];
      if e.key == ks[0] {
        assert e.key !in ks[1..];
      }
    }
  }

  /** Splitting by key loses and double-counts nothing: summing the per-key
      totals over a duplicate-free list holding every key gives the total. */
  lemma {:induction false} PartitionTotal<K>(es: seq<Entry<K>>, ks: seq<K>)
    requires NoDup(ks)
    requires forall k :: k in KeysOf(es) ==> k in ks
    ensures SumKeyTotals(es, ks) == Total(es)
  {
    if es == [] {
      ZeroSum(es, ks);
    } else {
      var init, last := es[..|es| - 1], es[|es| - 1];
      assert es == init + [last];
      assert KeysOf(init) <= KeysOf(es);
      PartitionTotal(init, ks);
      SumKeyTotalsSnoc(init, last, ks);
      KeyTotalSnoc(init, last, last.key);
    }
  }

  lemma {:induction false} ZeroSum<K>(es: seq<Entry<K>>, ks: seq<K>)
    requires es == []
    ensures SumKeyTotals(es, ks) == 0
  {
    if ks != [] {
      ZeroSum(es, ks[1..]);
    }
  }

  /** A map that holds `KeyTotal` under each of its keys, and has every key of
      the entries among them, holds values that add up to `Total`. */
  lemma {:induction false} MapTotal<K>(m: map<K, int>, es: seq<Entry<K>>, ks: seq<K>)
    requires NoDup(ks)
    requires forall k :: k in m <==> k in ks
    requires KeysOf(es) <= m.Keys
    requires forall k :: k in m ==> m[k] == KeyTotal(es, k)
    ensures SumValues(m, ks) == Total(es)
  {
    SameSum(m, es, ks);
    PartitionTotal(es, ks);
  }

  lemma {:induction false} SameSum<K>(m: map<K, int>, es: seq<Entry<K>>, ks: seq<K>)
    requires forall i :: 0 <= i < |ks| ==> ks[i] in m && m[ks[i]] == KeyTotal(es, ks[i])
    ensures SumValues(m, ks) == SumKeyTotals(es, ks)
  {
    if ks != [] {
      SameSum(m, es, ks[1..]);
    }
  }

  /** `m` holds, under the seeded keys and every key of `entries`, that key's
      total, and has no other key. */
  ghost predicate Accumulated<K>(m: map<K, int>, seeded: set<K>, entries: seq<Entry<K>>)
  {
    && m.Keys == seeded + KeysOf(entries)
    && forall k :: k in m ==> m[k] == KeyTotal(entries, k)
  }

  /** One accumulation step `m.set(k, (m.get(k) || 0) + amount)` keeps the map
      equal to the per-key totals of the entries seen so far. */
  lemma AccumulateStep<K>(m: map<K, int>, seeded: set<K>, before: seq<Entry<K>>, e: Entry<K>)
    requires Accumulated(m, seeded, before)
    ensures Accumulated(m[e.key := Get0(m, e.key) + e.amount], seeded, before + [e])
  {
    var m' := m[e.key := Get0(m, e.key) + e.amount];
    if e.key !in m {
      KeyTotalAbsent(before, e.key);
    }
    KeysOfSnoc(before, e);
    forall k | k in m' ensures m'[k] == KeyTotal(before + [e], k) {
      KeyTotalSnoc(before, e, k);
    }
  }

  /** The map the accumulating loops end with: `m` with each entry in turn
      added to its key's value. */
  function Fold<K>(m: map<K, int>, es: seq<Entry<K>>): map<K, int>
  {
    if es == [] then m
    else
      var prev, e := Fold(m, es[..|es| - 1]), es[|es| - 1];
      prev[e.key := Get0(prev, e.key) + e.amount]
  }

  lemma FoldSnoc<K>(m: map<K, int>, es: seq<Entry<K>>, e: Entry<K>)
    ensures Fold(m, es + [e]) == Fold(m, es)[e.key := Get0(Fold(m, es), e.key) + e.amount]
  {
    assert (es + [e])[..|es|] == es;
  }

  /** Folding the entries into a map of zeros under the seeded keys gives
      every key its total. */
  lemma {:induction false} FoldAccumulates<K>(m: map<K, int>, seeded: set<K>, es: seq<Entry<K>>)
    requires Accumulated(m, seeded, [])
    ensures Accumulated(Fold(m, es), seeded, es)
  {
    if es != [] {
      var init, e := es[..|es| - 1], es[|es| - 1];
      FoldAccumulates(m, seeded, init);
      AccumulateStep(Fold(m, init), seeded, init, e);
      assert init + [e] == es;
    }
  }

  lemma KeysOfSnoc<K>(es: seq<Entry<K>>, e: Entry<K>)
    ensures KeysOf(es + [e]) == KeysOf(es) + {e.key}
  {
    assert forall x :: x in es + [e] <==> x in es || x == e;
  }
}
