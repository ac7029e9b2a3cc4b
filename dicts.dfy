/**
 * Python dictionaries as ordered association lists.
 *
 * A Python `dict` remembers insertion order; assigning to a key that is
 * already present replaces the value but keeps the key's position, and
 * assigning a new key appends it.  `Set` below is exactly that assignment,
 * and `Distinct` is the invariant that every key occurs once.
 */
module Dicts {
  import opened Results

  type Dict<K, V> = seq<(K, V)>

  /** The keys, in insertion order (`list(d.keys())`). */
  function Keys<K, V>(d: Dict<K, V>): (ks: seq<K>)
    ensures |ks| == |d|
    ensures forall i :: 0 <= i < |d| ==> ks[i] == d[i].0
  {
    if |d| == 0 then [] else [d[0].0] + Keys(d[1..])
  }

  /** The values, in insertion order (`list(d.values())`). */
  function Values<K, V>(d: Dict<K, V>): (vs: seq<V>)
    ensures |vs| == |d|
    ensures forall i :: 0 <= i < |d| ==> vs[i] == d[i].1
  {
    if |d| == 0 then [] else [d[0].1] + Values(d[1..])
  }

  lemma KeysCons<K, V>(p: (K, V), d: Dict<K, V>)
    ensures Keys([p] + d) == [p.0] + Keys(d)
  {
    assert ([p] + d)[1..] == d;
  }

  /** Every key occurs once: what makes a sequence of pairs a dict. */
  predicate Distinct<K(==), V>(d: Dict<K, V>) {
    |d| == 0 || (d[0].0 !in Keys(d[1..]) && Distinct(d[1..]))
  }

  /** `d.get(k)`: the value stored under `k`, or None. */
  function Get<K(==), V>(d: Dict<K, V>, k: K): Option<V> {
    if |d| == 0 then None
    else if d[0].0 == k then Some(d[0].1)
    else Get(d[1..], k)
  }

  /** `d.get(k)` finds a value exactly when `k` is a key, and that value is
      stored under `k` in `d`. */
  lemma {:induction false} GetLaws<K, V>(d: Dict<K, V>, k: K)
    ensures Get(d, k).None? <==> k !in Keys(d)
    ensures Get(d, k).Some? ==> (k, Get(d, k).value) in d
  {
    if |d| > 0 {
      KeysCons(d[0], d[1..]);
      assert d == [d[0]] + d[1..];
      GetLaws(d[1..], k);
    }
  }

  /** In a dict, the pair at position `i` is what `Get` finds under its key. */
  lemma {:induction false} GetAt<K, V>(d: Dict<K, V>, i: nat)
    requires Distinct(d) && i < |d|
    ensures Get(d, d[i].0) == Some(d[i].1)
  {
    if i > 0 {
      assert d[i].0 == Keys(d[1..])[i - 1];
      GetAt(d[1..], i - 1);
    }
  }

  /** `d[k] = v`: replace in place when `k` is present, otherwise append. */
  function Set<K(==), V>(d: Dict<K, V>, k: K, v: V): Dict<K, V> {
    if |d| == 0 then [(k, v)]
    else if d[0].0 == k then [(k, v)] + d[1..]
    else [d[0]] + Set(d[1..], k, v)
  }

  /** Assigning a present key keeps the key order; a new key goes last. */
  lemma {:induction false} SetKeys<K, V>(d: Dict<K, V>, k: K, v: V)
    ensures k in Keys(d) ==> Keys(Set(d, k, v)) == Keys(d)
    ensures k !in Keys(d) ==> Keys(Set(d, k, v)) == Keys(d) + [k]
  {
    if |d| > 0 {
      KeysCons(d[0], d[1..]);
      if d[0].0 == k {
        KeysCons((k, v), d[1..]);
      } else {
        SetKeys(d[1..], k, v);
        KeysCons(d[0], Set(d[1..], k, v));
      }
    }
  }

  /** After assigning `k`, `k` holds the new value. */
  lemma {:induction false} SetGet<K, V>(d: Dict<K, V>, k: K, v: V)
    ensures Get(Set(d, k, v), k) == Some(v)
  {
    if |d| > 0 && d[0].0 != k {
      SetGet(d[1..], k, v);
      assert Set(d, k, v)[1..] == Set(d[1..], k, v);
    }
  }

  /** Assigning `k` leaves every other key's value alone. */
  lemma {:induction false} SetOther<K, V>(d: Dict<K, V>, k: K, v: V, k': K)
    requires k' != k
    ensures Get(Set(d, k, v), k') == Get(d, k')
  {
    if |d| > 0 && d[0].0 != k {
      SetOther(d[1..], k, v, k');
      assert Set(d, k, v)[1..] == Set(d[1..], k, v);
    } else if |d| > 0 {
      assert Set(d, k, v)[1..] == d[1..];
    }
  }

  /** Assigning a key twice is assigning it the second value. */
  lemma {:induction false} SetTwice<K, V>(d: Dict<K, V>, k: K, v: V, w: V)
    ensures Set(Set(d, k, v), k, w) == Set(d, k, w)
  {
    if |d| > 0 && d[0].0 != k {
      SetTwice(d[1..], k, v, w);
      assert Set(d, k, v)[1..] == Set(d[1..], k, v);
    } else if |d| > 0 {
      assert Set(d, k, v)[1..] == d[1..];
    }
  }

  /** Assigning keeps the keys distinct. */
  lemma {:induction false} SetDistinct<K, V>(d: Dict<K, V>, k: K, v: V)
    requires Distinct(d)
    ensures Distinct(Set(d, k, v))
  {
    if |d| > 0 && d[0].0 != k {
      SetDistinct(d[1..], k, v);
      SetKeys(d[1..], k, v);
      assert Set(d, k, v)[1..] == Set(d[1..], k, v);
    } else if |d| > 0 {
      assert Set(d, k, v)[1..] == d[1..];
    }
  }

  /** Assigning adds no pair other than the one assigned. */
  lemma {:induction false} SetMembers<K, V>(d: Dict<K, V>, k: K, v: V, p: (K, V))
    requires p in Set(d, k, v)
    ensures p in d || p == (k, v)
  {
    if |d| > 0 && d[0].0 != k && p != d[0] {
      assert p in Set(d[1..], k, v);
      SetMembers(d[1..], k, v, p);
    }
  }

  /** A run of assignments adds no pair other than the ones assigned. */
  lemma {:induction false} SetAllMembers<K, V>(d: Dict<K, V>, es: seq<(K, V)>, p: (K, V))
    requires p in SetAll(d, es)
    ensures p in d || p in es
  {
    if |es| > 0 {
      var init := es[..|es| - 1];
      SetMembers(SetAll(d, init), es[|es| - 1].0, es[|es| - 1].1, p);
      if p != es[|es| - 1] {
        SetAllMembers(d, init, p);
        if p in init {
          assert p in es;
        }
      }
    }
  }

  /** `d.pop(k)` for a present key, and nothing for an absent one. */
  function Remove<K(==,!new), V>(d: Dict<K, V>, k: K): (r: Dict<K, V>)
    requires Distinct(d)
    ensures Distinct(r)
    ensures Get(r, k) == None
    ensures forall k' :: k' != k ==> Get(r, k') == Get(d, k')
    ensures forall k' :: k' in Keys(r) <==> k' in Keys(d) && k' != k
  {
    if |d| == 0 then []
    else if d[0].0 == k then GetLaws(d[1..], k); d[1..]
    else [d[0]] + Remove(d[1..], k)
  }

  /** The value the last pair with key `k` in `es` carries, if any. */
  function LastFor<K(==), V>(es: seq<(K, V)>, k: K): Option<V> {
    if |es| == 0 then None
    else if es[|es| - 1].0 == k then Some(es[|es| - 1].1)
    else LastFor(es[..|es| - 1], k)
  }

  /** Assigning the pairs of `es` one after another to `d`. */
  function SetAll<K(==), V>(d: Dict<K, V>, es: seq<(K, V)>): Dict<K, V> {
    if |es| == 0 then d
    else Set(SetAll(d, es[..|es| - 1]), es[|es| - 1].0, es[|es| - 1].1)
  }

  /** After a run of assignments the last one to a key wins. */
  lemma {:induction false} SetAllLastWins<K, V>(d: Dict<K, V>, es: seq<(K, V)>, k: K)
    ensures Get(SetAll(d, es), k) == (if LastFor(es, k).Some? then LastFor(es, k) else Get(d, k))
  {
    if |es| > 0 {
      var last := es[|es| - 1];
      SetAllLastWins(d, es[..|es| - 1], k);
      if last.0 != k {
        SetOther(SetAll(d, es[..|es| - 1]), last.0, last.1, k);
      } else {
        SetGet(SetAll(d, es[..|es| - 1]), last.0, last.1);
      }
    }
  }

  lemma {:induction false} SetAllDistinct<K, V>(d: Dict<K, V>, es: seq<(K, V)>)
    requires Distinct(d)
    ensures Distinct(SetAll(d, es))
  {
    if |es| > 0 {
      SetAllDistinct(d, es[..|es| - 1]);
      SetDistinct(SetAll(d, es[..|es| - 1]), es[|es| - 1].0, es[|es| - 1].1);
    }
  }

  /** One more assignment at the end of a run. */
  lemma SetAllSnoc<K, V>(d: Dict<K, V>, es: seq<(K, V)>, e: (K, V))
    ensures SetAll(d, es + [e]) == Set(SetAll(d, es), e.0, e.1)
  {
    assert (es + [e])[..|es|] == es;
  }

  /** After a run of assignments the keys are the old ones and the assigned ones. */
  lemma {:induction false} SetAllKeysIn<K, V>(d: Dict<K, V>, es: seq<(K, V)>)
    ensures forall k :: k in Keys(SetAll(d, es)) <==> k in Keys(d) || k in Keys(es)
  {
    if |es| > 0 {
      var init, last := es[..|es| - 1], es[|es| - 1];
      SetAllKeysIn(d, init);
      SetKeys(SetAll(d, init), last.0, last.1);
      assert es == init + [last];
      assert Keys(es)[|es| - 1] == last.0;
      forall k | k in Keys(init)
        ensures k in Keys(es)
      {
        var i :| 0 <= i < |init| && Keys(init)[i] == k;
        assert Keys(es)[i] == k;
      }
      forall k | k in Keys(es) && k != last.0
        ensures k in Keys(init)
      {
        var i :| 0 <= i < |es| && Keys(es)[i] == k;
        assert Keys(init)[i] == k;
      }
    }
  }

  /** The keys of `ks` in the order they first occur, each once. */
  function FirstOccurrences<K(==)>(ks: seq<K>): seq<K> {
    if |ks| == 0 then []
    else
      var seen := FirstOccurrences(ks[..|ks| - 1]);
      if ks[|ks| - 1] in seen then seen else seen + [ks[|ks| - 1]]
  }

  /** No key occurs twice. */
  predicate Unique<K(==)>(ks: seq<K>) {
    forall i, j :: 0 <= i < j < |ks| ==> ks[i] != ks[j]
  }

  lemma {:induction false} FirstOccurrencesIn<K>(ks: seq<K>, k: K)
    ensures k in FirstOccurrences(ks) <==> k in ks
  {
    if |ks| > 0 {
      var init := ks[..|ks| - 1];
      FirstOccurrencesIn(init, k);
      assert ks == init + [ks[|ks| - 1]];
    }
  }

  /** Keys that are already unique are kept as they are. */
  lemma {:induction false} FirstOccurrencesUnique<K>(ks: seq<K>)
    requires Unique(ks)
    ensures FirstOccurrences(ks) == ks
  {
    if |ks| > 0 {
      var init := ks[..|ks| - 1];
      FirstOccurrencesUnique(init);
      FirstOccurrencesIn(init, ks[|ks| - 1]);
      assert ks == init + [ks[|ks| - 1]];
    }
  }

  /** Assigning a run of pairs to an empty dict creates the keys in the order
      of their first assignment, each once, whatever is assigned later. */
  lemma {:induction false} SetAllKeysOrder<K, V>(es: seq<(K, V)>)
    ensures Keys(SetAll([], es)) == FirstOccurrences(Keys(es))
  {
    if |es| > 0 {
      var init, last := es[..|es| - 1], es[|es| - 1];
      SetAllKeysOrder(init);
      SetKeys(SetAll([], init), last.0, last.1);
      assert Keys(es)[..|es| - 1] == Keys(init);
    }
  }

  /** Assigning `xs` and then `ys` is assigning `xs + ys`. */
  lemma {:induction false} SetAllAppend<K, V>(d: Dict<K, V>, xs: seq<(K, V)>, ys: seq<(K, V)>)
    ensures SetAll(d, xs + ys) == SetAll(SetAll(d, xs), ys)
  {
    if |ys| > 0 {
      var init, last := ys[..|ys| - 1], ys[|ys| - 1];
      SetAllAppend(d, xs, init);
      assert (xs + ys)[..|xs + ys| - 1] == xs + init;
      assert (xs + ys)[|xs + ys| - 1] == last;
      assert SetAll(d, xs + ys) == Set(SetAll(d, xs + init), last.0, last.1);
    } else {
      assert xs + ys == xs;
    }
  }

  /** The pairs of `d` whose value satisfies `keep`, in order (a filtering dict comprehension). */
  function Filter<K(==,!new), V(!new)>(d: Dict<K, V>, keep: V -> bool): (r: Dict<K, V>)
    ensures |r| <= |d|
    ensures forall e :: e in r <==> e in d && keep(e.1)
    ensures forall k :: k in Keys(r) ==> k in Keys(d)
    ensures Distinct(d) ==> Distinct(r)
    ensures Distinct(d) ==> forall k :: Get(r, k) == (if Get(d, k).Some? && keep(Get(d, k).value) then Get(d, k) else None)
  {
    if |d| == 0 then []
    else if keep(d[0].1) then [d[0]] + Filter(d[1..], keep)
    else
      var rest := Filter(d[1..], keep);
      GetLaws(rest, d[0].0);
      rest
  }

  /** Filtering keeps the order of the entries it keeps: it filters the two
      parts of a dict separately and puts the results together. */
  lemma {:induction false} FilterAppend<K(!new), V(!new)>(a: Dict<K, V>, b: Dict<K, V>, keep: V -> bool)
    ensures Filter(a + b, keep) == Filter(a, keep) + Filter(b, keep)
  {
    if |a| > 0 {
      var ab := a + b;
      assert ab[0] == a[0] && ab[1..] == a[1..] + b;
      FilterAppend(a[1..], b, keep);
      var head: Dict<K, V> := if keep(a[0].1) then [a[0]] else [];
      assert Filter(ab, keep) == head + Filter(ab[1..], keep);
      assert Filter(a, keep) == head + Filter(a[1..], keep);
    } else {
      assert a + b == b;
    }
  }
}
