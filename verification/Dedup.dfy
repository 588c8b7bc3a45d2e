/** Keeping the first of every group of alike elements, in order: what the bot does with
    extracted words and with quiz distractors. */
module Dedup {

  function Min(a: int, b: int): int {
    if a < b then a else b
  }

  lemma Append<T>(xs: seq<T>, ys: seq<T>, z: T)
    ensures xs + ys + [z] == xs + (ys + [z])
  {
  }

  /** The element at `i` has a key that is neither seen before nor the key of an earlier one. */
  ghost predicate IsFirst<T, K>(xs: seq<T>, key: T -> K, seen: set<K>, i: nat)
    requires i < |xs|
  {
    key(xs[i]) !in seen && forall j | 0 <= j < i :: key(xs[j]) != key(xs[i])
  }

  /** The elements of `xs` that are first of their key. */
  ghost function Firsts<T, K>(xs: seq<T>, key: T -> K, seen: set<K>): seq<T> {
    if xs == [] then []
    else
      var n := |xs| - 1;
      Firsts(xs[..n], key, seen) + if IsFirst(xs, key, seen, n) then [xs[n]] else []
  }

  ghost function Keys<T, K>(xs: seq<T>, key: T -> K): set<K> {
    set x | x in xs :: key(x)
  }

  /** No two have the same key, none has one of the keys seen before, and no key is lost. */
  ghost predicate AreFirsts<T, K>(r: seq<T>, xs: seq<T>, key: T -> K, seen: set<K>) {
    && (forall i, j | 0 <= i < j < |r| :: key(r[i]) != key(r[j]))
    && (forall i | 0 <= i < |r| :: key(r[i]) !in seen && r[i] in xs)
    && Keys(r, key) == Keys(xs, key) - seen
  }

  lemma AreFirstsMore<T, K>(r: seq<T>, xs: seq<T>, key: T -> K, seen: set<K>, x: T)
    requires AreFirsts(r, xs, key, seen)
    ensures AreFirsts(if key(x) in seen + Keys(xs, key) then r else r + [x], xs + [x], key, seen)
  {
    KeysOfConcat(xs, [x], key);
    assert Keys([x], key) == {key(x)} by {
      assert x in [x];
    }
    if key(x) !in seen + Keys(xs, key) {
      KeysOfConcat(r, [x], key);
      forall i | 0 <= i < |r|
        ensures key(r[i]) != key(x)
      {
        assert key(r[i]) in Keys(xs, key);
      }
    }
  }

  lemma {:induction false} FirstsMeaning<T, K>(xs: seq<T>, key: T -> K, seen: set<K>)
    ensures AreFirsts(Firsts(xs, key, seen), xs, key, seen)
  {
    if xs == [] {
      NoFirsts(key, seen);
    } else {
      var before, x := xs[..|xs| - 1], xs[|xs| - 1];
      FirstsMeaning(before, key, seen);
      OneFirstMore(before, key, seen, x);
      assert before + [x] == xs;
    }
  }

  lemma NoFirsts<T, K>(key: T -> K, seen: set<K>)
    ensures AreFirsts([], [], key, seen)
  {
  }

  lemma OneFirstMore<T, K>(xs: seq<T>, key: T -> K, seen: set<K>, x: T)
    requires AreFirsts(Firsts(xs, key, seen), xs, key, seen)
    ensures AreFirsts(Firsts(xs + [x], key, seen), xs + [x], key, seen)
  {
    AreFirstsMore(Firsts(xs, key, seen), xs, key, seen, x);
    FirstsSnoc(xs, key, seen, x);
  }

  lemma FirstsSnoc<T, K>(xs: seq<T>, key: T -> K, seen: set<K>, x: T)
    ensures var r := Firsts(xs, key, seen);
            Firsts(xs + [x], key, seen) == if key(x) in seen + Keys(xs, key) then r else r + [x]
  {
    FirstsStep(xs + [x], |xs|, key, seen);
    assert (xs + [x])[..|xs|] == xs && (xs + [x])[..|xs| + 1] == xs + [x];
  }

  lemma KeysOfConcat<T, K>(xs: seq<T>, ys: seq<T>, key: T -> K)
    ensures Keys(xs + ys, key) == Keys(xs, key) + Keys(ys, key)
  {
  }

  /** More elements only add to the firsts. */
  lemma {:induction false} FirstsGrow<T, K>(xs: seq<T>, n: nat, key: T -> K, seen: set<K>)
    requires n <= |xs|
    ensures Firsts(xs[..n], key, seen) <= Firsts(xs, key, seen)
    decreases |xs|
  {
    if n == |xs| {
      assert xs[..n] == xs;
    } else {
      FirstsGrow(xs[..|xs| - 1], n, key, seen);
      assert xs[..|xs| - 1][..n] == xs[..n];
    }
  }

  /** One step of a loop that keeps the keys it has seen. */
  lemma FirstsStep<T, K>(xs: seq<T>, i: nat, key: T -> K, seen: set<K>)
    requires i < |xs|
    ensures Firsts(xs[..i + 1], key, seen)
            == Firsts(xs[..i], key, seen)
               + if key(xs[i]) !in seen + Keys(xs[..i], key) then [xs[i]] else []
    ensures Keys(xs[..i + 1], key) == Keys(xs[..i], key) + {key(xs[i])}
  {
    var upTo := xs[..i + 1];
    assert upTo[..i] == xs[..i] && upTo == xs[..i] + [xs[i]];
    assert IsFirst(upTo, key, seen, i) <==> key(xs[i]) !in seen + Keys(xs[..i], key) by {
      assert forall j | 0 <= j < i :: upTo[j] == xs[..i][j];
    }
  }

  /** The same, for a loop whose one set holds the keys it started from and those it has met. */
  lemma FirstsStepSeen<T, K>(xs: seq<T>, i: nat, key: T -> K, before: set<K>, seen: set<K>)
    requires i < |xs| && seen == before + Keys(xs[..i], key)
    ensures Firsts(xs[..i + 1], key, before)
            == Firsts(xs[..i], key, before) + if key(xs[i]) in seen then [] else [xs[i]]
    ensures before + Keys(xs[..i + 1], key) == if key(xs[i]) in seen then seen else seen + {key(xs[i])}
  {
    FirstsStep(xs, i, key, before);
  }

  /** The firsts of two lists in a row: those of the second must also be new to the first. */
  lemma {:induction false} FirstsOfConcat<T, K>(xs: seq<T>, ys: seq<T>, key: T -> K, seen: set<K>)
    ensures Firsts(xs + ys, key, seen) == Firsts(xs, key, seen) + Firsts(ys, key, seen + Keys(xs, key))
    decreases |ys|
  {
    var all, n := xs + ys, |ys| - 1;
    if ys == [] {
      assert all == xs;
    } else {
      FirstsOfConcat(xs, ys[..n], key, seen);
      assert all[..|all| - 1] == xs + ys[..n];
      assert IsFirst(all, key, seen, |all| - 1) <==> IsFirst(ys, key, seen + Keys(xs, key), n) by {
        assert forall j | 0 <= j < |xs| :: all[j] == xs[j];
        assert forall j | 0 <= j < |ys| :: all[|xs| + j] == ys[j];
      }
    }
  }
}
