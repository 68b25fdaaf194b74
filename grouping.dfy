/**
 * Grouping a list into a dictionary of lists keyed by a string, the way the pages do with a
 * `forEach`/`reduce` that creates `acc[key] = []` on first sight and then pushes. The keys are
 * listed in the order they were first seen, as `Object.keys` lists non-numeric keys.
 */
module Grouping {
  import opened JsLib

  /** The members of group `k`: the elements whose key is `k`, in their original order. */
  function Keyed<T>(xs: seq<T>, key: T -> string, k: string): (r: seq<T>)
    ensures forall i :: 0 <= i < |r| ==> r[i] in xs && key(r[i]) == k
  {
    if xs == [] then []
    else
      var init := Keyed(xs[..|xs| - 1], key, k);
      if key(xs[|xs| - 1]) == k then init + [xs[|xs| - 1]] else init
  }

  /** The distinct keys of `xs`, in order of first appearance. */
  function DistinctKeys<T>(xs: seq<T>, key: T -> string): (ks: seq<string>)
    ensures forall i :: 0 <= i < |xs| ==> key(xs[i]) in ks
    ensures forall k :: k in ks ==> exists i :: 0 <= i < |xs| && key(xs[i]) == k
    ensures NoDuplicates(ks)
  {
    if xs == [] then []
    else
      var init := xs[..|xs| - 1];
      var ks := DistinctKeys(init, key);
      assert forall i :: 0 <= i < |init| ==> init[i] == xs[i];
      if key(xs[|xs| - 1]) in ks then ks else ks + [key(xs[|xs| - 1])]
  }

  /** A group is the list filtered by its key, so it keeps the elements' relative order. */
  lemma {:induction false} KeyedIsFilter<T>(xs: seq<T>, key: T -> string, k: string)
    ensures Keyed(xs, key, k) == Filter(xs, (x: T) => key(x) == k)
  {
    if xs != [] {
      KeyedIsFilter(xs[..|xs| - 1], key, k);
    }
  }

  /** `Keyed` with one more element at the end. */
  lemma KeyedSnoc<T>(xs: seq<T>, x: T, key: T -> string, k: string)
    ensures Keyed(xs + [x], key, k) == if key(x) == k then Keyed(xs, key, k) + [x] else Keyed(xs, key, k)
  {
    assert (xs + [x])[..|xs + [x]| - 1] == xs;
  }

  /** A key never seen has an empty group. */
  lemma KeyedAbsent<T>(xs: seq<T>, key: T -> string, k: string)
    requires k !in DistinctKeys(xs, key)
    ensures Keyed(xs, key, k) == []
  {
  }

  /** An element belongs to group `k` exactly when it is in the list and its key is `k`. */
  lemma {:induction false} KeyedMember<T>(xs: seq<T>, key: T -> string, k: string, x: T)
    ensures x in Keyed(xs, key, k) <==> x in xs && key(x) == k
  {
    if xs != [] {
      var init := xs[..|xs| - 1];
      KeyedMember(init, key, k, x);
      assert xs == init + [xs[|xs| - 1]];
    }
  }

  lemma DistinctKeysSnoc<T>(xs: seq<T>, x: T, key: T -> string)
    ensures DistinctKeys(xs + [x], key) ==
      if key(x) in DistinctKeys(xs, key) then DistinctKeys(xs, key) else DistinctKeys(xs, key) + [key(x)]
  {
    assert (xs + [x])[..|xs + [x]| - 1] == xs;
  }

  /** The keys of a prefix come first, in the same order: keys are listed by first appearance. */
  lemma {:induction false} DistinctKeysPrefix<T>(xs: seq<T>, key: T -> string, j: nat)
    requires j <= |xs|
    ensures DistinctKeys(xs[..j], key) <= DistinctKeys(xs, key)
    decreases |xs|
  {
    if j == |xs| {
      assert xs[..j] == xs;
    } else {
      var init := xs[..|xs| - 1];
      DistinctKeysPrefix(init, key, j);
      assert init[..j] == xs[..j];
      assert xs == init + [xs[|xs| - 1]];
      DistinctKeysSnoc(init, xs[|xs| - 1], key);
    }
  }

  /** `groups` and `order` are the groups and the key order of `done`. */
  ghost predicate Grouped<T>(done: seq<T>, key: T -> string, groups: map<string, seq<T>>, order: seq<string>) {
    && order == DistinctKeys(done, key)
    && (forall k :: k in groups <==> k in order)
    && (forall k :: k in groups ==> groups[k] == Keyed(done, key, k))
  }

  /**
   * Builds the groups with one pass, as the source does: a key seen for the first time gets a
   * new list (and a place in `order`), a key seen before has the element pushed to its list.
   */
  method GroupBy<T>(xs: seq<T>, key: T -> string) returns (groups: map<string, seq<T>>, order: seq<string>)
    ensures order == DistinctKeys(xs, key)
    ensures forall k :: k in groups <==> k in order
    ensures forall k :: k in groups ==> groups[k] == Keyed(xs, key, k)
  {
    groups := map[];
    order := [];
    var i := 0;
    while i < |xs|
      invariant 0 <= i <= |xs|
      invariant Grouped(xs[..i], key, groups, order)
    {
      var x := xs[i];
      var k := key(x);
      GroupStep(xs, i, key, groups, order);
      if k in groups {
        groups := groups[k := groups[k] + [x]];
      } else {
        groups := groups[k := [x]];
        order := order + [k];
      }
      i := i + 1;
    }
    assert xs[..|xs|] == xs;
  }

  /** One step of `GroupBy`: the groups and key order of a prefix become those of one more element. */
  lemma GroupStep<T>(xs: seq<T>, i: nat, key: T -> string, groups: map<string, seq<T>>, order: seq<string>)
    requires i < |xs| && Grouped(xs[..i], key, groups, order)
    ensures var k := key(xs[i]);
      k in groups ==> Grouped(xs[..i + 1], key, groups[k := groups[k] + [xs[i]]], order)
    ensures var k := key(xs[i]);
      k !in groups ==> Grouped(xs[..i + 1], key, groups[k := [xs[i]]], order + [k])
  {
    assert xs[..i + 1] == xs[..i] + [xs[i]];
    if key(xs[i]) in groups {
      GroupStepSeen(xs[..i], xs[i], key, groups, order);
    } else {
      GroupStepFirst(xs[..i], xs[i], key, groups, order);
    }
  }

  /** An element whose key was seen before is pushed onto that key's group. */
  lemma GroupStepSeen<T>(done: seq<T>, x: T, key: T -> string, groups: map<string, seq<T>>, order: seq<string>)
    requires Grouped(done, key, groups, order) && key(x) in groups
    ensures Grouped(done + [x], key, groups[key(x) := groups[key(x)] + [x]], order)
  {
    var k := key(x);
    var after := groups[k := groups[k] + [x]];
    DistinctKeysSnoc(done, x, key);
    forall k' | k' in after ensures after[k'] == Keyed(done + [x], key, k') {
      KeyedSnoc(done, x, key, k');
    }
  }

  /** An element with a new key starts a group of its own, and the key joins the order. */
  lemma GroupStepFirst<T>(done: seq<T>, x: T, key: T -> string, groups: map<string, seq<T>>, order: seq<string>)
    requires Grouped(done, key, groups, order) && key(x) !in groups
    ensures Grouped(done + [x], key, groups[key(x) := [x]], order + [key(x)])
  {
    var k := key(x);
    var after := groups[k := [x]];
    DistinctKeysSnoc(done, x, key);
    KeyedAbsent(done, key, k);
    forall k' | k' in after ensures after[k'] == Keyed(done + [x], key, k') {
      KeyedSnoc(done, x, key, k');
    }
  }

  /** The group sizes, taken over the distinct keys, add up to the length of the list. */
  lemma {:induction false} GroupSizesSum<T>(xs: seq<T>, key: T -> string)
    ensures SumOf(DistinctKeys(xs, key), k => |Keyed(xs, key, k)|) == |xs|
    decreases |xs|
  {
    if xs != [] {
      var init := xs[..|xs| - 1];
      var x := xs[|xs| - 1];
      assert xs == init + [x];
      var ks := DistinctKeys(init, key);
      var f := k => |Keyed(init, key, k)|;
      var g := k => |Keyed(xs, key, k)|;
      GroupSizesSum(init, key);
      forall k ensures g(k) == f(k) + (if k == key(x) then 1 else 0) {
        KeyedSnoc(init, x, key, k);
      }
      SumBump(ks, f, g, key(x));
      if key(x) !in ks {
        KeyedAbsent(init, key, key(x));
        SumOfAppend(ks, [key(x)], g);
        assert SumOf([key(x)], g) == SumOf([], g) + g(key(x));
      }
    }
  }

  /** Raising `f` by one at a single key raises its sum over distinct keys by one if the key occurs. */
  lemma {:induction false} SumBump(ks: seq<string>, f: string -> int, g: string -> int, kx: string)
    requires NoDuplicates(ks)
    requires forall k :: g(k) == f(k) + (if k == kx then 1 else 0)
    ensures SumOf(ks, g) == SumOf(ks, f) + (if kx in ks then 1 else 0)
  {
    if ks != [] {
      var init := ks[..|ks| - 1];
      SumBump(init, f, g, kx);
      assert ks == init + [ks[|ks| - 1]];
      assert kx in ks <==> kx in init || kx == ks[|ks| - 1];
      if kx == ks[|ks| - 1] {
        assert kx !in init;
      }
    }
  }
}
