/**
 * Ordering used by the application: SQL `ORDER BY` on TEXT columns, JavaScript's default
 * `Array.prototype.sort` (code-unit order on strings) and `sort` with a comparator.
 * Every sort is modelled by one stable insertion sort over a "less than or equal" relation.
 */
module Sorting {
  import JsLib

  /** A relation every pair is comparable under, and that chains. */
  ghost predicate TotalPreorder<T(!new)>(le: (T, T) -> bool) {
    (forall a, b :: le(a, b) || le(b, a)) &&
    (forall a, b, c :: le(a, b) && le(b, c) ==> le(a, c))
  }

  predicate Sorted<T>(s: seq<T>, le: (T, T) -> bool) {
    forall i, j :: 0 <= i < j < |s| ==> le(s[i], s[j])
  }

  /** Places `x` in front of the first element it is `le` to. */
  function Insert<T>(x: T, r: seq<T>, le: (T, T) -> bool): (s: seq<T>)
    ensures multiset(s) == multiset(r) + multiset{x}
    ensures |s| == |r| + 1
  {
    if r == [] then [x]
    else if le(x, r[0]) then [x] + r
    else
      assert r == [r[0]] + r[1..];
      [r[0]] + Insert(x, r[1..], le)
  }

  /** A stable sort: elements that compare equal keep their input order. */
  function SortBy<T>(s: seq<T>, le: (T, T) -> bool): (r: seq<T>)
    ensures multiset(r) == multiset(s)
    ensures |r| == |s|
  {
    if s == [] then []
    else
      assert s == [s[0]] + s[1..];
      Insert(s[0], SortBy(s[1..], le), le)
  }

  lemma {:induction false} InsertSorted<T(!new)>(x: T, r: seq<T>, le: (T, T) -> bool)
    requires TotalPreorder(le) && Sorted(r, le)
    ensures Sorted(Insert(x, r, le), le)
  {
    if r != [] && !le(x, r[0]) {
      var tail := Insert(x, r[1..], le);
      InsertSorted(x, r[1..], le);
      assert le(r[0], x);
      forall j | 0 <= j < |tail| ensures le(r[0], tail[j]) {
        assert tail[j] in multiset(tail);
        assert tail[j] == x || tail[j] in multiset(r[1..]);
        if tail[j] != x {
          var k :| 0 <= k < |r[1..]| && r[1..][k] == tail[j];
          assert r[k + 1] == tail[j];
        }
      }
      assert Insert(x, r, le) == [r[0]] + tail;
    }
  }

  /** The result of `SortBy` is in order. */
  lemma {:induction false} SortBySorted<T(!new)>(s: seq<T>, le: (T, T) -> bool)
    requires TotalPreorder(le)
    ensures Sorted(SortBy(s, le), le)
  {
    if s != [] {
      SortBySorted(s[1..], le);
      InsertSorted(s[0], SortBy(s[1..], le), le);
    }
  }

  /** The elements that compare equal to `x0` under `le`. */
  function Tie<T>(le: (T, T) -> bool, x0: T): T -> bool {
    (y: T) => le(x0, y) && le(y, x0)
  }

  lemma {:induction false} InsertTie<T(!new)>(x: T, r: seq<T>, le: (T, T) -> bool, x0: T)
    requires TotalPreorder(le)
    ensures JsLib.Filter(Insert(x, r, le), Tie(le, x0))
         == JsLib.Filter([x], Tie(le, x0)) + JsLib.Filter(r, Tie(le, x0))
  {
    var p := Tie(le, x0);
    if r == [] || le(x, r[0]) {
      assert Insert(x, r, le) == [x] + r;
      JsLib.FilterAppend([x], r, p);
    } else {
      var tail := Insert(x, r[1..], le);
      assert Insert(x, r, le) == [r[0]] + tail;
      assert r == [r[0]] + r[1..];
      JsLib.FilterAppend([r[0]], tail, p);
      JsLib.FilterAppend([r[0]], r[1..], p);
      InsertTie(x, r[1..], le, x0);
      if p(x) {
        // `x` ties with `x0` and does not come before r[0], so r[0] cannot tie with `x0`.
        assert !p(r[0]);
        assert JsLib.Filter([r[0]], p) == [];
      }
    }
  }

  /** `SortBy` is stable: the elements that tie with any `x0` keep their input order. */
  lemma {:induction false} SortByStable<T(!new)>(s: seq<T>, le: (T, T) -> bool, x0: T)
    requires TotalPreorder(le)
    ensures JsLib.Filter(SortBy(s, le), Tie(le, x0)) == JsLib.Filter(s, Tie(le, x0))
  {
    if s != [] {
      SortByStable(s[1..], le, x0);
      InsertTie(s[0], SortBy(s[1..], le), le, x0);
      assert s == [s[0]] + s[1..];
      JsLib.FilterAppend([s[0]], s[1..], Tie(le, x0));
    }
  }

  /** A contiguous piece of an ordered sequence is ordered (the window that LIMIT/OFFSET keeps). */
  lemma SortedSlice<T>(s: seq<T>, lo: nat, hi: nat, le: (T, T) -> bool)
    requires lo <= hi <= |s| && Sorted(s, le)
    ensures Sorted(s[lo..hi], le)
  {
  }

  // ---------------------------------------------------------------------------
  // Strings in code-unit order

  /** `a <= b` for JavaScript strings and SQLite TEXT under the binary collation. */
  predicate StrLe(a: string, b: string) {
    a == [] || (b != [] && (a[0] < b[0] || (a[0] == b[0] && StrLe(a[1..], b[1..]))))
  }

  lemma {:induction false} StrLeTotal(a: string, b: string)
    ensures StrLe(a, b) || StrLe(b, a)
  {
    if a != [] && b != [] && a[0] == b[0] {
      StrLeTotal(a[1..], b[1..]);
    }
  }

  lemma {:induction false} StrLeTrans(a: string, b: string, c: string)
    requires StrLe(a, b) && StrLe(b, c)
    ensures StrLe(a, c)
  {
    if a != [] && a[0] == b[0] && b[0] == c[0] {
      StrLeTrans(a[1..], b[1..], c[1..]);
    }
  }

  lemma {:induction false} StrLeAntisym(a: string, b: string)
    requires StrLe(a, b) && StrLe(b, a)
    ensures a == b
  {
    if a != [] {
      StrLeAntisym(a[1..], b[1..]);
      assert a == [a[0]] + a[1..] && b == [b[0]] + b[1..];
    }
  }

  // ---------------------------------------------------------------------------
  // Orders built from keys

  /** Ascending by a text key. */
  function AscStr<T>(key: T -> string): (T, T) -> bool {
    (a, b) => StrLe(key(a), key(b))
  }

  /** Descending by a text key (`ORDER BY … DESC`). */
  function DescStr<T>(key: T -> string): (T, T) -> bool {
    (a, b) => StrLe(key(b), key(a))
  }

  /** Ascending by an integer key (`sort((a, b) => key(a) - key(b))`). */
  function AscInt<T>(key: T -> int): (T, T) -> bool {
    (a, b) => key(a) <= key(b)
  }

  /** Descending by an integer key (`sort((a, b) => key(b) - key(a))`). */
  function DescInt<T>(key: T -> int): (T, T) -> bool {
    (a, b) => key(b) <= key(a)
  }

  /** Order by `first`, and by `second` among elements `first` ranks equal (`ORDER BY x, y`). */
  function ThenBy<T>(first: (T, T) -> bool, second: (T, T) -> bool): (T, T) -> bool {
    (a, b) => first(a, b) && (!first(b, a) || second(a, b))
  }

  lemma AscStrTotal<T(!new)>(key: T -> string)
    ensures TotalPreorder(AscStr(key))
  {
    forall a, b ensures AscStr(key)(a, b) || AscStr(key)(b, a) {
      StrLeTotal(key(a), key(b));
    }
    forall a, b, c | AscStr(key)(a, b) && AscStr(key)(b, c) ensures AscStr(key)(a, c) {
      StrLeTrans(key(a), key(b), key(c));
    }
  }

  lemma DescStrTotal<T(!new)>(key: T -> string)
    ensures TotalPreorder(DescStr(key))
  {
    forall a, b ensures DescStr(key)(a, b) || DescStr(key)(b, a) {
      StrLeTotal(key(a), key(b));
    }
    forall a, b, c | DescStr(key)(a, b) && DescStr(key)(b, c) ensures DescStr(key)(a, c) {
      StrLeTrans(key(c), key(b), key(a));
    }
  }

  lemma AscIntTotal<T(!new)>(key: T -> int)
    ensures TotalPreorder(AscInt(key))
  {
  }

  lemma DescIntTotal<T(!new)>(key: T -> int)
    ensures TotalPreorder(DescInt(key))
  {
  }

  lemma ThenByTotal<T(!new)>(first: (T, T) -> bool, second: (T, T) -> bool)
    requires TotalPreorder(first) && TotalPreorder(second)
    ensures TotalPreorder(ThenBy(first, second))
  {
    var le := ThenBy(first, second);
    forall a, b, c | le(a, b) && le(b, c) ensures le(a, c) {
      assert first(a, b) && first(b, c);
      assert first(a, c);
    }
  }

  /** `keys.sort()` with no comparator: the texts in ascending order, each as often as before. */
  function SortedStrings(keys: seq<string>): (r: seq<string>)
    ensures multiset(r) == multiset(keys) && Sorted(r, AscStr((k: string) => k))
  {
    AscStrTotal((k: string) => k);
    SortBySorted(keys, AscStr((k: string) => k));
    SortBy(keys, AscStr((k: string) => k))
  }
}
