/**
 * The parts of JavaScript's built-in behaviour that the application code leans on:
 * truthiness, `parseInt`, `Number(string)`, `String(int)`, `trim`, `toLowerCase`,
 * `includes`, `split`/`join` and `slice(-k)`. Strings are sequences of UTF-16 code units,
 * written here as `seq<char>`; numbers are restricted to integers.
 */
module JsLib {

  datatype Option<T> = None | Some(value: T)

  /** A value that can appear in a parsed JSON request body (or be absent from it). */
  datatype JsValue = Undefined | Null | Bool(b: bool) | Num(n: int) | Str(s: string)

  /** `!!v`: the falsy values are undefined, null, false, 0 and "". */
  predicate Truthy(v: JsValue) {
    match v
    case Undefined => false
    case Null => false
    case Bool(b) => b
    case Num(n) => n != 0
    case Str(s) => s != ""
  }

  /** `body[key]` for a request body whose present keys are those of the map. */
  function Field(body: map<string, JsValue>, key: string): JsValue {
    if key in body then body[key] else Undefined
  }

  // ---------------------------------------------------------------------------
  // Characters

  predicate IsDigit(c: char) { '0' <= c <= '9' }

  predicate AllDigits(s: string) { forall i :: 0 <= i < |s| ==> IsDigit(s[i]) }

  /** The characters JavaScript treats as white space in `trim`, `parseInt` and `\s`. */
  predicate IsWhitespace(c: char) {
    c == ' ' || c == '\t' || c == '\n' || c == '\r' || c == '\U{000B}' || c == '\U{000C}'
    || c == '\U{00A0}' || c == '\U{1680}' || ('\U{2000}' <= c <= '\U{200A}')
    || c == '\U{2028}' || c == '\U{2029}' || c == '\U{202F}' || c == '\U{205F}'
    || c == '\U{3000}' || c == '\U{FEFF}'
  }

  predicate IsUpper(c: char) { 'A' <= c <= 'Z' }

  function LowerChar(c: char): (r: char)
    ensures !IsUpper(r)
    ensures IsUpper(c) ==> r as int == c as int + 32
    ensures !IsUpper(c) ==> r == c
  {
    if IsUpper(c) then (c as int + 32) as char else c
  }

  /** `toLowerCase`, restricted to the ASCII letters. */
  function ToLower(s: string): (r: string)
    ensures |r| == |s|
    ensures forall i :: 0 <= i < |s| ==> r[i] == LowerChar(s[i])
  {
    if s == [] then [] else [LowerChar(s[0])] + ToLower(s[1..])
  }

  // ---------------------------------------------------------------------------
  // Numbers and their decimal text

  function DigitValue(c: char): nat
    requires IsDigit(c)
  {
    c as int - '0' as int
  }

  function DigitChar(d: nat): (c: char)
    requires d < 10
    ensures IsDigit(c) && DigitValue(c) == d
  {
    ('0' as int + d) as char
  }

  /** The number a string of decimal digits denotes. */
  function DigitsValue(s: string): nat
    requires AllDigits(s)
  {
    if s == [] then 0 else DigitsValue(s[..|s| - 1]) * 10 + DigitValue(s[|s| - 1])
  }

  /** Decimal text of a natural number, without leading zeros. */
  function NatToString(n: nat): (r: string)
    ensures r != [] && AllDigits(r)
  {
    if n < 10 then [DigitChar(n)] else NatToString(n / 10) + [DigitChar(n % 10)]
  }

  /** `String(n)` for an integer `n`. */
  function IntToString(n: int): string {
    if n < 0 then "-" + NatToString(-n) else NatToString(n)
  }

  lemma {:induction false} DigitsValueOfNatToString(n: nat)
    ensures DigitsValue(NatToString(n)) == n
  {
    if n >= 10 {
      var s := NatToString(n);
      assert s[..|s| - 1] == NatToString(n / 10);
      DigitsValueOfNatToString(n / 10);
    }
  }

  /** The longest prefix of `s` made of decimal digits. */
  function LeadingDigits(s: string): (r: string)
    ensures r <= s && AllDigits(r)
    ensures |r| < |s| ==> !IsDigit(s[|r|])
  {
    if s != [] && IsDigit(s[0]) then [s[0]] + LeadingDigits(s[1..]) else []
  }

  function TrimStart(s: string): (r: string)
    ensures |r| <= |s| && r == s[|s| - |r|..]
    ensures r != [] ==> !IsWhitespace(r[0])
    ensures forall i :: 0 <= i < |s| - |r| ==> IsWhitespace(s[i])
  {
    if s != [] && IsWhitespace(s[0]) then TrimStart(s[1..]) else s
  }

  function TrimEnd(s: string): (r: string)
    ensures |r| <= |s| && r == s[..|r|]
    ensures r != [] ==> !IsWhitespace(r[|r| - 1])
    ensures forall i :: |r| <= i < |s| ==> IsWhitespace(s[i])
  {
    if s != [] && IsWhitespace(s[|s| - 1]) then TrimEnd(s[..|s| - 1]) else s
  }

  /** `String.prototype.trim`. */
  function Trim(s: string): (r: string)
    ensures r != [] ==> !IsWhitespace(r[0]) && !IsWhitespace(r[|r| - 1])
  {
    TrimEnd(TrimStart(s))
  }

  /** `s.trim() === ''` holds exactly when every character is white space. */
  lemma TrimEmptyIff(s: string)
    ensures Trim(s) == [] <==> forall i :: 0 <= i < |s| ==> IsWhitespace(s[i])
  {
    var t := TrimStart(s);
    if Trim(s) == [] {
      TrimStartNonEmpty(s);
      assert t == [];
    } else {
      var k := |s| - |t|;
      assert t[0] == s[k] && !IsWhitespace(s[k]);
    }
  }

  /** What survives the start of a trim also survives its end. */
  lemma TrimStartNonEmpty(s: string)
    ensures TrimStart(s) != [] ==> Trim(s) != []
  {
    var t := TrimStart(s);
    if t != [] {
      assert !IsWhitespace(t[0]);
    }
  }

  /** Trimming twice is trimming once. */
  lemma TrimIdempotent(s: string)
    ensures Trim(Trim(s)) == Trim(s)
  {
    var r := Trim(s);
    assert TrimStart(r) == r;
    assert TrimEnd(r) == r;
  }

  /**
   * `parseInt(s)` (radix 10): leading white space, an optional sign, then the longest run of
   * decimal digits; `None` stands for NaN, when there is no digit after the sign.
   */
  function ParseInt(s: string): (r: Option<int>)
    ensures r.None? <==> LeadingDigits(SignStripped(TrimStart(s))) == []
  {
    var t := TrimStart(s);
    var digits := LeadingDigits(SignStripped(t));
    var v: int := if digits == [] then 0 else DigitsValue(digits);
    if digits == [] then None
    else if t[0] == '-' then Some(-v)
    else Some(v)
  }

  function SignStripped(t: string): (r: string)
    ensures |r| <= |t|
  {
    if t != [] && (t[0] == '-' || t[0] == '+') then t[1..] else t
  }

  lemma ParseIntOfDigitsThen(d: string, v: int, rest: string, s: string)
    requires d != [] && AllDigits(d) && DigitsValue(d) == v
    requires (rest == [] || !IsDigit(rest[0])) && s == d + rest
    ensures ParseInt(s) == Some(v)
  {
    assert s[0] == d[0];
    NoWhitespaceStart(s);
    assert SignStripped(s) == s;
    LeadingDigitsThen(d, rest);
  }

  lemma ParseIntOfMinusDigitsThen(d: string, v: int, rest: string, s: string)
    requires d != [] && AllDigits(d) && DigitsValue(d) == v
    requires (rest == [] || !IsDigit(rest[0])) && s == ['-'] + (d + rest)
    ensures ParseInt(s) == Some(-v)
  {
    assert s[0] == '-';
    NoWhitespaceStart(s);
    var u := SignStripped(s);
    assert u == d + rest;
    LeadingDigitsThen(d, rest);
    assert LeadingDigits(u) == d;
  }

  /** `String(n)` read back by `parseInt` gives `n`. */
  lemma ParseIntOfIntToString(n: int)
    ensures ParseInt(IntToString(n)) == Some(n)
  {
    ParseIntOfIntToStringThen(n, []);
    assert IntToString(n) + [] == IntToString(n);
  }

  /** `parseInt` reads `String(n)` back even when other text follows, as long as it does not start with a digit. */
  lemma ParseIntOfIntToStringThen(n: int, rest: string)
    requires rest == [] || !IsDigit(rest[0])
    ensures ParseInt(IntToString(n) + rest) == Some(n)
  {
    if n < 0 {
      ParseIntOfNegativeThen(n, rest);
    } else {
      ParseIntOfNonNegativeThen(n, rest);
    }
  }

  lemma ParseIntOfNegativeThen(n: int, rest: string)
    requires n < 0 && (rest == [] || !IsDigit(rest[0]))
    ensures ParseInt(IntToString(n) + rest) == Some(n)
  {
    var s := IntToString(n) + rest;
    var d := NatToString(-n);
    NegativeText(n, rest);
    DigitsValueOfNatToString(-n);
    ParseIntOfMinusDigitsThen(d, -n, rest, s);
  }

  lemma ParseIntOfNonNegativeThen(n: int, rest: string)
    requires n >= 0 && (rest == [] || !IsDigit(rest[0]))
    ensures ParseInt(IntToString(n) + rest) == Some(n)
  {
    var s := IntToString(n) + rest;
    DigitsValueOfNatToString(n);
    ParseIntOfDigitsThen(NatToString(n), n, rest, s);
  }

  lemma NegativeText(n: int, rest: string)
    requires n < 0
    ensures IntToString(n) + rest == ['-'] + (NatToString(-n) + rest)
  {
    assert IntToString(n) == ['-'] + NatToString(-n);
    assert ['-'] + NatToString(-n) + rest == ['-'] + (NatToString(-n) + rest);
  }

  lemma {:induction false} LeadingDigitsThen(d: string, rest: string)
    requires AllDigits(d) && (rest == [] || !IsDigit(rest[0]))
    ensures LeadingDigits(d + rest) == d
  {
    if d != [] {
      LeadingDigitsThen(d[1..], rest);
      assert (d + rest)[1..] == d[1..] + rest;
    }
  }

  /**
   * `a % b` in JavaScript for `b > 0`: the remainder takes the sign of `a` (division truncates
   * toward zero), unlike Dafny's `%`, whose remainder is never negative.
   */
  function JsRem(a: int, b: int): (r: int)
    requires b > 0
    ensures a >= 0 ==> 0 <= r < b
    ensures a < 0 ==> -b < r <= 0
    ensures a - r == b * if a >= 0 then a / b else -((-a) / b)
  {
    if a >= 0 then a % b
    else
      var q, m := (-a) / b, (-a) % b;
      assert -a == b * q + m;
      -m
  }

  lemma NoWhitespaceStart(s: string)
    requires s != [] && (s[0] == '-' || IsDigit(s[0]))
    ensures TrimStart(s) == s
  {
    assert !IsWhitespace(s[0]);
  }

  lemma SignStrippedOfIntToString(n: int)
    ensures IntToString(n) != []
    ensures IntToString(n)[0] == '-' || IsDigit(IntToString(n)[0])
    ensures IntToString(n)[0] == '-' <==> n < 0
    ensures SignStripped(IntToString(n)) == NatToString(if n < 0 then -n else n)
  {
  }

  /**
   * `Number(s)` for a string: white space is trimmed, the empty string is 0, an optional sign
   * followed only by decimal digits is that integer, and anything else is NaN (`None`).
   */
  function StringToNumber(s: string): (r: Option<int>)
    ensures r.Some? && Trim(s) != [] ==> AllDigits(SignStripped(Trim(s)))
  {
    var t := Trim(s);
    if t == [] then Some(0)
    else
      var u := SignStripped(t);
      if u == [] || !AllDigits(u) then None
      else
        var v: int := DigitsValue(u);
        if t[0] == '-' then Some(-v) else Some(v)
  }

  /** `Number(String(n))` is `n`. */
  lemma StringToNumberOfIntToString(n: int)
    ensures StringToNumber(IntToString(n)) == Some(n)
  {
    var s := IntToString(n);
    if n < 0 {
      DigitsValueOfNatToString(-n);
      assert s == ['-'] + NatToString(-n);
      StringToNumberOfMinusDigits(NatToString(-n), -n, s);
    } else {
      DigitsValueOfNatToString(n);
      StringToNumberOfDigits(NatToString(n), n);
    }
  }

  lemma StringToNumberOfDigits(d: string, v: int)
    requires d != [] && AllDigits(d) && DigitsValue(d) == v
    ensures StringToNumber(d) == Some(v)
  {
    assert IsDigit(d[0]) && IsDigit(d[|d| - 1]);
    NoWhitespaceStart(d);
    TrimEndOfDigitEnd(d);
    assert Trim(d) == d;
    assert d[0] != '-' && d[0] != '+';
    assert SignStripped(d) == d;
  }

  lemma StringToNumberOfMinusDigits(d: string, v: int, s: string)
    requires d != [] && AllDigits(d) && DigitsValue(d) == v && s == ['-'] + d
    ensures StringToNumber(s) == Some(-v)
  {
    assert s[0] == '-' && s[|s| - 1] == d[|d| - 1];
    NoWhitespaceStart(s);
    TrimEndOfDigitEnd(s);
    assert Trim(s) == s;
    assert SignStripped(s) == d;
  }

  lemma TrimEndOfDigitEnd(s: string)
    requires s != [] && IsDigit(s[|s| - 1])
    ensures TrimEnd(s) == s
  {
    assert !IsWhitespace(s[|s| - 1]);
  }

  /** `String(v)`, the text `parseInt` reads when it is given a non-string. */
  function ValueToString(v: JsValue): string {
    match v
    case Undefined => "undefined"
    case Null => "null"
    case Bool(b) => if b then "true" else "false"
    case Num(n) => IntToString(n)
    case Str(s) => s
  }

  /** `parseInt(v)` for any JSON value. */
  function ParseIntValue(v: JsValue): (r: Option<int>)
    ensures v.Num? ==> r == Some(v.n)
    ensures v.Undefined? || v.Null? || v.Bool? ==> r.None?
  {
    if v.Num? then ParseIntOfIntToString(v.n); ParseInt(ValueToString(v))
    else if v.Str? then ParseInt(v.s)
    else
      var t := ValueToString(v);
      assert t[0] == 'u' || t[0] == 'n' || t[0] == 't' || t[0] == 'f';
      LetterStartNaN(t);
      ParseInt(t)
  }

  /** Text starting with a letter is NaN to `parseInt`. */
  lemma LetterStartNaN(t: string)
    requires t != [] && 'a' <= t[0] <= 'z'
    ensures ParseInt(t).None?
  {
    assert !IsWhitespace(t[0]) && !IsDigit(t[0]);
    assert TrimStart(t) == t;
    assert SignStripped(t) == t;
  }

  /** `String.prototype.includes` / SQL `LIKE '%sub%'` taken as plain substring search. */
  predicate Contains(s: string, sub: string)
    decreases |s|
  {
    sub <= s || (s != [] && Contains(s[1..], sub))
  }

  /** `s.slice(-k)` for `k > 0`: the last `k` characters, or all of `s` when it is shorter. */
  function SliceLast(s: string, k: nat): (r: string)
    requires k > 0
    ensures |r| == if |s| < k then |s| else k
    ensures s == s[..|s| - |r|] + r
  {
    if |s| <= k then s else s[|s| - k..]
  }

  // ---------------------------------------------------------------------------
  // split / join on a single-character separator

  /** `s.split(sep)`: always at least one part; parts never contain `sep`. */
  function Split(s: string, sep: char): (parts: seq<string>)
    ensures |parts| >= 1
    ensures forall i :: 0 <= i < |parts| ==> sep !in parts[i]
    decreases |s|
  {
    if s == [] then [[]]
    else
      var rest := Split(s[1..], sep);
      if s[0] == sep then [[]] + rest else [[s[0]] + rest[0]] + rest[1..]
  }

  /** `parts.join(sep)`. */
  function Join(parts: seq<string>, sep: char): string {
    if parts == [] then []
    else if |parts| == 1 then parts[0]
    else parts[0] + [sep] + Join(parts[1..], sep)
  }

  /** `parts.join(sep)` with a separator of any length. */
  function JoinWith(parts: seq<string>, sep: string): string
  {
    if |parts| == 0 then ""
    else if |parts| == 1 then parts[0]
    else JoinWith(parts[..|parts| - 1], sep) + sep + parts[|parts| - 1]
  }

  /** Joining the parts of a split gives back the original text. */
  lemma {:induction false} JoinSplit(s: string, sep: char)
    ensures Join(Split(s, sep), sep) == s
    decreases |s|
  {
    if s != [] {
      var rest := Split(s[1..], sep);
      JoinSplit(s[1..], sep);
      if s[0] != sep {
        if |rest| > 1 {
          assert Join(rest, sep) == rest[0] + [sep] + Join(rest[1..], sep);
          assert rest == [rest[0]] + rest[1..];
        }
      }
    }
  }

  /** Splitting text that ends in `sep` followed by a part without `sep` adds exactly that part. */
  lemma {:induction false} SplitSnoc(s: string, sep: char, last: string)
    requires sep !in last
    ensures Split(s + [sep] + last, sep) == Split(s, sep) + [last]
    decreases |s|
  {
    if s == [] {
      assert [sep] + last == [sep] + last;
      SplitNoSep(last, sep);
      assert ([sep] + last)[1..] == last;
    } else {
      assert (s + [sep] + last)[1..] == s[1..] + [sep] + last;
      SplitSnoc(s[1..], sep, last);
    }
  }

  lemma {:induction false} SplitNoSep(s: string, sep: char)
    requires sep !in s
    ensures Split(s, sep) == [s]
    decreases |s|
  {
    if s != [] {
      SplitNoSep(s[1..], sep);
      assert [s[0]] + s[1..] == s;
    }
  }

  // ---------------------------------------------------------------------------
  // Array.prototype.filter / find

  /** `xs.filter(p)`: the elements satisfying `p`, in their original order. */
  function Filter<T>(xs: seq<T>, p: T -> bool): (r: seq<T>)
    ensures |r| <= |xs|
    ensures forall i :: 0 <= i < |r| ==> r[i] in xs && p(r[i])
    ensures forall i :: 0 <= i < |xs| && p(xs[i]) ==> xs[i] in r
  {
    if xs == [] then []
    else
      var init := Filter(xs[..|xs| - 1], p);
      assert xs == xs[..|xs| - 1] + [xs[|xs| - 1]];
      if p(xs[|xs| - 1]) then init + [xs[|xs| - 1]] else init
  }

  lemma {:induction false} FilterAppend<T>(xs: seq<T>, ys: seq<T>, p: T -> bool)
    ensures Filter(xs + ys, p) == Filter(xs, p) + Filter(ys, p)
    decreases |ys|
  {
    if ys == [] {
      assert xs + ys == xs;
    } else {
      var zs := xs + ys;
      assert zs[..|zs| - 1] == xs + ys[..|ys| - 1];
      assert zs[|zs| - 1] == ys[|ys| - 1];
      FilterAppend(xs, ys[..|ys| - 1], p);
    }
  }

  /** A filter that keeps everything is the identity. */
  lemma {:induction false} FilterAll<T>(xs: seq<T>, p: T -> bool)
    requires forall i :: 0 <= i < |xs| ==> p(xs[i])
    ensures Filter(xs, p) == xs
  {
    if xs != [] {
      FilterAll(xs[..|xs| - 1], p);
      assert xs == xs[..|xs| - 1] + [xs[|xs| - 1]];
    }
  }

  /** Filtering twice is filtering once by both conditions. */
  lemma {:induction false} FilterFilter<T>(xs: seq<T>, p: T -> bool, q: T -> bool, both: T -> bool)
    requires forall x :: both(x) == (p(x) && q(x))
    ensures Filter(Filter(xs, p), q) == Filter(xs, both)
  {
    if xs != [] {
      var init, x := xs[..|xs| - 1], xs[|xs| - 1];
      FilterFilter(init, p, q, both);
      if p(x) {
        var f := Filter(init, p) + [x];
        assert f[..|f| - 1] == Filter(init, p);
      }
    }
  }

  /** Two conditions that agree everywhere filter alike. */
  lemma {:induction false} FilterSame<T>(xs: seq<T>, p: T -> bool, q: T -> bool)
    requires forall x :: p(x) == q(x)
    ensures Filter(xs, p) == Filter(xs, q)
  {
    if xs != [] {
      FilterSame(xs[..|xs| - 1], p, q);
    }
  }

  /** No value occurs twice. */
  predicate NoDuplicates<K(==)>(ks: seq<K>) {
    forall i, j :: 0 <= i < j < |ks| ==> ks[i] != ks[j]
  }

  /** `xs.find(p)`: the first element satisfying `p`, or `None` (`undefined`). */
  function Find<T>(xs: seq<T>, p: T -> bool): (r: Option<T>)
    ensures r.Some? <==> exists i :: 0 <= i < |xs| && p(xs[i])
    ensures r.Some? ==> r.value in xs && p(r.value)
  {
    if xs == [] then None
    else if p(xs[0]) then Some(xs[0])
    else
      var r := Find(xs[1..], p);
      assert forall i :: 1 <= i < |xs| ==> xs[i] == xs[1..][i - 1];
      r
  }

  /** `find` returns the first match: nothing before it satisfies `p`. */
  lemma {:induction false} FindFirst<T>(xs: seq<T>, p: T -> bool, i: nat)
    requires i < |xs| && p(xs[i])
    ensures Find(xs, p).Some?
    ensures exists j :: 0 <= j <= i && Find(xs, p) == Some(xs[j]) && forall k :: 0 <= k < j ==> !p(xs[k])
  {
    if i > 0 && !p(xs[0]) {
      FindFirst(xs[1..], p, i - 1);
      var j :| 0 <= j <= i - 1 && Find(xs[1..], p) == Some(xs[1..][j]) && forall k :: 0 <= k < j ==> !p(xs[1..][k]);
      assert Find(xs, p) == Some(xs[j + 1]);
      forall k | 0 <= k < j + 1 ensures !p(xs[k]) {
        if k > 0 { assert xs[k] == xs[1..][k - 1]; }
      }
    }
  }

  /** Two tests that agree on every element find the same element. */
  lemma {:induction false} FindSame<T>(xs: seq<T>, p: T -> bool, q: T -> bool)
    requires forall i :: 0 <= i < |xs| ==> p(xs[i]) == q(xs[i])
    ensures Find(xs, p) == Find(xs, q)
  {
    if xs != [] && !p(xs[0]) {
      forall i | 0 <= i < |xs[1..]| ensures p(xs[1..][i]) == q(xs[1..][i]) {
        assert xs[1..][i] == xs[i + 1];
      }
      FindSame(xs[1..], p, q);
    }
  }

  // ---------------------------------------------------------------------------
  // Sums

  function SumOf<T>(xs: seq<T>, f: T -> int): int {
    if xs == [] then 0 else SumOf(xs[..|xs| - 1], f) + f(xs[|xs| - 1])
  }

  lemma {:induction false} SumOfAppend<T>(xs: seq<T>, ys: seq<T>, f: T -> int)
    ensures SumOf(xs + ys, f) == SumOf(xs, f) + SumOf(ys, f)
    decreases |ys|
  {
    if ys == [] {
      assert xs + ys == xs;
    } else {
      var zs := xs + ys;
      var ys' := ys[..|ys| - 1];
      assert zs[..|zs| - 1] == xs + ys';
      assert zs[|zs| - 1] == ys[|ys| - 1];
      SumOfAppend(xs, ys', f);
      calc {
        SumOf(zs, f);
        SumOf(zs[..|zs| - 1], f) + f(zs[|zs| - 1]);
        SumOf(xs + ys', f) + f(ys[|ys| - 1]);
        SumOf(xs, f) + SumOf(ys', f) + f(ys[|ys| - 1]);
        SumOf(xs, f) + SumOf(ys, f);
      }
    }
  }

  lemma {:induction false} SumOfNonNegative<T>(xs: seq<T>, f: T -> int)
    requires forall x :: x in xs ==> f(x) >= 0
    ensures SumOf(xs, f) >= 0
  {
    if xs != [] {
      SumOfNonNegative(xs[..|xs| - 1], f);
    }
  }

  /** Replacing one element changes the sum by the difference. */
  lemma SumOfUpdate<T>(xs: seq<T>, k: nat, y: T, f: T -> int)
    requires k < |xs|
    ensures SumOf(xs[k := y], f) == SumOf(xs, f) - f(xs[k]) + f(y)
  {
    assert xs == xs[..k] + [xs[k]] + xs[k + 1..];
    assert xs[k := y] == xs[..k] + [y] + xs[k + 1..];
    SumOfAppend(xs[..k] + [xs[k]], xs[k + 1..], f);
    SumOfAppend(xs[..k] + [y], xs[k + 1..], f);
    SumOfAppend(xs[..k], [xs[k]], f);
    SumOfAppend(xs[..k], [y], f);
    assert [xs[k]][..0] == [] && [y][..0] == [];
  }

  /** Splitting a list by a predicate splits its sum. */
  lemma {:induction false} SumOfFilterSplit<T>(xs: seq<T>, p: T -> bool, q: T -> bool, f: T -> int)
    requires forall x :: q(x) == !p(x)
    ensures SumOf(xs, f) == SumOf(Filter(xs, p), f) + SumOf(Filter(xs, q), f)
  {
    if xs != [] {
      var init, x := xs[..|xs| - 1], xs[|xs| - 1];
      SumOfFilterSplit(init, p, q, f);
      SumOfAppend(Filter(init, p), [x], f);
      SumOfAppend(Filter(init, q), [x], f);
      assert [x][..0] == [];
    }
  }

  // ---------------------------------------------------------------------------
  // Sums over a dictionary (`Object.keys(m).reduce(...)`): the order of the keys does not matter

  ghost function Pick<K>(m: map<K, int>): (k: K)
    requires |m| != 0
    ensures k in m
  {
    var k :| k in m; k
  }

  ghost function MapSum<K>(m: map<K, int>, f: (K, int) -> int): int
    decreases |m|
  {
    if |m| == 0 then 0
    else
      var k := Pick(m);
      f(k, m[k]) + MapSum(m - {k}, f)
  }

  /** Any key can be taken out first. */
  lemma {:induction false} MapSumRemove<K>(m: map<K, int>, f: (K, int) -> int, k: K)
    requires k in m
    ensures MapSum(m, f) == f(k, m[k]) + MapSum(m - {k}, f)
    decreases |m|
  {
    var j := Pick(m);
    if j != k {
      MapSumRemove(m - {j}, f, k);
      MapSumRemove(m - {k}, f, j);
      assert m - {j} - {k} == m - {k} - {j};
    }
  }

  /** Taking a key out after setting it is taking it out of the original. */
  lemma RemoveAfterUpdate<K>(m: map<K, int>, k: K, v: int)
    ensures m[k := v] - {k} == m - {k}
  {
    var l, r := m[k := v] - {k}, m - {k};
    assert l.Keys == r.Keys;
    forall j | j in r ensures l[j] == r[j] {
      assert j != k;
    }
  }

  lemma RemoveAbsent<K>(m: map<K, int>, k: K)
    requires k !in m
    ensures m - {k} == m
  {
    assert (m - {k}).Keys == m.Keys;
  }

  /** Setting one key changes the sum by the difference. */
  lemma MapSumUpdate<K>(m: map<K, int>, f: (K, int) -> int, k: K, v: int)
    ensures MapSum(m[k := v], f) == MapSum(m, f) - (if k in m then f(k, m[k]) else 0) + f(k, v)
  {
    MapSumRemove(m[k := v], f, k);
    RemoveAfterUpdate(m, k, v);
    if k in m {
      MapSumRemove(m, f, k);
    } else {
      RemoveAbsent(m, k);
    }
  }

  /** Two term functions that agree on every entry give the same sum. */
  lemma {:induction false} MapSumSame<K>(m: map<K, int>, f: (K, int) -> int, g: (K, int) -> int)
    requires forall k :: k in m ==> f(k, m[k]) == g(k, m[k])
    ensures MapSum(m, f) == MapSum(m, g)
    decreases |m|
  {
    if |m| != 0 {
      MapSumSame(m - {Pick(m)}, f, g);
    }
  }

  /** A sum whose every term is zero is zero. */
  lemma {:induction false} MapSumZero<K>(m: map<K, int>, f: (K, int) -> int)
    requires forall k :: k in m ==> f(k, m[k]) == 0
    ensures MapSum(m, f) == 0
    decreases |m|
  {
    if |m| != 0 {
      MapSumZero(m - {Pick(m)}, f);
    }
  }

}
