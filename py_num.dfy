/** Python's numeric built-ins as the storm programs use them, on exact reals and
    unbounded integers, and the model of `random.randint`: a draw is an arbitrary
    natural number `k` and `Pick(lo, hi, k)` is the value it stands for. */
module PyNum {

  /** A Python value that may be `None`. */
  datatype Option<T> = None | Some(value: T)

  function Abs(r: real): (a: real)
    ensures a >= 0.0 && (a == r || a == -r)
  {
    if r < 0.0 then -r else r
  }

  function Min(a: int, b: int): (m: int)
    ensures m <= a && m <= b && (m == a || m == b)
  {
    if a <= b then a else b
  }

  function Max(a: int, b: int): (m: int)
    ensures m >= a && m >= b && (m == a || m == b)
  {
    if a >= b then a else b
  }

  /** Python's `min(a, b)` on floats: `b` when it is smaller, else `a`, so the first of
      two equal arguments. */
  function MinR(a: real, b: real): (m: real)
    ensures m <= a && m <= b && (m == a || m == b)
    ensures m == a <==> a <= b
  {
    if b < a then b else a
  }

  /** `max(lo, min(hi, v))`, the clamp the programs write out in full. */
  function Clamp(v: int, lo: int, hi: int): (c: int)
    requires lo <= hi
    ensures lo <= c <= hi
    ensures lo <= v <= hi ==> c == v
  {
    Max(lo, Min(hi, v))
  }

  /** Python `int(x)` for a float x: truncation toward zero. */
  function Trunc(r: real): (n: int)
    ensures r >= 0.0 ==> n >= 0 && n as real <= r < n as real + 1.0
    ensures r < 0.0 ==> n <= 0 && n as real - 1.0 < r <= n as real
  {
    if r >= 0.0 then r.Floor else -((-r).Floor)
  }

  /** Truncation keeps the order of its arguments. */
  lemma TruncMono(a: real, b: real)
    requires a <= b
    ensures Trunc(a) <= Trunc(b)
  {
  }

  /** Python `round(x)` with one argument: to the nearest integer, ties to even. */
  function Round(r: real): (n: int)
    ensures r - 0.5 <= n as real <= r + 0.5
    ensures n as real - r == 0.5 || r - n as real == 0.5 ==> n % 2 == 0
  {
    var f := r.Floor;
    var d := r - f as real;
    if d < 0.5 then f
    else if d > 0.5 then f + 1
    else if f % 2 == 0 then f else f + 1
  }

  /** `random.randint(lo, hi)`: the value drawn when the generator yields `k`.
      Python raises when lo > hi, so every caller has to establish lo <= hi. */
  function Pick(lo: int, hi: int, k: nat): (r: int)
    requires lo <= hi
    ensures lo <= r <= hi
    decreases k
  {
    if k <= hi - lo then lo + k else Pick(lo, hi, k - (hi - lo + 1))
  }
}

/** Python's `list.sort(key=...)`: a stable sort, here an insertion sort on keys that are
    integers or +infinity (the one key the usb analyser produces that is not an int). */
module PySort {

  datatype Ext = Fin(n: int) | PosInf

  predicate Le(a: Ext, b: Ext) {
    match (a, b)
    case (_, PosInf) => true
    case (PosInf, Fin(_)) => false
    case (Fin(x), Fin(y)) => x <= y
  }

  predicate SortedBy<T>(s: seq<T>, key: T -> Ext) {
    forall i, j :: 0 <= i < j < |s| ==> Le(key(s[i]), key(s[j]))
  }

  /** Puts `x` in front of the first element whose key is not smaller than its own. */
  function Insert<T>(x: T, s: seq<T>, key: T -> Ext): (r: seq<T>)
    ensures |r| == |s| + 1
    ensures multiset(r) == multiset(s) + multiset{x}
    decreases |s|
  {
    if s == [] || Le(key(x), key(s[0])) then [x] + s
    else
      assert s == [s[0]] + s[1..];
      [s[0]] + Insert(x, s[1..], key)
  }

  function SortBy<T>(s: seq<T>, key: T -> Ext): (r: seq<T>)
    ensures |r| == |s|
    ensures multiset(r) == multiset(s)
    decreases |s|
  {
    if s == [] then []
    else
      assert s == [s[0]] + s[1..];
      Insert(s[0], SortBy(s[1..], key), key)
  }

  /** A bound below `x` and every element of `s` stays below every element after the
      insertion. */
  lemma {:induction false} InsertAbove<T>(x: T, s: seq<T>, key: T -> Ext, b: Ext)
    requires Le(b, key(x)) && forall i :: 0 <= i < |s| ==> Le(b, key(s[i]))
    ensures forall i :: 0 <= i < |Insert(x, s, key)| ==> Le(b, key(Insert(x, s, key)[i]))
    decreases |s|
  {
    if s != [] && !Le(key(x), key(s[0])) {
      InsertAbove(x, s[1..], key, b);
    }
  }

  lemma {:induction false} InsertSorted<T>(x: T, s: seq<T>, key: T -> Ext)
    requires SortedBy(s, key)
    ensures SortedBy(Insert(x, s, key), key)
    decreases |s|
  {
    if s != [] && !Le(key(x), key(s[0])) {
      InsertSorted(x, s[1..], key);
      InsertAbove(x, s[1..], key, key(s[0]));
    }
  }

  /** The sort's result is ordered by key. */
  lemma {:induction false} SortBySorted<T>(s: seq<T>, key: T -> Ext)
    ensures SortedBy(SortBy(s, key), key)
    decreases |s|
  {
    if s != [] {
      SortBySorted(s[1..], key);
      InsertSorted(s[0], SortBy(s[1..], key), key);
    }
  }

  function Filter<T>(s: seq<T>, p: T -> bool): (r: seq<T>)
    ensures |r| <= |s|
    ensures forall e :: e in r ==> e in s && p(e)
  {
    if s == [] then [] else (if p(s[0]) then [s[0]] else []) + Filter(s[1..], p)
  }

  lemma {:induction false} FilterAppend<T>(a: seq<T>, b: seq<T>, p: T -> bool)
    ensures Filter(a + b, p) == Filter(a, p) + Filter(b, p)
    decreases |a|
  {
    if a == [] {
      assert a + b == b;
    } else {
      FilterAppend(a[1..], b, p);
      var h := if p(a[0]) then [a[0]] else [];
      assert (a + b)[0] == a[0];
      assert (a + b)[1..] == a[1..] + b;
      assert Filter(a + b, p) == h + Filter(a[1..] + b, p);
      assert Filter(a, p) == h + Filter(a[1..], p);
      assert h + (Filter(a[1..], p) + Filter(b, p)) == (h + Filter(a[1..], p)) + Filter(b, p);
    }
  }

  /** A test every element passes keeps the whole list. */
  lemma {:induction false} FilterAll<T>(s: seq<T>, p: T -> bool)
    requires forall i :: 0 <= i < |s| ==> p(s[i])
    ensures Filter(s, p) == s
    decreases |s|
  {
    if s != [] {
      FilterAll(s[1..], p);
      assert s == [s[0]] + s[1..];
    }
  }

  /** Two tests that agree on the elements of a list keep the same elements. */
  lemma {:induction false} FilterSame<T>(s: seq<T>, p: T -> bool, q: T -> bool)
    requires forall i :: 0 <= i < |s| ==> p(s[i]) == q(s[i])
    ensures Filter(s, p) == Filter(s, q)
    decreases |s|
  {
    if s != [] {
      FilterSame(s[1..], p, q);
    }
  }

  /** Filtering a list grown by one element. */
  lemma FilterSnoc<T>(s: seq<T>, x: T, p: T -> bool)
    ensures Filter(s + [x], p) == if p(x) then Filter(s, p) + [x] else Filter(s, p)
  {
    FilterAppend(s, [x], p);
    assert Filter([x], p) == (if p(x) then [x] else []) + Filter([], p);
  }

  /** Filtering twice with the same test keeps as much as filtering once. */
  lemma {:induction false} FilterTwice<T>(s: seq<T>, p: T -> bool)
    ensures Filter(Filter(s, p), p) == Filter(s, p)
    decreases |s|
  {
    if s != [] {
      FilterTwice(s[1..], p);
      FilterAppend(if p(s[0]) then [s[0]] else [], Filter(s[1..], p), p);
    }
  }

  /** The test that picks the elements whose key is `k`. */
  function KeyIs<T>(key: T -> Ext, k: Ext): T -> bool {
    e => key(e) == k
  }

  /** Filtering a list with a known first element. */
  lemma FilterCons<T>(a: T, r: seq<T>, p: T -> bool)
    ensures Filter([a] + r, p) == (if p(a) then [a] else []) + Filter(r, p)
  {
    assert ([a] + r)[1..] == r;
  }

  lemma {:induction false} InsertStable<T>(x: T, s: seq<T>, key: T -> Ext, k: Ext)
    requires SortedBy(s, key)
    ensures Filter(Insert(x, s, key), KeyIs(key, k))
         == (if key(x) == k then [x] else []) + Filter(s, KeyIs(key, k))
    decreases |s|
  {
    var p := KeyIs(key, k);
    assert p(x) == (key(x) == k);
    if s == [] || Le(key(x), key(s[0])) {
      FilterCons(x, s, p);
    } else {
      InsertStable(x, s[1..], key, k);
      // x's key is above s[0]'s, so at most one of the two has key k
      assert p(s[0]) == (key(s[0]) == k);
      assert s == [s[0]] + s[1..];
      PassStable(s[0], x, s[1..], Insert(x, s[1..], key), p);
    }
  }

  /** `x` passes over `a`, which the test `p` does not pick together with `x`: the picked
      elements still come in the same order. */
  lemma PassStable<T>(a: T, x: T, r: seq<T>, t: seq<T>, p: T -> bool)
    requires !(p(a) && p(x))
    requires Filter(t, p) == (if p(x) then [x] else []) + Filter(r, p)
    ensures Filter([a] + t, p) == (if p(x) then [x] else []) + Filter([a] + r, p)
  {
    FilterCons(a, t, p);
    FilterCons(a, r, p);
    var f := Filter(r, p);
    var h := if p(a) then [a] else [];
    if p(x) {
      assert h == [];
      assert Filter([a] + t, p) == Filter(t, p) == [x] + f;
      assert Filter([a] + r, p) == f;
    } else {
      assert Filter(t, p) == f;
      assert Filter([a] + t, p) == h + f;
    }
  }

  /** Stability: the elements that share one key keep their original order. */
  lemma {:induction false} SortByStable<T>(s: seq<T>, key: T -> Ext, k: Ext)
    ensures Filter(SortBy(s, key), KeyIs(key, k)) == Filter(s, KeyIs(key, k))
    decreases |s|
  {
    if s != [] {
      SortByStable(s[1..], key, k);
      SortBySorted(s[1..], key);
      InsertStable(s[0], SortBy(s[1..], key), key, k);
    }
  }

  function Map<A, B>(f: A -> B, s: seq<A>): (r: seq<B>)
    ensures |r| == |s|
    ensures forall i :: 0 <= i < |s| ==> r[i] == f(s[i])
  {
    if s == [] then [] else [f(s[0])] + Map(f, s[1..])
  }

  lemma {:induction false} InsertMap<A, B>(f: A -> B, x: A, s: seq<A>, ka: A -> Ext, kb: B -> Ext)
    requires kb(f(x)) == ka(x)
    requires forall a :: a in s ==> kb(f(a)) == ka(a)
    ensures Map(f, Insert(x, s, ka)) == Insert(f(x), Map(f, s), kb)
    decreases |s|
  {
    if s == [] || Le(ka(x), ka(s[0])) {
    } else {
      InsertMap(f, x, s[1..], ka, kb);
      assert Map(f, s)[1..] == Map(f, s[1..]);
    }
  }

  /** Sorting commutes with a map that preserves keys: sorting records by a key computed
      once per record (Python's decorate-sort-undecorate) orders them as sorting the
      underlying values would. */
  lemma {:induction false} SortByMap<A, B>(f: A -> B, s: seq<A>, ka: A -> Ext, kb: B -> Ext)
    requires forall a :: a in s ==> kb(f(a)) == ka(a)
    ensures Map(f, SortBy(s, ka)) == SortBy(Map(f, s), kb)
    decreases |s|
  {
    if s != [] {
      SortByMap(f, s[1..], ka, kb);
      assert Map(f, s)[1..] == Map(f, s[1..]);
      var t := SortBy(s[1..], ka);
      assert forall a :: a in t ==> a in multiset(t);
      InsertMap(f, s[0], t, ka, kb);
    }
  }

  predicate Distinct<T(==)>(s: seq<T>) {
    forall i, j :: 0 <= i < j < |s| ==> s[i] != s[j]
  }

  lemma {:induction false} DistinctCount<T>(s: seq<T>, x: T)
    requires Distinct(s)
    ensures multiset(s)[x] <= 1
    decreases |s|
  {
    if s != [] {
      assert s == [s[0]] + s[1..];
      DistinctCount(s[1..], x);
      if s[0] == x {
        assert x !in s[1..];
      }
    }
  }

  lemma CountTwo<T>(b: seq<T>, i: int, j: int)
    requires 0 <= i < j < |b|
    ensures b[i] == b[j] ==> multiset(b)[b[i]] >= 2
  {
    var rest := b[..i] + b[i + 1..];
    assert b == b[..i] + [b[i]] + b[i + 1..];
    assert rest[j - 1] == b[j];
    assert multiset(b) == multiset(rest) + multiset{b[i]};
  }

  lemma DistinctAppend<T>(s: seq<T>, x: T)
    requires Distinct(s) && x !in s
    ensures Distinct(s + [x])
  {
    forall i, j | 0 <= i < j < |s + [x]| ensures (s + [x])[i] != (s + [x])[j] {
      assert (s + [x])[i] == s[i];
      if j == |s| {
        assert s[i] in s;
      } else {
        assert (s + [x])[j] == s[j];
      }
    }
  }

  /** A list drawn from a list without repetitions (a permutation of it, or what is left
      after removing elements) has no repetitions either. */
  lemma DistinctPermutation<T>(a: seq<T>, b: seq<T>)
    requires Distinct(a) && multiset(b) <= multiset(a)
    ensures Distinct(b)
  {
    forall i, j | 0 <= i < j < |b| ensures b[i] != b[j] {
      CountTwo(b, i, j);
      DistinctCount(a, b[i]);
    }
  }

  /** The `n` values `f(0)`, ..., `f(n - 1)`: a comprehension `[f(i) for i in range(n)]`. */
  function Tabulate<T>(n: nat, f: nat -> T): (r: seq<T>)
    ensures |r| == n && forall i :: 0 <= i < n ==> r[i] == f(i)
  {
    if n == 0 then [] else Tabulate(n - 1, f) + [f(n - 1)]
  }
}

/** The few `str` methods the programs call, on `seq<char>`. Whitespace is ASCII
    whitespace, Python's `string.whitespace`; the other characters `str.strip()` also
    removes (`\x1c`-`\x1f`, `\x85` and the Unicode spaces) are not modelled. */
module PyStr {

  predicate IsSpace(c: char) {
    c == ' ' || c == '\t' || c == '\n' || c == '\r' || c == '\U{000B}' || c == '\U{000C}'
  }

  function LStrip(s: string): (r: string)
    ensures |r| <= |s|
    ensures r == [] || !IsSpace(r[0])
  {
    if s != [] && IsSpace(s[0]) then LStrip(s[1..]) else s
  }

  /** `lstrip` removes leading whitespace and nothing else: what is left is a suffix. */
  lemma {:induction false} LStripRemovesSpaces(s: string)
    ensures LStrip(s) == s[|s| - |LStrip(s)|..]
    ensures forall i :: 0 <= i < |s| - |LStrip(s)| ==> IsSpace(s[i])
  {
    if s != [] && IsSpace(s[0]) {
      LStripRemovesSpaces(s[1..]);
    }
  }

  function RStrip(s: string): (r: string)
    ensures |r| <= |s|
    ensures r == [] || !IsSpace(r[|r| - 1])
  {
    if s != [] && IsSpace(s[|s| - 1]) then RStrip(s[..|s| - 1]) else s
  }

  /** `rstrip` removes trailing whitespace and nothing else: what is left is a prefix. */
  lemma {:induction false} RStripRemovesSpaces(s: string)
    ensures RStrip(s) == s[..|RStrip(s)|]
    ensures forall i :: |RStrip(s)| <= i < |s| ==> IsSpace(s[i])
  {
    if s != [] && IsSpace(s[|s| - 1]) {
      RStripRemovesSpaces(s[..|s| - 1]);
    }
  }

  function Strip(s: string): (r: string)
    ensures |r| <= |s|
    ensures r == [] || (!IsSpace(r[0]) && !IsSpace(r[|r| - 1]))
  {
    var right := RStrip(s);
    LStripRemovesSpaces(right);
    LStrip(right)
  }

  predicate StartsWith(s: string, prefix: string) {
    |prefix| <= |s| && s[..|prefix|] == prefix
  }

  /** Python `sub in s`. */
  predicate Contains(s: string, sub: string)
    decreases |s|
  {
    StartsWith(s, sub) || (s != [] && Contains(s[1..], sub))
  }

  function Repeat(c: char, n: nat): (r: string)
    ensures |r| == n && forall i :: 0 <= i < n ==> r[i] == c
  {
    if n == 0 then "" else [c] + Repeat(c, n - 1)
  }

  function LowerChar(c: char): (r: char)
    ensures 'A' <= c <= 'Z' ==> r as int == c as int + 32
    ensures !('A' <= c <= 'Z') ==> r == c
  {
    if 'A' <= c <= 'Z' then (c as int + 32) as char else c
  }

  /** `str.lower()` on ASCII letters. */
  function Lower(s: string): (r: string)
    ensures |r| == |s| && forall i :: 0 <= i < |s| ==> r[i] == LowerChar(s[i])
  {
    seq(|s|, i requires 0 <= i < |s| => LowerChar(s[i]))
  }

  /** `sep.join(parts)`. */
  function Join(sep: string, parts: seq<string>): string {
    if parts == [] then ""
    else if |parts| == 1 then parts[0]
    else parts[0] + sep + Join(sep, parts[1..])
  }

  /** Python `s.replace(pat, rep)` for a non-empty `pat`: every non-overlapping occurrence,
      scanning left to right. */
  function Replace(s: string, pat: string, rep: string): string
    requires pat != ""
    decreases |s|
  {
    if |s| < |pat| then s
    else if s[..|pat|] == pat then rep + Replace(s[|pat|..], pat, rep)
    else [s[0]] + Replace(s[1..], pat, rep)
  }

  /** Python `s.replace(pat, "")` never adds a character. */
  lemma {:induction false} ReplaceKeepsChars(s: string, pat: string, c: char)
    requires pat != ""
    ensures c in Replace(s, pat, "") ==> c in s
    decreases |s|
  {
    if |s| >= |pat| {
      if s[..|pat|] == pat {
        ReplaceKeepsChars(s[|pat|..], pat, c);
      } else {
        ReplaceKeepsChars(s[1..], pat, c);
      }
    }
  }

  predicate IsDigit(c: char) {
    '0' <= c <= '9'
  }

  predicate DigitFree(s: string) {
    forall i :: 0 <= i < |s| ==> !IsDigit(s[i])
  }

  /** A pattern starting with a digit is never found inside a run of non-digits, so
      replacing skips over such a run unchanged. */
  lemma {:induction false} ReplaceSkips(a: string, s: string, pat: string, rep: string)
    requires pat != "" && IsDigit(pat[0]) && DigitFree(a)
    ensures Replace(a + s, pat, rep) == a + Replace(s, pat, rep)
    decreases |a|
  {
    if a != [] {
      var t := a + s;
      assert t[1..] == a[1..] + s;
      ReplaceSkips(a[1..], s, pat, rep);
      if |t| < |pat| {
        ReplaceShort(s, pat, rep);
      } else {
        assert t[..|pat|] != pat by {
          assert t[..|pat|][0] == a[0];
        }
        assert Replace(t, pat, rep) == [t[0]] + Replace(t[1..], pat, rep);
        assert a == [a[0]] + a[1..];
        assert [t[0]] + (a[1..] + Replace(s, pat, rep)) == a + Replace(s, pat, rep);
      }
    } else {
      assert a + s == s;
    }
  }

  /** A string shorter than the pattern is left as it is. */
  lemma ReplaceShort(s: string, pat: string, rep: string)
    requires pat != "" && |s| < |pat|
    ensures Replace(s, pat, rep) == s
  {
  }

  /** The decimal digit for `d`. */
  function Digit(d: nat): (c: char)
    requires d < 10
    ensures IsDigit(c)
  {
    ('0' as int + d) as char
  }

  /** `str(n)` for a natural number: its decimal digits, without leading zeros. */
  function NatStr(n: nat): (r: string)
    ensures r != [] && forall i :: 0 <= i < |r| ==> IsDigit(r[i])
    ensures r[0] == '0' ==> n == 0
    decreases n
  {
    if n < 10 then [Digit(n)] else NatStr(n / 10) + [Digit(n % 10)]
  }

  /** The number a string of decimal digits denotes. */
  function DigitsValue(s: string): nat
    requires forall i :: 0 <= i < |s| ==> IsDigit(s[i])
  {
    if s == [] then 0
    else
      assert IsDigit(s[|s| - 1]);
      DigitsValue(s[..|s| - 1]) * 10 + (s[|s| - 1] as int - '0' as int)
  }

  /** Reading back the digits `str(n)` writes gives `n`. */
  lemma {:induction false} NatStrValue(n: nat)
    ensures DigitsValue(NatStr(n)) == n
    decreases n
  {
    if n >= 10 {
      NatStrValue(n / 10);
      var r := NatStr(n);
      assert r[..|r| - 1] == NatStr(n / 10);
    }
  }

  /** `str(i)` for any integer. */
  function IntStr(i: int): (r: string)
    ensures r != []
  {
    if i < 0 then "-" + NatStr(-i) else NatStr(i)
  }

  /** `f"{n:02}"` for a natural number: at least two digits, padded with a zero. */
  function ZeroPad2(n: nat): (r: string)
    ensures |r| >= 2 && forall i :: 0 <= i < |r| ==> IsDigit(r[i])
  {
    if n < 10 then "0" + NatStr(n) else NatStr(n)
  }

  /** A number below 100 takes exactly two places and reads back as itself. */
  lemma ZeroPad2Value(n: nat)
    requires n < 100
    ensures |ZeroPad2(n)| == 2 && DigitsValue(ZeroPad2(n)) == n
  {
    NatStrValue(n);
    if n < 10 {
      assert ZeroPad2(n)[..1] == "0";
    } else {
      assert NatStr(n / 10) == [Digit(n / 10)];
    }
  }

  /** `''.join(parts)`. */
  function Concat(parts: seq<string>): string {
    if parts == [] then "" else parts[0] + Concat(parts[1..])
  }

  /** Each line followed by a newline, as a file is written line by line. */
  function Unlines(ls: seq<string>): string {
    if ls == [] then "" else ls[0] + "\n" + Unlines(ls[1..])
  }

  /** `s.split(c)`: the pieces between the occurrences of `c`, one more piece than there
      are occurrences. */
  function SplitOn(s: string, c: char): (r: seq<string>)
    ensures |r| >= 1
  {
    if s == [] then [""]
    else if s[0] == c then [""] + SplitOn(s[1..], c)
    else var t := SplitOn(s[1..], c); [[s[0]] + t[0]] + t[1..]
  }

  /** Splitting at the first separator: the piece before it comes first. */
  lemma {:induction false} SplitFirst(l: string, rest: string, c: char)
    requires c !in l
    ensures SplitOn(l + [c] + rest, c) == [l] + SplitOn(rest, c)
    decreases |l|
  {
    if l == [] {
      assert l + [c] + rest == [c] + rest;
      assert ([c] + rest)[1..] == rest;
    } else {
      var s := l + [c] + rest;
      assert s[0] == l[0] && s[1..] == l[1..] + [c] + rest;
      SplitFirst(l[1..], rest, c);
      assert l == [l[0]] + l[1..];
    }
  }

  /** Splitting a text written line by line at its newlines gives back the lines, and one
      empty piece after the last newline. */
  lemma {:induction false} SplitUnlines(ls: seq<string>)
    requires forall i :: 0 <= i < |ls| ==> '\n' !in ls[i]
    ensures SplitOn(Unlines(ls), '\n') == ls + [""]
    decreases |ls|
  {
    if ls != [] {
      SplitUnlines(ls[1..]);
      assert Unlines(ls) == ls[0] + ['\n'] + Unlines(ls[1..]);
      SplitFirst(ls[0], Unlines(ls[1..]), '\n');
      assert ls == [ls[0]] + ls[1..];
    }
  }
}

/** Python's `dict`: the keys in insertion order and the entries. */
module PyDict {
  import opened PySort

  datatype Dict<K(!new), V> = Dict(keys: seq<K>, at: map<K, V>)

  /** The keys are listed once each, and they are exactly the keys of the entries. */
  ghost predicate Valid<K(!new), V>(d: Dict<K, V>) {
    Distinct(d.keys) && forall k :: k in d.at <==> k in d.keys
  }

  function Empty<K(!new), V>(): (d: Dict<K, V>)
    ensures Valid(d) && d.at == map[]
  {
    Dict([], map[])
  }

  /** `d[k] = v`: a new key goes last, a key already present keeps its place. */
  function Put<K(!new), V>(d: Dict<K, V>, k: K, v: V): (r: Dict<K, V>)
    requires Valid(d)
    ensures Valid(r) && r.at == d.at[k := v]
    ensures r.keys == if k in d.at then d.keys else d.keys + [k]
  {
    if k in d.at then Dict(d.keys, d.at[k := v])
    else
      DistinctAppend(d.keys, k);
      Dict(d.keys + [k], d.at[k := v])
  }
}
