/** Shared value types and helpers used by every model module. */
module Wrappers {

  /** A value that may be absent: JavaScript `undefined`, Python `None`. */
  datatype Option<+T> = None | Some(value: T)

  /** A computation that either succeeds or fails with an error value (a thrown exception). */
  datatype Result<+T, +E> = Ok(value: T) | Err(error: E)
}

/** Strings as sequences of characters: the few operations of Python's `str` and
    JavaScript's `String` that the modelled code uses. */
module Strs {

  predicate StartsWith(s: string, p: string) {
    |p| <= |s| && s[..|p|] == p
  }

  /** Python `sub in s`, JavaScript `s.includes(sub)`. */
  predicate Contains(s: string, sub: string)
    decreases |s|
  {
    StartsWith(s, sub) || (|s| > 0 && Contains(s[1..], sub))
  }

  /** `sub` occurs in `s` starting at index `i`. */
  predicate OccursAt(s: string, sub: string, i: int) {
    0 <= i && i + |sub| <= |s| && s[i..i + |sub|] == sub
  }

  lemma {:induction false} ContainsIff(s: string, sub: string)
    ensures Contains(s, sub) <==> exists i :: OccursAt(s, sub, i)
    decreases |s|
  {
    if Contains(s, sub) {
      if StartsWith(s, sub) {
        assert OccursAt(s, sub, 0);
      } else {
        ContainsIff(s[1..], sub);
        var i :| OccursAt(s[1..], sub, i);
        assert s[1..][i..i + |sub|] == s[i + 1..i + 1 + |sub|];
        assert OccursAt(s, sub, i + 1);
      }
    }
    if exists i :: OccursAt(s, sub, i) {
      var i :| OccursAt(s, sub, i);
      ContainsAt(s, sub, i);
    }
  }

  /** The empty string is inside every string (Python `"" in s` is True). */
  lemma EmptyIsEverywhere(s: string)
    ensures Contains(s, "")
  {
    assert s[..0] == "";
  }

  lemma {:induction false} ContainsAt(s: string, sub: string, i: int)
    requires OccursAt(s, sub, i)
    ensures Contains(s, sub)
    decreases i
  {
    if i == 0 {
      assert s[..|sub|] == s[0..0 + |sub|];
    } else {
      assert s[1..][i - 1..i - 1 + |sub|] == s[i..i + |sub|];
      ContainsAt(s[1..], sub, i - 1);
    }
  }

  /** Python `str.isspace()` and the `\s` class of Python's `re` on `str`. */
  predicate PySpace(c: char) {
    ('\t' <= c <= '\r') || ('\U{1C}' <= c <= '\U{1F}') || c == ' ' || c == '\U{85}' || c == '\U{A0}'
    || c == '\U{1680}' || ('\U{2000}' <= c <= '\U{200A}') || c == '\U{2028}' || c == '\U{2029}'
    || c == '\U{202F}' || c == '\U{205F}' || c == '\U{3000}'
  }

  /** The `\s` class of a JavaScript regular expression. */
  predicate JsSpace(c: char) {
    ('\t' <= c <= '\r') || c == ' ' || c == '\U{A0}'
    || c == '\U{1680}' || ('\U{2000}' <= c <= '\U{200A}') || c == '\U{2028}' || c == '\U{2029}'
    || c == '\U{202F}' || c == '\U{205F}' || c == '\U{3000}' || c == '\U{FEFF}'
  }

  function LowerChar(c: char): (r: char)
    ensures !('A' <= r <= 'Z')
    ensures 'A' <= c <= 'Z' ==> r as int == c as int + 32
    ensures !('A' <= c <= 'Z') ==> r == c
  {
    if 'A' <= c <= 'Z' then (c as int + 32) as char else c
  }

  /** Lower-casing, for the ASCII letters only. */
  function Lower(s: string): (r: string)
    ensures |r| == |s|
    ensures forall i :: 0 <= i < |s| ==> r[i] == LowerChar(s[i])
  {
    seq(|s|, i requires 0 <= i < |s| => LowerChar(s[i]))
  }

  lemma LowerIdempotent(s: string)
    ensures Lower(Lower(s)) == Lower(s)
  {
  }

  /** Number of leading characters of `s` that are in `chars`. */
  function LeadingIn(s: string, chars: set<char>): (n: nat)
    ensures n <= |s| && (n == |s| || s[n] !in chars)
    ensures forall i :: 0 <= i < n ==> s[i] in chars
    decreases |s|
  {
    if |s| > 0 && s[0] in chars then 1 + LeadingIn(s[1..], chars) else 0
  }

  /** Python `s.lstrip(chars)`: drops leading characters that are in `chars`. */
  function LStripChars(s: string, chars: set<char>): string {
    s[LeadingIn(s, chars)..]
  }

  /** Number of leading whitespace characters. */
  function LeadingSpaces(s: string): (n: nat)
    ensures n <= |s| && (n == |s| || !PySpace(s[n]))
    decreases |s|
  {
    if |s| > 0 && PySpace(s[0]) then 1 + LeadingSpaces(s[1..]) else 0
  }

  /** Number of trailing whitespace characters. */
  function TrailingSpaces(s: string): (n: nat)
    ensures n <= |s| && (n == |s| || !PySpace(s[|s| - 1 - n]))
    decreases |s|
  {
    if |s| > 0 && PySpace(s[|s| - 1]) then 1 + TrailingSpaces(s[..|s| - 1]) else 0
  }

  /** Only whitespace is counted: the leading run is all whitespace. */
  lemma {:induction false} LeadingSpacesAreSpaces(s: string)
    ensures forall i :: 0 <= i < LeadingSpaces(s) ==> PySpace(s[i])
    decreases |s|
  {
    if |s| > 0 && PySpace(s[0]) {
      LeadingSpacesAreSpaces(s[1..]);
      assert forall i :: 0 < i < |s| ==> s[i] == s[1..][i - 1];
    }
  }

  /** The trailing run is all whitespace. */
  lemma {:induction false} TrailingSpacesAreSpaces(s: string)
    ensures forall i :: |s| - TrailingSpaces(s) <= i < |s| ==> PySpace(s[i])
    decreases |s|
  {
    if |s| > 0 && PySpace(s[|s| - 1]) {
      TrailingSpacesAreSpaces(s[..|s| - 1]);
      assert forall i :: 0 <= i < |s| - 1 ==> s[i] == s[..|s| - 1][i];
    }
  }

  /** Python `s.strip()`: drops leading and trailing whitespace. */
  function Strip(s: string): (r: string)
    ensures r == [] || (!PySpace(r[0]) && !PySpace(r[|r| - 1]))
    ensures |r| <= |s|
  {
    var l := LeadingSpaces(s);
    if l == |s| then ""
    else
      var t := TrailingSpaces(s);
      TrailingSpacesAreSpaces(s);
      assert !PySpace(s[l]);
      assert l + t <= |s|;
      s[l..|s| - t]
  }

  /** `s.lstrip(chars).strip()` is a slice of `s`: before it only characters of `chars` and
      whitespace, after it only whitespace. */
  lemma LStripThenStrip(s: string, chars: set<char>) returns (i: nat, j: nat)
    ensures i <= j <= |s| && Strip(LStripChars(s, chars)) == s[i..j]
    ensures forall k :: 0 <= k < i ==> s[k] in chars || PySpace(s[k])
    ensures forall k :: j <= k < |s| ==> PySpace(s[k])
  {
    var n := LeadingIn(s, chars);
    var i', j' := StripBounds(s[n..]);
    ShiftSlice(s, n, i', j', PySpace);
    i, j := n + i', n + j';
  }

  /** Bounds of a slice of `s[n..]`, and a property of what lies outside it, carried over to `s`. */
  lemma ShiftSlice(s: string, n: nat, i': nat, j': nat, p: char -> bool)
    requires n <= |s| && i' <= j' <= |s| - n
    requires forall k :: 0 <= k < i' ==> p(s[n..][k])
    requires forall k :: j' <= k < |s| - n ==> p(s[n..][k])
    ensures s[n..][i'..j'] == s[n + i'..n + j']
    ensures forall k :: n <= k < n + i' ==> p(s[k])
    ensures forall k :: n + j' <= k < |s| ==> p(s[k])
  {
    forall k | n <= k < |s| ensures s[k] == s[n..][k - n] { }
  }

  /** `strip` keeps a slice and drops only whitespace before and after it. */
  lemma StripBounds(s: string) returns (i: nat, j: nat)
    ensures i <= j <= |s| && Strip(s) == s[i..j]
    ensures forall k :: 0 <= k < i ==> PySpace(s[k])
    ensures forall k :: j <= k < |s| ==> PySpace(s[k])
  {
    LeadingSpacesAreSpaces(s);
    TrailingSpacesAreSpaces(s);
    i := LeadingSpaces(s);
    if i == |s| {
      j := i;
    } else {
      j := |s| - TrailingSpaces(s);
    }
  }

  /** A string without whitespace at either end is left as it is. */
  lemma StripTrimmed(s: string)
    requires s == [] || (!PySpace(s[0]) && !PySpace(s[|s| - 1]))
    ensures Strip(s) == s
  {
    if s != [] {
      assert LeadingSpaces(s) == 0;
      assert TrailingSpaces(s) == 0;
      assert s[0..|s| - 0] == s;
    }
  }

  /** One space in front of a trimmed, non-empty string is stripped away again. */
  lemma StripSpaceBefore(s: string)
    requires s != [] && !PySpace(s[0]) && !PySpace(s[|s| - 1])
    ensures Strip([' '] + s) == s
  {
    var x := [' '] + s;
    assert x[1..] == s;
    assert LeadingSpaces(x[1..]) == 0;
    assert LeadingSpaces(x) == 1;
    assert TrailingSpaces(x) == 0;
    assert x[1..|x|] == s;
  }

  predicate IsDigit(c: char) {
    '0' <= c <= '9'
  }

  function DigitValue(c: char): (d: nat)
    requires IsDigit(c)
    ensures d < 10
  {
    c as int - '0' as int
  }

  function DigitChar(d: nat): (c: char)
    requires d < 10
    ensures IsDigit(c) && DigitValue(c) == d
  {
    (d + '0' as int) as char
  }

  predicate AllDigits(s: string) {
    forall i :: 0 <= i < |s| ==> IsDigit(s[i])
  }

  /** The value of a string of decimal digits (JavaScript `parseInt` on `\d+`). */
  function DigitsValue(s: string): nat
    requires AllDigits(s)
    decreases |s|
  {
    if s == [] then 0 else DigitsValue(s[..|s| - 1]) * 10 + DigitValue(s[|s| - 1])
  }

  /** Length of the leading run of digits (`\d*`). */
  function DigitRun(s: string): (n: nat)
    ensures n <= |s| && AllDigits(s[..n])
    ensures n == |s| || !IsDigit(s[n])
    decreases |s|
  {
    if s != [] && IsDigit(s[0]) then
      var k := DigitRun(s[1..]);
      assert s[..k + 1] == [s[0]] + s[1..][..k];
      1 + k
    else 0
  }

  /** `10^n` as a real. */
  function Pow10(n: nat): (r: real)
    ensures r >= 1.0
  {
    if n == 0 then 1.0 else 10.0 * Pow10(n - 1)
  }

  /** Decimal rendering of a natural number, as JavaScript template literals print it. */
  function NatToString(n: nat): (r: string)
    ensures |r| >= 1 && AllDigits(r)
    ensures n >= 10 ==> r[0] != '0'
    decreases n
  {
    if n < 10 then [DigitChar(n)] else NatToString(n / 10) + [DigitChar(n % 10)]
  }

  lemma {:induction false} NatToStringValue(n: nat)
    ensures DigitsValue(NatToString(n)) == n
    decreases n
  {
    if n >= 10 {
      NatToStringValue(n / 10);
      var s := NatToString(n);
      assert s[..|s| - 1] == NatToString(n / 10);
    }
  }

  /** Distinct numbers render as distinct strings. */
  lemma NatToStringInjective(a: nat, b: nat)
    requires NatToString(a) == NatToString(b)
    ensures a == b
  {
    NatToStringValue(a);
    NatToStringValue(b);
  }

  /** `p + x == p + y` only when `x == y`. */
  lemma PrefixCancel(p: string, x: string, y: string)
    requires p + x == p + y
    ensures x == y
  {
    assert x == (p + x)[|p|..];
    assert y == (p + y)[|p|..];
  }
}

/** Array-method helpers of JavaScript (`filter`, `find`) as functions on sequences. */
module Seqs {
  import opened Wrappers

  /** `[f(0), ..., f(n - 1)]`, built from the front. */
  function Tabulate<T>(n: nat, f: nat -> T): (xs: seq<T>)
    ensures |xs| == n
    decreases n
  {
    if n == 0 then [] else Tabulate(n - 1, f) + [f(n - 1)]
  }

  lemma {:induction false} TabulateAt<T>(n: nat, f: nat -> T, h: nat)
    requires h < n
    ensures Tabulate(n, f)[h] == f(h)
    decreases n
  {
    if h < n - 1 {
      TabulateAt(n - 1, f, h);
    }
  }

  /** `r` is obtained from `xs` by deleting elements, keeping the order of the rest. */
  predicate IsSubsequence<T(==)>(r: seq<T>, xs: seq<T>)
    decreases |xs|
  {
    if r == [] then true
    else if xs == [] then false
    else if r[0] == xs[0] then IsSubsequence(r[1..], xs[1..])
    else IsSubsequence(r, xs[1..])
  }

  lemma {:induction false} SubsequenceRefl<T>(xs: seq<T>)
    ensures IsSubsequence(xs, xs)
    decreases |xs|
  {
    if xs != [] {
      SubsequenceRefl(xs[1..]);
    }
  }

  /** `xs.filter(p)`. */
  function Filter<T(!new)>(xs: seq<T>, p: T -> bool): (r: seq<T>)
    ensures |r| <= |xs|
    ensures forall i :: 0 <= i < |r| ==> p(r[i])
    ensures forall x :: multiset(r)[x] == if p(x) then multiset(xs)[x] else 0
    ensures forall x :: x in r <==> x in xs && p(x)
    ensures IsSubsequence(r, xs)
    decreases |xs|
  {
    if xs == [] then []
    else
      var rest := Filter(xs[1..], p);
      assert xs == [xs[0]] + xs[1..];
      if p(xs[0]) then [xs[0]] + rest else rest
  }

  /** `xs.find(p)`: the first element satisfying `p`, or `undefined`. */
  function Find<T>(xs: seq<T>, p: T -> bool): (r: Option<T>)
    ensures r.None? <==> forall i :: 0 <= i < |xs| ==> !p(xs[i])
    ensures r.Some? ==> exists i :: 0 <= i < |xs| && xs[i] == r.value && p(xs[i])
                                    && forall j :: 0 <= j < i ==> !p(xs[j])
    decreases |xs|
  {
    if xs == [] then None
    else if p(xs[0]) then Some(xs[0])
    else
      var r := Find(xs[1..], p);
      assert forall j :: 0 < j < |xs| ==> xs[j] == xs[1..][j - 1];
      r
  }

  /** Number of elements satisfying `p`. */
  function Count<T>(xs: seq<T>, p: T -> bool): (n: nat)
    ensures n <= |xs|
    decreases |xs|
  {
    if xs == [] then 0 else (if p(xs[0]) then 1 else 0) + Count(xs[1..], p)
  }

  lemma {:induction false} FilterLength<T(!new)>(xs: seq<T>, p: T -> bool)
    ensures |Filter(xs, p)| == Count(xs, p)
    decreases |xs|
  {
    if xs != [] {
      FilterLength(xs[1..], p);
    }
  }

  lemma {:induction false} CountAppend<T>(xs: seq<T>, ys: seq<T>, p: T -> bool)
    ensures Count(xs + ys, p) == Count(xs, p) + Count(ys, p)
    decreases |xs|
  {
    if xs != [] {
      assert (xs + ys)[0] == xs[0];
      assert (xs + ys)[1..] == xs[1..] + ys;
      CountAppend(xs[1..], ys, p);
    } else {
      assert xs + ys == ys;
    }
  }

  /** When exactly the first `k` elements satisfy `p`, `p` counts `k`. */
  lemma {:induction false} CountPrefix<T>(xs: seq<T>, p: T -> bool, k: nat)
    requires k <= |xs|
    requires forall j :: 0 <= j < |xs| ==> (p(xs[j]) <==> j < k)
    ensures Count(xs, p) == k
    decreases |xs|
  {
    if xs != [] {
      assert forall j :: 0 <= j < |xs[1..]| ==> xs[1..][j] == xs[j + 1];
      if k == 0 {
        CountPrefix(xs[1..], p, 0);
      } else {
        CountPrefix(xs[1..], p, k - 1);
      }
    }
  }

  /** A weaker predicate never counts fewer elements. */
  lemma {:induction false} CountMonotone<T>(xs: seq<T>, p: T -> bool, q: T -> bool)
    requires forall i :: 0 <= i < |xs| ==> p(xs[i]) ==> q(xs[i])
    ensures Count(xs, p) <= Count(xs, q)
    decreases |xs|
  {
    if xs != [] {
      assert forall i :: 0 <= i < |xs[1..]| ==> xs[1..][i] == xs[i + 1];
      CountMonotone(xs[1..], p, q);
    }
  }

  /** The last element `filter` keeps is the last element of `xs` satisfying `p`. */
  lemma {:induction false} FilterLast<T(!new)>(xs: seq<T>, p: T -> bool)
    requires Filter(xs, p) != []
    ensures exists i :: 0 <= i < |xs| && xs[i] == Filter(xs, p)[|Filter(xs, p)| - 1]
                        && forall j :: i < j < |xs| ==> !p(xs[j])
    decreases |xs|
  {
    var r := Filter(xs, p);
    var rest := Filter(xs[1..], p);
    if rest == [] {
      assert p(xs[0]) && r == [xs[0]];
      forall j | 0 < j < |xs| ensures !p(xs[j]) {
        assert multiset(rest)[xs[j]] == 0;
        assert xs[j] in multiset(xs[1..]) by { assert xs[1..][j - 1] == xs[j]; }
      }
      assert xs[0] == r[|r| - 1];
    } else {
      FilterLast(xs[1..], p);
      var i :| 0 <= i < |xs[1..]| && xs[1..][i] == rest[|rest| - 1]
               && forall j :: i < j < |xs[1..]| ==> !p(xs[1..][j]);
      assert r[|r| - 1] == rest[|rest| - 1];
      assert xs[i + 1] == r[|r| - 1];
      forall j | i + 1 < j < |xs| ensures !p(xs[j]) {
        assert xs[j] == xs[1..][j - 1];
      }
    }
  }

  function Reverse<T>(xs: seq<T>): (r: seq<T>)
    ensures |r| == |xs|
    ensures forall k :: 0 <= k < |xs| ==> r[k] == xs[|xs| - 1 - k]
    decreases |xs|
  {
    if xs == [] then [] else Reverse(xs[1..]) + [xs[0]]
  }
}

/** Insertion-ordered dictionaries (Python `dict`, JavaScript plain objects with string keys):
    a sequence of (key, value) pairs with distinct keys. Writing a present key replaces its value
    in place; writing a new key appends it. */
module Dicts {
  import opened Wrappers

  type Dict<K, V> = seq<(K, V)>

  predicate UniqueKeys<K(==), V>(d: Dict<K, V>) {
    forall i, j :: 0 <= i < j < |d| ==> d[i].0 != d[j].0
  }

  function Keys<K, V>(d: Dict<K, V>): (ks: seq<K>)
    ensures |ks| == |d| && forall i :: 0 <= i < |d| ==> ks[i] == d[i].0
  {
    seq(|d|, i requires 0 <= i < |d| => d[i].0)
  }

  function Get<K(==), V>(d: Dict<K, V>, k: K): (r: Option<V>)
    ensures r.None? <==> forall i :: 0 <= i < |d| ==> d[i].0 != k
    ensures r.Some? ==> exists i :: 0 <= i < |d| && d[i] == (k, r.value)
    decreases |d|
  {
    if d == [] then None
    else if d[0].0 == k then Some(d[0].1)
    else
      var r := Get(d[1..], k);
      assert forall i :: 0 < i < |d| ==> d[i] == d[1..][i - 1];
      r
  }

  lemma {:induction false} GetAt<K, V>(d: Dict<K, V>, i: nat)
    requires UniqueKeys(d) && i < |d|
    ensures Get(d, d[i].0) == Some(d[i].1)
  {
    var r := Get(d, d[i].0);
    var j :| 0 <= j < |d| && d[j] == (d[i].0, r.value);
    assert j == i;
  }

  /** `d[k] = v`. */
  function Put<K(==), V>(d: Dict<K, V>, k: K, v: V): (r: Dict<K, V>)
    requires UniqueKeys(d)
    ensures UniqueKeys(r)
    ensures (exists i :: 0 <= i < |d| && d[i].0 == k) ==> |r| == |d|
    ensures (forall i :: 0 <= i < |d| ==> d[i].0 != k) ==> r == d + [(k, v)]
    ensures forall i :: 0 <= i < |d| ==> r[i] == if d[i].0 == k then (k, v) else d[i]
    decreases |d|
  {
    if d == [] then [(k, v)]
    else if d[0].0 == k then [(k, v)] + d[1..]
    else
      var rest := Put(d[1..], k, v);
      assert forall i :: 0 < i < |d| ==> d[i] == d[1..][i - 1];
      [d[0]] + rest
  }

  /** Reading back after `d[k] = v`. */
  lemma PutGet<K, V>(d: Dict<K, V>, k: K, v: V, k': K)
    requires UniqueKeys(d)
    ensures Get(Put(d, k, v), k') == if k' == k then Some(v) else Get(d, k')
  {
    var r := Put(d, k, v);
    if k' == k {
      if forall i :: 0 <= i < |d| ==> d[i].0 != k {
        GetAt(r, |d|);
      } else {
        var i :| 0 <= i < |d| && d[i].0 == k;
        GetAt(r, i);
      }
    } else {
      var h := Get(d, k');
      if h.Some? {
        var i :| 0 <= i < |d| && d[i] == (k', h.value);
        GetAt(r, i);
      } else {
        forall i | 0 <= i < |r| ensures r[i].0 != k' {
          if i < |d| {
            assert r[i] == if d[i].0 == k then (k, v) else d[i];
          }
        }
      }
    }
  }
}

/** Sums and maxima of JavaScript number arrays over the reals. */
module Nums {
  import opened Wrappers

  function Sum(xs: seq<real>): real
    decreases |xs|
  {
    if xs == [] then 0.0 else xs[0] + Sum(xs[1..])
  }

  /** `Math.max(...xs)`, None for no values. */
  function Max(xs: seq<real>): Option<real>
    decreases |xs|
  {
    if xs == [] then None
    else
      var rest := Max(xs[1..]);
      if rest.None? || xs[0] >= rest.value then Some(xs[0]) else rest
  }

  /** Max is an element of the sequence and no element exceeds it. */
  lemma {:induction false} MaxIsMaximum(xs: seq<real>)
    ensures Max(xs).None? <==> xs == []
    ensures Max(xs).Some? ==> Max(xs).value in xs && forall i :: 0 <= i < |xs| ==> xs[i] <= Max(xs).value
    decreases |xs|
  {
    if xs != [] {
      MaxIsMaximum(xs[1..]);
      assert forall i :: 0 < i < |xs| ==> xs[i] == xs[1..][i - 1];
    }
  }
}
