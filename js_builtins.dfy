/** The JavaScript built-ins the storefront relies on, stated over Dafny values:
    Array.prototype.filter and reduce, String.prototype.includes, toLowerCase,
    trim, split and replace, Number(), template-literal number printing and
    the `%` operator. `None` stands for `undefined`, `null` or `NaN`. */
module JsBuiltins {

  datatype Option<T> = None | Some(value: T)

  // ---------------------------------------------------------------------------
  // Arrays

  /** `s.filter(keep)`: the elements that pass, in their original order. */
  function Filter<T>(s: seq<T>, keep: T -> bool): (r: seq<T>)
    ensures |r| <= |s|
    ensures forall x :: x in r ==> x in s && keep(x)
    ensures forall x :: x in s && keep(x) ==> x in r
    ensures forall x :: x in s ==> multiset(r)[x] == if keep(x) then multiset(s)[x] else 0
  {
    if s == [] then []
    else
      assert s == [s[0]] + s[1..];
      if keep(s[0]) then [s[0]] + Filter(s[1..], keep)
      else Filter(s[1..], keep)
  }

  /** `[]` is a subsequence of every sequence. */
  lemma {:induction false} EmptyIsSubsequence<T>(s: seq<T>)
    ensures IsSubsequence([], s)
  {
    if s != [] {
      EmptyIsSubsequence(s[1..]);
    }
  }

  /** `r` can be obtained from `s` by deleting elements (order kept). */
  predicate IsSubsequence<T(==)>(r: seq<T>, s: seq<T>)
    decreases |s|
  {
    if r == [] then true
    else if s == [] then false
    else (r[0] == s[0] && IsSubsequence(r[1..], s[1..])) || IsSubsequence(r, s[1..])
  }

  lemma {:induction false} FilterIsSubsequence<T>(s: seq<T>, keep: T -> bool)
    ensures IsSubsequence(Filter(s, keep), s)
  {
    if s != [] {
      FilterIsSubsequence(s[1..], keep);
      var rest := Filter(s[1..], keep);
      if keep(s[0]) {
        assert Filter(s, keep) == [s[0]] + rest;
        assert ([s[0]] + rest)[1..] == rest;
      } else if rest != [] {
        assert Filter(s, keep) == rest;
      }
    }
  }

  /** Filtering by `p` first changes nothing for a stronger `q`: this gives
      idempotence (`q == p`) and the fact that a stronger test only shrinks. */
  lemma {:induction false} FilterOfFilter<T>(s: seq<T>, p: T -> bool, q: T -> bool)
    requires forall x :: x in s && q(x) ==> p(x)
    ensures Filter(Filter(s, p), q) == Filter(s, q)
  {
    if s != [] {
      FilterOfFilter(s[1..], p, q);
      if p(s[0]) {
        assert Filter(s, p) == [s[0]] + Filter(s[1..], p);
        assert ([s[0]] + Filter(s[1..], p))[1..] == Filter(s[1..], p);
      }
    }
  }

  lemma FilterIdempotent<T>(s: seq<T>, keep: T -> bool)
    ensures Filter(Filter(s, keep), keep) == Filter(s, keep)
  {
    FilterOfFilter(s, keep, keep);
  }

  /** When every element passes, `filter` returns the array unchanged. */
  lemma {:induction false} FilterKeepsAll<T>(s: seq<T>, keep: T -> bool)
    requires forall x :: x in s ==> keep(x)
    ensures Filter(s, keep) == s
  {
    if s != [] {
      FilterKeepsAll(s[1..], keep);
      assert [s[0]] + s[1..] == s;
    }
  }

  /** `s.reduce((acc, x) => acc + f(x), acc)`, folded from the left. */
  function ReduceSum<T>(s: seq<T>, f: T -> int, acc: int): (r: int)
    ensures s == [] ==> r == acc
    ensures (forall x :: x in s ==> f(x) >= 0) ==> r >= acc
    decreases |s|
  {
    if s == [] then acc else ReduceSum(s[1..], f, acc + f(s[0]))
  }

  /** The sum of `f` over `s`, the reference the fold is checked against. */
  function Sum<T>(s: seq<T>, f: T -> int): int
    decreases |s|
  {
    if s == [] then 0 else f(s[0]) + Sum(s[1..], f)
  }

  lemma {:induction false} ReduceIsSum<T>(s: seq<T>, f: T -> int, acc: int)
    ensures ReduceSum(s, f, acc) == acc + Sum(s, f)
    decreases |s|
  {
    if s != [] {
      ReduceIsSum(s[1..], f, acc + f(s[0]));
    }
  }

  lemma {:induction false} SumConcat<T>(a: seq<T>, b: seq<T>, f: T -> int)
    ensures Sum(a + b, f) == Sum(a, f) + Sum(b, f)
  {
    if a != [] {
      SumConcat(a[1..], b, f);
      assert (a + b)[1..] == a[1..] + b;
    } else {
      assert a + b == b;
    }
  }

  /** Taking one element out of the sum. */
  lemma SumRemoveAt<T>(b: seq<T>, k: int, f: T -> int)
    requires 0 <= k < |b|
    ensures Sum(b, f) == f(b[k]) + Sum(b[..k] + b[k + 1..], f)
  {
    assert b[..k] + b[k..] == b;
    SumConcat(b[..k], b[k..], f);
    assert b[k..][1..] == b[k + 1..];
    SumConcat(b[..k], b[k + 1..], f);
  }

  lemma MultisetRemoveAt<T>(b: seq<T>, k: int)
    requires 0 <= k < |b|
    ensures multiset(b[..k] + b[k + 1..]) == multiset(b) - multiset{b[k]}
  {
    assert b == b[..k] + [b[k]] + b[k + 1..];
    assert multiset(b) == multiset(b[..k]) + multiset{b[k]} + multiset(b[k + 1..]);
  }

  /** Where the head of `a` sits in its permutation `b`, and what is left of
      `b` without it. */
  lemma MatchingIndex<T>(a: seq<T>, b: seq<T>) returns (k: int)
    requires a != [] && multiset(a) == multiset(b)
    ensures 0 <= k < |b| && b[k] == a[0]
    ensures multiset(a[1..]) == multiset(b[..k] + b[k + 1..])
  {
    assert a[0] in multiset(a);
    assert a[0] in b;
    k :| 0 <= k < |b| && b[k] == a[0];
    MultisetRemoveAt(b, k);
    MultisetTail(a);
  }

  lemma MultisetTail<T>(a: seq<T>)
    requires a != []
    ensures multiset(a[1..]) == multiset(a) - multiset{a[0]}
  {
    assert a == [a[0]] + a[1..];
  }

  /** The sum does not depend on the order of the elements. */
  lemma {:induction false} SumPermutation<T>(a: seq<T>, b: seq<T>, f: T -> int)
    requires multiset(a) == multiset(b)
    ensures Sum(a, f) == Sum(b, f)
    decreases |a|
  {
    if a != [] {
      var k := MatchingIndex(a, b);
      var rest := b[..k] + b[k + 1..];
      SumPermutation(a[1..], rest, f);
      SumRemoveAt(b, k, f);
      assert Sum(a, f) == f(a[0]) + Sum(a[1..], f);
    } else {
      assert |b| == |multiset(b)| == 0;
    }
  }

  /** Non-negative terms give a non-negative sum. */
  lemma {:induction false} SumNonNegative<T>(s: seq<T>, f: T -> int)
    requires forall x :: x in s ==> f(x) >= 0
    ensures Sum(s, f) >= 0
  {
    if s != [] {
      SumNonNegative(s[1..], f);
    }
  }

  // ---------------------------------------------------------------------------
  // Strings

  /** `s.startsWith(prefix)`. */
  predicate StartsWith(s: string, prefix: string) {
    |prefix| <= |s| && s[..|prefix|] == prefix
  }

  /** `s.includes(sub)`, scanning start positions left to right. */
  function Includes(s: string, sub: string): (b: bool)
    ensures StartsWith(s, sub) ==> b
    ensures b ==> |sub| <= |s|
    decreases |s|
  {
    StartsWith(s, sub) || (|s| > 0 && Includes(s[1..], sub))
  }

  /** `sub` occurs in `s` starting at position `i`. */
  predicate OccursAt(s: string, sub: string, i: int) {
    0 <= i <= |s| - |sub| && s[i..i + |sub|] == sub
  }

  /** The scan agrees with the positional definition of a substring. */
  lemma {:induction false} IncludesAt(s: string, sub: string)
    ensures Includes(s, sub) <==> exists i :: OccursAt(s, sub, i)
    decreases |s|
  {
    if |s| > 0 {
      IncludesAt(s[1..], sub);
      if Includes(s[1..], sub) && !StartsWith(s, sub) {
        var i :| OccursAt(s[1..], sub, i);
        assert s[1..][i..i + |sub|] == s[i + 1..i + 1 + |sub|];
        assert OccursAt(s, sub, i + 1);
      }
      if StartsWith(s, sub) {
        assert OccursAt(s, sub, 0);
      }
      if exists i :: OccursAt(s, sub, i) {
        var i :| OccursAt(s, sub, i);
        if i > 0 {
          assert s[1..][i - 1..i - 1 + |sub|] == s[i..i + |sub|];
          assert OccursAt(s[1..], sub, i - 1);
        }
      }
    } else {
      if StartsWith(s, sub) {
        assert OccursAt(s, sub, 0);
      }
      if exists i :: OccursAt(s, sub, i) {
        var i :| OccursAt(s, sub, i);
        assert i == 0;
      }
    }
  }

  /** `toLowerCase` on one character; only ASCII letters are folded. */
  function LowerChar(c: char): char {
    if 'A' <= c <= 'Z' then (c as int - 'A' as int + 'a' as int) as char else c
  }

  /** `s.toLowerCase()`. */
  function Lower(s: string): (r: string)
    ensures |r| == |s|
    ensures forall i :: 0 <= i < |s| ==> r[i] == LowerChar(s[i])
  {
    if s == [] then [] else [LowerChar(s[0])] + Lower(s[1..])
  }

  lemma LowerIdempotent(s: string)
    ensures Lower(Lower(s)) == Lower(s)
  {
    assert forall i :: 0 <= i < |s| ==> LowerChar(LowerChar(s[i])) == LowerChar(s[i]);
  }

  /** The characters `trim` removes: the ECMAScript WhiteSpace and
      LineTerminator code points. */
  predicate IsWhitespace(c: char) {
    c == ' ' || c == '\t' || c == '\n' || c == '\r' || c == '\U{000B}' || c == '\U{000C}'
    || c == '\U{00A0}' || c == '\U{1680}' || ('\U{2000}' <= c <= '\U{200A}')
    || c == '\U{2028}' || c == '\U{2029}' || c == '\U{202F}' || c == '\U{205F}'
    || c == '\U{3000}' || c == '\U{FEFF}'
  }

  /** `s.trimStart()`: drops the leading whitespace. */
  function TrimStart(s: string): (r: string)
    ensures |r| <= |s| && r == s[|s| - |r|..]
    ensures r == [] || !IsWhitespace(r[0])
    ensures IsBlank(s[..|s| - |r|])
    decreases |s|
  {
    if s != [] && IsWhitespace(s[0]) then
      var r := TrimStart(s[1..]);
      assert s[..|s| - |r|] == [s[0]] + s[1..][..|s| - 1 - |r|];
      r
    else s
  }

  /** `s.trimEnd()`: drops the trailing whitespace. */
  function TrimEnd(s: string): (r: string)
    ensures |r| <= |s| && r == s[..|r|]
    ensures r == [] || !IsWhitespace(r[|r| - 1])
    ensures IsBlank(s[|r|..])
    decreases |s|
  {
    if s != [] && IsWhitespace(s[|s| - 1]) then
      var r := TrimEnd(s[..|s| - 1]);
      assert s[|r|..] == s[..|s| - 1][|r|..] + [s[|s| - 1]];
      r
    else s
  }

  /** `s.trim()`. */
  function Trim(s: string): (r: string)
    ensures Trimmed(s, |s| - |TrimStart(s)|, r)
  {
    var t := TrimStart(s);
    var r := TrimEnd(t);
    TrimAt(s, t, r);
    r
  }

  /** `r` sits in `s` at position `i`, neither starts nor ends with
      whitespace, and only whitespace lies before and after it. */
  predicate Trimmed(s: string, i: int, r: string) {
    && 0 <= i <= |s| - |r|
    && s[i..i + |r|] == r
    && (r == [] || (!IsWhitespace(r[0]) && !IsWhitespace(r[|r| - 1])))
    && IsBlank(s[..i])
    && IsBlank(s[i + |r|..])
  }

  lemma TrimAt(s: string, t: string, r: string)
    requires |t| <= |s| && t == s[|s| - |t|..] && IsBlank(s[..|s| - |t|])
    requires |r| <= |t| && r == t[..|r|] && IsBlank(t[|r|..])
    requires t == [] || !IsWhitespace(t[0])
    requires r == [] || !IsWhitespace(r[|r| - 1])
    ensures Trimmed(s, |s| - |t|, r)
  {
    assert r == [] || r[0] == t[0];
    var i := |s| - |t|;
    assert s[i..] == t;
    SliceOfSuffix(s, i, |r|);
    assert s[i + |r|..] == t[|r|..];
  }

  lemma SliceOfSuffix<T>(s: seq<T>, i: int, k: int)
    requires 0 <= i <= |s| && 0 <= k <= |s| - i
    ensures s[i..][..k] == s[i..i + k] && s[i..][k..] == s[i + k..]
  {
  }

  /** Every character of `s` is whitespace. */
  predicate IsBlank(s: string) {
    forall i :: 0 <= i < |s| ==> IsWhitespace(s[i])
  }

  /** `!s.trim()` holds exactly for the empty and whitespace-only strings. */
  lemma TrimEmptyIffBlank(s: string)
    ensures Trim(s) == [] <==> IsBlank(s)
  {
    TrimmedEmptyIffBlank(s, |s| - |TrimStart(s)|, Trim(s));
  }

  lemma TrimmedEmptyIffBlank(s: string, i: int, r: string)
    requires Trimmed(s, i, r)
    ensures r == [] <==> IsBlank(s)
  {
    if r == [] {
      assert s == s[..i] + s[i..];
      BlankJoin(s[..i], s[i..]);
    } else {
      assert s[i] == r[0];
    }
  }

  lemma BlankJoin(a: string, b: string)
    requires IsBlank(a) && IsBlank(b)
    ensures IsBlank(a + b)
  {
    forall k | 0 <= k < |a + b| ensures IsWhitespace((a + b)[k]) {
      if k < |a| {
        assert (a + b)[k] == a[k];
      } else {
        assert (a + b)[k] == b[k - |a|];
      }
    }
  }

  /** `s.split(sep)` for a one-character separator. */
  function Split(s: string, sep: char): (parts: seq<string>)
    ensures |parts| >= 1
    decreases |s|
  {
    if s == [] then [""]
    else
      var rest := Split(s[1..], sep);
      if s[0] == sep then [""] + rest
      else [[s[0]] + rest[0]] + rest[1..]
  }

  /** `parts.join(sep)`, the inverse of `Split`. */
  function Join(parts: seq<string>, sep: char): string
    decreases |parts|
  {
    if parts == [] then ""
    else if |parts| == 1 then parts[0]
    else parts[0] + [sep] + Join(parts[1..], sep)
  }

  lemma {:induction false} SplitJoin(s: string, sep: char)
    ensures Join(Split(s, sep), sep) == s
    ensures forall k :: 0 <= k < |Split(s, sep)| ==> sep !in Split(s, sep)[k]
    decreases |s|
  {
    if s != [] {
      SplitJoin(s[1..], sep);
      var rest := Split(s[1..], sep);
      if s[0] == sep {
        assert Split(s, sep) == [""] + rest;
        assert ([""] + rest)[1..] == rest;
      } else {
        var parts := [[s[0]] + rest[0]] + rest[1..];
        assert Split(s, sep) == parts;
        if |rest| == 1 {
          assert Join(parts, sep) == [s[0]] + rest[0];
        } else {
          assert parts[1..] == rest[1..];
          assert Join(rest, sep) == rest[0] + [sep] + Join(rest[1..], sep);
        }
        assert s == [s[0]] + s[1..];
      }
    }
  }

  /** Splitting at the first separator: `a + sep + b` with no separator in `a`. */
  lemma {:induction false} SplitAtFirst(a: string, b: string, sep: char)
    requires sep !in a
    ensures Split(a + [sep] + b, sep) == [a] + Split(b, sep)
    decreases |a|
  {
    if a == [] {
      assert [sep] + b == a + [sep] + b;
      assert ([sep] + b)[1..] == b;
    } else {
      SplitAtFirst(a[1..], b, sep);
      assert (a + [sep] + b)[1..] == a[1..] + [sep] + b;
      assert [a[0]] + a[1..] == a;
    }
  }

  /** Splitting a string without separator yields that string alone. */
  lemma {:induction false} SplitNoSeparator(s: string, sep: char)
    requires sep !in s
    ensures Split(s, sep) == [s]
    decreases |s|
  {
    if s != [] {
      SplitNoSeparator(s[1..], sep);
      assert [s[0]] + s[1..] == s;
    }
  }

  /** `s.replace(c, by)` with a one-character pattern: only the first occurrence. */
  function ReplaceFirst(s: string, c: char, replacement: string): (r: string)
    ensures c !in s ==> r == s
    ensures c in s ==> |r| == |s| - 1 + |replacement|
    decreases |s|
  {
    if s == [] then []
    else if s[0] == c then replacement + s[1..]
    else [s[0]] + ReplaceFirst(s[1..], c, replacement)
  }

  lemma {:induction false} ReplaceFirstAt(a: string, b: string, c: char, replacement: string)
    requires c !in a
    ensures ReplaceFirst(a + [c] + b, c, replacement) == a + replacement + b
    decreases |a|
  {
    if a == [] {
      assert a + [c] + b == [c] + b;
      assert ([c] + b)[1..] == b;
    } else {
      var s := a + [c] + b;
      assert s[0] == a[0] && a[0] != c;
      assert s[1..] == a[1..] + [c] + b;
      ReplaceFirstAt(a[1..], b, c, replacement);
      assert ReplaceFirst(s, c, replacement) == [a[0]] + (a[1..] + replacement + b);
      assert [a[0]] + (a[1..] + replacement + b) == a + replacement + b;
    }
  }

  // ---------------------------------------------------------------------------
  // Numbers

  predicate IsDigit(c: char) { '0' <= c <= '9' }

  predicate IsDigits(s: string) {
    forall i :: 0 <= i < |s| ==> IsDigit(s[i])
  }

  /** The decimal value of a digit string (the empty string has value 0). */
  function DigitsValue(s: string): nat
    requires IsDigits(s)
    decreases |s|
  {
    if s == [] then 0
    else DigitsValue(s[..|s| - 1]) * 10 + (s[|s| - 1] as int - '0' as int)
  }

  /** `Number(s)` on the strings the model admits: a digit string, or the
      empty string (which JavaScript reads as 0); anything else is `NaN`. */
  function Number(s: string): (r: Option<int>)
    ensures r.Some? <==> IsDigits(s)
    ensures s == "" ==> r == Some(0)
    ensures r.Some? ==> r.value >= 0
  {
    if IsDigits(s) then Some(DigitsValue(s)) else None
  }

  /** `String(n)` / `${n}` for a non-negative integer. */
  function DecimalString(n: nat): (s: string)
    ensures |s| >= 1 && IsDigits(s)
    decreases n
  {
    if n < 10 then [('0' as int + n) as char]
    else DecimalString(n / 10) + [('0' as int + n % 10) as char]
  }

  lemma {:induction false} DecimalRoundTrip(n: nat)
    ensures DigitsValue(DecimalString(n)) == n
    decreases n
  {
    var s := DecimalString(n);
    if n >= 10 {
      DecimalRoundTrip(n / 10);
      assert s[..|s| - 1] == DecimalString(n / 10);
    }
  }

  /** `a % b` on JavaScript numbers: the remainder truncates toward zero, so
      it takes the sign of `a`; a zero divisor gives `NaN`. */
  function Rem(a: int, b: int): (r: Option<int>)
    ensures b == 0 <==> r == None
    ensures r.Some? ==> -Abs(b) < r.value < Abs(b)
    ensures r.Some? && a >= 0 ==> r.value >= 0
    ensures r.Some? && a < 0 ==> r.value <= 0
    ensures r.Some? ==> (a - r.value) % b == 0
  {
    if b == 0 then None
    else
      TruncatedRemainder(a, b);
      Some(if a >= 0 then a % Abs(b) else -((-a) % Abs(b)))
  }

  /** The remainder with the sign of the dividend: it is smaller than the
      divisor in size and differs from the dividend by a multiple of it. */
  lemma TruncatedRemainder(a: int, b: int)
    requires b != 0
    ensures var v := if a >= 0 then a % Abs(b) else -((-a) % Abs(b));
      && -Abs(b) < v < Abs(b)
      && (a >= 0 ==> v >= 0) && (a < 0 ==> v <= 0)
      && (a - v) % b == 0
  {
    var m := Abs(b);
    if a >= 0 {
      var q := a / m;
      assert a == q * m + a % m;
      MultipleMod(q, b);
    } else {
      var q := (-a) / m;
      assert -a == q * m + (-a) % m;
      assert a + (-a) % m == (-q) * m;
      MultipleMod(-q, b);
    }
  }

  /** Between 0 and the divisor, the remainder is the identity except at the
      divisor itself, which wraps to 0. */
  lemma RemStep(a: int, m: int)
    requires 0 <= a <= m && m > 0
    ensures Rem(a, m) == Some(if a == m then 0 else a)
  {
    assert Abs(m) == m;
    ModStep(a, m);
  }

  lemma ModStep(a: int, m: int)
    requires 0 <= a <= m && m > 0
    ensures a % m == if a == m then 0 else a
  {
  }

  /** A multiple of `Abs(b)` leaves no remainder on division by `b`. */
  lemma MultipleMod(q: int, b: int)
    requires b != 0
    ensures (q * Abs(b)) % b == 0
  {
    var k := if b > 0 then q else -q;
    assert q * Abs(b) == k * b;
    var m := k * b;
    var d := k - m / b;
    assert d * b == m % b by {
      assert m == (m / b) * b + m % b;
      assert d * b == k * b - (m / b) * b;
    }
    if d != 0 {
      MultipleAtLeast(d, b);
      assert false;
    }
  }

  /** A non-zero multiple of `b` is at least `b` in absolute value. */
  lemma MultipleAtLeast(d: int, b: int)
    requires d != 0 && b != 0
    ensures Abs(d * b) >= Abs(b)
  {
    var x, y := Abs(d), Abs(b);
    assert x * y == (x - 1) * y + y;
    assert (x - 1) * y >= 0;
    if d < 0 && b < 0 {
      assert d * b == x * y;
    } else if d < 0 {
      assert d * b == -(x * y);
    } else if b < 0 {
      assert d * b == -(x * y);
    } else {
      assert d * b == x * y;
    }
  }

  function Abs(x: int): int { if x < 0 then -x else x }
}
