/**
 * The pieces of ECMAScript string behaviour that the ingestion pipeline relies on:
 * case folding, whitespace and `trim`, `includes`/`endsWith`, `split` on one character,
 * `Number.prototype.toString(radix)` on integers, `padStart` and UTF-16 code units.
 *
 * A JavaScript string is modelled as a Dafny `string` (a sequence of Unicode scalar
 * values); `CodeUnits` gives the UTF-16 view that `charCodeAt` indexes.
 */
module JsText {

  /** WhiteSpace and LineTerminator code points (ECMA-262 sections 12.2 and 12.3):
      the set that a regular expression's `\s` matches and `String.prototype.trim` removes. */
  predicate IsSpace(c: char) {
    || c == '\U{9}' || c == '\U{B}' || c == '\U{C}' || c == ' ' || c == '\U{A0}' || c == '\U{FEFF}'
    || c == '\U{1680}' || ('\U{2000}' <= c <= '\U{200A}') || c == '\U{202F}' || c == '\U{205F}'
    || c == '\U{3000}' || c == '\n' || c == '\r' || c == '\U{2028}' || c == '\U{2029}'
  }

  predicate IsBlank(s: string) {
    forall i :: 0 <= i < |s| ==> IsSpace(s[i])
  }

  /** `toLowerCase` restricted to ASCII letters; every other character is kept. */
  function LowerChar(c: char): char {
    if 'A' <= c <= 'Z' then (c as int + 32) as char else c
  }

  function Lower(s: string): (r: string)
    ensures |r| == |s|
    ensures forall i :: 0 <= i < |s| ==> r[i] == LowerChar(s[i])
  {
    if s == [] then [] else [LowerChar(s[0])] + Lower(s[1..])
  }

  /** Lower-casing twice is lower-casing once. */
  lemma LowerIdempotent(s: string)
    ensures Lower(Lower(s)) == Lower(s)
  {
    assert forall i :: 0 <= i < |s| ==> LowerChar(LowerChar(s[i])) == LowerChar(s[i]);
  }

  /** The end of the run of whitespace that starts at `i`. */
  function SpaceRunEnd(s: string, i: nat): (j: nat)
    requires i <= |s|
    ensures i <= j <= |s|
    ensures forall k :: i <= k < j ==> IsSpace(s[k])
    ensures j == |s| || !IsSpace(s[j])
    decreases |s| - i
  {
    if i < |s| && IsSpace(s[i]) then SpaceRunEnd(s, i + 1) else i
  }

  /** The start of the run of whitespace that ends at `j`, not going below `lo`. */
  function SpaceRunStart(s: string, lo: nat, j: nat): (i: nat)
    requires lo <= j <= |s|
    ensures lo <= i <= j
    ensures forall k :: i <= k < j ==> IsSpace(s[k])
    ensures i == lo || !IsSpace(s[i - 1])
    decreases j
  {
    if lo < j && IsSpace(s[j - 1]) then SpaceRunStart(s, lo, j - 1) else j
  }

  /** `String.prototype.trim`: the leading whitespace goes, then the trailing whitespace
      of what is left. */
  function Trim(s: string): (r: string)
    ensures |r| <= |s|
    ensures r == [] || (!IsSpace(r[0]) && !IsSpace(r[|r| - 1]))
  {
    var i := SpaceRunEnd(s, 0);
    s[i..SpaceRunStart(s, i, |s|)]
  }

  /** A stretch of whitespace characters is a blank string. */
  lemma SliceBlank(s: string, lo: int, hi: int)
    requires 0 <= lo <= hi <= |s|
    requires forall k :: lo <= k < hi ==> IsSpace(s[k])
    ensures IsBlank(s[lo..hi])
  {
    assert forall k :: 0 <= k < hi - lo ==> s[lo..hi][k] == s[lo + k];
  }

  /** `trim()` keeps one contiguous piece of the text, and everything it drops on either
      side of that piece is whitespace. */
  lemma TrimIsSlice(s: string)
    ensures exists i, j :: 0 <= i <= j <= |s| && Trim(s) == s[i..j] && IsBlank(s[..i]) && IsBlank(s[j..])
  {
    var i := SpaceRunEnd(s, 0);
    var j := SpaceRunStart(s, i, |s|);
    SliceBlank(s, 0, i);
    assert s[..i] == s[0..i];
    SliceBlank(s, j, |s|);
    assert s[j..] == s[j..|s|];
  }

  /** `trim()` yields `''` exactly for the strings made only of whitespace. */
  lemma TrimEmptyIffBlank(s: string)
    ensures Trim(s) == [] <==> IsBlank(s)
  {
    var i := SpaceRunEnd(s, 0);
    var j := SpaceRunStart(s, i, |s|);
    if Trim(s) == [] {
      assert i == j;
    }
  }

  /** `String.prototype.includes`: `p` occurs somewhere in `s`. */
  predicate Includes(s: string, p: string)
    decreases |s|
  {
    p <= s || (s != [] && Includes(s[1..], p))
  }

  /** `p` occurs in `s` starting at position `k`. */
  predicate OccursAt(s: string, p: string, k: int) {
    0 <= k <= |s| - |p| && s[k..k + |p|] == p
  }

  /** `Includes` agrees with the positional definition of an occurrence, both ways. */
  lemma {:induction false} IncludesIffOccurs(s: string, p: string)
    ensures Includes(s, p) <==> exists k :: OccursAt(s, p, k)
    decreases |s|
  {
    if p <= s {
      assert OccursAt(s, p, 0);
    } else if s != [] {
      IncludesIffOccurs(s[1..], p);
      if exists k :: OccursAt(s, p, k) {
        var k :| OccursAt(s, p, k);
        assert k != 0;
        assert s[1..][k - 1..k - 1 + |p|] == s[k..k + |p|];
        assert OccursAt(s[1..], p, k - 1);
      }
      if Includes(s[1..], p) {
        var k :| OccursAt(s[1..], p, k);
        assert s[1..][k..k + |p|] == s[k + 1..k + 1 + |p|];
        assert OccursAt(s, p, k + 1);
      }
    }
  }

  predicate EndsWith(s: string, suffix: string) {
    |suffix| <= |s| && s[|s| - |suffix|..] == suffix
  }

  /** `endsWith` holds exactly when the text is something followed by the suffix. */
  lemma EndsWithIffSuffix(s: string, suffix: string)
    ensures EndsWith(s, suffix) <==> exists p :: s == p + suffix
  {
    if EndsWith(s, suffix) {
      assert s == s[..|s| - |suffix|] + suffix;
    }
    if p :| s == p + suffix {
      assert s[|s| - |suffix|..] == suffix;
    }
  }

  /** `s.replace(/[...]/g, '')` for a character class: the characters of `s` not in `drop`, in order. */
  function Without(s: string, drop: char -> bool): (r: string)
    ensures |r| <= |s|
    ensures forall i :: 0 <= i < |r| ==> !drop(r[i])
    ensures forall c :: c in r <==> c in s && !drop(c)
  {
    if s == [] then [] else (if drop(s[0]) then [] else [s[0]]) + Without(s[1..], drop)
  }

  /** Removing characters distributes over concatenation. */
  lemma {:induction false} WithoutAppend(a: string, b: string, drop: char -> bool)
    ensures Without(a + b, drop) == Without(a, drop) + Without(b, drop)
  {
    if a == [] {
      assert a + b == b;
    } else {
      assert (a + b)[0] == a[0];
      assert (a + b)[1..] == a[1..] + b;
      WithoutAppend(a[1..], b, drop);
    }
  }

  /** Text with nothing to remove is returned unchanged. */
  lemma {:induction false} WithoutKeeps(s: string, drop: char -> bool)
    requires forall i :: 0 <= i < |s| ==> !drop(s[i])
    ensures Without(s, drop) == s
  {
    if s != [] {
      WithoutKeeps(s[1..], drop);
      assert [s[0]] + s[1..] == s;
    }
  }

  /** Text between two kept characters, itself with nothing to remove, is returned unchanged. */
  lemma WithoutKeepsEnclosed(open: char, s: string, close: char, drop: char -> bool)
    requires !drop(open) && !drop(close)
    requires forall i :: 0 <= i < |s| ==> !drop(s[i])
    ensures Without([open] + s + [close], drop) == [open] + s + [close]
  {
    WithoutAppend([open] + s, [close], drop);
    WithoutAppend([open], s, drop);
    WithoutKeeps(s, drop);
    assert Without([close], drop) == [close] by {
      assert [close][1..] == [];
    }
    assert Without([open], drop) == [open] by {
      assert [open][1..] == [];
    }
  }

  /** `s.split(sep)[0]`: the text before the first `sep`, or all of `s`. */
  function BeforeFirst(s: string, sep: char): (r: string)
    ensures r <= s && sep !in r
    ensures |r| < |s| ==> s[|r|] == sep
  {
    if s == [] || s[0] == sep then [] else [s[0]] + BeforeFirst(s[1..], sep)
  }

  /** `s.split(sep)` for a one-character separator. */
  function Split(s: string, sep: char): (parts: seq<string>)
    ensures |parts| >= 1
    ensures forall i :: 0 <= i < |parts| ==> sep !in parts[i]
    decreases |s|
  {
    var head := BeforeFirst(s, sep);
    if |head| == |s| then [s] else [head] + Split(s[|head| + 1..], sep)
  }

  /** `parts.join(sep)`. */
  function Join(parts: seq<string>, sep: char): string
    requires |parts| >= 1
  {
    if |parts| == 1 then parts[0] else parts[0] + [sep] + Join(parts[1..], sep)
  }

  lemma JoinThree(a: string, b: string, c: string, sep: char)
    ensures Join([a, b, c], sep) == a + [sep] + b + [sep] + c
  {
    assert [a, b, c][1..] == [b, c];
    assert [b, c][1..] == [c];
    assert Join([b, c], sep) == b + [sep] + c;
  }

  lemma JoinCons(head: string, tail: seq<string>, sep: char)
    requires |tail| >= 1
    ensures Join([head] + tail, sep) == head + [sep] + Join(tail, sep)
  {
    assert ([head] + tail)[1..] == tail;
  }

  lemma {:induction false} JoinSplit(s: string, sep: char)
    ensures Join(Split(s, sep), sep) == s
    decreases |s|
  {
    var head := BeforeFirst(s, sep);
    var parts := Split(s, sep);
    if |head| < |s| {
      var rest := s[|head| + 1..];
      var tail := Split(rest, sep);
      assert parts == [head] + tail;
      JoinCons(head, tail, sep);
      JoinSplit(rest, sep);
      assert s == s[..|head|] + [s[|head|]] + rest;
      assert Join(parts, sep) == head + [sep] + rest;
    } else {
      assert head == s;
    }
  }

  lemma {:induction false} BeforeFirstOfJoined(a: string, sep: char, rest: string)
    requires sep !in a
    ensures BeforeFirst(a + [sep] + rest, sep) == a
  {
    if a != [] {
      assert (a + [sep] + rest)[1..] == a[1..] + [sep] + rest;
      BeforeFirstOfJoined(a[1..], sep, rest);
    }
  }

  /** Splitting undoes joining when no part contains the separator. */
  lemma {:induction false} SplitJoin(parts: seq<string>, sep: char)
    requires |parts| >= 1
    requires forall i :: 0 <= i < |parts| ==> sep !in parts[i]
    ensures Split(Join(parts, sep), sep) == parts
  {
    if |parts| > 1 {
      var rest := Join(parts[1..], sep);
      var s := parts[0] + [sep] + rest;
      BeforeFirstOfJoined(parts[0], sep, rest);
      assert s[|parts[0]| + 1..] == rest;
      SplitJoin(parts[1..], sep);
    }
  }

  predicate IsDigit(c: char) {
    '0' <= c <= '9'
  }

  predicate AllDigits(s: string) {
    forall i :: 0 <= i < |s| ==> IsDigit(s[i])
  }

  /** The characters `Number.prototype.toString(radix)` writes: `0`-`9` then `a`-`z`. */
  predicate IsRadixDigit(c: char) {
    IsDigit(c) || 'a' <= c <= 'z'
  }

  function DigitChar(d: nat): (c: char)
    requires d < 36
    ensures IsRadixDigit(c) && DigitValue(c) == d
  {
    if d < 10 then ('0' as int + d) as char else ('a' as int + d - 10) as char
  }

  function DigitValue(c: char): (d: nat)
    requires IsRadixDigit(c)
    ensures d < 36
  {
    if c <= '9' then (c as int - '0' as int) else (c as int - 'a' as int + 10)
  }

  function Pow(b: nat, k: nat): nat {
    if k == 0 then 1 else b * Pow(b, k - 1)
  }

  lemma DivMod(n: nat, radix: nat)
    requires 2 <= radix <= n
    ensures 1 <= n / radix < n && n % radix < radix
    ensures n == (n / radix) * radix + n % radix
  {
  }

  /** `n.toString(radix)` for a non-negative integer `n`: non-empty, only digits below the
      radix, and no leading zero. */
  function ToRadix(n: nat, radix: nat): (r: string)
    requires 2 <= radix <= 36
    ensures r != []
    ensures forall i :: 0 <= i < |r| ==> IsRadixDigit(r[i]) && DigitValue(r[i]) < radix
    ensures |r| > 1 ==> r[0] != '0'
    decreases n
  {
    if n < radix then [DigitChar(n)]
    else
      DivMod(n, radix);
      ToRadix(n / radix, radix) + [DigitChar(n % radix)]
  }

  /** The value a string of radix digits denotes (`parseInt(s, radix)` on such a string). */
  function FromRadix(s: string, radix: nat): nat
    requires 2 <= radix <= 36
    requires forall i :: 0 <= i < |s| ==> IsRadixDigit(s[i])
  {
    if s == [] then 0 else FromRadix(s[..|s| - 1], radix) * radix + DigitValue(s[|s| - 1])
  }

  /** Rendering in a radix loses nothing: reading the digits back gives `n`. */
  lemma {:induction false} FromToRadix(n: nat, radix: nat)
    requires 2 <= radix <= 36
    ensures FromRadix(ToRadix(n, radix), radix) == n
    decreases n
  {
    var r := ToRadix(n, radix);
    if n >= radix {
      DivMod(n, radix);
      var q, d := n / radix, n % radix;
      FromToRadix(q, radix);
      assert r == ToRadix(q, radix) + [DigitChar(d)];
      assert r[..|r| - 1] == ToRadix(q, radix);
      assert FromRadix(r, radix) == FromRadix(ToRadix(q, radix), radix) * radix + d;
    }
  }

  lemma {:induction false} ToRadixLength(n: nat, radix: nat, k: nat)
    requires 2 <= radix <= 36 && 1 <= k && n < Pow(radix, k)
    ensures |ToRadix(n, radix)| <= k
  {
    if n >= radix {
      var p := Pow(radix, k - 1);
      DivMod(n, radix);
      var q := n / radix;
      assert k >= 2;
      assert n < radix * p;
      if q >= p {
        MulMonotone(p, q, radix);
      }
      assert q < p;
      ToRadixLength(q, radix, k - 1);
    }
  }

  lemma MulMonotone(p: nat, q: nat, radix: nat)
    requires p <= q
    ensures radix * p <= q * radix
  {
  }

  /** `n.toString()` for an integer `n`. */
  function IntToString(n: int): string {
    if n < 0 then "-" + ToRadix(-n, 10) else ToRadix(n, 10)
  }

  /** The decimal text of an integer starts with `-` exactly when the integer is negative. */
  lemma IntToStringSign(n: int)
    ensures IntToString(n) != [] && (IntToString(n)[0] == '-' <==> n < 0)
  {
    if n >= 0 {
      assert IsRadixDigit(ToRadix(n, 10)[0]);
    }
  }

  /** Different integers have different decimal texts. */
  lemma IntToStringInjective(a: int, b: int)
    requires IntToString(a) == IntToString(b)
    ensures a == b
  {
    IntToStringSign(a);
    IntToStringSign(b);
    if a < 0 {
      var ra, rb := ToRadix(-a, 10), ToRadix(-b, 10);
      assert ra == ("-" + ra)[1..] && rb == ("-" + rb)[1..];
      ToRadixInjective(-a, -b, 10);
    } else {
      ToRadixInjective(a, b, 10);
    }
  }

  lemma ToRadixInjective(m: nat, n: nat, radix: nat)
    requires 2 <= radix <= 36
    requires ToRadix(m, radix) == ToRadix(n, radix)
    ensures m == n
  {
    FromToRadix(m, radix);
    FromToRadix(n, radix);
  }

  /** `s.padStart(n, fill)` for a one-character fill. */
  function PadStart(s: string, n: nat, fill: char): (r: string)
    ensures |r| == if |s| >= n then |s| else n
    ensures r[|r| - |s|..] == s
    ensures forall i :: 0 <= i < |r| - |s| ==> r[i] == fill
  {
    if |s| >= n then s
    else
      var pad := Repeat(fill, n - |s|);
      assert (pad + s)[|pad|..] == s;
      pad + s
  }

  /** `k` copies of `c`. */
  function Repeat(c: char, k: nat): (r: string)
    ensures |r| == k
    ensures forall i :: 0 <= i < k ==> r[i] == c
  {
    if k == 0 then [] else [c] + Repeat(c, k - 1)
  }

  /** The UTF-16 code units of one character: itself, or its surrogate pair above U+FFFF. */
  function CharUnits(c: char): (u: seq<int>)
    ensures 1 <= |u| <= 2
    ensures forall i :: 0 <= i < |u| ==> 0 <= u[i] < 0x1_0000
    ensures c as int < 0x1_0000 <==> u == [c as int]
  {
    if c as int < 0x1_0000 then [c as int]
    else
      var v := c as int - 0x1_0000;
      [0xD800 + v / 0x400, 0xDC00 + v % 0x400]
  }

  /** The sequence that `charCodeAt(0 .. length-1)` reads. */
  function CodeUnits(s: string): (u: seq<int>)
    ensures |s| <= |u| <= 2 * |s|
    ensures forall i :: 0 <= i < |u| ==> 0 <= u[i] < 0x1_0000
  {
    if s == [] then [] else CharUnits(s[0]) + CodeUnits(s[1..])
  }

  lemma {:induction false} CodeUnitsAppend(a: string, b: string)
    ensures CodeUnits(a + b) == CodeUnits(a) + CodeUnits(b)
  {
    if a != [] {
      assert (a + b)[0] == a[0];
      assert (a + b)[1..] == a[1..] + b;
      CodeUnitsAppend(a[1..], b);
    } else {
      assert a + b == b;
    }
  }
}
