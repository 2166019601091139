/**
 * The JavaScript string built-ins the application's logic is written with, over `seq<char>`.
 * A Dafny `char` is a Unicode scalar value, so lengths and indices here count characters
 * where JavaScript counts UTF-16 code units; the two agree on text without characters
 * beyond U+FFFF, and `Utf16Length` gives the JavaScript `length` where a length test
 * depends on the difference.
 *
 * The built-ins modelled are `\s`, `trim`, `toLowerCase`, `includes`, `lastIndexOf`,
 * `slice`, the unsigned shift `>>> 0`, `split(/\s+/).length` and the decimal rendering of
 * a non-negative integer in a template literal.
 */
module JsStrings {

  /** The ECMAScript WhiteSpace and LineTerminator code points: what `\s` matches and `trim` strips. */
  predicate IsWhitespace(c: char) {
    || c == '\t' || c == '\n' || c == '\U{B}' || c == '\U{C}' || c == '\r' || c == ' '
    || c == '\U{A0}' || c == '\U{1680}' || ('\U{2000}' <= c <= '\U{200A}')
    || c == '\U{2028}' || c == '\U{2029}' || c == '\U{202F}' || c == '\U{205F}'
    || c == '\U{3000}' || c == '\U{FEFF}'
  }

  predicate AllWhitespace(s: string) {
    forall i :: 0 <= i < |s| ==> IsWhitespace(s[i])
  }

  /** `trimStart`: drops the leading whitespace. */
  function TrimStart(s: string): string {
    if s != [] && IsWhitespace(s[0]) then TrimStart(s[1..]) else s
  }

  /** What `trimStart` leaves is the suffix after a whitespace-only prefix, and starts on a non-blank. */
  lemma {:induction false} TrimStartFacts(s: string)
    ensures var r := TrimStart(s);
      && |r| <= |s| && r == s[|s| - |r|..]
      && (r == [] || !IsWhitespace(r[0]))
      && AllWhitespace(s[..|s| - |r|])
      && (s != [] && IsWhitespace(s[0]) ==> |r| < |s|)
  {
    if s != [] && IsWhitespace(s[0]) {
      TrimStartFacts(s[1..]);
    }
  }

  /** `trimEnd`: drops the trailing whitespace. */
  function TrimEnd(s: string): string {
    if s != [] && IsWhitespace(s[|s| - 1]) then TrimEnd(s[..|s| - 1]) else s
  }

  /** What `trimEnd` leaves is the prefix before a whitespace-only suffix, and ends on a non-blank. */
  lemma {:induction false} TrimEndFacts(s: string)
    ensures var r := TrimEnd(s);
      && |r| <= |s| && r == s[..|r|]
      && (r == [] || !IsWhitespace(r[|r| - 1]))
      && AllWhitespace(s[|r|..])
  {
    if s != [] && IsWhitespace(s[|s| - 1]) {
      TrimEndFacts(s[..|s| - 1]);
      var r := TrimEnd(s);
      assert forall i :: 0 <= i < |s| - |r| - 1 ==> s[|r|..][i] == s[..|s| - 1][|r|..][i];
    }
  }

  /** `trim`: `trimStart` and then `trimEnd`. */
  function Trim(s: string): string {
    TrimEnd(TrimStart(s))
  }

  /** The trimmed text is blank exactly when `s` is all whitespace; otherwise it starts and ends on a non-blank. */
  lemma TrimFacts(s: string)
    ensures |Trim(s)| <= |s|
    ensures Trim(s) == [] <==> AllWhitespace(s)
    ensures Trim(s) != [] ==> !IsWhitespace(Trim(s)[0]) && !IsWhitespace(Trim(s)[|Trim(s)| - 1])
  {
    var t := TrimStart(s);
    TrimStartFacts(s);
    TrimEndFacts(t);
    if t == [] {
      assert s[..|s|] == s;
    } else {
      assert s[|s| - |t|] == t[0];
      assert TrimEnd(t)[0] == t[0];
    }
  }

  /** `!s.trim()`: the test every form uses for "nothing was typed". */
  predicate IsBlank(s: string) {
    Trim(s) == []
  }

  /** JavaScript's `s.length`: one code unit per character, two for one beyond U+FFFF. */
  function Utf16Length(s: string): nat {
    if s == [] then 0 else (if s[0] as int > 0xFFFF then 2 else 1) + Utf16Length(s[1..])
  }

  /** The code-unit length is between the character count and twice it, and equals it without astral characters. */
  lemma {:induction false} Utf16LengthBounds(s: string)
    ensures |s| <= Utf16Length(s) <= 2 * |s|
    ensures (forall i :: 0 <= i < |s| ==> s[i] as int <= 0xFFFF) ==> Utf16Length(s) == |s|
    ensures (exists i :: 0 <= i < |s| && s[i] as int > 0xFFFF) ==> Utf16Length(s) > |s|
  {
    if s != [] {
      Utf16LengthBounds(s[1..]);
      assert forall i :: 1 <= i < |s| ==> s[1..][i - 1] == s[i];
    }
  }

  /** `toLowerCase` of one character, for the ASCII letters. */
  function LowerChar(c: char): char {
    if 'A' <= c <= 'Z' then (c as int + 32) as char else c
  }

  /** `toLowerCase`, for the ASCII letters. */
  function ToLower(s: string): (r: string)
    ensures |r| == |s| && forall i :: 0 <= i < |s| ==> r[i] == LowerChar(s[i])
  {
    seq(|s|, i requires 0 <= i < |s| => LowerChar(s[i]))
  }

  /** `sub` occurs in `s` starting at index `i`. */
  predicate OccursAt(s: string, sub: string, i: nat) {
    i + |sub| <= |s| && s[i..i + |sub|] == sub
  }

  /** `s.includes(sub)`, as a left-to-right scan. */
  function Includes(s: string, sub: string): bool
    decreases |s|
  {
    if sub <= s then true else if s == [] then false else Includes(s[1..], sub)
  }

  /** The scan finds `sub` exactly when it occurs somewhere in `s`. */
  lemma {:induction false} IncludesIff(s: string, sub: string)
    ensures Includes(s, sub) <==> exists i: nat :: OccursAt(s, sub, i)
    decreases |s|
  {
    if sub <= s {
      assert OccursAt(s, sub, 0);
    } else if s == [] {
      assert forall i: nat :: !OccursAt(s, sub, i);
    } else {
      IncludesIff(s[1..], sub);
      forall i: nat | OccursAt(s[1..], sub, i) ensures OccursAt(s, sub, i + 1) {
        OccursShift(s, sub, i);
      }
      if exists i: nat :: OccursAt(s, sub, i) {
        var i: nat :| OccursAt(s, sub, i);
        assert i != 0;
        OccursShift(s, sub, i - 1);
      }
    }
  }

  /** Dropping the first character moves every occurrence one place left. */
  lemma OccursShift(s: string, sub: string, i: nat)
    requires s != []
    ensures OccursAt(s[1..], sub, i) <==> OccursAt(s, sub, i + 1)
  {
    if i + 1 + |sub| <= |s| {
      assert s[1..][i..i + |sub|] == s[i + 1..i + 1 + |sub|];
    }
  }

  /** `s.lastIndexOf(c)`: the index of the last `c`, or -1 when there is none. */
  function LastIndexOf(s: string, c: char): (i: int)
    ensures -1 <= i < |s|
    ensures i >= 0 ==> s[i] == c
    ensures forall k :: i < k < |s| ==> s[k] != c
  {
    if s == [] then -1 else if s[|s| - 1] == c then |s| - 1 else LastIndexOf(s[..|s| - 1], c)
  }

  /** `s.indexOf(c)`: the index of the first `c`, or -1 when there is none. */
  function IndexOf(s: string, c: char): (i: int)
    ensures -1 <= i < |s|
    ensures i >= 0 ==> s[i] == c
    ensures forall k :: 0 <= k < |s| && (i < 0 || k < i) ==> s[k] != c
  {
    if s == [] then -1
    else if s[0] == c then 0
    else var j := IndexOf(s[1..], c); if j < 0 then -1 else j + 1
  }

  /** The first `c` in `a + b` is the head of `b` when `a` holds none. */
  lemma {:induction false} IndexOfAfter(a: string, b: string, c: char)
    requires forall i :: 0 <= i < |a| ==> a[i] != c
    requires b != [] && b[0] == c
    ensures IndexOf(a + b, c) == |a|
  {
    if a != [] {
      assert (a + b)[1..] == a[1..] + b;
      IndexOfAfter(a[1..], b, c);
    }
  }

  /** Joining `a` and `b` with a separator `c` that `a` does not hold: the first `c` splits them apart again. */
  lemma SplitAtFirst(a: string, c: char, b: string)
    requires forall i :: 0 <= i < |a| ==> a[i] != c
    ensures IndexOf(a + [c] + b, c) == |a|
    ensures (a + [c] + b)[..|a|] == a && (a + [c] + b)[|a| + 1..] == b
  {
    assert a + [c] + b == a + ([c] + b);
    IndexOfAfter(a, [c] + b, c);
  }

  /** `x >>> 0`: ToUint32, the value modulo 2^32 (Dafny's `%` never yields a negative remainder). */
  function ToUint32(x: int): (r: nat)
    ensures r < 0x1_0000_0000
    ensures 0 <= x < 0x1_0000_0000 ==> r == x
    ensures -0x1_0000_0000 <= x < 0 ==> r == x + 0x1_0000_0000
  {
    x % 0x1_0000_0000
  }

  /** `s.slice(start)` for a non-negative start: empty once the start is past the end. */
  function Slice(s: string, start: nat): (r: string)
    ensures |r| <= |s|
    ensures start <= |s| ==> r == s[start..]
    ensures start >= |s| ==> r == []
  {
    if start <= |s| then s[start..] else []
  }

  /** `s.substring(0, n)`: the first `n` characters, with `n` clamped into `[0, |s|]`. */
  function Prefix(s: string, n: int): (r: string)
    ensures r <= s
    ensures |r| == if n <= 0 then 0 else if n <= |s| then n else |s|
  {
    if n <= 0 then [] else if n <= |s| then s[..n] else s
  }

  /** The number of maximal runs of whitespace in `s`. */
  function WhitespaceRuns(s: string): nat
    decreases |s|
  {
    if s == [] then 0
    else if IsWhitespace(s[0]) then TrimStartFacts(s); 1 + WhitespaceRuns(TrimStart(s))
    else WhitespaceRuns(SkipWord(s))
  }

  /** The suffix of `s` that follows its leading non-whitespace characters. */
  function SkipWord(s: string): (r: string)
    ensures |r| <= |s| && r == s[|s| - |r|..]
    ensures r == [] || IsWhitespace(r[0])
    ensures forall i :: 0 <= i < |s| - |r| ==> !IsWhitespace(s[i])
    ensures s != [] && !IsWhitespace(s[0]) ==> |r| < |s|
  {
    if s != [] && !IsWhitespace(s[0]) then SkipWord(s[1..]) else s
  }

  /**
   * `s.split(/\s+/).length`: a split on a pattern that never matches the empty string yields
   * one piece more than it finds matches, and the matches are the maximal whitespace runs.
   */
  function SplitOnWhitespaceLength(s: string): (n: nat)
    ensures n >= 1
  {
    1 + WhitespaceRuns(s)
  }

  predicate IsDigit(c: char) {
    '0' <= c <= '9'
  }

  function DigitChar(d: nat): (c: char)
    requires d < 10
    ensures IsDigit(c) && c as int - '0' as int == d
  {
    ('0' as int + d) as char
  }

  /** `${n}` for a non-negative integer below 10^21: its decimal digits, without leading zeros. */
  function NatToString(n: nat): (r: string)
    ensures r != []
    ensures forall i :: 0 <= i < |r| ==> IsDigit(r[i])
    ensures |r| > 1 ==> r[0] != '0'
  {
    if n < 10 then [DigitChar(n)] else NatToString(n / 10) + [DigitChar(n % 10)]
  }

  /** The number a string of decimal digits denotes. */
  function DecimalValue(r: string): nat
    requires forall i :: 0 <= i < |r| ==> IsDigit(r[i])
  {
    if r == [] then 0
    else
      assert IsDigit(r[|r| - 1]);
      10 * DecimalValue(r[..|r| - 1]) + (r[|r| - 1] as int - '0' as int)
  }

  /** Reading back the rendered digits gives the number: the rendering loses nothing. */
  lemma {:induction false} DecimalRoundTrip(n: nat)
    ensures DecimalValue(NatToString(n)) == n
  {
    if n >= 10 {
      var r := NatToString(n);
      assert r[..|r| - 1] == NatToString(n / 10);
      DecimalRoundTrip(n / 10);
    }
  }

  /** Different numbers render differently. */
  lemma NatToStringInjective(m: nat, n: nat)
    requires NatToString(m) == NatToString(n)
    ensures m == n
  {
    DecimalRoundTrip(m);
    DecimalRoundTrip(n);
  }
}
