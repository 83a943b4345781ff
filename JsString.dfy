/** The JavaScript string and number primitives that the dashboard, the
    forwarding proxy and the prepopulation script rely on, written out so
    that their edge cases are part of the model: trim, split on a character
    class, join, replace, padStart, toLowerCase, parseInt and Number. */
module JsString {

  datatype Option<T> = None | Some(value: T)

  /** The WhiteSpace and LineTerminator characters of ECMAScript, which
      String.prototype.trim removes and parseInt skips. */
  predicate IsWhitespace(c: char) {
    var n := c as int;
    n == 0x09 || n == 0x0A || n == 0x0B || n == 0x0C || n == 0x0D || n == 0x20 || n == 0xA0
    || n == 0x1680 || (0x2000 <= n <= 0x200A) || n == 0x2028 || n == 0x2029 || n == 0x202F
    || n == 0x205F || n == 0x3000 || n == 0xFEFF
  }

  /** Characters the regular expression `.` does not match. */
  predicate IsLineTerminator(c: char) {
    var n := c as int;
    n == 0x0A || n == 0x0D || n == 0x2028 || n == 0x2029
  }

  /** String.prototype.trimStart, the white space parseInt skips. */
  function TrimStart(s: string): (r: string)
    ensures |r| <= |s|
  {
    if s != [] && IsWhitespace(s[0]) then TrimStart(s[1..]) else s
  }

  /** What is left is a suffix that does not start with white space, and
      everything cut off is white space. */
  lemma {:induction false} TrimStartCuts(s: string)
    ensures var r := TrimStart(s);
      r == s[|s| - |r|..] && (forall k :: 0 <= k < |s| - |r| ==> IsWhitespace(s[k])) &&
      (r == [] || !IsWhitespace(r[0]))
  {
    if s != [] && IsWhitespace(s[0]) {
      TrimStartCuts(s[1..]);
      var r := TrimStart(s);
      assert s[1..][|s| - 1 - |r|..] == s[|s| - |r|..];
      forall k | 0 <= k < |s| - |r| ensures IsWhitespace(s[k]) {
        if k > 0 {
          assert s[k] == s[1..][k - 1];
        }
      }
    }
  }

  function TrimEnd(s: string): (r: string)
    ensures |r| <= |s|
  {
    if s != [] && IsWhitespace(s[|s| - 1]) then TrimEnd(s[..|s| - 1]) else s
  }

  /** What is left is a prefix that does not end with white space, and
      everything cut off is white space. */
  lemma {:induction false} TrimEndCuts(s: string)
    ensures var r := TrimEnd(s);
      r == s[..|r|] && (forall k :: |r| <= k < |s| ==> IsWhitespace(s[k])) &&
      (r == [] || !IsWhitespace(r[|r| - 1]))
  {
    if s != [] && IsWhitespace(s[|s| - 1]) {
      TrimEndCuts(s[..|s| - 1]);
      var r := TrimEnd(s);
      assert s[..|s| - 1][..|r|] == s[..|r|];
      forall k | |r| <= k < |s| ensures IsWhitespace(s[k]) {
        if k < |s| - 1 {
          assert s[k] == s[..|s| - 1][k];
        }
      }
    }
  }

  /** String.prototype.trim: the result is blank exactly when every
      character of the input is white space. */
  function Trim(s: string): (r: string)
    ensures |r| <= |s|
    ensures r == [] <==> forall k :: 0 <= k < |s| ==> IsWhitespace(s[k])
    ensures r == [] || (!IsWhitespace(r[0]) && !IsWhitespace(r[|r| - 1]))
  {
    TrimStartCuts(s);
    TrimEndCuts(TrimStart(s));
    var t := TrimStart(s);
    assert forall k :: 0 <= k < |t| ==> t[k] == s[|s| - |t| + k];
    TrimEnd(t)
  }

  predicate StartsWith(s: string, prefix: string) {
    |prefix| <= |s| && s[..|prefix|] == prefix
  }

  /** String.prototype.includes: `part` starts at the first character or
      somewhere in the rest. */
  predicate Contains(s: string, part: string)
    decreases |s|
  {
    StartsWith(s, part) || (s != [] && Contains(s[1..], part))
  }

  predicate OccursAt(s: string, part: string, i: int)
    requires 0 <= i <= |s| - |part|
  {
    s[i..i + |part|] == part
  }

  /** A slice of the tail is the slice one place further on. */
  lemma {:induction false} TailSlice(s: string, i: nat, n: nat)
    requires 1 <= i && i + n <= |s|
    ensures s[1..][i - 1..i - 1 + n] == s[i..i + n]
  {
    forall m | i <= m < i + n
      ensures s[m] == s[1..][m - 1]
    {
    }
  }

  /** `includes` means `part` occurs at some position of `s`. */
  lemma {:induction false} ContainsIffOccurs(s: string, part: string)
    ensures Contains(s, part) <==> exists i :: 0 <= i <= |s| - |part| && OccursAt(s, part, i)
    decreases |s|
  {
    if StartsWith(s, part) {
      assert OccursAt(s, part, 0);
    }
    if s != [] {
      ContainsIffOccurs(s[1..], part);
      if exists i :: 0 <= i <= |s| - |part| && OccursAt(s, part, i) {
        var i :| 0 <= i <= |s| - |part| && OccursAt(s, part, i);
        if i > 0 {
          TailSlice(s, i, |part|);
          assert OccursAt(s[1..], part, i - 1);
        }
      }
      if Contains(s[1..], part) && !StartsWith(s, part) {
        var i :| 0 <= i <= |s[1..]| - |part| && OccursAt(s[1..], part, i);
        TailSlice(s, i + 1, |part|);
        assert OccursAt(s, part, i + 1);
      }
    } else {
      if exists i :: 0 <= i <= |s| - |part| && OccursAt(s, part, i) {
        var i :| 0 <= i <= |s| - |part| && OccursAt(s, part, i);
        assert i == 0;
      }
    }
  }

  /** Index of the first character of s that belongs to seps, or |s|. */
  function FirstIndexIn(s: string, seps: set<char>): (i: nat)
    ensures i <= |s|
    ensures forall k :: 0 <= k < i ==> s[k] !in seps
    ensures i < |s| ==> s[i] in seps
  {
    if s == [] || s[0] in seps then 0 else 1 + FirstIndexIn(s[1..], seps)
  }

  predicate FreeOf(s: string, seps: set<char>) {
    forall k :: 0 <= k < |s| ==> s[k] !in seps
  }

  /** String.prototype.split with a pattern that matches any single
      character of seps (`"a-b/c".split(/[-\/]/)`). */
  function Split(s: string, seps: set<char>): (parts: seq<string>)
    ensures |parts| >= 1
    ensures forall k :: 0 <= k < |parts| ==> FreeOf(parts[k], seps)
    decreases |s|
  {
    var i := FirstIndexIn(s, seps);
    if i == |s| then [s] else [s[..i]] + Split(s[i + 1..], seps)
  }

  /** The text before the first character of seps: `s.split(c)[0]`. */
  function Before(s: string, seps: set<char>): (r: string)
    ensures StartsWith(s, r) && FreeOf(r, seps)
    ensures |r| < |s| ==> s[|r|] in seps
  {
    s[..FirstIndexIn(s, seps)]
  }

  /** Array.prototype.join. */
  function Join(parts: seq<string>, sep: string): string {
    if parts == [] then ""
    else if |parts| == 1 then parts[0]
    else parts[0] + sep + Join(parts[1..], sep)
  }

  lemma {:induction false} FirstIndexOfJoined(a: string, c: char, b: string, seps: set<char>)
    requires FreeOf(a, seps) && c in seps
    ensures FirstIndexIn(a + [c] + b, seps) == |a|
  {
    var s := a + [c] + b;
    assert s[|a|] == c;
    assert forall k :: 0 <= k < |a| ==> s[k] == a[k];
  }

  /** A piece free of separators followed by a separator is the first
      part of the split. */
  lemma {:induction false} SplitStep(a: string, c: char, rest: string, seps: set<char>)
    requires FreeOf(a, seps) && c in seps
    ensures Split(a + [c] + rest, seps) == [a] + Split(rest, seps)
  {
    var s := a + [c] + rest;
    FirstIndexOfJoined(a, c, rest, seps);
    assert s[..|a|] == a;
    assert s[|a| + 1..] == rest;
  }

  lemma {:induction false} SplitFree(a: string, seps: set<char>)
    requires FreeOf(a, seps)
    ensures Split(a, seps) == [a]
  {
    assert FirstIndexIn(a, seps) == |a|;
  }

  /** Three separator-free pieces joined by two separators split back. */
  lemma {:induction false} Split3(a: string, b: string, c: string, sep: char, seps: set<char>)
    requires FreeOf(a, seps) && FreeOf(b, seps) && FreeOf(c, seps) && sep in seps
    ensures Split(a + [sep] + b + [sep] + c, seps) == [a, b, c]
  {
    assert a + [sep] + b + [sep] + c == a + [sep] + (b + [sep] + c);
    SplitStep(a, sep, b + [sep] + c, seps);
    SplitStep(b, sep, c, seps);
    SplitFree(c, seps);
  }

  lemma {:induction false} FreeOfAppend(a: string, b: string, seps: set<char>)
    requires FreeOf(a, seps) && FreeOf(b, seps)
    ensures FreeOf(a + b, seps)
  {
    forall k | 0 <= k < |a + b| ensures (a + b)[k] !in seps {
      if k >= |a| {
        assert (a + b)[k] == b[k - |a|];
      }
    }
  }

  lemma {:induction false} FreeOf3(a: string, b: string, c: string, sep: char, seps: set<char>)
    requires FreeOf(a, seps) && FreeOf(b, seps) && FreeOf(c, seps) && sep !in seps
    ensures FreeOf(a + [sep] + b + [sep] + c, seps)
  {
    FreeOfAppend(a, [sep], seps);
    FreeOfAppend(a + [sep], b, seps);
    FreeOfAppend(a + [sep] + b, [sep], seps);
    FreeOfAppend(a + [sep] + b + [sep], c, seps);
  }

  /** `s.replace(/x/g, y)` for single characters. */
  function ReplaceAll(s: string, from: char, to: char): (r: string)
    ensures |r| == |s|
    ensures forall k :: 0 <= k < |s| ==> r[k] == (if s[k] == from then to else s[k])
  {
    if s == [] then [] else [if s[0] == from then to else s[0]] + ReplaceAll(s[1..], from, to)
  }

  /** `s.replace(x, y)` with a one-character string pattern: only the first
      occurrence is replaced. */
  function ReplaceFirst(s: string, from: char, to: char): (r: string)
    ensures |r| == |s|
    ensures forall k :: 0 <= k < |s| ==>
      r[k] == (if k == FirstIndexIn(s, {from}) then to else s[k])
  {
    if s == [] then []
    else if s[0] == from then [to] + s[1..]
    else [s[0]] + ReplaceFirst(s[1..], from, to)
  }

  /** String.prototype.padStart with a one-character fill. */
  function PadStart(s: string, len: nat, fill: char): (r: string)
    ensures |r| == if |s| >= len then |s| else len
    ensures r[|r| - |s|..] == s
    ensures forall k :: 0 <= k < |r| - |s| ==> r[k] == fill
    decreases len - |s|
  {
    if |s| >= len then s else PadStart([fill] + s, len, fill)
  }

  function LowerChar(c: char): char {
    if 'A' <= c <= 'Z' then ((c as int) + 32) as char else c
  }

  /** String.prototype.toLowerCase on the ASCII letters. */
  function ToLower(s: string): (r: string)
    ensures |r| == |s|
    ensures forall k :: 0 <= k < |s| ==> r[k] == LowerChar(s[k])
  {
    if s == [] then [] else [LowerChar(s[0])] + ToLower(s[1..])
  }

  /** Lower-casing a literal, character by character. */
  lemma {:induction false} LowerOf(s: string, t: string)
    requires |s| == |t| && forall k :: 0 <= k < |s| ==> LowerChar(s[k]) == t[k]
    ensures ToLower(s) == t
  {
  }

  /** `a < b` on strings: the first differing character decides, and a
      proper prefix comes first. */
  predicate LexLess(a: string, b: string) {
    if b == [] then false
    else if a == [] then true
    else if a[0] != b[0] then a[0] < b[0]
    else LexLess(a[1..], b[1..])
  }

  lemma {:induction false} LexLessIrreflexive(a: string)
    ensures !LexLess(a, a)
    decreases |a|
  {
    if a != [] {
      LexLessIrreflexive(a[1..]);
    }
  }

  /** Two different strings are ordered one way or the other. */
  lemma {:induction false} LexLessTotal(a: string, b: string)
    ensures a == b || LexLess(a, b) || LexLess(b, a)
    decreases |a|
  {
    if a != [] && b != [] && a[0] == b[0] {
      LexLessTotal(a[1..], b[1..]);
      if a[1..] == b[1..] {
        assert a == [a[0]] + a[1..] && b == [b[0]] + b[1..];
      }
    }
  }

  lemma {:induction false} LexLessTransitive(a: string, b: string, c: string)
    requires LexLess(a, b) && LexLess(b, c)
    ensures LexLess(a, c)
    decreases |a|
  {
    if a != [] && a[0] == b[0] && b[0] == c[0] {
      LexLessTransitive(a[1..], b[1..], c[1..]);
    }
  }

  // ---------------------------------------------------------------------
  // Numbers

  /** The value of c as a digit in the given radix (0-9, then a-z / A-Z). */
  function DigitIn(c: char, radix: nat): (r: Option<nat>)
    ensures r.Some? ==> r.value < radix
  {
    var v :=
      if '0' <= c <= '9' then (c as int) - 48
      else if 'a' <= c <= 'z' then (c as int) - 87
      else if 'A' <= c <= 'Z' then (c as int) - 55
      else 36;
    if v < radix then Some(v) else None
  }

  predicate AllDigits(s: string, radix: nat) {
    forall k :: 0 <= k < |s| ==> DigitIn(s[k], radix).Some?
  }

  /** Length of the longest prefix of s made of digits of the radix. */
  function LeadingDigits(s: string, radix: nat): (n: nat)
    ensures n <= |s|
    ensures AllDigits(s[..n], radix)
    ensures n < |s| ==> DigitIn(s[n], radix).None?
  {
    if s != [] && DigitIn(s[0], radix).Some? then
      var m := LeadingDigits(s[1..], radix);
      assert s[..m + 1] == [s[0]] + s[1..][..m];
      m + 1
    else 0
  }

  function DigitsValue(s: string, radix: nat): nat
    requires AllDigits(s, radix)
  {
    if s == [] then 0
    else DigitsValue(s[..|s| - 1], radix) * radix + DigitIn(s[|s| - 1], radix).value
  }

  function DigitChar(d: nat): (c: char)
    requires d < 10
    ensures DigitIn(c, 10) == Some(d)
  {
    (48 + d) as char
  }

  /** Number.prototype.toString() for a non-negative integer. */
  function NatToString(n: nat): (s: string)
    ensures |s| >= 1 && AllDigits(s, 10)
  {
    if n < 10 then [DigitChar(n)] else NatToString(n / 10) + [DigitChar(n % 10)]
  }

  /** Number.prototype.toString() for an integer. */
  function IntToString(n: int): string {
    if n < 0 then "-" + NatToString(-n) else NatToString(n)
  }

  lemma {:induction false} NatToStringValue(n: nat)
    ensures DigitsValue(NatToString(n), 10) == n
  {
    var s := NatToString(n);
    if n >= 10 {
      NatToStringValue(n / 10);
      assert s[..|s| - 1] == NatToString(n / 10);
    }
  }

  /** `n.toString().padStart(2, '0')`. */
  function Pad2(n: nat): (s: string)
    ensures |s| >= 2 && AllDigits(s, 10)
  {
    PadDigits(NatToString(n));
    PadStart(NatToString(n), 2, '0')
  }

  lemma {:induction false} PadDigits(digits: string)
    requires AllDigits(digits, 10)
    ensures AllDigits(PadStart(digits, 2, '0'), 10)
  {
    var s := PadStart(digits, 2, '0');
    forall k | 0 <= k < |s| ensures DigitIn(s[k], 10).Some? {
      if k < |s| - |digits| {
        assert s[k] == '0';
      } else {
        assert s[k] == s[|s| - |digits|..][k - (|s| - |digits|)];
      }
    }
  }

  lemma {:induction false} LeadingZeroValue(s: string)
    requires AllDigits(s, 10)
    ensures DigitsValue(['0'] + s, 10) == DigitsValue(s, 10)
    decreases |s|
  {
    var z := ['0'] + s;
    if s != [] {
      assert z[..|z| - 1] == ['0'] + s[..|s| - 1];
      LeadingZeroValue(s[..|s| - 1]);
    } else {
      assert z[..0] == [];
    }
  }

  /** The padded digits read back as the number. */
  lemma {:induction false} Pad2Value(n: nat)
    ensures DigitsValue(Pad2(n), 10) == n
    ensures n < 100 ==> |Pad2(n)| == 2
  {
    var digits := NatToString(n);
    NatToStringValue(n);
    if n < 10 {
      assert |digits| == 1;
      assert Pad2(n) == PadStart(['0'] + digits, 2, '0') == ['0'] + digits;
      LeadingZeroValue(digits);
    } else {
      assert digits == NatToString(n / 10) + [DigitChar(n % 10)];
      assert Pad2(n) == digits;
    }
  }

  /** parseInt(s) with no radix argument; None stands for NaN. Leading
      white space and one sign are skipped, a `0x` / `0X` prefix selects
      radix 16, and the longest run of digits that follows is read. */
  function ParseInt(s: string): Option<int> {
    var t := TrimStart(s);
    var signed := t != [] && (t[0] == '-' || t[0] == '+');
    match ParseUnsigned(if signed then t[1..] else t)
    case None => None
    case Some(v) => Some(if signed && t[0] == '-' then -(v as int) else v)
  }

  /** The digits part of parseInt, after white space and sign. */
  function ParseUnsigned(u: string): Option<nat> {
    var hex := StartsWith(u, "0x") || StartsWith(u, "0X");
    var radix := if hex then 16 else 10;
    var v := if hex then u[2..] else u;
    var n := LeadingDigits(v, radix);
    if n == 0 then None else Some(DigitsValue(v[..n], radix))
  }

  /** `parseInt(text) || 0`: NaN and zero both give 0. */
  function ParseIntOrZero(s: string): int {
    match ParseInt(s)
    case Some(n) => n
    case None => 0
  }

  lemma {:induction false} DecimalDigitChar(c: char)
    requires DigitIn(c, 10).Some?
    ensures '0' <= c <= '9'
  {
  }

  lemma {:induction false} ParseUnsignedOfDigits(u: string)
    requires |u| >= 1 && AllDigits(u, 10)
    ensures ParseUnsigned(u) == Some(DigitsValue(u, 10))
  {
    if |u| >= 2 {
      DecimalDigitChar(u[1]);
      assert u[..2][1] == u[1];
    }
    assert !StartsWith(u, "0x") && !StartsWith(u, "0X");
    assert LeadingDigits(u, 10) == |u|;
    assert u[..|u|] == u;
  }

  lemma {:induction false} TrimStartOfDigits(digits: string)
    requires |digits| >= 1 && AllDigits(digits, 10)
    ensures TrimStart(digits) == digits
  {
    DecimalDigitChar(digits[0]);
  }

  lemma {:induction false} TrimEndOfDigit(s: string)
    requires |s| >= 1 && DigitIn(s[|s| - 1], 10).Some?
    ensures TrimEnd(s) == s
  {
    DecimalDigitChar(s[|s| - 1]);
  }

  lemma {:induction false} TrimStartOfSigned(digits: string)
    ensures TrimStart("-" + digits) == "-" + digits
  {
  }

  lemma {:induction false} ParseIntOfDigits(digits: string)
    requires |digits| >= 1 && AllDigits(digits, 10)
    ensures ParseInt(digits) == Some(DigitsValue(digits, 10) as int)
  {
    ParseUnsignedOfDigits(digits);
    TrimStartOfDigits(digits);
    DecimalDigitChar(digits[0]);
  }

  lemma {:induction false} ParseIntOfNegative(digits: string)
    requires |digits| >= 1 && AllDigits(digits, 10)
    ensures ParseInt("-" + digits) == Some(-(DigitsValue(digits, 10) as int))
  {
    var t := "-" + digits;
    TrimStartOfSigned(digits);
    assert t[0] == '-' && t[1..] == digits;
    ParseUnsignedOfDigits(digits);
  }

  /** parseInt reads back what Number.prototype.toString writes. */
  lemma {:induction false} ParseIntOfDecimal(n: int)
    ensures ParseInt(IntToString(n)) == Some(n)
  {
    var m: nat := if n < 0 then -n else n;
    NatToStringValue(m);
    if n < 0 {
      ParseIntOfNegative(NatToString(m));
    } else {
      ParseIntOfDigits(NatToString(m));
    }
  }

  /** Number(s) for a string, on integral values: surrounding white space
      is ignored, the blank string is 0, a decimal literal may carry one
      sign, and `0x`/`0o`/`0b` literals (without sign) use radix 16, 8 or
      2. None stands for NaN. */
  function StringToNumber(s: string): Option<int> {
    NumericLiteral(Trim(s))
  }

  /** The value of a trimmed numeric literal. */
  function NumericLiteral(t: string): Option<int> {
    if t == [] then Some(0)
    else if |t| >= 3 && t[0] == '0' && t[1] in {'x', 'X', 'o', 'O', 'b', 'B'} then
      var radix := if t[1] in {'x', 'X'} then 16 else if t[1] in {'o', 'O'} then 8 else 2;
      if AllDigits(t[2..], radix) then Some(DigitsValue(t[2..], radix)) else None
    else if t[0] == '-' || t[0] == '+' then
      var u := t[1..];
      if u != [] && AllDigits(u, 10) then
        var value: int := DigitsValue(u, 10);
        Some(if t[0] == '-' then -value else value)
      else None
    else if AllDigits(t, 10) then Some(DigitsValue(t, 10))
    else None
  }

  lemma {:induction false} NumericLiteralOfDigits(digits: string)
    requires |digits| >= 1 && AllDigits(digits, 10)
    ensures NumericLiteral(digits) == Some(DigitsValue(digits, 10))
    ensures NumericLiteral("-" + digits) == Some(-(DigitsValue(digits, 10) as int))
  {
    DecimalDigitChar(digits[0]);
    if |digits| >= 2 {
      DecimalDigitChar(digits[1]);
    }
    assert ("-" + digits)[1..] == digits;
  }

  /** Number() reads back what Number.prototype.toString writes. */
  lemma {:induction false} StringToNumberOfDecimal(n: int)
    ensures StringToNumber(IntToString(n)) == Some(n)
  {
    var m: nat := if n < 0 then -n else n;
    var digits := NatToString(m);
    NatToStringValue(m);
    NumericLiteralOfDigits(digits);
    TrimStartOfDigits(digits);
    if n < 0 {
      var s := "-" + digits;
      TrimStartOfSigned(digits);
      assert s[|s| - 1] == digits[|digits| - 1];
      TrimEndOfDigit(s);
    } else {
      TrimEndOfDigit(digits);
    }
  }
  // ---------------------------------------------------------------------
  // Facts about digit strings

  /** A digit string holds none of a set of non-digit characters. */
  lemma {:induction false} DigitsFree(s: string, seps: set<char>)
    requires AllDigits(s, 10)
    requires forall c :: c in seps ==> !('0' <= c <= '9')
    ensures FreeOf(s, seps)
  {
    forall k | 0 <= k < |s| ensures s[k] !in seps {
      DecimalDigitChar(s[k]);
    }
  }

  /** Number() reads a zero-padded number back. */
  lemma {:induction false} StringToNumberOfPad2(n: nat)
    ensures StringToNumber(Pad2(n)) == Some(n)
  {
    var s := Pad2(n);
    Pad2Value(n);
    TrimStartOfDigits(s);
    TrimEndOfDigit(s);
    NumericLiteralOfDigits(s);
  }

  /** Four-digit numbers print as four characters. */
  lemma {:induction false} NatToStringLength4(n: nat)
    requires 1000 <= n <= 9999
    ensures |NatToString(n)| == 4
  {
    assert |NatToString(n / 1000)| == 1;
    assert |NatToString(n / 100)| == 2 by {
      assert NatToString(n / 100) == NatToString(n / 100 / 10) + [DigitChar(n / 100 % 10)];
      assert n / 100 / 10 == n / 1000;
    }
    assert |NatToString(n / 10)| == 3 by {
      assert NatToString(n / 10) == NatToString(n / 10 / 10) + [DigitChar(n / 10 % 10)];
      assert n / 10 / 10 == n / 100;
    }
  }

  /** Comparing two strings whose first parts have the same length: the
      first parts decide unless they are equal. */
  lemma {:induction false} LexLessAppend(x: string, y: string, x': string, y': string)
    requires |x| == |x'|
    ensures LexLess(x + y, x' + y') <==> LexLess(x, x') || (x == x' && LexLess(y, y'))
    decreases |x|
  {
    if x == [] {
      assert x + y == y && x' + y' == y';
    } else {
      assert (x + y)[0] == x[0] && (x' + y')[0] == x'[0];
      assert (x + y)[1..] == x[1..] + y && (x' + y')[1..] == x'[1..] + y';
      LexLessAppend(x[1..], y, x'[1..], y');
      if x[0] == x'[0] && x[1..] == x'[1..] {
        assert x == [x[0]] + x[1..] && x' == [x'[0]] + x'[1..];
      }
      if x == x' {
        assert x[1..] == x'[1..];
      }
    }
  }

  lemma {:induction false} ValueStep(p: nat, q: nat, c: nat, d: nat)
    requires c < 10 && d < 10
    ensures p * 10 + c < q * 10 + d <==> p < q || (p == q && c < d)
    ensures p * 10 + c == q * 10 + d <==> p == q && c == d
  {
    if p < q {
      assert p * 10 + c < (p + 1) * 10 <= q * 10;
    } else if q < p {
      assert q * 10 + d < (q + 1) * 10 <= p * 10;
    }
  }

  /** On digit strings of one length, string order is numeric order. */
  lemma {:induction false} DigitsOrder(s: string, t: string)
    requires |s| == |t| && AllDigits(s, 10) && AllDigits(t, 10)
    ensures LexLess(s, t) <==> DigitsValue(s, 10) < DigitsValue(t, 10)
    ensures s == t <==> DigitsValue(s, 10) == DigitsValue(t, 10)
    decreases |s|
  {
    if s != [] {
      var n := |s| - 1;
      var s', t' := s[..n], t[..n];
      DigitsOrder(s', t');
      assert s == s' + [s[n]] && t == t' + [t[n]];
      LexLessAppend(s', [s[n]], t', [t[n]]);
      var c, d := DigitIn(s[n], 10).value, DigitIn(t[n], 10).value;
      DecimalDigitChar(s[n]);
      DecimalDigitChar(t[n]);
      assert LexLess([s[n]], [t[n]]) <==> c < d;
      assert s[n] == t[n] <==> c == d;
      ValueStep(DigitsValue(s', 10), DigitsValue(t', 10), c, d);
    }
  }
}
