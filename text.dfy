/**
 * The JavaScript string primitives the handlers and the date helpers rely on:
 * decimal printing (`String(n)`, `padStart`), `parseInt(s, 10)`, `split`,
 * `trim`, and the quoting `JSON.stringify` applies to a string.
 */
module Text {
  import opened Wrappers

  /** JavaScript truthiness of a request field that is absent or a string. */
  predicate Truthy(v: Option<string>) {
    v.Some? && v.value != ""
  }

  predicate IsDigit(c: char) {
    '0' <= c <= '9'
  }

  predicate AllDigits(s: string) {
    forall i | 0 <= i < |s| :: IsDigit(s[i])
  }

  function DigitValue(c: char): (n: nat)
    requires IsDigit(c)
    ensures n < 10
  {
    c as int - '0' as int
  }

  function DigitChar(n: nat): (c: char)
    requires n < 10
    ensures IsDigit(c) && DigitValue(c) == n
  {
    ('0' as int + n) as char
  }

  /** The base-10 value of a string of digits, read left to right. */
  function DigitsValue(s: string): nat
    requires AllDigits(s)
  {
    if s == [] then 0 else DigitsValue(s[..|s| - 1]) * 10 + DigitValue(s[|s| - 1])
  }

  /** `String(n)` for a non-negative integer: its decimal digits, no leading zero. */
  function NatToString(n: nat): (s: string)
    ensures AllDigits(s) && |s| >= 1
    ensures n >= 10 ==> s[0] != '0'
  {
    if n < 10 then [DigitChar(n)] else NatToString(n / 10) + [DigitChar(n % 10)]
  }

  /** `String(i)` for any integer. */
  function IntToString(i: int): (s: string)
    ensures i >= 0 ==> AllDigits(s)
    ensures i < 0 ==> |s| >= 2 && s[0] == '-'
  {
    if i < 0 then "-" + NatToString(-i) else NatToString(i)
  }

  lemma {:induction false} NatToStringValue(n: nat)
    ensures DigitsValue(NatToString(n)) == n
    ensures n < 10 ==> |NatToString(n)| == 1
    ensures n < 100 ==> |NatToString(n)| <= 2
  {
    var s := NatToString(n);
    if n < 10 {
      assert s[..|s| - 1] == [];
    } else {
      NatToStringValue(n / 10);
      assert s[..|s| - 1] == NatToString(n / 10);
    }
  }

  lemma {:induction false} DigitsValueNoLeadingZero(s: string)
    requires AllDigits(s) && |s| >= 1 && s[0] != '0'
    ensures DigitsValue(s) >= 1
    ensures |s| >= 2 ==> DigitsValue(s) >= 10
    ensures DigitsValue(s) >= Pow10(|s| - 1)
  {
    if |s| >= 2 {
      DigitsValueNoLeadingZero(s[..|s| - 1]);
    } else {
      assert s[..0] == [];
    }
  }

  /** Printing the value of a digit string without a leading zero gives the string back. */
  lemma {:induction false} NatToStringOfDigits(s: string)
    requires AllDigits(s) && |s| >= 1 && (s[0] != '0' || |s| == 1)
    ensures NatToString(DigitsValue(s)) == s
  {
    var n := DigitsValue(s);
    var last := s[|s| - 1];
    if |s| == 1 {
      assert s[..0] == [];
      assert DigitsValue(s[..0]) == 0;
      assert n == DigitValue(last);
      assert DigitChar(DigitValue(last)) == last;
    } else {
      var p := s[..|s| - 1];
      DigitsValueNoLeadingZero(p);
      NatToStringOfDigits(p);
      assert n / 10 == DigitsValue(p) && n % 10 == DigitValue(last);
      assert DigitChar(DigitValue(last)) == last;
      assert s == p + [last];
    }
  }

  lemma {:induction false} LeadingZeroValue(t: string)
    requires AllDigits(t)
    ensures AllDigits("0" + t) && DigitsValue("0" + t) == DigitsValue(t)
  {
    var u := "0" + t;
    if t == [] {
      assert u[..0] == [];
    } else {
      LeadingZeroValue(t[..|t| - 1]);
      assert u[..|u| - 1] == "0" + t[..|t| - 1];
    }
  }

  function Repeat(c: char, n: nat): (s: string)
    ensures |s| == n
    ensures forall i | 0 <= i < n :: s[i] == c
  {
    if n == 0 then [] else [c] + Repeat(c, n - 1)
  }

  /** `s.padStart(width, fill)` with a one-character filler. */
  function PadStart(s: string, width: nat, fill: char): (r: string)
    ensures |r| == if |s| >= width then |s| else width
    ensures r[|r| - |s|..] == s
    ensures forall i | 0 <= i < |r| - |s| :: r[i] == fill
  {
    if |s| >= width then s else Repeat(fill, width - |s|) + s
  }

  /** Zero-padding the printed value of a digit string to its own width gives it back. */
  lemma {:induction false} PaddedDigitsRoundTrip(s: string)
    requires AllDigits(s) && |s| >= 1
    ensures PadStart(NatToString(DigitsValue(s)), |s|, '0') == s
  {
    if s[0] != '0' || |s| == 1 {
      NatToStringOfDigits(s);
    } else {
      var t := s[1..];
      assert s == "0" + t;
      LeadingZeroValue(t);
      PaddedDigitsRoundTrip(t);
      var x := NatToString(DigitsValue(t));
      assert DigitsValue(s) == DigitsValue(t);
      assert |x| <= |t|;
      PadOneMore(x, |t|, '0');
    }
  }

  /** Padding to one more place puts one more filler in front. */
  lemma PadOneMore(x: string, width: nat, fill: char)
    requires |x| <= width
    ensures PadStart(x, width + 1, fill) == [fill] + PadStart(x, width, fill)
  {
    assert Repeat(fill, width + 1 - |x|) == [fill] + Repeat(fill, width - |x|);
  }

  function Pow10(k: nat): (p: nat)
    ensures p >= 1
  {
    if k == 0 then 1 else 10 * Pow10(k - 1)
  }

  lemma {:induction false} NatToStringLength(n: nat, k: nat)
    requires k >= 1 && n < Pow10(k)
    ensures |NatToString(n)| <= k
  {
    if n >= 10 {
      assert Pow10(1) == 10;
      NatToStringLength(n / 10, k - 1);
    }
  }

  lemma {:induction false} NatToStringLengthExact(n: nat, k: nat)
    requires k >= 1 && Pow10(k - 1) <= n < Pow10(k)
    ensures |NatToString(n)| == k
  {
    if k > 1 {
      assert Pow10(k - 1) == 10 * Pow10(k - 2);
      NatToStringLengthExact(n / 10, k - 1);
    }
  }

  lemma {:induction false} ZerosValue(k: nat, s: string)
    requires AllDigits(s)
    ensures AllDigits(Repeat('0', k) + s) && DigitsValue(Repeat('0', k) + s) == DigitsValue(s)
  {
    if k == 0 {
      assert Repeat('0', k) + s == s;
    } else {
      ZerosValue(k - 1, s);
      assert Repeat('0', k) + s == "0" + (Repeat('0', k - 1) + s);
      LeadingZeroValue(Repeat('0', k - 1) + s);
    }
  }

  /** A number below 10^width, printed and zero-padded to `width`, fills exactly `width` digits and reads back as itself. */
  lemma PaddedValue(n: nat, width: nat)
    requires width >= 1 && n < Pow10(width)
    ensures AllDigits(PadStart(NatToString(n), width, '0'))
    ensures |PadStart(NatToString(n), width, '0')| == width
    ensures DigitsValue(PadStart(NatToString(n), width, '0')) == n
  {
    NatToStringValue(n);
    NatToStringLength(n, width);
    var s := NatToString(n);
    var padded := PadStart(s, width, '0');
    assert padded == Repeat('0', width - |s|) + s;
    ZerosValue(width - |s|, s);
    assert |padded| == width;
  }

  /** `String(n).padStart(width, '0')` for a number that fits: exactly `width` digits that read back as `n`. */
  function Padded(n: nat, width: nat): (r: string)
    requires width >= 1 && n < Pow10(width)
    ensures |r| == width && AllDigits(r) && DigitsValue(r) == n
  {
    PaddedValue(n, width);
    PadStart(NatToString(n), width, '0')
  }

  /** The white space `trim` and `parseInt` skip: the ECMAScript WhiteSpace and LineTerminator code points. */
  predicate IsJsSpace(c: char) {
    var n := c as int;
    || 0x09 <= n <= 0x0D || n == 0x20 || n == 0xA0 || n == 0x1680
    || 0x2000 <= n <= 0x200A || n == 0x2028 || n == 0x2029 || n == 0x202F
    || n == 0x205F || n == 0x3000 || n == 0xFEFF
  }

  function TrimStart(s: string): (r: string)
    ensures |r| <= |s| && r == s[|s| - |r|..]
    ensures forall i | 0 <= i < |s| - |r| :: IsJsSpace(s[i])
    ensures r != [] ==> !IsJsSpace(r[0])
  {
    if s != [] && IsJsSpace(s[0]) then TrimStart(s[1..]) else s
  }

  function TrimEnd(s: string): (r: string)
    ensures |r| <= |s| && r == s[..|r|]
    ensures forall i | |r| <= i < |s| :: IsJsSpace(s[i])
    ensures r != [] ==> !IsJsSpace(r[|r| - 1])
  {
    if s != [] && IsJsSpace(s[|s| - 1]) then TrimEnd(s[..|s| - 1]) else s
  }

  /** `s.trim()`: the middle of `s` once the white space at both ends is cut off. */
  function Trim(s: string): (r: string)
    ensures exists i, j | 0 <= i <= j <= |s| ::
      && r == s[i..j]
      && (forall k | 0 <= k < i :: IsJsSpace(s[k]))
      && (forall k | j <= k < |s| :: IsJsSpace(s[k]))
    ensures r != [] ==> !IsJsSpace(r[0]) && !IsJsSpace(r[|r| - 1])
    ensures r == [] <==> forall k | 0 <= k < |s| :: IsJsSpace(s[k])
  {
    var front := TrimStart(s);
    var r := TrimEnd(front);
    CutBothEnds(s, front, r);
    r
  }

  /** Cutting white space off the front of `s`, then off the back of what is left. */
  lemma CutBothEnds(s: string, front: string, r: string)
    requires |front| <= |s| && front == s[|s| - |front|..]
    requires forall k | 0 <= k < |s| - |front| :: IsJsSpace(s[k])
    requires front != [] ==> !IsJsSpace(front[0])
    requires |r| <= |front| && r == front[..|r|]
    requires forall k | |r| <= k < |front| :: IsJsSpace(front[k])
    requires r != [] ==> !IsJsSpace(r[|r| - 1])
    ensures exists i, j | 0 <= i <= j <= |s| ::
      && r == s[i..j]
      && (forall k | 0 <= k < i :: IsJsSpace(s[k]))
      && (forall k | j <= k < |s| :: IsJsSpace(s[k]))
    ensures r != [] ==> !IsJsSpace(r[0]) && !IsJsSpace(r[|r| - 1])
    ensures r == [] <==> forall k | 0 <= k < |s| :: IsJsSpace(s[k])
  {
    var i := |s| - |front|;
    var j := i + |r|;
    forall k | j <= k < |s|
      ensures IsJsSpace(s[k])
    {
      assert s[k] == front[k - i];
    }
    assert r == s[i..j];
    if r != [] {
      assert r[0] == front[0] == s[i];
    }
  }

  /** The longest prefix of `s` made of digits. */
  function DigitPrefix(s: string): (r: string)
    ensures AllDigits(r) && |r| <= |s| && r == s[..|r|]
    ensures |r| < |s| ==> !IsDigit(s[|r|])
  {
    if s != [] && IsDigit(s[0]) then [s[0]] + DigitPrefix(s[1..]) else []
  }

  /**
   * `parseInt(s, 10)`: leading white space, an optional sign, then the longest run
   * of digits; `None` stands for NaN, the result when no digit follows.
   */
  function ParseIntJs(s: string): Option<int> {
    var t := TrimStart(s);
    var signed := t != [] && (t[0] == '-' || t[0] == '+');
    var digits := DigitPrefix(if signed then t[1..] else t);
    var magnitude: int := if digits == [] then 0 else DigitsValue(digits);
    if digits == [] then None
    else if signed && t[0] == '-' then Some(-magnitude)
    else Some(magnitude)
  }

  lemma {:induction false} DigitPrefixOfDigits(s: string)
    requires AllDigits(s)
    ensures DigitPrefix(s) == s
  {
    if s != [] {
      DigitPrefixOfDigits(s[1..]);
    }
  }

  lemma ParseIntOfDigits(s: string)
    requires AllDigits(s) && |s| >= 1
    ensures ParseIntJs(s) == Some(DigitsValue(s))
  {
    assert IsDigit(s[0]);
    assert !IsJsSpace(s[0]) && s[0] != '-' && s[0] != '+';
    assert TrimStart(s) == s;
    DigitPrefixOfDigits(s);
  }

  /** The index of the first `c` in `s`, or `|s|` when there is none. */
  function IndexOf(s: string, c: char): (i: nat)
    ensures i <= |s|
    ensures i < |s| ==> s[i] == c
    ensures forall k | 0 <= k < i :: s[k] != c
  {
    if s == [] || s[0] == c then 0 else 1 + IndexOf(s[1..], c)
  }

  /** `s.split(sep)` with a one-character separator. */
  function Split(s: string, sep: char): (parts: seq<string>)
    ensures |parts| >= 1
    ensures forall i | 0 <= i < |parts| :: sep !in parts[i]
    decreases |s|
  {
    var i := IndexOf(s, sep);
    if i == |s| then [s] else [s[..i]] + Split(s[i + 1..], sep)
  }

  /** `parts.join(sep)`. */
  function Join(parts: seq<string>, sep: char): string {
    if |parts| == 0 then ""
    else if |parts| == 1 then parts[0]
    else parts[0] + [sep] + Join(parts[1..], sep)
  }

  lemma {:induction false} JoinSplit(s: string, sep: char)
    ensures Join(Split(s, sep), sep) == s
    decreases |s|
  {
    var i := IndexOf(s, sep);
    if i < |s| {
      var tail := Split(s[i + 1..], sep);
      var parts := [s[..i]] + tail;
      assert Split(s, sep) == parts;
      assert parts[1..] == tail;
      assert Join(parts, sep) == s[..i] + [sep] + Join(tail, sep);
      JoinSplit(s[i + 1..], sep);
      assert s == s[..i] + [sep] + s[i + 1..];
    }
  }

  lemma {:induction false} SplitJoin(parts: seq<string>, sep: char)
    requires |parts| >= 1
    requires forall i | 0 <= i < |parts| :: sep !in parts[i]
    ensures Split(Join(parts, sep), sep) == parts
  {
    var s := Join(parts, sep);
    var p0 := parts[0];
    if |parts| == 1 {
      assert IndexOf(s, sep) == |s|;
    } else {
      var rest := Join(parts[1..], sep);
      assert s == p0 + [sep] + rest;
      assert s[|p0|] == sep;
      assert IndexOf(s, sep) == |p0|;
      assert s[..|p0|] == p0 && s[|p0| + 1..] == rest;
      SplitJoin(parts[1..], sep);
    }
  }

  /** `s.split(',').map(x => x.trim())`. */
  function SplitTrim(s: string): (r: seq<string>)
    ensures |r| == |Split(s, ',')|
    ensures forall i | 0 <= i < |r| :: ',' !in r[i]
    ensures forall i | 0 <= i < |r| :: r[i] == Trim(Split(s, ',')[i])
  {
    var parts := Split(s, ',');
    seq(|parts|, i requires 0 <= i < |parts| => Trim(parts[i]))
  }

  function JsonEscape(s: string): string {
    if s == [] then []
    else (if s[0] == '"' then "\\\"" else if s[0] == '\\' then "\\\\" else [s[0]]) + JsonEscape(s[1..])
  }

  /** `JSON.stringify` of a string (only the quote and the backslash are escaped here). */
  function JsonString(s: string): string {
    "\"" + JsonEscape(s) + "\""
  }
}
