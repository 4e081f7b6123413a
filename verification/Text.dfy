/** The text operations the protocol code relies on: byte order, decimal numbers, hex and splitting. */
module Text {
  import opened Base

  // ---------- lexicographic order (`str` comparison in Rust, BINARY collation in SQLite) ----------

  predicate Less(a: string, b: string) {
    if b == "" then false
    else if a == "" then true
    else a[0] < b[0] || (a[0] == b[0] && Less(a[1..], b[1..]))
  }

  lemma {:induction false} LessIrreflexive(a: string)
    ensures !Less(a, a)
  {
    if a != "" {
      LessIrreflexive(a[1..]);
    }
  }

  lemma {:induction false} LessTransitive(a: string, b: string, c: string)
    requires Less(a, b) && Less(b, c)
    ensures Less(a, c)
  {
    if a != "" && a[0] == b[0] == c[0] {
      LessTransitive(a[1..], b[1..], c[1..]);
    }
  }

  lemma {:induction false} LessTotal(a: string, b: string)
    ensures Less(a, b) || a == b || Less(b, a)
  {
    if a != "" && b != "" && a[0] == b[0] {
      LessTotal(a[1..], b[1..]);
      assert a == [a[0]] + a[1..] && b == [b[0]] + b[1..];
    }
  }

  /** Up to position `k` the texts agree; there `a` ends, or has the smaller character. */
  predicate PrecedesAt(a: string, b: string, k: nat) {
    k <= |a| && k < |b| && a[..k] == b[..k] && (k == |a| || a[k] < b[k])
  }

  /** What `Less` means: the first difference decides, and a proper prefix comes first. */
  lemma {:induction false} LessIff(a: string, b: string)
    ensures Less(a, b) <==> exists k: nat :: PrecedesAt(a, b, k)
  {
    if a == "" || b == "" || a[0] != b[0] {
      assert b != "" && (a == "" || a[0] < b[0]) ==> PrecedesAt(a, b, 0);
    } else {
      LessIff(a[1..], b[1..]);
      if k: nat :| PrecedesAt(a[1..], b[1..], k) {
        assert a[..k + 1] == [a[0]] + a[1..][..k] && b[..k + 1] == [b[0]] + b[1..][..k];
        assert PrecedesAt(a, b, k + 1);
      }
      if k: nat :| PrecedesAt(a, b, k) {
        assert k > 0 && a[1..][..k - 1] == a[..k][1..] && b[1..][..k - 1] == b[..k][1..];
        assert PrecedesAt(a[1..], b[1..], k - 1);
      }
    }
  }

  // ---------- decimal numbers ----------

  predicate IsDigit(c: char) {
    '0' <= c <= '9'
  }

  predicate AllDigits(s: string) {
    forall i :: 0 <= i < |s| ==> IsDigit(s[i])
  }

  function DigitValue(c: char): nat
    requires IsDigit(c)
  {
    c as int - '0' as int
  }

  function DigitChar(d: nat): (c: char)
    requires d < 10
    ensures IsDigit(c) && DigitValue(c) == d
  {
    (d + '0' as int) as char
  }

  function DecimalValue(s: string): nat
    requires AllDigits(s)
  {
    if s == "" then 0 else 10 * DecimalValue(s[..|s| - 1]) + DigitValue(s[|s| - 1])
  }

  /** `to_string` of an unsigned number. */
  function Decimal(n: nat): (s: string)
    ensures s != "" && AllDigits(s) && DecimalValue(s) == n
  {
    if n < 10 then [DigitChar(n)]
    else
      var front := Decimal(n / 10);
      var s := front + [DigitChar(n % 10)];
      assert s[..|s| - 1] == front;
      s
  }

  /** `{n:0width$}`: decimal digits, padded with zeros on the left. */
  function Padded(n: nat, width: nat): (s: string)
    ensures s != "" && AllDigits(s) && DecimalValue(s) == n
  {
    PadLeft(Decimal(n), width)
  }

  function PadLeft(s: string, width: nat): (r: string)
    requires AllDigits(s)
    ensures AllDigits(r) && DecimalValue(r) == DecimalValue(s)
    ensures |r| == if |s| < width then width else |s|
    decreases width - |s|
  {
    if |s| >= width then s
    else
      LeadingZero(s);
      PadLeft("0" + s, width)
  }

  lemma {:induction false} LeadingZero(s: string)
    requires AllDigits(s)
    ensures AllDigits("0" + s) && DecimalValue("0" + s) == DecimalValue(s)
  {
    if s == "" {
      assert "0"[..0] == "";
      assert "0" + s == "0";
    } else {
      assert ("0" + s)[..|s|] == "0" + s[..|s| - 1];
      LeadingZero(s[..|s| - 1]);
    }
  }

  function StripPlus(s: string): string {
    if s != "" && s[0] == '+' then s[1..] else s
  }

  /** `parse::<u64>`: an optional plus sign, at least one digit, no overflow. */
  function ParseU64(s: string): Option<u64> {
    var digits := StripPlus(s);
    if digits == "" || !AllDigits(digits) then None
    else
      var n := DecimalValue(digits);
      if n > U64_MAX then None else Some(n)
  }

  /** `parse::<i64>`: an optional sign, at least one digit, no overflow in either direction. */
  function ParseI64(s: string): Option<int> {
    var negative := s != "" && s[0] == '-';
    var digits := if negative then s[1..] else StripPlus(s);
    if digits == "" || !AllDigits(digits) then None
    else
      var magnitude: int := DecimalValue(digits);
      var n := if negative then -magnitude else magnitude;
      if -I64_MAX - 1 <= n <= I64_MAX then Some(n) else None
  }

  lemma ParseDigits(s: string)
    requires s != "" && AllDigits(s)
    ensures DecimalValue(s) <= U64_MAX ==> ParseU64(s) == Some(DecimalValue(s))
    ensures DecimalValue(s) <= I64_MAX ==> ParseI64(s) == Some(DecimalValue(s))
  {
    assert IsDigit(s[0]);
  }

  /** `digits` are decimal digits, at least one, worth `n`. */
  predicate Spells(digits: string, n: nat) {
    digits != "" && AllDigits(digits) && DecimalValue(digits) == n
  }

  /** What is read as `n`: its digits, with or without a plus sign. */
  lemma ParseU64Iff(s: string, n: u64)
    ensures ParseU64(s) == Some(n) <==> Spells(s, n) || (s != "" && s[0] == '+' && Spells(s[1..], n))
  {
  }

  /** What is read as a signed 64-bit number: its digits with or without a plus sign, or those of its negative after a
      minus. */
  lemma ParseI64Iff(s: string, n: int)
    ensures ParseI64(s) == Some(n) <==>
      && -I64_MAX - 1 <= n <= I64_MAX
      && (|| (n >= 0 && (Spells(s, n) || (s != "" && s[0] == '+' && Spells(s[1..], n))))
          || (n <= 0 && s != "" && s[0] == '-' && Spells(s[1..], -n)))
  {
  }

  // ---------- hexadecimal identifiers ----------

  predicate IsLowerHexDigit(c: char) {
    '0' <= c <= '9' || 'a' <= c <= 'f'
  }

  function LowerAscii(c: char): char {
    if 'A' <= c <= 'Z' then (c as int - 'A' as int + 'a' as int) as char else c
  }

  /** The 26 capital letters move 32 places up; nothing else moves. */
  lemma LowerAsciiIff(c: char, d: char)
    ensures LowerAscii(c) == d <==>
      if 65 <= c as int && c as int < 65 + 26 then d as int == c as int + 32 else d == c
  {
  }

  function LowerAsciiString(s: string): (r: string)
    ensures |r| == |s|
    ensures forall i :: 0 <= i < |s| ==> r[i] == LowerAscii(s[i])
  {
    seq(|s|, i requires 0 <= i < |s| => LowerAscii(s[i]))
  }

  /** The canonical text of 32 bytes: 64 lower-case hex digits. Ids and keys are identified with it. */
  predicate IsHex32(s: string) {
    |s| == 64 && forall i :: 0 <= i < |s| ==> IsLowerHexDigit(s[i])
  }

  const ZERO_HEX: string := seq(64, _ => '0')

  type Hex32 = s: string | IsHex32(s) witness ZERO_HEX

  /** `from_hex`: decodes either letter case into the same 32 bytes. */
  function FromHex(s: string): (r: Option<Hex32>)
    ensures IsHex32(s) ==> r == Some(s)
  {
    var lower := LowerAsciiString(s);
    assert IsHex32(s) ==> lower == s;
    if IsHex32(lower) then Some(lower) else None
  }

  /** `c` is the lower-case hex digit `d`, in either letter case. */
  predicate IsHexDigit(c: char, d: char) {
    ('0' <= d <= '9' || 'a' <= d <= 'f') && (c == d || ('a' <= d && c as int + 32 == d as int))
  }

  /** 64 hex digits are read, in either letter case, and nothing else is. */
  lemma FromHexIff(s: string, h: Hex32)
    ensures FromHex(s) == Some(h) <==> |s| == 64 && forall i :: 0 <= i < 64 ==> IsHexDigit(s[i], h[i])
  {
    if |s| == 64 && forall i :: 0 <= i < 64 ==> IsHexDigit(s[i], h[i]) {
      assert LowerAsciiString(s) == h;
    }
    if FromHex(s) == Some(h) {
      forall i | 0 <= i < 64 ensures IsHexDigit(s[i], h[i]) {
        assert IsLowerHexDigit(h[i]);
      }
    }
  }

  // ---------- splitting ----------

  /** `split_once`: the text before and after the first separator. */
  function SplitOnce(s: string, c: char): (r: Option<(string, string)>)
    ensures r.Some? ==> s == r.value.0 + [c] + r.value.1 && c !in r.value.0
    ensures r.None? <==> c !in s
  {
    if s == "" then None
    else if s[0] == c then
      assert s == "" + [c] + s[1..];
      Some(("", s[1..]))
    else
      match SplitOnce(s[1..], c)
      case None => None
      case Some(parts) =>
        assert s == [s[0]] + s[1..];
        Some(([s[0]] + parts.0, parts.1))
  }

  lemma {:induction false} SplitOnceAt(before: string, c: char, after: string)
    requires c !in before
    ensures SplitOnce(before + [c] + after, c) == Some((before, after))
  {
    var s := before + [c] + after;
    if before == "" {
      assert s[1..] == after;
    } else {
      assert s[0] == before[0] && before[0] in before;
      assert s[1..] == before[1..] + [c] + after;
      SplitOnceAt(before[1..], c, after);
      assert before == [before[0]] + before[1..];
    }
  }

  /** `split`: every piece between separators; always at least one piece. */
  function Split(s: string, c: char): (r: seq<string>)
    ensures |r| >= 1
    decreases |s|
  {
    match SplitOnce(s, c)
    case None => [s]
    case Some(parts) => [parts.0] + Split(parts.1, c)
  }

  lemma SplitHead(before: string, c: char, after: string)
    requires c !in before
    ensures Split(before + [c] + after, c) == [before] + Split(after, c)
  {
    SplitOnceAt(before, c, after);
  }

  lemma DigitsAvoid(s: string, c: char)
    requires AllDigits(s) && !IsDigit(c)
    ensures c !in s
  {
  }

  // ---------- whitespace ----------

  /** Unicode `White_Space`, as `char::is_whitespace` decides it. */
  predicate IsWhitespace(c: char) {
    '\t' <= c <= '\r' || c == ' ' || c == '\U{85}' || c == '\U{A0}' || c == '\U{1680}' ||
    '\U{2000}' <= c <= '\U{200A}' || c == '\U{2028}' || c == '\U{2029}' || c == '\U{202F}' ||
    c == '\U{205F}' || c == '\U{3000}'
  }

  /** The code points with the Unicode property `White_Space`. */
  lemma WhitespaceIff(c: char)
    ensures IsWhitespace(c) <==> c as int in {
      0x9, 0xA, 0xB, 0xC, 0xD, 0x20, 0x85, 0xA0, 0x1680, 0x2000, 0x2001, 0x2002, 0x2003, 0x2004, 0x2005, 0x2006,
      0x2007, 0x2008, 0x2009, 0x200A, 0x2028, 0x2029, 0x202F, 0x205F, 0x3000}
  {
  }

  /** `s` is `core` between texts of nothing but whitespace. */
  predicate Surrounds(before: string, core: string, after: string, s: string) {
    && s == before + core + after
    && (forall c :: c in before ==> IsWhitespace(c)) && forall c :: c in after ==> IsWhitespace(c)
  }

  lemma SurroundsMore(before: string, core: string, after: string, s: string, c: char)
    requires Surrounds(before, core, after, s) && IsWhitespace(c)
    ensures Surrounds([c] + before, core, after, [c] + s) && Surrounds(before, core, after + [c], s + [c])
  {
    assert [c] + s == [c] + before + core + after && s + [c] == before + core + (after + [c]);
  }

  /** What trimming takes away is whitespace at either end. */
  lemma {:induction false} TrimTakesWhitespace(s: string) returns (before: string, after: string)
    ensures Surrounds(before, Trim(s), after, s)
    decreases |s|
  {
    before, after := "", "";
    assert s == "" + s + "";
    if s != "" && IsWhitespace(s[0]) {
      before, after := TrimTakesWhitespace(s[1..]);
      assert s == [s[0]] + s[1..];
      SurroundsMore(before, Trim(s), after, s[1..], s[0]);
      before := [s[0]] + before;
    } else if s != "" && IsWhitespace(s[|s| - 1]) {
      before, after := TrimTakesWhitespace(s[..|s| - 1]);
      assert s == s[..|s| - 1] + [s[|s| - 1]];
      SurroundsMore(before, Trim(s), after, s[..|s| - 1], s[|s| - 1]);
      after := after + [s[|s| - 1]];
    }
  }

  /** `str::trim`. */
  function Trim(s: string): (r: string)
    ensures r != "" ==> !IsWhitespace(r[0]) && !IsWhitespace(r[|r| - 1])
    decreases |s|
  {
    if s == "" then ""
    else if IsWhitespace(s[0]) then Trim(s[1..])
    else if IsWhitespace(s[|s| - 1]) then Trim(s[..|s| - 1])
    else s
  }
}
