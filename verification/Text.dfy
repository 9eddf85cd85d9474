/** Strings as the system reads and writes them: decimal integers, splitting on a
    delimiter, trimming. A string is its UTF-8 bytes, one character per byte. */
module Text {
  import opened Basics

  const I64_MIN: int := -0x8000_0000_0000_0000
  const I64_MAX: int := 0x7fff_ffff_ffff_ffff

  predicate FitsI64(v: int) {
    I64_MIN <= v <= I64_MAX
  }

  predicate FitsI32(v: int) {
    -0x8000_0000 <= v <= 0x7fff_ffff
  }

  /** A wider integer cut down to 32 bits. */
  function AsI32(v: int): (r: int)
    ensures FitsI32(r)
    ensures FitsI32(v) ==> r == v
  {
    (v + 0x8000_0000) % 0x1_0000_0000 - 0x8000_0000
  }

  // --- Decimal integers. ---

  predicate IsDigit(c: char) {
    '0' <= c <= '9'
  }

  function DigitChar(d: nat): (c: char)
    requires d < 10
    ensures IsDigit(c) && c as int - '0' as int == d
  {
    ('0' as int + d) as char
  }

  predicate AllDigits(s: string) {
    forall i :: 0 <= i < |s| ==> IsDigit(s[i])
  }

  function NatText(n: nat): (s: string)
    ensures s != "" && AllDigits(s)
  {
    if n < 10 then [DigitChar(n)] else NatText(n / 10) + [DigitChar(n % 10)]
  }

  function IntText(v: int): (s: string)
    ensures s != ""
    ensures forall i :: 0 <= i < |s| ==> IsDigit(s[i]) || s[i] == '-'
  {
    if v < 0 then "-" + NatText(-v) else NatText(v)
  }

  function DigitsValue(s: string): nat
    requires AllDigits(s)
  {
    if s == "" then 0
    else DigitsValue(s[..|s| - 1]) * 10 + (s[|s| - 1] as int - '0' as int)
  }

  lemma {:induction false} ValueOfText(n: nat)
    ensures DigitsValue(NatText(n)) == n
  {
    if n >= 10 {
      ValueOfText(n / 10);
      var s := NatText(n);
      assert s[..|s| - 1] == NatText(n / 10);
    }
  }

  /** An optional sign, at least one digit, and a value that fits. */
  function ParseI64(s: string): (r: Option<int>)
    ensures r.Some? ==> FitsI64(r.value)
  {
    var negative := s != "" && s[0] == '-';
    var digits := if s != "" && (s[0] == '-' || s[0] == '+') then s[1..] else s;
    if digits == "" || !AllDigits(digits) then None
    else
      var n: int := DigitsValue(digits);
      var v := if negative then -n else n;
      if FitsI64(v) then Some(v) else None
  }

  /** The unsigned form: a minus sign is no digit. */
  function ParseU64(s: string): (r: Option<nat>)
    ensures r.Some? ==> r.value < 0x1_0000_0000_0000_0000
  {
    var digits := if s != "" && s[0] == '+' then s[1..] else s;
    if digits == "" || !AllDigits(digits) then None
    else if DigitsValue(digits) < 0x1_0000_0000_0000_0000 then Some(DigitsValue(digits))
    else None
  }

  lemma ParseNatText(v: nat)
    ensures ParseU64(Trim(IntText(v))) == if v < 0x1_0000_0000_0000_0000 then Some(v) else None
  {
    var t := NatText(v);
    ValueOfText(v);
    assert IsDigit(t[0]) && IsDigit(t[|t| - 1]);
    TrimKeeps(t);
  }

  /** An integer's text reads back as it, or is refused if it does not fit. */
  lemma {:induction false} ParseIntText(v: int)
    ensures ParseI64(IntText(v)) == if FitsI64(v) then Some(v) else None
  {
    var n: nat := if v < 0 then -v else v;
    ValueOfText(n);
    var t := NatText(n);
    assert IsDigit(t[0]);
    if v < 0 {
      assert IntText(v)[1..] == t;
    }
  }

  // --- Fixed width. ---

  function Zeros(n: nat): (s: string)
    ensures |s| == n && AllDigits(s) && forall i :: 0 <= i < n ==> s[i] == '0'
  {
    seq(n, i => '0')
  }

  function PadLeft(s: string, width: nat): string {
    if |s| >= width then s else Zeros(width - |s|) + s
  }

  /** Zero-padded to `width`, the sign counted in it. */
  function PadInt(v: int, width: nat): string {
    if v < 0 then "-" + PadLeft(NatText(-v), if width > 0 then width - 1 else 0) else PadLeft(NatText(v), width)
  }

  lemma {:induction false} LeadingZeros(s: string, n: nat)
    requires AllDigits(s)
    ensures DigitsValue(Zeros(n) + s) == DigitsValue(s)
    decreases |s| + n
  {
    if s != "" {
      var t := Zeros(n) + s;
      assert t[..|t| - 1] == Zeros(n) + s[..|s| - 1];
      LeadingZeros(s[..|s| - 1], n);
    } else if n > 0 {
      assert Zeros(n) + "" == Zeros(n) && Zeros(n)[..n - 1] == Zeros(n - 1) + "";
      LeadingZeros("", n - 1);
    }
  }

  lemma ParsePadded(v: nat, width: nat)
    requires FitsI64(v)
    ensures ParseI64(PadInt(v, width)) == Some(v)
    ensures AllDigits(PadInt(v, width)) && PadInt(v, width) != ""
  {
    var s := NatText(v);
    ValueOfText(v);
    if |s| < width { LeadingZeros(s, width - |s|); }
    assert IsDigit(PadInt(v, width)[0]);
  }

  // --- Trimming. ---

  predicate IsSpace(c: char) {
    c == ' ' || '\t' <= c <= '\r'
  }

  function TrimStart(s: string): string {
    if s != "" && IsSpace(s[0]) then TrimStart(s[1..]) else s
  }

  function TrimEnd(s: string): string {
    if s != "" && IsSpace(s[|s| - 1]) then TrimEnd(s[..|s| - 1]) else s
  }

  function Trim(s: string): string {
    TrimEnd(TrimStart(s))
  }

  lemma TrimKeeps(s: string)
    requires s != "" && !IsSpace(s[0]) && !IsSpace(s[|s| - 1])
    ensures Trim(s) == s
  {
  }

  // --- Delimiters. ---

  /** The pieces between occurrences of `c`; always at least one. */
  function SplitOn(s: string, c: char): (r: seq<string>)
    ensures r != []
  {
    if s == "" then [""]
    else if s[0] == c then [""] + SplitOn(s[1..], c)
    else
      var r := SplitOn(s[1..], c);
      [[s[0]] + r[0]] + r[1..]
  }

  function Join(parts: seq<string>, c: char): string {
    if parts == [] then ""
    else if |parts| == 1 then parts[0]
    else parts[0] + [c] + Join(parts[1..], c)
  }

  lemma {:induction false} SplitFirst(head: string, rest: string, c: char)
    requires c !in head
    ensures SplitOn(head + [c] + rest, c) == [head] + SplitOn(rest, c)
  {
    var s := head + [c] + rest;
    if head == "" {
      assert s[1..] == rest;
    } else {
      assert s[1..] == head[1..] + [c] + rest;
      SplitFirst(head[1..], rest, c);
      assert [s[0]] + head[1..] == head;
    }
  }

  lemma {:induction false} SplitWhole(s: string, c: char)
    requires c !in s
    ensures SplitOn(s, c) == [s]
  {
    if s != "" {
      SplitWhole(s[1..], c);
      assert [s[0]] + s[1..] == s;
    }
  }

  /** Splitting what was joined gives the pieces back. */
  lemma {:induction false} SplitJoin(parts: seq<string>, c: char)
    requires parts != []
    requires forall i :: 0 <= i < |parts| ==> c !in parts[i]
    ensures SplitOn(Join(parts, c), c) == parts
  {
    if |parts| == 1 {
      SplitWhole(parts[0], c);
    } else {
      var rest := parts[1..];
      assert forall i :: 0 <= i < |rest| ==> rest[i] == parts[i + 1];
      SplitFirst(parts[0], Join(rest, c), c);
      SplitJoin(rest, c);
    }
  }

  /** What precedes and follows the last occurrence of `c`. */
  function RSplitOnce(s: string, c: char): Option<(string, string)> {
    if s == "" then None
    else if s[|s| - 1] == c then Some((s[..|s| - 1], ""))
    else match RSplitOnce(s[..|s| - 1], c)
      case None => None
      case Some((head, tail)) => Some((head, tail + [s[|s| - 1]]))
  }

  lemma {:induction false} RSplitLast(head: string, tail: string, c: char)
    requires c !in tail
    ensures RSplitOnce(head + [c] + tail, c) == Some((head, tail))
    decreases |tail|
  {
    var s := head + [c] + tail;
    if tail == "" {
      assert s[..|s| - 1] == head;
    } else {
      assert s[..|s| - 1] == head + [c] + tail[..|tail| - 1];
      RSplitLast(head, tail[..|tail| - 1], c);
      assert tail[..|tail| - 1] + [s[|s| - 1]] == tail;
      assert s[|s| - 1] in tail;
    }
  }

  lemma {:induction false} JoinAvoids(parts: seq<string>, c: char, x: char)
    requires x != c && forall i :: 0 <= i < |parts| ==> x !in parts[i]
    ensures x !in Join(parts, c)
  {
    if |parts| > 1 {
      var rest := parts[1..];
      assert forall i :: 0 <= i < |rest| ==> rest[i] == parts[i + 1];
      JoinAvoids(rest, c, x);
    }
  }
}
