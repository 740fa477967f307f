/** Byte strings and the parts of Go's strings, strconv, fmt, path/filepath and
    bufio packages that the mailer relies on.

    A Go string or byte slice is modelled as a Dafny string. Results that depend on the
    value of a byte say so in their requires clauses. */
module GoStrings {
  datatype Option<+T> = None | Some(value: T)

  lemma Assoc<T>(a: seq<T>, b: seq<T>, c: seq<T>)
    ensures a + b + c == a + (b + c)
  {
  }

  /* ---- White space, strings.Fields and strings.TrimSpace ---- */

  predicate IsSpace(c: char) {
    c == ' ' || '\t' <= c <= '\r'
  }

  /** A non-empty string without white space: one field of a command. */
  ghost predicate IsToken(s: string) {
    s != "" && forall i :: 0 <= i < |s| ==> !IsSpace(s[i])
  }

  function TokenLength(s: string): (n: nat)
    ensures n <= |s|
    ensures forall i :: 0 <= i < n ==> !IsSpace(s[i])
    ensures n < |s| ==> IsSpace(s[n])
  {
    if s == "" || IsSpace(s[0]) then 0 else 1 + TokenLength(s[1..])
  }

  function Fields(s: string): (parts: seq<string>)
    ensures forall i :: 0 <= i < |parts| ==> IsToken(parts[i])
    decreases |s|
  {
    if s == "" then []
    else if IsSpace(s[0]) then Fields(s[1..])
    else
      var n := TokenLength(s);
      [s[..n]] + Fields(s[n..])
  }

  /** The tokens separated by single spaces, as the fmt verbs "%s %d %d" print them. */
  function Join(tokens: seq<string>): string {
    if tokens == [] then ""
    else if |tokens| == 1 then tokens[0]
    else tokens[0] + " " + Join(tokens[1..])
  }

  lemma {:induction false} TokenLengthIs(token: string, rest: string)
    requires IsToken(token)
    requires rest == "" || IsSpace(rest[0])
    ensures TokenLength(token + rest) == |token|
  {
    var s := token + rest;
    assert forall i :: 0 <= i < |token| ==> s[i] == token[i];
    assert rest != "" ==> s[|token|] == rest[0];
  }

  /** Splitting undoes joining: the receiver of a command sees the sender's arguments. */
  lemma {:induction false} FieldsOfJoin(tokens: seq<string>)
    requires forall i :: 0 <= i < |tokens| ==> IsToken(tokens[i])
    ensures Fields(Join(tokens)) == tokens
  {
    if tokens == [] {
    } else {
      var rest := if |tokens| == 1 then "" else " " + Join(tokens[1..]);
      var s := Join(tokens);
      assert s == tokens[0] + rest;
      TokenLengthIs(tokens[0], rest);
      assert s[0] == tokens[0][0];
      assert s[..|tokens[0]|] == tokens[0] && s[|tokens[0]|..] == rest;
      FieldsOfJoin(tokens[1..]);
      if |tokens| > 1 {
        assert rest[1..] == Join(tokens[1..]);
        assert Fields(rest) == Fields(rest[1..]);
      }
      assert tokens == [tokens[0]] + tokens[1..];
    }
  }

  function TrimLeft(s: string): (r: string)
    ensures |r| <= |s|
  {
    if s != "" && IsSpace(s[0]) then TrimLeft(s[1..]) else s
  }

  function TrimRight(s: string): (r: string)
    ensures |r| <= |s|
  {
    if s != "" && IsSpace(s[|s| - 1]) then TrimRight(s[..|s| - 1]) else s
  }

  function TrimSpace(s: string): string {
    TrimRight(TrimLeft(s))
  }

  predicate HasPrefix(s: string, prefix: string) {
    prefix <= s
  }

  predicate HasSuffix(s: string, suffix: string) {
    |suffix| <= |s| && s[|s| - |suffix|..] == suffix
  }

  function LowerChar(c: char): char {
    if 'A' <= c <= 'Z' then (c as int + 32) as char else c
  }

  function ToLower(s: string): (r: string)
    ensures |r| == |s|
    ensures forall i :: 0 <= i < |s| ==> r[i] == LowerChar(s[i])
  {
    if s == "" then "" else [LowerChar(s[0])] + ToLower(s[1..])
  }

  /* ---- Searching ---- */

  /** The index of the first c in s, or |s| when there is none. */
  function Index(s: string, c: char): (i: nat)
    ensures i <= |s|
    ensures i < |s| ==> s[i] == c
    ensures c !in s[..i]
  {
    if s == "" || s[0] == c then 0
    else
      var i := 1 + Index(s[1..], c);
      assert s[..i] == [s[0]] + s[1..][..i - 1];
      i
  }

  lemma IndexIs(before: string, c: char, after: string)
    requires c !in before
    ensures Index(before + [c] + after, c) == |before|
  {
    var s := before + [c] + after;
    var i := Index(s, c);
    assert s[|before|] == c;
    assert forall k :: 0 <= k < |before| ==> s[k] == before[k];
    assert forall k :: 0 <= k < i ==> s[..i][k] == s[k];
  }

  lemma IndexAbsent(s: string, c: char)
    requires c !in s
    ensures Index(s, c) == |s|
  {
  }

  /** strings.Split with a one-byte separator. */
  function Split(s: string, c: char): (parts: seq<string>)
    ensures |parts| >= 1
    decreases |s|
  {
    var i := Index(s, c);
    if i == |s| then [s] else [s[..i]] + Split(s[i + 1..], c)
  }

  /* ---- Numerals: fmt %d and %x, strconv.ParseUint and ParseInt ---- */

  datatype Parsed = Value(n: nat) | SyntaxError | RangeError

  const MAX_UINT16: nat := 0xFFFF
  const MAX_UINT64: nat := 0xFFFF_FFFF_FFFF_FFFF
  const MAX_INT64: nat := 0x7FFF_FFFF_FFFF_FFFF

  function DigitChar(d: nat): (c: char)
    requires d < 16
    ensures d < 10 ==> '0' <= c <= '9'
    ensures d >= 10 ==> 'a' <= c <= 'f'
  {
    if d < 10 then ('0' as int + d) as char else ('a' as int + d - 10) as char
  }

  function DigitValue(c: char): nat {
    if '0' <= c <= '9' then c as int - '0' as int
    else if 'a' <= c <= 'z' then c as int - 'a' as int + 10
    else if 'A' <= c <= 'Z' then c as int - 'A' as int + 10
    else 255
  }

  /** The number bases in use. */
  type Radix = b: nat | b == 10 || b == 16 witness 10

  /** n in the given base, without leading zeros, in lower case. */
  function Numeral(n: nat, base: Radix): (s: string)
    ensures IsToken(s)
    ensures forall i :: 0 <= i < |s| ==> DigitValue(s[i]) < base && LowerChar(s[i]) == s[i]
    ensures forall i :: 0 <= i < |s| ==> '0' <= s[i] <= '9' || 'a' <= s[i] <= 'f'
  {
    if n < base then [DigitChar(n)] else Numeral(n / base, base) + [DigitChar(n % base)]
  }

  function Decimal(n: nat): (s: string)
    ensures IsToken(s)
    ensures forall i :: 0 <= i < |s| ==> '0' <= s[i] <= '9'
  {
    Numeral(n, 10)
  }

  function SignedDecimal(n: int): (s: string)
    ensures IsToken(s)
  {
    if n < 0 then "-" + Decimal(-n) else Decimal(n)
  }

  /** s with zeros in front up to the given width, as the verb %04x pads. */
  function PadZero(width: nat, s: string): (r: string)
    ensures |r| == if |s| < width then width else |s|
    decreases width - |s|
  {
    if |s| < width then PadZero(width, "0" + s) else s
  }

  /** acc * base + d. */
  function Shift(acc: nat, base: Radix, d: nat): nat {
    (if base == 10 then 10 * acc else 16 * acc) + d
  }

  /** The digit loop of strconv.ParseUint: it stops at the first byte that is no
      digit or at the first prefix whose value exceeds max. */
  function ScanDigits(s: string, base: Radix, max: nat, acc: nat): (p: Parsed)
    ensures p.Value? ==> p.n <= max || p.n == acc
  {
    if s == "" then Value(acc)
    else
      var d := DigitValue(s[0]);
      if d >= base then SyntaxError
      else if Shift(acc, base, d) > max then RangeError
      else ScanDigits(s[1..], base, max, Shift(acc, base, d))
  }

  function ParseUint(s: string, base: Radix, max: nat): (p: Parsed)
    ensures p.Value? ==> s != "" && p.n <= max
  {
    if s == "" then SyntaxError else ScanDigits(s, base, max, 0)
  }

  /** strconv.ParseInt(s, 10, 64) with its error dropped, as the callers drop it:
      zero for malformed text, the nearest bound when out of range. */
  function ParseInt64(s: string): int {
    var negative := s != "" && s[0] == '-';
    var digits := if s != "" && (s[0] == '-' || s[0] == '+') then s[1..] else s;
    var bound: int := MAX_INT64;
    match ParseUint(digits, 10, MAX_UINT64)
    case SyntaxError => 0
    case RangeError => if negative then -bound - 1 else bound
    case Value(n) =>
      var v: int := if negative then -(n as int) else n;
      if v > bound then bound else if v < -bound - 1 then -bound - 1 else v
  }

  /** strconv.Atoi on a 64-bit system; None stands for an error. */
  function Atoi(s: string): Option<int> {
    var negative := s != "" && s[0] == '-';
    var digits := if s != "" && (s[0] == '-' || s[0] == '+') then s[1..] else s;
    match ParseUint(digits, 10, MAX_UINT64)
    case Value(n) =>
      if negative && n <= MAX_INT64 + 1 then Some(-(n as int))
      else if !negative && n <= MAX_INT64 then Some(n)
      else None
    case _ => None
  }

  lemma {:induction false} ScanDigitsAppend(s: string, d: char, base: Radix, max: nat, acc: nat)
    requires ScanDigits(s, base, max, acc).Value?
    ensures ScanDigits(s + [d], base, max, acc) == ScanDigits([d], base, max, ScanDigits(s, base, max, acc).n)
  {
    if s == "" {
      assert s + [d] == [d];
    } else {
      assert (s + [d])[1..] == s[1..] + [d];
      ScanDigitsAppend(s[1..], d, base, max, Shift(acc, base, DigitValue(s[0])));
    }
  }

  lemma {:induction false} ScanNumeral(n: nat, base: Radix, max: nat)
    requires n <= max
    ensures ScanDigits(Numeral(n, base), base, max, 0) == Value(n)
  {
    if n < base {
      ScanOneDigit(n, base, max, 0);
    } else {
      ScanNumeral(n / base, base, max);
      ScanDigitsAppend(Numeral(n / base, base), DigitChar(n % base), base, max, 0);
      LastDigit(n, base);
      ScanOneDigit(n % base, base, max, n / base);
    }
  }

  lemma LastDigit(n: nat, base: Radix)
    ensures n == Shift(n / base, base, n % base) && n % base < base
  {
  }

  lemma ScanOneDigit(d: nat, base: Radix, max: nat, acc: nat)
    requires d < base && Shift(acc, base, d) <= max
    ensures ScanDigits([DigitChar(d)], base, max, acc) == Value(Shift(acc, base, d))
  {
    var last := [DigitChar(d)];
    assert DigitValue(last[0]) == d;
    assert last[1..] == "";
  }

  lemma {:induction false} ScanPadded(width: nat, s: string, base: Radix, max: nat)
    ensures ScanDigits(PadZero(width, s), base, max, 0) == ScanDigits(s, base, max, 0)
    decreases width - |s|
  {
    if |s| < width {
      ScanPadded(width, "0" + s, base, max);
      assert ("0" + s)[1..] == s;
    }
  }

  /** Parsing a printed number returns it, whatever zeros pad it. */
  lemma ParseNumeral(n: nat, base: Radix, max: nat, width: nat)
    requires n <= max
    ensures ParseUint(PadZero(width, Numeral(n, base)), base, max) == Value(n)
    ensures ParseUint(Numeral(n, base), base, max) == Value(n)
  {
    ScanNumeral(n, base, max);
    ScanPadded(width, Numeral(n, base), base, max);
  }

  /** The last digit of a parsed number. */
  lemma ParsedLast(t: string, d: char, max: nat)
    requires ScanDigits(t + [d], 16, max, 0).Value?
    ensures ScanDigits(t, 16, max, 0).Value? && DigitValue(d) < 16
    ensures ScanDigits(t + [d], 16, max, 0).n == ScanDigits(t, 16, max, 0).n * 16 + DigitValue(d)
    ensures DigitChar(DigitValue(d)) == LowerChar(d) && ToLower(t + [d]) == ToLower(t) + [LowerChar(d)]
  {
    ScanPrefix(t, d, 16, max, 0);
    ScanDigitsAppend(t, d, 16, max, 0);
    var m := ScanDigits(t, 16, max, 0).n;
    assert ScanDigits([d][1..], 16, max, m * 16 + DigitValue(d)) == Value(m * 16 + DigitValue(d));
    ToLowerAppend(t, [d]);
    assert ToLower([d]) == [LowerChar(d)];
  }

  /** A number with one more digit, padded. */
  lemma NumeralMore(width: nat, m: nat, d: nat)
    requires d < 16 && width > 0
    ensures PadZero(width + 1, Numeral(m * 16 + d, 16)) == PadZero(width, Numeral(m, 16)) + [DigitChar(d)]
  {
    if m == 0 {
      PadZeroAppend(width, "", DigitChar(d));
      assert "" + [DigitChar(d)] == [DigitChar(d)];
      assert Numeral(0, 16) == "0" && "0" + "" == "0";
    } else {
      assert (m * 16 + d) / 16 == m && (m * 16 + d) % 16 == d;
      PadZeroAppend(width, Numeral(m, 16), DigitChar(d));
    }
  }

  /** Conversely, the digits of a parsed number are its numeral, in lower case and padded
      to the length they had. */
  lemma {:induction false} PrintParsed(s: string, max: nat)
    requires ScanDigits(s, 16, max, 0).Value? && s != ""
    ensures PadZero(|s|, Numeral(ScanDigits(s, 16, max, 0).n, 16)) == ToLower(s)
  {
    var t, d := s[..|s| - 1], s[|s| - 1];
    assert s == t + [d];
    if t == "" {
      PrintDigit(d, max);
    } else {
      ParsedLast(t, d, max);
      PrintParsed(t, max);
      NumeralMore(|t|, ScanDigits(t, 16, max, 0).n, DigitValue(d));
    }
  }

  lemma PrintDigit(d: char, max: nat)
    requires ScanDigits([d], 16, max, 0).Value?
    ensures PadZero(1, Numeral(ScanDigits([d], 16, max, 0).n, 16)) == ToLower([d])
  {
    ParsedLast("", d, max);
    assert "" + [d] == [d] && "" + [LowerChar(d)] == [LowerChar(d)];
    assert Numeral(DigitValue(d), 16) == [LowerChar(d)];
  }

  lemma {:induction false} ScanPrefix(t: string, d: char, base: Radix, max: nat, acc: nat)
    requires ScanDigits(t + [d], base, max, acc).Value?
    ensures ScanDigits(t, base, max, acc).Value?
  {
    if t != "" {
      assert (t + [d])[0] == t[0] && (t + [d])[1..] == t[1..] + [d];
      ScanPrefix(t[1..], d, base, max, Shift(acc, base, DigitValue(t[0])));
    }
  }

  lemma {:induction false} PadZeroAppend(width: nat, s: string, c: char)
    ensures PadZero(width + 1, s + [c]) == PadZero(width, s) + [c]
    decreases width - |s|
  {
    if |s| < width {
      PadZeroAppend(width, "0" + s, c);
      assert "0" + (s + [c]) == "0" + s + [c];
    }
  }

  lemma ToLowerAppend(a: string, b: string)
    ensures ToLower(a + b) == ToLower(a) + ToLower(b)
  {
  }

  lemma ParseDecimal(n: nat)
    requires n <= MAX_INT64
    ensures ParseInt64(Decimal(n)) == n
  {
    ParseNumeral(n, 10, MAX_UINT64, 0);
    assert Decimal(n) == Numeral(n, 10);
  }

  lemma {:induction false} NumeralShort(n: nat, base: Radix, width: nat)
    requires width >= 1
    requires n < Power(base, width)
    ensures |Numeral(n, base)| <= width
  {
    if n >= base {
      assert Power(base, width) == base * Power(base, width - 1);
      NumeralShort(n / base, base, width - 1);
    }
  }

  lemma {:induction false} NumeralLong(n: nat, base: Radix, width: nat)
    requires n >= Power(base, width)
    ensures |Numeral(n, base)| > width
  {
    if width > 0 {
      assert Power(base, width) == base * Power(base, width - 1);
      PowerPositive(base, width - 1);
      NumeralLong(n / base, base, width - 1);
    }
  }

  function Power(base: nat, e: nat): nat {
    if e == 0 then 1 else base * Power(base, e - 1)
  }

  lemma {:induction false} PowerPositive(base: nat, e: nat)
    requires base >= 1
    ensures Power(base, e) >= 1
  {
    if e > 0 {
      PowerPositive(base, e - 1);
    }
  }

  /* ---- hex.EncodeToString and DecodeString, strings.EqualFold ---- */

  function HexEncode(s: string): string {
    if s == "" then ""
    else
      var b := s[0] as int % 256;
      [DigitChar(b / 16), DigitChar(b % 16)] + HexEncode(s[1..])
  }

  function HexDecode(s: string): Option<string> {
    if s == "" then Some("")
    else if |s| == 1 || DigitValue(s[0]) >= 16 || DigitValue(s[1]) >= 16 then None
    else
      match HexDecode(s[2..])
      case None => None
      case Some(rest) => Some([(DigitValue(s[0]) * 16 + DigitValue(s[1])) as char] + rest)
  }

  lemma HexDigits(b: nat)
    requires b < 256
    ensures DigitValue(DigitChar(b / 16)) * 16 + DigitValue(DigitChar(b % 16)) == b
    ensures DigitValue(DigitChar(b / 16)) < 16 && DigitValue(DigitChar(b % 16)) < 16
  {
    assert DigitValue(DigitChar(b / 16)) == b / 16;
    assert DigitValue(DigitChar(b % 16)) == b % 16;
  }

  lemma {:induction false} HexRoundTrip(s: string)
    requires forall i :: 0 <= i < |s| ==> s[i] as int < 256
    ensures HexDecode(HexEncode(s)) == Some(s)
  {
    if s != "" {
      HexRoundTrip(s[1..]);
      var b := s[0] as int;
      HexDigits(b);
      assert b % 256 == b;
      var h := HexEncode(s);
      assert h[0] == DigitChar(b / 16) && h[1] == DigitChar(b % 16) && h[2..] == HexEncode(s[1..]);
      assert s == [s[0]] + s[1..];
    }
  }

  lemma {:induction false} HexIsToken(s: string)
    ensures forall i :: 0 <= i < |HexEncode(s)| ==> !IsSpace(HexEncode(s)[i])
    ensures |HexEncode(s)| == 2 * |s|
  {
    if s != "" {
      HexIsToken(s[1..]);
    }
  }

  /** strings.EqualFold; every byte that folds to a hexadecimal digit is ASCII. */
  predicate EqualFold(s: string, t: string) {
    ToLower(s) == ToLower(t)
  }

  /* ---- filepath.Base on a Unix system ---- */

  function StripSlashes(path: string): (r: string)
    ensures |r| <= |path|
    ensures r != "" ==> r[|r| - 1] != '/'
  {
    if path != "" && path[|path| - 1] == '/' then StripSlashes(path[..|path| - 1]) else path
  }

  function AfterLastSlash(path: string): (r: string)
    ensures '/' !in r
    ensures '/' !in path ==> r == path
  {
    if path == "" then ""
    else if path[|path| - 1] == '/' then ""
    else AfterLastSlash(path[..|path| - 1]) + [path[|path| - 1]]
  }

  function Base(path: string): (r: string)
    ensures r != ""
    ensures '/' in r ==> r == "/"
  {
    if path == "" then "."
    else
      var s := StripSlashes(path);
      if s == "" then "/"
      else
        assert s[|s| - 1] != '/';
        AfterLastSlash(s)
  }

  lemma BaseOfPlainName(name: string)
    requires name != "" && '/' !in name
    ensures Base(name) == name
  {
    assert name[|name| - 1] != '/';
  }

  /* ---- bufio.Scanner over lines ---- */

  /** A line of this many bytes or more does not fit the scanner's buffer. */
  const MAX_TOKEN: nat := 65536

  function RawLines(content: string): seq<string>
    decreases |content|
  {
    if content == "" then []
    else
      var i := Index(content, '\n');
      if i == |content| then [content] else [content[..i]] + RawLines(content[i + 1..])
  }

  /** The lines Scan delivers: everything before the first line that is too long.
      Every caller trims the line, which also removes a trailing carriage return. */
  function Scannable(lines: seq<string>): (r: seq<string>)
    ensures r <= lines
  {
    if lines == [] || |lines[0]| >= MAX_TOKEN then [] else [lines[0]] + Scannable(lines[1..])
  }

  lemma {:induction false} ScannableIsAll(lines: seq<string>)
    ensures Scannable(lines) == lines <==> forall i :: 0 <= i < |lines| ==> |lines[i]| < MAX_TOKEN
  {
    if lines != [] {
      ScannableIsAll(lines[1..]);
      assert lines == [lines[0]] + lines[1..];
      assert forall i :: 1 <= i < |lines| ==> lines[i] == lines[1..][i - 1];
    }
  }
}
