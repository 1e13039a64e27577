/** The text encodings the services build tokens and hashes from: separators, decimals and unpadded base64. */
module Encoding {
  import opened Common

  // ---------- strings.Split and its inverse ----------

  function Split(s: string, sep: char): (parts: seq<string>)
    ensures parts != []
  {
    if s == "" then [""]
    else
      var rest := Split(s[1..], sep);
      if s[0] == sep then [""] + rest else [[s[0]] + rest[0]] + rest[1..]
  }

  function Join(parts: seq<string>, sep: char): string
    requires parts != []
  {
    if |parts| == 1 then parts[0] else parts[0] + [sep] + Join(parts[1..], sep)
  }

  /** Splitting loses nothing, and leaves no separator in a part. */
  lemma {:induction false} JoinSplit(s: string, sep: char)
    ensures Join(Split(s, sep), sep) == s
    ensures forall part :: part in Split(s, sep) ==> sep !in part
  {
    if s != "" {
      JoinSplit(s[1..], sep);
      var rest := Split(s[1..], sep);
      if s[0] == sep {
        assert ([""] + rest)[1..] == rest;
      } else {
        var parts := [[s[0]] + rest[0]] + rest[1..];
        assert rest[0] in rest;
        if |rest| > 1 {
          assert parts[1..] == rest[1..];
        }
      }
    }
  }

  /** Parts without separators come back from the string they are joined into. */
  lemma {:induction false} SplitJoin(parts: seq<string>, sep: char)
    requires parts != [] && forall i :: 0 <= i < |parts| ==> sep !in parts[i]
    ensures Split(Join(parts, sep), sep) == parts
    decreases |parts|
  {
    if |parts| == 1 {
      SplitOne(parts[0], sep);
    } else {
      SplitJoin(parts[1..], sep);
      SplitFirst(parts[0], Join(parts[1..], sep), sep);
      assert parts == [parts[0]] + parts[1..];
    }
  }

  lemma {:induction false} SplitOne(s: string, sep: char)
    requires sep !in s
    ensures Split(s, sep) == [s]
  {
    if s != "" {
      SplitOne(s[1..], sep);
      assert s[0] in s && s == [s[0]] + s[1..];
    }
  }

  lemma {:induction false} SplitFirst(s: string, rest: string, sep: char)
    requires sep !in s
    ensures Split(s + [sep] + rest, sep) == [s] + Split(rest, sep)
  {
    if s == "" {
      assert s + [sep] + rest == [sep] + rest;
    } else {
      SplitFirst(s[1..], rest, sep);
      assert (s + [sep] + rest)[1..] == s[1..] + [sep] + rest;
      assert s[0] in s && s == [s[0]] + s[1..];
    }
  }

  // ---------- Decimals ----------

  predicate IsDigit(c: char) {
    '0' <= c <= '9'
  }

  predicate AllDigits(s: string) {
    forall i :: 0 <= i < |s| ==> IsDigit(s[i])
  }

  /** `%d` of a natural number. */
  function Decimal(n: nat): (s: string)
    ensures s != "" && AllDigits(s)
  {
    (if n < 10 then "" else Decimal(n / 10)) + [('0' as int + n % 10) as char]
  }

  function DigitsValue(s: string): nat
    requires AllDigits(s)
  {
    if s == "" then 0 else DigitsValue(s[..|s| - 1]) * 10 + (s[|s| - 1] as int - '0' as int)
  }

  /** `strconv.ParseUint(s, 10, bits)` with `max` the largest value of that many bits. */
  function ParseUint(s: string, max: nat): Option<nat> {
    if s == "" || !AllDigits(s) || DigitsValue(s) > max then None else Some(DigitsValue(s))
  }

  lemma {:induction false} DecimalValue(n: nat)
    ensures DigitsValue(Decimal(n)) == n
  {
    var s := Decimal(n);
    if n >= 10 {
      DecimalValue(n / 10);
      assert s[..|s| - 1] == Decimal(n / 10);
    }
  }

  /** A number is read back exactly when it fits. */
  lemma ParseDecimal(n: nat, max: nat)
    ensures ParseUint(Decimal(n), max) == if n <= max then Some(n) else None
  {
    DecimalValue(n);
  }

  /** A number is read exactly from one or more digits whose value fits; leading zeros do not matter. */
  lemma ReadsExactly(s: string, max: nat)
    ensures ParseUint(s, max).Some? <==> s != "" && AllDigits(s) && DigitsValue(s) <= max
    ensures ParseUint(s, max).Some? ==> ParseUint(s, max).value == DigitsValue(s)
  {
  }

  const MAX_INT: int := 0x7FFF_FFFF_FFFF_FFFF

  /** `strconv.Atoi` on 64 bits: an optional sign, then digits. */
  function Atoi(s: string): Option<int> {
    if s == "" then None
    else if s[0] == '-' then
      var n := ParseUint(s[1..], (MAX_INT + 1) as nat);
      if n.None? then None else
        var value: int := n.value;
        Some(-value)
    else ParseUint(if s[0] == '+' then s[1..] else s, MAX_INT)
  }

  lemma AtoiDecimal(n: nat)
    requires n <= MAX_INT
    ensures Atoi(Decimal(n)) == Some(n)
  {
    ParseDecimal(n, MAX_INT);
    assert IsDigit(Decimal(n)[0]);
  }

  /** With a minus sign a number is read down to the least of 64 bits. */
  lemma AtoiNegative(n: nat)
    ensures var value: int := n;
      Atoi("-" + Decimal(n)) == if n <= 0x8000_0000_0000_0000 then Some(-value) else None
  {
    assert ("-" + Decimal(n))[1..] == Decimal(n);
    ParseDecimal(n, (MAX_INT + 1) as nat);
  }

  // ---------- Unpadded base64, sections 4 and 5 of RFC 4648 ----------

  type Byte = b: int | 0 <= b < 256

  type Sextet = d: int | 0 <= d < 64

  datatype Alphabet = StdAlphabet | UrlAlphabet

  function DigitChar(d: Sextet, a: Alphabet): char {
    if d < 26 then ('A' as int + d) as char
    else if d < 52 then ('a' as int + (d - 26)) as char
    else if d < 62 then ('0' as int + (d - 52)) as char
    else if d == 62 then (if a == StdAlphabet then '+' else '-')
    else (if a == StdAlphabet then '/' else '_')
  }

  function CharDigit(c: char, a: Alphabet): Option<Sextet> {
    if 'A' <= c <= 'Z' then Some(c as int - 'A' as int)
    else if 'a' <= c <= 'z' then Some(c as int - 'a' as int + 26)
    else if '0' <= c <= '9' then Some(c as int - '0' as int + 52)
    else if c == (if a == StdAlphabet then '+' else '-') then Some(62)
    else if c == (if a == StdAlphabet then '/' else '_') then Some(63)
    else None
  }

  lemma CharDigitOfDigitChar(d: Sextet, a: Alphabet)
    ensures CharDigit(DigitChar(d, a), a) == Some(d)
  {
  }

  function Sextets(bs: seq<Byte>): (ds: seq<Sextet>) {
    if |bs| == 0 then []
    else if |bs| == 1 then [bs[0] / 4, bs[0] % 4 * 16]
    else if |bs| == 2 then [bs[0] / 4, bs[0] % 4 * 16 + bs[1] / 16, bs[1] % 16 * 4]
    else [bs[0] / 4, bs[0] % 4 * 16 + bs[1] / 16, bs[1] % 16 * 4 + bs[2] / 64, bs[2] % 64] + Sextets(bs[3..])
  }

  function First(ds: seq<Sextet>): Byte
    requires |ds| >= 2
  {
    ds[0] as int * 4 + ds[1] as int / 16
  }

  function Second(ds: seq<Sextet>): Byte
    requires |ds| >= 3
  {
    ds[1] as int % 16 * 16 + ds[2] as int / 4
  }

  /** The decoder does not look at the spare bits of the last digit; a single digit left over is an error. */
  function Bytes(ds: seq<Sextet>): Option<seq<Byte>> {
    if |ds| == 0 then Some([])
    else if |ds| == 1 then None
    else if |ds| == 2 then Some([First(ds)])
    else if |ds| == 3 then Some([First(ds), Second(ds)])
    else
      match Bytes(ds[4..])
      case None => None
      case Some(rest) =>
        var third: Byte := ds[2] as int % 4 * 64 + ds[3] as int;
        Some([First(ds), Second(ds), third] + rest)
  }

  lemma {:induction false} BytesOfSextets(bs: seq<Byte>)
    ensures Bytes(Sextets(bs)) == Some(bs)
  {
    if |bs| >= 3 {
      BytesOfSextets(bs[3..]);
      var ds := Sextets(bs);
      assert ds[4..] == Sextets(bs[3..]);
      assert bs == [bs[0], bs[1], bs[2]] + bs[3..];
    } else if |bs| == 2 {
      assert bs == [bs[0], bs[1]];
    } else if |bs| == 1 {
      assert bs == [bs[0]];
    }
  }

  function Chars(ds: seq<Sextet>, a: Alphabet): (s: string)
    ensures |s| == |ds|
  {
    if ds == [] then "" else [DigitChar(ds[0], a)] + Chars(ds[1..], a)
  }

  /** Reads digits and skips line breaks, as Go's decoder does. */
  function Digits(s: string, a: Alphabet): Option<seq<Sextet>> {
    if s == "" then Some([])
    else if s[0] == '\r' || s[0] == '\n' then Digits(s[1..], a)
    else
      match CharDigit(s[0], a)
      case None => None
      case Some(d) =>
        match Digits(s[1..], a)
        case None => None
        case Some(rest) => Some([d] + rest)
  }

  function EncodeBase64(bs: seq<Byte>, a: Alphabet): string {
    Chars(Sextets(bs), a)
  }

  function DecodeBase64(s: string, a: Alphabet): Option<seq<Byte>> {
    match Digits(s, a)
    case None => None
    case Some(ds) => Bytes(ds)
  }

  lemma CharsOne(d: Sextet, rest: seq<Sextet>, a: Alphabet)
    ensures Chars([d] + rest, a) == [DigitChar(d, a)] + Chars(rest, a)
  {
    assert ([d] + rest)[1..] == rest;
  }

  lemma CharsTwo(d: Sextet, e: Sextet, a: Alphabet)
    ensures Chars([d, e], a) == [DigitChar(d, a), DigitChar(e, a)]
  {
    CharsOne(d, [e], a);
    CharsOne(e, [], a);
    assert [d] + [e] == [d, e] && [e] + [] == [e];
  }

  lemma CharsThree(d: Sextet, e: Sextet, f: Sextet, a: Alphabet)
    ensures Chars([d, e, f], a) == [DigitChar(d, a), DigitChar(e, a), DigitChar(f, a)]
  {
    CharsOne(d, [e, f], a);
    CharsTwo(e, f, a);
    assert [d] + [e, f] == [d, e, f];
  }

  /** Vectors of section 10 of RFC 4648, without padding, and the two digits in which the alphabets differ. */
  lemma KnownVectors(a: Alphabet)
    ensures EncodeBase64([], a) == "" && EncodeBase64([102], a) == "Zg" && EncodeBase64([102, 111], a) == "Zm8"
    ensures EncodeBase64([102, 111, 111], a) == "Zm9v"
    ensures EncodeBase64([251, 255], StdAlphabet) == "+/8" && EncodeBase64([251, 255], UrlAlphabet) == "-_8"
  {
    CharsTwo(25, 32, a);
    CharsThree(25, 38, 60, a);
    CharsOne(25, [38, 61, 47], a);
    CharsThree(38, 61, 47, a);
    CharsThree(62, 63, 60, StdAlphabet);
    CharsThree(62, 63, 60, UrlAlphabet);
    assert Sextets([102, 111, 111]) == [25] + [38, 61, 47];
  }

  /** The ten digits and both cases follow each other in the alphabet as in ASCII. */
  lemma DigitsFollow(d: Sextet, e: Sextet, a: Alphabet)
    requires d < e < 26 || 26 <= d < e < 52 || 52 <= d < e < 62
    ensures DigitChar(e, a) as int - DigitChar(d, a) as int == e - d
  {
  }

  /**
   Three bytes and their four digits are the same number; a last group of one or two bytes is filled up with zeros.
   */
  lemma DigitsSpellBytes(bs: seq<Byte>)
    requires bs != []
    ensures var ds := Sextets(bs);
      if |bs| == 1 then |ds| == 2 && ds[0] as int * 64 + ds[1] as int == bs[0] as int * 16
      else if |bs| == 2
      then |ds| == 3
        && (ds[0] as int * 64 + ds[1] as int) * 64 + ds[2] as int == (bs[0] as int * 256 + bs[1] as int) * 4
      else
        && |ds| >= 4 && ds[4..] == Sextets(bs[3..])
        && ((ds[0] as int * 64 + ds[1] as int) * 64 + ds[2] as int) * 64 + ds[3] as int
           == (bs[0] as int * 256 + bs[1] as int) * 256 + bs[2] as int
  {
  }

  lemma {:induction false} DigitsOfChars(ds: seq<Sextet>, a: Alphabet)
    ensures Digits(Chars(ds, a), a) == Some(ds)
  {
    if ds != [] {
      DigitsOfChars(ds[1..], a);
      CharDigitOfDigitChar(ds[0], a);
      assert Chars(ds, a)[1..] == Chars(ds[1..], a);
      assert ds == [ds[0]] + ds[1..];
    }
  }

  /** Decoding undoes encoding, in either alphabet. */
  lemma Base64RoundTrip(bs: seq<Byte>, a: Alphabet)
    ensures DecodeBase64(EncodeBase64(bs, a), a) == Some(bs)
  {
    DigitsOfChars(Sextets(bs), a);
    BytesOfSextets(bs);
  }

  /** Encoded text consists of digits of the alphabet. */
  lemma {:induction false} CharsAreDigits(ds: seq<Sextet>, a: Alphabet)
    ensures forall c :: c in Chars(ds, a) ==> CharDigit(c, a).Some?
  {
    if ds != [] {
      CharsAreDigits(ds[1..], a);
      CharDigitOfDigitChar(ds[0], a);
    }
  }

  // ---------- Text as bytes ----------

  predicate IsAscii(s: string) {
    forall i :: 0 <= i < |s| ==> s[i] as int < 128
  }

  function TextBytes(s: string): (bs: seq<Byte>)
    requires IsAscii(s)
    ensures |bs| == |s|
  {
    seq(|s|, i requires 0 <= i < |s| => s[i] as int)
  }

  /** The string of some bytes, which for the texts used here is one character a byte. */
  function BytesText(bs: seq<Byte>): (s: string)
    ensures |s| == |bs|
  {
    seq(|bs|, i requires 0 <= i < |bs| => bs[i] as char)
  }

  lemma TextRoundTrip(s: string)
    requires IsAscii(s)
    ensures BytesText(TextBytes(s)) == s
  {
  }
}
