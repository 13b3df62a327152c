/** The values inside qualification evidence: decimal numbers, 32-bit hexadecimal
    words, dotted version quads and SHA-256 digests in upper-case hexadecimal.

    Every reader below accepts exactly the strings its printer produces, so a
    value has one spelling and a spelling has one value. The one reader with a
    parameter, the decimal one, has that property only for maxima of at least
    nine: below that its overflow guard subtracts a digit from a smaller maximum
    in unsigned 64-bit arithmetic and wraps. */
module EvidenceText {

  import opened Options

  const TWO_32: nat := 0x1_0000_0000
  const TWO_64: nat := 0x1_0000_0000_0000_0000

  type Byte = n: nat | n < 0x100
  type Word16 = n: nat | n < 0x1_0000
  type Word32 = n: nat | n < 0x1_0000_0000
  type Word64 = n: nat | n < 0x1_0000_0000_0000_0000

  // ---- Decimal ----

  predicate IsDigit(ch: char) {
    '0' <= ch <= '9'
  }

  function Numeral(d: nat): (ch: char)
    requires d < 10
    ensures IsDigit(ch) && ch as int - '0' as int == d
  {
    ('0' as int + d) as char
  }

  /** std::to_string of an unsigned value. */
  function Show(n: nat): (s: string)
    ensures s != "" && forall ch :: ch in s ==> IsDigit(ch)
  {
    if n < 10 then [Numeral(n)] else Show(n / 10) + [Numeral(n % 10)]
  }

  /** No sign, no padding: one digit, or no leading zero. */
  predicate Canonical(text: string) {
    text != "" && (|text| > 1 ==> text[0] != '0')
  }

  /** One turn of the decimal loop, with the guard's subtraction and the
      accumulation both in unsigned 64-bit arithmetic. */
  function Accumulate(number: nat, ch: char, maximum: Word64): Option<Word64> {
    if !IsDigit(ch) then None
    else
      var digit := ch as int - '0' as int;
      if number > (maximum - digit) % TWO_64 / 10 then None
      else Some((number * 10 + digit) % TWO_64)
  }

  function Accumulated(text: string, maximum: Word64): Option<Word64> {
    if text == "" then Some(0)
    else
      match Accumulated(text[..|text| - 1], maximum)
      case None => None
      case Some(number) => Accumulate(number, text[|text| - 1], maximum)
  }

  function DecimalValue(text: string, maximum: Word64): Option<Word64> {
    if Canonical(text) then Accumulated(text, maximum) else None
  }

  lemma {:induction false} AccumulatedStuck(text: string, i: nat, maximum: Word64)
    requires i <= |text| && Accumulated(text[..i], maximum).None?
    ensures Accumulated(text, maximum).None?
    decreases |text|
  {
    if i == |text| {
      assert text[..i] == text;
    } else {
      assert text[..|text| - 1][..i] == text[..i];
      AccumulatedStuck(text[..|text| - 1], i, maximum);
    }
  }

  method Decimal(text: string, maximum: Word64) returns (r: Option<Word64>)
    ensures r == DecimalValue(text, maximum)
  {
    if text == "" || (|text| > 1 && text[0] == '0') {
      return None;
    }
    var number: Word64 := 0;
    var i := 0;
    while i < |text|
      invariant 0 <= i <= |text|
      invariant Accumulated(text[..i], maximum) == Some(number)
    {
      assert text[..i + 1][..i] == text[..i];
      var ch := text[i];
      if !IsDigit(ch) || number > (maximum - (ch as int - '0' as int)) % TWO_64 / 10 {
        AccumulatedStuck(text, i + 1, maximum);
        return None;
      }
      number := (number * 10 + (ch as int - '0' as int)) % TWO_64;
      i := i + 1;
    }
    assert text[..i] == text;
    return Some(number);
  }

  /** With a maximum of at least nine nothing wraps. */
  lemma AccumulateExact(number: nat, ch: char, maximum: Word64)
    requires maximum >= 9
    ensures Accumulate(number, ch, maximum)
         == if IsDigit(ch) && number * 10 + (ch as int - '0' as int) <= maximum
            then Some(number * 10 + (ch as int - '0' as int)) else None
  {
    if IsDigit(ch) {
      var digit := ch as int - '0' as int;
      assert (maximum - digit) % TWO_64 == maximum - digit;
      assert number > (maximum - digit) / 10 <==> number * 10 > maximum - digit;
    }
  }

  /** Whatever the loop accepts, for a maximum of at least nine, is the printed
      form of the number it computed, which is within the maximum. */
  lemma {:induction false} AccumulatedIsShown(text: string, maximum: Word64)
    requires maximum >= 9 && Canonical(text) && Accumulated(text, maximum).Some?
    ensures var n := Accumulated(text, maximum).value;
            n <= maximum && text == Show(n) && (text[0] == '0' ==> n == 0) && (n == 0 ==> text[0] == '0')
    decreases |text|
  {
    hide Accumulate;
    var head, last := text[..|text| - 1], text[|text| - 1];
    assert text == head + [last];
    var number := Accumulated(head, maximum).value;
    AccumulateExact(number, last, maximum);
    var digit := last as int - '0' as int;
    assert (number * 10 + digit) / 10 == number && (number * 10 + digit) % 10 == digit;
    assert last == Numeral(digit);
    if |text| == 1 {
      assert head == "" && number == 0;
    } else {
      AccumulatedIsShown(head, maximum);
      assert head[0] == text[0];
    }
  }

  lemma {:induction false} ShownIsAccumulated(n: nat, maximum: Word64)
    requires 9 <= maximum && n <= maximum
    ensures Canonical(Show(n)) && Accumulated(Show(n), maximum) == Some(n)
    ensures n > 0 ==> Show(n)[0] != '0'
    decreases n
  {
    hide Accumulate;
    var text, last := Show(n), Numeral(n % 10);
    AccumulateExact(n / 10, last, maximum);
    if n < 10 {
      assert text == [last] && text[..0] == "";
      assert Accumulated("", maximum) == Some(0);
    } else {
      ShownIsAccumulated(n / 10, maximum);
      assert text[..|text| - 1] == Show(n / 10) && text[|text| - 1] == last;
      assert text[0] == Show(n / 10)[0];
    }
  }

  ghost predicate Spells(text: string, maximum: Word64, n: Word64) {
    DecimalValue(text, maximum) == Some(n)
  }

  /** The reader accepts exactly the printed numbers up to the maximum. */
  lemma DecimalExact(text: string, maximum: Word64, n: Word64)
    requires maximum >= 9
    ensures Spells(text, maximum, n) <==> n <= maximum && text == Show(n)
  {
    if Spells(text, maximum, n) {
      AccumulatedIsShown(text, maximum);
    }
    if n <= maximum && text == Show(n) {
      ShownIsAccumulated(n, maximum);
    }
  }

  /** For a smaller maximum it does not: the next number is accepted. */
  lemma SmallMaximumAdmitsMore(maximum: Word64)
    requires maximum < 9
    ensures Spells(Show(maximum + 1), maximum, maximum + 1)
  {
    var text := Show(maximum + 1);
    assert text[..0] == "";
    assert Accumulated("", maximum) == Some(0);
    assert text[|text| - 1] == Numeral(maximum + 1);
  }

  ghost predicate RespectsMaximum(maximum: Word64) {
    forall text, n: Word64 :: Spells(text, maximum, n) <==> n <= maximum && text == Show(n)
  }

  lemma DecimalRespectsMaximum(maximum: Word64)
    ensures RespectsMaximum(maximum) <==> maximum >= 9
  {
    if maximum >= 9 {
      forall text, n: Word64
        ensures Spells(text, maximum, n) <==> n <= maximum && text == Show(n)
      {
        DecimalExact(text, maximum, n);
      }
    } else {
      SmallMaximumAdmitsMore(maximum);
    }
  }

  function Pow10(k: nat): (p: nat)
    ensures p > 0
  {
    if k == 0 then 1 else 10 * Pow10(k - 1)
  }

  lemma {:induction false} ShowIsShort(n: nat, k: nat)
    requires k > 0 && n < Pow10(k)
    ensures |Show(n)| <= k
    decreases k
  {
    if n >= 10 {
      assert k > 1;
      ShowIsShort(n / 10, k - 1);
    }
  }

  // ---- Hexadecimal ----

  function HexDigit(n: nat): (ch: char)
    requires n < 16
  {
    if n < 10 then ('0' as int + n) as char else ('A' as int + (n - 10)) as char
  }

  /** The value of an upper-case hexadecimal digit, 16 for any other character. */
  function HexValue(ch: char): (n: nat)
    ensures n <= 16
    ensures n < 16 ==> ch == HexDigit(n)
  {
    if '0' <= ch <= '9' then ch as int - '0' as int
    else if 'A' <= ch <= 'F' then ch as int - 'A' as int + 10
    else 16
  }

  lemma HexDigitValue(n: nat)
    requires n < 16
    ensures HexValue(HexDigit(n)) == n
  {
  }

  function Pow16(k: nat): (p: nat)
    ensures p > 0
  {
    if k == 0 then 1 else 16 * Pow16(k - 1)
  }

  /** The low `width` hexadecimal digits of a value, most significant first. */
  function Hex(value: nat, width: nat): (s: string)
    ensures |s| == width
    decreases width
  {
    if width == 0 then "" else Hex(value / 16, width - 1) + [HexDigit(value % 16)]
  }

  function HexRead(text: string): Option<nat> {
    if text == "" then Some(0)
    else
      match HexRead(text[..|text| - 1])
      case None => None
      case Some(number) =>
        var digit := HexValue(text[|text| - 1]);
        if digit > 15 then None else Some(number * 16 + digit)
  }

  lemma {:induction false} HexReadStuck(text: string, i: nat)
    requires i <= |text| && HexRead(text[..i]).None?
    ensures HexRead(text).None?
    decreases |text|
  {
    if i == |text| {
      assert text[..i] == text;
    } else {
      assert text[..|text| - 1][..i] == text[..i];
      HexReadStuck(text[..|text| - 1], i);
    }
  }

  lemma Pow16Bound(n: nat, width: nat)
    requires width > 0
    ensures n < Pow16(width) <==> n / 16 < Pow16(width - 1)
  {
  }

  /** Reading and printing at one width are inverse bijections between the
      values below sixteen to the width and the accepted texts. */
  lemma {:induction false} HexExact(text: string, n: nat)
    ensures HexRead(text) == Some(n) <==> n < Pow16(|text|) && text == Hex(n, |text|)
    decreases |text|
  {
    if text == "" {
    } else {
      var head, last := text[..|text| - 1], text[|text| - 1];
      assert text == head + [last];
      HexExact(head, n / 16);
      Pow16Bound(n, |text|);
      HexDigitValue(n % 16);
      assert Hex(n, |text|) == Hex(n / 16, |text| - 1) + [HexDigit(n % 16)];
      hide Hex, Pow16, HexDigit;
      if HexRead(head).Some? {
        var number := HexRead(head).value;
        assert number * 16 + HexValue(last) == n && HexValue(last) < 16 ==>
            number == n / 16 && HexValue(last) == n % 16;
      }
    }
  }

  const HEX_PREFIX := "0x"

  lemma FromTheEnd(text: string, i: nat, ch: char, front: string)
    requires i < |text|
    ensures front + [ch] + text[i + 1..] == front + text[i := ch][i..]
  {
  }

  /** The printer fills the eight positions from the last to the first. */
  method HexText(word: Word32) returns (text: string)
    ensures text == HEX_PREFIX + Hex(word, 8)
  {
    text := "0x00000000";
    var value: nat := word;
    var i := 9;
    while i >= 2
      invariant 1 <= i <= 9
      invariant |text| == 10 && text[0] == '0' && text[1] == 'x'
      invariant Hex(word, 8) == Hex(value, i - 1) + text[i + 1..]
    {
      FromTheEnd(text, i, HexDigit(value % 16), Hex(value / 16, i - 2));
      text := text[i := HexDigit(value % 16)];
      value := value / 16;
      i := i - 1;
    }
    assert text == [text[0], text[1]] + text[2..];
  }

  lemma HexReadStep(text: string)
    ensures text == "" ==> HexRead(text) == Some(0)
    ensures text != "" && HexRead(text[..|text| - 1]).Some? ==>
      var digit := HexValue(text[|text| - 1]);
      HexRead(text) == if digit > 15 then None else Some(HexRead(text[..|text| - 1]).value * 16 + digit)
  {
  }

  lemma {:induction false} WidthGrows(a: nat, b: nat)
    requires a <= b
    ensures Pow16(a) <= Pow16(b)
    decreases b
  {
    if a < b {
      WidthGrows(a, b - 1);
    }
  }

  /** Eight digits fill the word and never overflow it. */
  lemma HexReadBound(text: string)
    requires |text| <= 8 && HexRead(text).Some?
    ensures HexRead(text).value < TWO_32
  {
    HexExact(text, HexRead(text).value);
    WidthGrows(|text|, 8);
    assert Pow16(8) == TWO_32;
  }

  lemma WordText(text: string, n: Word32)
    ensures |text| == 10 && text[..2] == HEX_PREFIX && HexRead(text[2..]) == Some(n)
       <==> text == HEX_PREFIX + Hex(n, 8)
  {
    hide HexRead, Hex;
    assert Pow16(8) == TWO_32;
    assert (HEX_PREFIX + Hex(n, 8))[2..] == Hex(n, 8);
    if |text| == 10 && text[..2] == HEX_PREFIX {
      HexExact(text[2..], n);
      assert text == HEX_PREFIX + text[2..];
    }
  }

  /** The digit loop of the word reader. */
  method HexDigits(digits: string) returns (r: Option<Word32>)
    requires |digits| == 8
    ensures r == HexRead(digits)
  {
    hide HexRead, Pow16;
    assert digits[..0] == "" && HexRead("") == Some(0) by { HexReadStep(""); }
    var number: Word32 := 0;
    var i := 0;
    while i < |digits|
      invariant 0 <= i <= |digits|
      invariant HexRead(digits[..i]) == Some(number)
    {
      assert digits[..i + 1][..i] == digits[..i];
      HexReadStep(digits[..i + 1]);
      var digit := HexValue(digits[i]);
      if digit > 15 {
        HexReadStuck(digits, i + 1);
        return None;
      }
      HexReadBound(digits[..i + 1]);
      number := (number * 16 + digit) % TWO_32;
      i := i + 1;
    }
    assert digits[..i] == digits;
    return Some(number);
  }

  method Hex32(text: string) returns (r: Option<Word32>)
    ensures forall n: Word32 :: r == Some(n) <==> text == HEX_PREFIX + Hex(n, 8)
  {
    hide HexRead, Hex;
    forall n: Word32
      ensures |text| == 10 && text[..2] == HEX_PREFIX && HexRead(text[2..]) == Some(n)
         <==> text == HEX_PREFIX + Hex(n, 8)
    {
      WordText(text, n);
    }
    if |text| != 10 || text[..2] != HEX_PREFIX {
      return None;
    }
    r := HexDigits(text[2..]);
  }

  // ---- Digest ----

  type Digest = d: seq<Byte> | |d| == 32 witness seq(32, _ => 0)

  /** Two digits a byte, in order. */
  function DigestText(bytes: seq<Byte>): (s: string)
    ensures |s| == 2 * |bytes|
  {
    if bytes == [] then ""
    else DigestText(bytes[..|bytes| - 1]) + Hex(bytes[|bytes| - 1], 2)
  }

  lemma ByteText(b: Byte)
    ensures Hex(b, 2) == [HexDigit(b / 16), HexDigit(b % 16)]
  {
    assert Hex(b / 16, 1) == Hex(b / 16 / 16, 0) + [HexDigit(b / 16 % 16)];
    assert b / 16 % 16 == b / 16;
  }

  lemma {:induction false} DigestTextAt(bytes: seq<Byte>, k: nat)
    requires k < |bytes|
    ensures DigestText(bytes)[2 * k] == HexDigit(bytes[k] / 16)
    ensures DigestText(bytes)[2 * k + 1] == HexDigit(bytes[k] % 16)
    decreases |bytes|
  {
    hide Hex, HexDigit;
    var head := bytes[..|bytes| - 1];
    ByteText(bytes[|bytes| - 1]);
    if k < |head| {
      DigestTextAt(head, k);
      assert bytes[k] == head[k];
    }
  }

  method FormatDigest(digest: Digest) returns (text: string)
    ensures text == DigestText(digest)
  {
    text := seq(64, _ => '0');
    var i := 0;
    while i < |digest|
      invariant 0 <= i <= |digest| && |text| == 64
      invariant text[..2 * i] == DigestText(digest[..i])
    {
      assert digest[..i + 1][..i] == digest[..i];
      ByteText(digest[i]);
      ghost var before := text;
      text := text[2 * i := HexDigit(digest[i] / 16)];
      text := text[2 * i + 1 := HexDigit(digest[i] % 16)];
      assert text[..2 * (i + 1)] == before[..2 * i] + Hex(digest[i], 2);
      i := i + 1;
    }
    assert digest[..i] == digest && text[..64] == text;
  }

  /** The digits read so far, as bytes: the last one may be half filled. */
  ghost predicate Holds(parsed: seq<Byte>, text: string, i: nat)
    requires |parsed| == 32 && |text| == 64 && i <= 64
  {
    && (forall k {:trigger parsed[k]} :: 0 <= k < i / 2 ==>
          && HexDigit(parsed[k] / 16) == text[2 * k]
          && HexDigit(parsed[k] % 16) == text[2 * k + 1])
    && (i % 2 == 1 ==> parsed[i / 2] < 16 && HexDigit(parsed[i / 2]) == text[i - 1])
    && (forall k :: (i + 1) / 2 <= k < 32 ==> parsed[k] == 0)
  }

  lemma DigestDigits(digest: Digest, j: nat)
    requires j < 64
    ensures HexValue(DigestText(digest)[j]) < 16
  {
    DigestTextAt(digest, j / 2);
    HexDigitValue(digest[j / 2] / 16);
    HexDigitValue(digest[j / 2] % 16);
    assert j == 2 * (j / 2) || j == 2 * (j / 2) + 1;
  }

  lemma SameDigest(digest: Digest, parsed: Digest)
    requires DigestText(parsed) == DigestText(digest)
    ensures parsed == digest
  {
    forall k | 0 <= k < 32
      ensures parsed[k] == digest[k]
    {
      DigestTextAt(digest, k);
      DigestTextAt(parsed, k);
      HexDigitValue(digest[k] / 16);
      HexDigitValue(digest[k] % 16);
      HexDigitValue(parsed[k] / 16);
      HexDigitValue(parsed[k] % 16);
    }
  }

  lemma FilledDigest(parsed: Digest, text: string)
    requires |text| == 64 && Holds(parsed, text, 64)
    ensures text == DigestText(parsed)
  {
    forall j | 0 <= j < 64
      ensures text[j] == DigestText(parsed)[j]
    {
      DigestTextAt(parsed, j / 2);
      assert parsed[j / 2] == parsed[j / 2];
      assert j == 2 * (j / 2) || j == 2 * (j / 2) + 1;
    }
  }

  /** The next digit goes to the high half of a fresh byte or the low half of a
      half-filled one. */
  lemma HoldsNext(parsed: seq<Byte>, text: string, i: nat)
    requires |parsed| == 32 && |text| == 64 && i < 64 && Holds(parsed, text, i) && HexValue(text[i]) < 16
    ensures parsed[i / 2] * 16 % 0x100 + HexValue(text[i]) < 0x100
    ensures Holds(parsed[i / 2 := parsed[i / 2] * 16 % 0x100 + HexValue(text[i])], text, i + 1)
  {
    var high := parsed[i / 2];
    if i % 2 == 0 {
      assert high == 0 && (i + 1) / 2 == i / 2 && (i + 2) / 2 == i / 2 + 1;
    } else {
      assert high < 16 && (i + 1) / 2 == i / 2 + 1 && 2 * (i / 2) == i - 1;
      assert high * 16 % 0x100 == high * 16;
      assert (high * 16 + HexValue(text[i])) / 16 == high && (high * 16 + HexValue(text[i])) % 16 == HexValue(text[i]);
    }
  }

  lemma NothingHeld(parsed: seq<Byte>, text: string)
    requires |parsed| == 32 && |text| == 64 && forall k :: 0 <= k < 32 ==> parsed[k] == 0
    ensures Holds(parsed, text, 0)
  {
  }

  method ParseDigest(text: string) returns (r: Option<Digest>)
    ensures forall d: Digest :: r == Some(d) <==> text == DigestText(d)
  {
    hide Holds, DigestText, HexValue;
    if |text| != 64 {
      return None;
    }
    var parsed: seq<Byte> := seq(32, _ => 0);
    NothingHeld(parsed, text);
    var i := 0;
    while i < |text|
      invariant 0 <= i <= |text| == 64 && |parsed| == 32
      invariant Holds(parsed, text, i)
    {
      var value := HexValue(text[i]);
      if value == 16 {
        forall d: Digest
          ensures text != DigestText(d)
        {
          DigestDigits(d, i);
        }
        return None;
      }
      HoldsNext(parsed, text, i);
      var next: nat := parsed[i / 2] as nat * 16 % 0x100 + value;
      parsed := parsed[i / 2 := next];
      i := i + 1;
    }
    FilledDigest(parsed, text);
    forall d: Digest | text == DigestText(d)
      ensures parsed == d
    {
      SameDigest(d, parsed);
    }
    return Some(parsed);
  }

  // ---- Version ----

  datatype Version = Version(major: Word16, minor: Word16, build: Word16, revision: Word16)

  const MAX_16: Word16 := 0xFFFF

  function Parts(parts: seq<nat>): string
    requires parts != []
  {
    if |parts| == 1 then Show(parts[0]) else Show(parts[0]) + "." + Parts(parts[1..])
  }

  function VersionText(v: Version): string {
    Show(v.major) + "." + Show(v.minor) + "." + Show(v.build) + "." + Show(v.revision)
  }

  /** The first dot, or the length. */
  function Dot(text: string): (n: nat)
    ensures n <= |text|
    ensures n < |text| ==> text[n] == '.'
    ensures forall k :: 0 <= k < n ==> text[k] != '.'
  {
    if text == "" || text[0] == '.' then 0 else 1 + Dot(text[1..])
  }

  /** `count` decimal parts separated by single dots, and nothing after them. */
  function ReadParts(text: string, count: nat): Option<seq<Word16>>
    requires count > 0
    decreases count
  {
    var dot := Dot(text);
    if (count == 1) != (dot == |text|) then None
    else
      match DecimalValue(text[..dot], MAX_16)
      case None => None
      case Some(number) =>
        if number > MAX_16 then None
        else if count == 1 then Some([number])
        else
          match ReadParts(text[dot + 1..], count - 1)
          case None => None
          case Some(rest) => Some([number] + rest)
  }

  lemma DotAfter(head: string, tail: string)
    requires forall ch :: ch in head ==> IsDigit(ch)
    requires tail == "" || tail[0] == '.'
    ensures Dot(head + tail) == |head|
  {
    var text := head + tail;
    assert forall k :: 0 <= k < |head| ==> text[k] == head[k] && head[k] in head;
    assert tail != "" ==> text[|head|] == '.';
  }

  /** A text splits at its first dot into a number and the rest. */
  lemma FirstPart(text: string, n: Word16, tail: string)
    requires tail == "" || tail[0] == '.'
    ensures text == Show(n) + tail <==> text[Dot(text)..] == tail && DecimalValue(text[..Dot(text)], MAX_16) == Some(n)
  {
    hide DecimalValue, Show;
    var dot := Dot(text);
    assert text == text[..dot] + text[dot..];
    DecimalExact(text[..dot], MAX_16, n);
    if text == Show(n) + tail {
      DotAfter(Show(n), tail);
    }
  }

  lemma {:induction false} PartsExact(text: string, parts: seq<Word16>)
    requires parts != []
    ensures ReadParts(text, |parts|) == Some(parts) <==> text == Parts(parts)
    decreases |parts|
  {
    hide DecimalValue, Show, Dot;
    var dot := Dot(text);
    if |parts| == 1 {
      assert parts == [parts[0]];
      FirstPart(text, parts[0], "");
      assert Show(parts[0]) + "" == Show(parts[0]);
    } else {
      var more := parts[1..];
      assert parts == [parts[0]] + more;
      var tail := "." + Parts(more);
      assert Parts(parts) == Show(parts[0]) + tail;
      FirstPart(text, parts[0], tail);
      if dot < |text| {
        PartsExact(text[dot + 1..], more);
        assert text[dot..] == "." + text[dot + 1..];
        assert tail[1..] == Parts(more);
      }
    }
  }

  function Quad(v: Version): seq<Word16> {
    [v.major, v.minor, v.build, v.revision]
  }

  lemma QuadText(v: Version)
    ensures Parts(Quad(v)) == VersionText(v)
  {
    var q := Quad(v);
    assert q[1..][1..][1..] == [v.revision];
    assert Parts(q[1..][1..]) == Show(v.build) + "." + Show(v.revision);
    assert Parts(q[1..]) == Show(v.minor) + "." + Parts(q[1..][1..]);
  }

  lemma VersionTexts(text: string)
    ensures forall v :: ReadParts(text, 4) == Some(Quad(v)) <==> text == VersionText(v)
  {
    forall v
      ensures ReadParts(text, 4) == Some(Quad(v)) <==> text == VersionText(v)
    {
      PartsExact(text, Quad(v));
      QuadText(v);
    }
  }

  /** One turn of the version loop. */
  lemma ReadPartsStep(text: string, count: nat)
    requires count > 0
    ensures var dot := Dot(text);
            if (count == 1) != (dot == |text|) || DecimalValue(text[..dot], MAX_16).None? then
              ReadParts(text, count).None?
            else
              var number := DecimalValue(text[..dot], MAX_16).value;
              && number <= MAX_16
              && (count == 1 ==> ReadParts(text, count) == Some([number]))
              && (count > 1 ==> ReadParts(text, count) == Prepended([number], ReadParts(text[dot + 1..], count - 1)))
  {
    var dot := Dot(text);
    if DecimalValue(text[..dot], MAX_16).Some? {
      DecimalExact(text[..dot], MAX_16, DecimalValue(text[..dot], MAX_16).value);
    }
  }

  function Prepended(parts: seq<Word16>, rest: Option<seq<Word16>>): Option<seq<Word16>> {
    if rest.None? then None else Some(parts + rest.value)
  }

  method ReadVersion(text: string) returns (r: Option<Version>)
    ensures forall v: Version :: r == Some(v) <==> text == VersionText(v)
  {
    hide VersionText, ReadParts, DecimalValue;
    VersionTexts(text);
    var parts: seq<Word16> := [];
    var rest := text;
    assert ReadParts(text, 4).Some? ==> [] + ReadParts(text, 4).value == ReadParts(text, 4).value;
    var i := 0;
    while i < 4
      invariant 0 <= i <= 4 && |parts| == i
      invariant i < 4 ==> ReadParts(text, 4) == Prepended(parts, ReadParts(rest, 4 - i))
      invariant i == 4 ==> ReadParts(text, 4) == Some(parts)
    {
      ReadPartsStep(rest, 4 - i);
      var dot := Dot(rest);
      if (i == 3) != (dot == |rest|) {
        return None;
      }
      var number := Decimal(rest[..dot], MAX_16);
      if number.None? {
        return None;
      }
      if dot < |rest| {
        ghost var more := ReadParts(rest[dot + 1..], 3 - i);
        assert more.Some? ==> parts + ([number.value] + more.value) == parts + [number.value] + more.value;
        rest := rest[dot + 1..];
      }
      parts := parts + [number.value % 0x1_0000];
      i := i + 1;
    }
    var v := Version(parts[0], parts[1], parts[2], parts[3]);
    assert parts == Quad(v);
    return Some(v);
  }
}
