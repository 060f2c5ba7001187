/** The business-facing customer number: workspace code, wall-clock second, and a folded UUID. */
module CustomerNumber {
  import opened Wrappers

  const SUFFIX_SPACE: nat := 2_176_782_336 // 36^6

  type Byte = b: int | 0 <= b < 256
  type UInt64 = x: int | 0 <= x < 0x1_0000_0000_0000_0000
  type Uuid = b: seq<Byte> | |b| == 16 witness seq(16, _ => 0)

  const NIL_UUID: Uuid := seq(16, _ => 0)

  /** An instant as its calendar fields in the fixed UTC+8 zone. */
  datatype Civil = Civil(year: int, month: nat, day: nat, hour: nat, minute: nat, second: nat) {
    predicate Valid() { 1 <= month <= 12 && 1 <= day <= 31 && hour < 24 && minute < 60 && second < 60 }
  }

  // ---------- numerals ----------

  function DigitChar(d: nat): char
    requires d < 36
  {
    if d < 10 then '0' + d as char else 'a' + (d - 10) as char
  }

  function DigitValue(c: char): nat {
    if '0' <= c <= '9' then (c - '0') as nat else if 'a' <= c <= 'z' then (c - 'a') as nat + 10 else 0
  }

  type Base = b: int | b == 10 || b == 36 witness 10

  /** `strconv.FormatUint`: no leading zeros, "0" for zero. */
  function Digits(v: nat, base: Base): (s: string)
    ensures s != []
  {
    if v < base then [DigitChar(v)] else Digits(v / base, base) + [DigitChar(v % base)]
  }

  function Zeros(n: nat): string { seq(n, _ => '0') }

  /** Exactly `w` digits. */
  function Fixed(v: nat, w: nat, base: Base): (s: string)
    ensures |s| == w
  {
    if w == 0 then [] else Fixed(v / base, w - 1, base) + [DigitChar(v % base)]
  }

  function Parse(s: string, base: Base): nat {
    if s == [] then 0 else Parse(s[..|s| - 1], base) * base + DigitValue(s[|s| - 1])
  }

  function Pow(base: Base, w: nat): nat { if w == 0 then 1 else base * Pow(base, w - 1) }

  lemma DivBound(v: nat, b: Base, p: nat)
    requires v < b * p
    ensures v / b < p
  {}

  lemma {:induction false} FixedZero(w: nat, base: Base)
    ensures Fixed(0, w, base) == Zeros(w)
  {
    if w > 0 {
      FixedZero(w - 1, base);
      assert Zeros(w) == Zeros(w - 1) + ['0'];
    }
  }

  /** Padding a numeral that fits gives the fixed-width numeral; the pad count is never negative. */
  lemma {:induction false} PaddedIsFixed(v: nat, w: nat, base: Base)
    requires w > 0 && v < Pow(base, w)
    ensures |Digits(v, base)| <= w
    ensures Zeros(w - |Digits(v, base)|) + Digits(v, base) == Fixed(v, w, base)
    decreases w
  {
    if v < base {
      FixedZero(w - 1, base);
    } else {
      DivBound(v, base, Pow(base, w - 1));
      assert v / base >= 1;
      PaddedIsFixed(v / base, w - 1, base);
      var d := Digits(v / base, base);
      assert Zeros(w - 1 - |d|) + (d + [DigitChar(v % base)]) == (Zeros(w - 1 - |d|) + d) + [DigitChar(v % base)];
    }
  }

  lemma {:induction false} ParseFixed(v: nat, w: nat, base: Base)
    requires v < Pow(base, w)
    ensures Parse(Fixed(v, w, base), base) == v
    decreases w
  {
    if w > 0 {
      DivBound(v, base, Pow(base, w - 1));
      ParseFixed(v / base, w - 1, base);
      var s := Fixed(v, w, base);
      assert s[..w - 1] == Fixed(v / base, w - 1, base);
    }
  }

  predicate Decimal(c: char) { '0' <= c <= '9' }
  predicate Alnum36(c: char) { Decimal(c) || 'a' <= c <= 'z' }

  lemma {:induction false} FixedChars(v: nat, w: nat, base: Base)
    ensures forall i | 0 <= i < w :: Alnum36(Fixed(v, w, base)[i]) && (base == 10 ==> Decimal(Fixed(v, w, base)[i]))
  {
    if w > 0 { FixedChars(v / base, w - 1, base); }
  }

  // ---------- the parts ----------

  /** The bytes as one big-endian integer. */
  function BigEndian(bytes: seq<Byte>): nat {
    if bytes == [] then 0 else BigEndian(bytes[..|bytes| - 1]) * 256 + bytes[|bytes| - 1]
  }

  /** The suffix value of a UUID at an offset. */
  function Suffix(id: Uuid, offset: nat): nat { (BigEndian(id) + offset) % SUFFIX_SPACE }

  function WorkspaceCode(sequence: nat): string
    requires 1 <= sequence <= 9999
  {
    if sequence <= 999 then Fixed(sequence, 3, 10)
    else
      var extension := sequence - 1000;
      ['a' + (extension / 1296) as char] + Fixed(extension % 1296, 2, 36)
  }

  /** `Format("2006")`: at least four digits, with a sign for negative years. */
  function YearText(year: int): string {
    var magnitude := Digits(if year < 0 then -year else year, 10);
    (if year < 0 then "-" else "") + (if |magnitude| < 4 then Zeros(4 - |magnitude|) else []) + magnitude
  }

  function Stamp(at: Civil): string {
    YearText(at.year) + Fixed(at.month, 2, 10) + Fixed(at.day, 2, 10)
    + Fixed(at.hour, 2, 10) + Fixed(at.minute, 2, 10) + Fixed(at.second, 2, 10)
  }

  function Number(sequence: nat, at: Civil, id: Uuid, offset: nat): string
    requires 1 <= sequence <= 9999
  {
    "U" + WorkspaceCode(sequence) + Stamp(at) + "08" + Fixed(Suffix(id, offset), 6, 36)
  }

  /** One round of the folding loop. */
  method FoldByte(value: UInt64, b: Byte, ghost n: nat) returns (r: UInt64)
    requires value == n % SUFFIX_SPACE
    ensures r == (n * 256 + b) % SUFFIX_SPACE
  {
    var product: UInt64 := value * 256;
    var sum: UInt64 := product + b;
    FoldStep(n, b);
    r := sum % SUFFIX_SPACE;
  }

  lemma FoldStep(n: nat, b: nat)
    ensures (n % SUFFIX_SPACE * 256 + b) % SUFFIX_SPACE == (n * 256 + b) % SUFFIX_SPACE
  {}

  method AddOffset(value: UInt64, offset: UInt64, ghost n: nat) returns (r: UInt64)
    requires value == n % SUFFIX_SPACE
    ensures r == (n + offset) % SUFFIX_SPACE
  {
    var shifted: UInt64 := value + offset % SUFFIX_SPACE;
    r := shifted % SUFFIX_SPACE;
  }

  /** The folding loop over the bytes; no intermediate value leaves the unsigned 64-bit range. */
  method FoldUuid(id: Uuid, offset: UInt64) returns (value: UInt64)
    ensures value == Suffix(id, offset) && value < SUFFIX_SPACE
  {
    value := 0;
    for i := 0 to 16
      invariant value == BigEndian(id[..i]) % SUFFIX_SPACE
    {
      assert id[..i + 1][..i] == id[..i];
      value := FoldByte(value, id[i], BigEndian(id[..i]));
    }
    assert id[..16] == id;
    value := AddOffset(value, offset, BigEndian(id));
  }

  lemma Powers()
    ensures Pow(10, 2) == 100 && Pow(10, 3) == 1000 && Pow(10, 4) == 10_000
    ensures Pow(36, 2) == 1296 && Pow(36, 6) == SUFFIX_SPACE
  {}

  /** Left-pad a numeral with zeros; `strings.Repeat` would panic on a negative count. */
  method Padded(v: nat, w: nat, base: Base) returns (s: string)
    requires w > 0 && v < Pow(base, w)
    ensures s == Fixed(v, w, base)
  {
    PaddedIsFixed(v, w, base);
    var digits := Digits(v, base);
    s := Zeros(w - |digits|) + digits;
  }

  method WorkspaceText(sequence: nat) returns (code: string)
    requires 1 <= sequence <= 9999
    ensures code == WorkspaceCode(sequence)
  {
    Powers();
    if sequence <= 999 {
      code := Padded(sequence, 3, 10);
    } else {
      var extension := sequence - 1000;
      var extensionSuffix := Padded(extension % (36 * 36), 2, 36);
      code := ['a' + (extension / (36 * 36)) as char] + extensionSuffix;
    }
  }

  /** `GenerateCustomerNumberWithSuffixOffset`. */
  method Generate(sequence: nat, at: Civil, id: Uuid, offset: UInt64) returns (r: Result<string>)
    requires sequence < 0x1_0000
    ensures r.Ok? <==> 1 <= sequence <= 9999 && id != NIL_UUID
    ensures r.Ok? ==> r.value == Number(sequence, at, id, offset)
  {
    if sequence < 1 || sequence > 9999 { return Err; }
    if id == NIL_UUID { return Err; }
    var code := WorkspaceText(sequence);
    var value := FoldUuid(id, offset);
    Powers();
    var randomSuffix := Padded(value, 6, 36);
    r := Ok("U" + code + Stamp(at) + "08" + randomSuffix);
  }

  // ---------- shape ----------

  /** The short alternative of the customer number pattern. */
  predicate ShortPattern(s: string) {
    && |s| == 26 && s[0] == 'U'
    && (forall i | 1 <= i < 4 :: Alnum36(s[i]))
    && (forall i | 4 <= i < 18 :: Decimal(s[i]))
    && s[18] == '0' && s[19] == '8'
    && (forall i | 20 <= i < 26 :: Alnum36(s[i]))
  }

  lemma {:induction false} DigitsWidth(v: nat, w: nat)
    requires w > 0
    ensures |Digits(v, 10)| <= w <==> v < Pow(10, w)
    decreases w
  {
    if v >= 10 {
      if w == 1 { assert Pow(10, 1) == 10 * Pow(10, 0); }
      else {
        DigitsWidth(v / 10, w - 1);
        assert v / 10 < Pow(10, w - 1) <==> v < 10 * Pow(10, w - 1);
      }
    } else {
      PowPositive(10, w - 1);
    }
  }

  lemma {:induction false} PowPositive(base: Base, w: nat)
    ensures Pow(base, w) >= 1
  {
    if w > 0 { PowPositive(base, w - 1); }
  }

  lemma YearWidth(year: int)
    ensures |YearText(year)| == 4 <==> 0 <= year <= 9999
    ensures 0 <= year <= 9999 ==> YearText(year) == Fixed(year, 4, 10)
  {
    var magnitude := if year < 0 then -year else year;
    DigitsWidth(magnitude, 4);
    Powers();
    if 0 <= year <= 9999 {
      PaddedIsFixed(year, 4, 10);
      if |Digits(year, 10)| == 4 { assert Zeros(0) + Digits(year, 10) == Digits(year, 10); }
    }
  }

  /** The number has the short form exactly for years of at most four digits. */
  lemma ShortFormIffFourDigitYear(sequence: nat, at: Civil, id: Uuid, offset: nat)
    requires 1 <= sequence <= 9999
    ensures ShortPattern(Number(sequence, at, id, offset)) <==> 0 <= at.year <= 9999
  {
    YearWidth(at.year);
    var code, stamp, suffix := WorkspaceCode(sequence), Stamp(at), Fixed(Suffix(id, offset), 6, 36);
    var s := Number(sequence, at, id, offset);
    assert |code| == 3 && |stamp| == |YearText(at.year)| + 10;
    if 0 <= at.year <= 9999 {
      CodeChars(sequence);
      StampChars(at);
      FixedChars(Suffix(id, offset), 6, 36);
      assert forall i | 1 <= i < 4 :: s[i] == code[i - 1];
      assert forall i | 4 <= i < 18 :: s[i] == stamp[i - 4];
      assert forall i | 20 <= i < 26 :: s[i] == suffix[i - 20];
    }
  }

  lemma CodeChars(sequence: nat)
    requires 1 <= sequence <= 9999
    ensures forall i | 0 <= i < 3 :: Alnum36(WorkspaceCode(sequence)[i])
  {
    if sequence <= 999 { FixedChars(sequence, 3, 10); }
    else { FixedChars((sequence - 1000) % 1296, 2, 36); }
  }

  lemma StampChars(at: Civil)
    requires 0 <= at.year <= 9999
    ensures |Stamp(at)| == 14 && forall i | 0 <= i < 14 :: Decimal(Stamp(at)[i])
  {
    YearWidth(at.year);
    FixedChars(at.year, 4, 10);
    FixedChars(at.month, 2, 10);
    FixedChars(at.day, 2, 10);
    FixedChars(at.hour, 2, 10);
    FixedChars(at.minute, 2, 10);
    FixedChars(at.second, 2, 10);
  }

  // ---------- decoding ----------

  function DecodeSequence(code: string): int
    requires |code| == 3
  {
    if Decimal(code[0]) then Parse(code, 10)
    else 1000 + (DigitValue(code[0]) - 10) * 1296 + Parse(code[1..], 36)
  }

  function DecodeStamp(s: string): Civil
    requires |s| == 14
  {
    Civil(Parse(s[..4], 10), Parse(s[4..6], 10), Parse(s[6..8], 10),
          Parse(s[8..10], 10), Parse(s[10..12], 10), Parse(s[12..], 10))
  }

  lemma DecodesSequence(sequence: nat)
    requires 1 <= sequence <= 9999
    ensures |WorkspaceCode(sequence)| == 3 && DecodeSequence(WorkspaceCode(sequence)) == sequence
  {
    var code := WorkspaceCode(sequence);
    if sequence <= 999 {
      FixedChars(sequence, 3, 10);
      Powers();
      ParseFixed(sequence, 3, 10);
    } else {
      var extension := sequence - 1000;
      Powers();
      ParseFixed(extension % 1296, 2, 36);
      assert code[1..] == Fixed(extension % 1296, 2, 36);
    }
  }

  lemma StampSlices(year: string, month: string, day: string, hour: string, minute: string, second: string)
    requires |year| == 4 && |month| == |day| == |hour| == |minute| == |second| == 2
    ensures var s := year + month + day + hour + minute + second;
            && |s| == 14 && s[..4] == year && s[4..6] == month && s[6..8] == day
            && s[8..10] == hour && s[10..12] == minute && s[12..] == second
  {}

  lemma DecodesStamp(at: Civil)
    requires at.Valid() && 0 <= at.year <= 9999
    ensures |Stamp(at)| == 14 && DecodeStamp(Stamp(at)) == at
  {
    YearWidth(at.year);
    StampSlices(Fixed(at.year, 4, 10), Fixed(at.month, 2, 10), Fixed(at.day, 2, 10),
                Fixed(at.hour, 2, 10), Fixed(at.minute, 2, 10), Fixed(at.second, 2, 10));
    Powers();
    ParseFixed(at.year, 4, 10);
    ParseFixed(at.month, 2, 10);
    ParseFixed(at.day, 2, 10);
    ParseFixed(at.hour, 2, 10);
    ParseFixed(at.minute, 2, 10);
    ParseFixed(at.second, 2, 10);
  }

  lemma DecodesSuffix(id: Uuid, offset: nat)
    ensures Parse(Fixed(Suffix(id, offset), 6, 36), 36) == Suffix(id, offset)
  {
    Powers();
    ParseFixed(Suffix(id, offset), 6, 36);
  }

  /** A number decodes back to its workspace sequence, its second and its suffix. */
  lemma NumberDecodes(sequence: nat, at: Civil, id: Uuid, offset: nat)
    requires 1 <= sequence <= 9999 && at.Valid() && 0 <= at.year <= 9999
    ensures var s := Number(sequence, at, id, offset);
            && |s| == 26 && DecodeSequence(s[1..4]) == sequence && DecodeStamp(s[4..18]) == at
            && Parse(s[20..], 36) == (BigEndian(id) + offset) % SUFFIX_SPACE
  {
    DecodesSequence(sequence);
    DecodesStamp(at);
    DecodesSuffix(id, offset);
    NumberSlices(WorkspaceCode(sequence), Stamp(at), Fixed(Suffix(id, offset), 6, 36));
  }

  lemma NumberSlices(code: string, stamp: string, suffix: string)
    requires |code| == 3 && |stamp| == 14 && |suffix| == 6
    ensures var s := "U" + code + stamp + "08" + suffix;
            |s| == 26 && s[1..4] == code && s[4..18] == stamp && s[20..] == suffix
  {}

  /** Offsets below 36^6 give pairwise different numbers, whatever the year. */
  lemma OffsetsDistinct(sequence: nat, at: Civil, id: Uuid, i: nat, j: nat)
    requires 1 <= sequence <= 9999 && i < SUFFIX_SPACE && j < SUFFIX_SPACE
    ensures Number(sequence, at, id, i) == Number(sequence, at, id, j) ==> i == j
  {
    DecodesSuffix(id, i);
    DecodesSuffix(id, j);
    var head := "U" + WorkspaceCode(sequence) + Stamp(at) + "08";
    assert Number(sequence, at, id, i)[|head|..] == Fixed(Suffix(id, i), 6, 36);
    assert Number(sequence, at, id, j)[|head|..] == Fixed(Suffix(id, j), 6, 36);
    if Suffix(id, i) == Suffix(id, j) { ResiduesDistinct(BigEndian(id), i, j); }
  }

  lemma ResiduesDistinct(n: nat, i: nat, j: nat)
    requires i < SUFFIX_SPACE && j < SUFFIX_SPACE
    requires (n + i) % SUFFIX_SPACE == (n + j) % SUFFIX_SPACE
    ensures i == j
  {}

  /** Fewer than `n` taken numbers leave an offset below `n` free. */
  lemma {:induction false} FreeOffset(sequence: nat, at: Civil, id: Uuid, taken: set<string>, n: nat) returns (offset: nat)
    requires 1 <= sequence <= 9999 && |taken| < n <= SUFFIX_SPACE
    ensures offset < n && Number(sequence, at, id, offset) !in taken
    decreases n
  {
    var last := Number(sequence, at, id, n - 1);
    if last !in taken {
      offset := n - 1;
    } else {
      offset := FreeOffset(sequence, at, id, taken - {last}, n - 1);
      OffsetsDistinct(sequence, at, id, offset, n - 1);
    }
  }

  // ---------- the parts, by themselves ----------

  /** The first byte counts most. */
  lemma {:induction false} FirstByteCountsMost(b: Byte, rest: seq<Byte>)
    ensures BigEndian([b] + rest) == b * Bytes(|rest|) + BigEndian(rest)
  {
    if rest == [] {
      assert [b] + rest == [b] && [b][..0] == [];
    } else {
      var n := |rest| - 1;
      assert ([b] + rest)[..n + 1] == [b] + rest[..n];
      FirstByteCountsMost(b, rest[..n]);
      assert b * Bytes(n) * 256 == b * Bytes(n + 1);
    }
  }

  /** How many texts of `n` bytes there are. */
  function Bytes(n: nat): nat { if n == 0 then 1 else 256 * Bytes(n - 1) }

  const EXAMPLE: Uuid := [0xA9, 0xB4, 0xC7, 0xD2, 0x1F, 0x6E, 0x4D, 0x01, 0xA9, 0x32, 0x5F, 0xC8, 0x0B, 0x73, 0x12, 0xAE]

  /** The example of the repository: workspace 27, at 15:30:45 on 29 August 2026 in UTC+8. */
  lemma ExampleNumber()
    ensures Number(27, Civil(2026, 8, 29, 15, 30, 45), EXAMPLE, 0) == "U" + "027" + "20260829153045" + "08" + "jgosku"
  {
    ExampleSuffix();
    ExampleStamp();
    assert Fixed(27, 3, 10) == "027";
  }

  lemma ExampleStamp()
    ensures Stamp(Civil(2026, 8, 29, 15, 30, 45)) == "20260829153045"
  {
    YearWidth(2026);
    assert Fixed(2026, 4, 10) == "2026" && Fixed(8, 2, 10) == "08" && Fixed(29, 2, 10) == "29";
    assert Fixed(15, 2, 10) == "15" && Fixed(30, 2, 10) == "30" && Fixed(45, 2, 10) == "45";
  }

  lemma ExampleSuffix()
    ensures Fixed(Suffix(EXAMPLE, 0), 6, 36) == "jgosku"
  {
    ExampleValue();
    assert Suffix(EXAMPLE, 0) == 1176887982;
  }

  lemma ExampleValue()
    ensures BigEndian(EXAMPLE) == 0xA9B4C7D21F6E4D01A9325FC80B7312AE
  {
    FirstHalf();
    SecondHalf();
    assert EXAMPLE[..16] == EXAMPLE;
  }

  lemma FirstHalf()
    ensures BigEndian(EXAMPLE[..8]) == 0xA9B4C7D21F6E4D01
  {
    ByteStep(0, 0x0);
    ByteStep(1, 0xA9);
    ByteStep(2, 0xA9B4);
    ByteStep(3, 0xA9B4C7);
    ByteStep(4, 0xA9B4C7D2);
    ByteStep(5, 0xA9B4C7D21F);
    ByteStep(6, 0xA9B4C7D21F6E);
    ByteStep(7, 0xA9B4C7D21F6E4D);
  }

  lemma SecondHalf()
    requires BigEndian(EXAMPLE[..8]) == 0xA9B4C7D21F6E4D01
    ensures BigEndian(EXAMPLE[..16]) == 0xA9B4C7D21F6E4D01A9325FC80B7312AE
  {
    ByteStep(8, 0xA9B4C7D21F6E4D01);
    ByteStep(9, 0xA9B4C7D21F6E4D01A9);
    ByteStep(10, 0xA9B4C7D21F6E4D01A932);
    ByteStep(11, 0xA9B4C7D21F6E4D01A9325F);
    ByteStep(12, 0xA9B4C7D21F6E4D01A9325FC8);
    ByteStep(13, 0xA9B4C7D21F6E4D01A9325FC80B);
    ByteStep(14, 0xA9B4C7D21F6E4D01A9325FC80B73);
    ByteStep(15, 0xA9B4C7D21F6E4D01A9325FC80B7312);
  }

  lemma ByteStep(k: nat, n: nat)
    requires k < 16 && BigEndian(EXAMPLE[..k]) == n
    ensures BigEndian(EXAMPLE[..k + 1]) == n * 256 + EXAMPLE[k]
  {
    assert EXAMPLE[..k + 1][..k] == EXAMPLE[..k];
  }
}
