/**
 The preimage of a delivery effect key: eight canonical dimensions written as a JSON array of
 strings (sections 5 and 7 of RFC 8259, with the extra escapes of `encoding/json`).
 */
module EffectKey {

  /** A Go string read as UTF-8: code points, and bytes that belong to none. */
  datatype Unit = Scalar(c: char) | Stray(b: StrayByte)
  type StrayByte = b: int | 0x80 <= b < 0x100 witness 0x80
  type Text = seq<Unit>

  // ---------- one unit ----------

  datatype Code = Raw(c: char) | Short(letter: char) | Long(n: CodeUnit)
  type CodeUnit = n: int | 0 <= n < 0x1_0000

  /** How `json.Marshal` writes one unit inside a string. */
  function CodeOf(u: Unit): Code {
    match u
    case Stray(_) => Long(0xFFFD)
    case Scalar(c) =>
      if c == '"' || c == '\\' then Short(c)
      else if c == '\U{8}' then Short('b')
      else if c == '\U{C}' then Short('f')
      else if c == '\n' then Short('n')
      else if c == '\r' then Short('r')
      else if c == '\t' then Short('t')
      else if c < ' ' || c == '<' || c == '>' || c == '&' || c == '\U{2028}' || c == '\U{2029}' then Long(c as int)
      else Raw(c)
  }

  /** Units written alike: equal, or both stray. */
  predicate Alike(u: Unit, v: Unit) { u == v || (u.Stray? && v.Stray?) }

  lemma CodesTellUnitsApart(u: Unit, v: Unit)
    ensures CodeOf(u) == CodeOf(v) <==> Alike(u, v)
  {
    if u.Scalar? && v.Scalar? && CodeOf(u).Long? && CodeOf(v).Long? {
      assert u.c as int == v.c as int ==> u.c == v.c;
    }
  }

  function HexDigit(d: nat): char
    requires d < 16
  {
    "0123456789abcdef"[d]
  }

  function Hex4(n: CodeUnit): string {
    [HexDigit(n / 16 / 16 / 16), HexDigit(n / 16 / 16 % 16), HexDigit(n / 16 % 16), HexDigit(n % 16)]
  }

  function Written(code: Code): (s: string)
    ensures s != []
  {
    match code
    case Raw(c) => [c]
    case Short(letter) => ['\\', letter]
    case Long(n) => ['\\', 'u'] + Hex4(n)
  }

  lemma HexDigitInjective(d: nat, e: nat)
    requires d < 16 && e < 16 && HexDigit(d) == HexDigit(e)
    ensures d == e
  {
    var digits := "0123456789abcdef";
    assert forall i | 0 <= i < 10 :: digits[i] as int == '0' as int + i;
    assert forall i | 10 <= i < 16 :: digits[i] as int == 'a' as int + i - 10;
  }

  lemma Hex4Injective(m: CodeUnit, n: CodeUnit)
    requires Hex4(m) == Hex4(n)
    ensures m == n
  {
    assert Hex4(m)[0] == Hex4(n)[0] && Hex4(m)[1] == Hex4(n)[1] && Hex4(m)[2] == Hex4(n)[2] && Hex4(m)[3] == Hex4(n)[3];
    HexDigitInjective(m / 16 / 16 / 16, n / 16 / 16 / 16);
    HexDigitInjective(m / 16 / 16 % 16, n / 16 / 16 % 16);
    HexDigitInjective(m / 16 % 16, n / 16 % 16);
    HexDigitInjective(m % 16, n % 16);
    assert m / 16 / 16 == n / 16 / 16;
    assert m / 16 == n / 16;
  }

  /** No code is the beginning of another: the first unit of a text can be read off. */
  lemma FirstUnitDecodes(u: Unit, v: Unit, x: string, y: string)
    requires Written(CodeOf(u)) + x == Written(CodeOf(v)) + y
    ensures Alike(u, v) && x == y
  {
    var a, b := Written(CodeOf(u)), Written(CodeOf(v));
    var left, right := a + x, b + y;
    assert left[0] == a[0] && right[0] == b[0];
    assert left[..|a|] == a && left[|a|..] == x;
    assert right[..|b|] == b && right[|b|..] == y;
    if !CodeOf(u).Raw? {
      assert a[0] == '\\' && b[0] == '\\' && !CodeOf(v).Raw?;
      assert left[1] == a[1] && right[1] == b[1];
      if CodeOf(u).Long? {
        assert CodeOf(v).Long? && |a| == |b| == 6;
        assert Hex4(CodeOf(u).n) == a[2..] == b[2..] == Hex4(CodeOf(v).n);
        Hex4Injective(CodeOf(u).n, CodeOf(v).n);
      }
    }
    CodesTellUnitsApart(u, v);
  }

  // ---------- strings and arrays ----------

  function Body(t: Text): string {
    if t == [] then [] else Written(CodeOf(t[0])) + Body(t[1..])
  }

  function Items(ts: seq<Text>): string {
    if ts == [] then []
    else ['"'] + Body(ts[0]) + ['"'] + Comma(ts) + Items(ts[1..])
  }

  function ArrayText(ts: seq<Text>): string { ['['] + Items(ts) + [']'] }

  predicate SameText(s: Text, t: Text) { |s| == |t| && forall i | 0 <= i < |s| :: Alike(s[i], t[i]) }

  predicate SameTexts(ss: seq<Text>, ts: seq<Text>) {
    |ss| == |ts| && forall i | 0 <= i < |ss| :: SameText(ss[i], ts[i])
  }

  /** What follows an opening quote: the rest of a string, its closing quote, and more. */
  function Tail(t: Text, x: string): string { Body(t) + ['"'] + x }

  lemma TailStep(t: Text, x: string)
    ensures t == [] ==> Tail(t, x) == ['"'] + x
    ensures t != [] ==> Tail(t, x) == Written(CodeOf(t[0])) + Tail(t[1..], x) && Tail(t, x)[0] != '"'
  {
    if t != [] {
      assert Tail(t, x) == Written(CodeOf(t[0])) + Tail(t[1..], x);
      assert Tail(t, x)[0] == Written(CodeOf(t[0]))[0];
    }
  }

  lemma {:induction false} BodyDecodes(s: Text, t: Text, x: string, y: string)
    requires Tail(s, x) == Tail(t, y)
    ensures SameText(s, t) && x == y
  {
    TailStep(s, x);
    TailStep(t, y);
    if s != [] && t != [] {
      FirstUnitDecodes(s[0], t[0], Tail(s[1..], x), Tail(t[1..], y));
      BodyDecodes(s[1..], t[1..], x, y);
      SameTextCons(s, t);
    } else {
      assert Tail(s, x)[0] == '"' && Tail(s, x)[1..] == x && Tail(t, y)[1..] == y;
    }
  }

  lemma SameTextCons(s: Text, t: Text)
    requires s != [] && t != [] && Alike(s[0], t[0]) && SameText(s[1..], t[1..])
    ensures SameText(s, t)
  {
    forall i | 0 <= i < |s| ensures Alike(s[i], t[i]) {
      if i > 0 { assert Alike(s[1..][i - 1], t[1..][i - 1]); }
    }
  }

  /** What follows the strings of an array, from its first opening quote on. */
  function ItemsTail(ts: seq<Text>, x: string): string { Items(ts) + x }

  function Comma(ts: seq<Text>): string { if |ts| == 1 then [] else [','] }

  lemma ItemsStep(ts: seq<Text>, x: string)
    requires ts != []
    ensures ItemsTail(ts, x)[1..] == Tail(ts[0], Comma(ts) + ItemsTail(ts[1..], x))
  {
    assert ItemsTail(ts, x) == ['"'] + Tail(ts[0], Comma(ts) + ItemsTail(ts[1..], x));
  }

  lemma {:induction false} ItemsDecode(ss: seq<Text>, ts: seq<Text>, x: string, y: string)
    requires |ss| == |ts| && ItemsTail(ss, x) == ItemsTail(ts, y)
    ensures SameTexts(ss, ts) && x == y
  {
    if ss != [] {
      ItemsStep(ss, x);
      ItemsStep(ts, y);
      var x', y' := ItemsTail(ss[1..], x), ItemsTail(ts[1..], y);
      BodyDecodes(ss[0], ts[0], Comma(ss) + x', Comma(ts) + y');
      assert (Comma(ss) + x')[|Comma(ss)|..] == x' && (Comma(ts) + y')[|Comma(ts)|..] == y';
      ItemsDecode(ss[1..], ts[1..], x, y);
      forall i | 0 <= i < |ss| ensures SameText(ss[i], ts[i]) {
        if i > 0 { assert SameText(ss[1..][i - 1], ts[1..][i - 1]); }
      }
    } else {
      assert ItemsTail(ss, x) == x && ItemsTail(ts, y) == y;
    }
  }

  lemma {:induction false} SameBody(s: Text, t: Text)
    requires SameText(s, t)
    ensures Body(s) == Body(t)
  {
    if s != [] {
      CodesTellUnitsApart(s[0], t[0]);
      SameBody(s[1..], t[1..]);
    }
  }

  lemma {:induction false} SameItems(ss: seq<Text>, ts: seq<Text>)
    requires SameTexts(ss, ts)
    ensures Items(ss) == Items(ts)
  {
    if ss != [] {
      SameBody(ss[0], ts[0]);
      SameItems(ss[1..], ts[1..]);
    }
  }

  lemma ArrayTail(ts: seq<Text>)
    ensures ArrayText(ts)[1..] == ItemsTail(ts, [']'])
  {
    assert ArrayText(ts) == ['['] + ItemsTail(ts, [']']);
  }

  lemma ArrayDecodes(ss: seq<Text>, ts: seq<Text>)
    requires |ss| == |ts| && ArrayText(ss) == ArrayText(ts)
    ensures SameTexts(ss, ts)
  {
    ArrayTail(ss);
    ArrayTail(ts);
    ItemsDecode(ss, ts, [']'], [']']);
  }

  /** Equal arrays of equally many strings are equal string by string, up to which stray byte it was. */
  lemma ArrayTextInjective(ss: seq<Text>, ts: seq<Text>)
    requires |ss| == |ts|
    ensures ArrayText(ss) == ArrayText(ts) <==> SameTexts(ss, ts)
  {
    if ArrayText(ss) == ArrayText(ts) { ArrayDecodes(ss, ts); }
    if SameTexts(ss, ts) { SameItems(ss, ts); }
  }

  predicate WellFormed(t: Text) { forall i | 0 <= i < |t| :: t[i].Scalar? }

  predicate AllWellFormed(ts: seq<Text>) { forall i | 0 <= i < |ts| :: WellFormed(ts[i]) }

  /** The text with another byte that is in no UTF-8 text in place of the stray byte at `j`. */
  function Swapped(t: Text, j: nat): Text
    requires j < |t| && t[j].Stray?
  {
    t[j := Stray(if t[j].b == 0xFF then 0xFE else 0xFF)]
  }

  ghost predicate Determines(ts: seq<Text>) {
    forall ss: seq<Text> :: |ss| == |ts| && ArrayText(ss) == ArrayText(ts) ==> ss == ts
  }

  /** The text written for a list of strings pins the list down exactly when every string is valid UTF-8. */
  lemma DeterminedIffWellFormed(ts: seq<Text>)
    ensures Determines(ts) <==> AllWellFormed(ts)
  {
    if AllWellFormed(ts) {
      forall ss: seq<Text> | |ss| == |ts| && ArrayText(ss) == ArrayText(ts) ensures ss == ts {
        ArrayTextInjective(ss, ts);
        forall i | 0 <= i < |ss| ensures ss[i] == ts[i] {
          assert SameText(ss[i], ts[i]) && WellFormed(ts[i]);
        }
      }
    } else {
      var i :| 0 <= i < |ts| && !WellFormed(ts[i]);
      var j :| 0 <= j < |ts[i]| && ts[i][j].Stray?;
      var ss := ts[i := Swapped(ts[i], j)];
      assert ss[i][j] != ts[i][j];
      ArrayTextInjective(ss, ts);
    }
  }

  // ---------- the key ----------

  datatype Input = Input(
    workspaceID: Text, sourceType: Text, sourceID: Text, sourceVersion: Text,
    customerID: Text, nodeOrPhase: Text, occurrence: Text, variant: Text)

  /** The string functions of the standard library the key depends on: NFKC followed by trimming, and lower-casing. */
  datatype Library = Library(canonical: Text -> Text, lower: Text -> Text)

  datatype Result<+T> = Ok(value: T) | Missing(dimension: nat)

  function Named(i: Input, lib: Library): seq<Text> {
    [i.workspaceID, lib.lower(i.sourceType), i.sourceID, i.sourceVersion,
     i.customerID, i.nodeOrPhase, i.occurrence, i.variant]
  }

  function Canonical(i: Input, lib: Library): seq<Text> {
    var named := Named(i, lib);
    seq(8, k requires 0 <= k < 8 => lib.canonical(named[k]))
  }

  /** `canonicalDimensions`: the first dimension that comes out empty is reported. */
  method CanonicalDimensions(i: Input, lib: Library) returns (r: Result<seq<Text>>)
    ensures r.Ok? <==> forall k | 0 <= k < 8 :: Canonical(i, lib)[k] != []
    ensures r.Ok? ==> r.value == Canonical(i, lib)
    ensures r.Missing? ==> r.dimension < 8 && Canonical(i, lib)[r.dimension] == []
                           && forall k | 0 <= k < r.dimension :: Canonical(i, lib)[k] != []
  {
    var dimensions, values := Named(i, lib), [];
    for k := 0 to 8
      invariant values == Canonical(i, lib)[..k]
      invariant forall j | 0 <= j < k :: Canonical(i, lib)[j] != []
    {
      var value := lib.canonical(dimensions[k]);
      assert value == Canonical(i, lib)[k];
      if value == [] { return Missing(k); }
      values := values + [value];
    }
    r := Ok(values);
  }

  /** `EffectKey`, for any digest function. */
  method Key(i: Input, lib: Library, digest: string -> string) returns (r: Result<string>)
    ensures r.Ok? <==> forall k | 0 <= k < 8 :: Canonical(i, lib)[k] != []
    ensures r.Ok? ==> r.value == digest(ArrayText(Canonical(i, lib)))
  {
    var dimensions := CanonicalDimensions(i, lib);
    match dimensions
    case Missing(k) => r := Missing(k);
    case Ok(values) => r := Ok(digest(ArrayText(values)));
  }

  /**
   Two inputs are hashed from the same bytes exactly when their eight canonical dimensions agree;
   for valid UTF-8 that is equality, so no shift of text between dimensions can collide.
   */
  lemma SamePreimageIffSameDimensions(i: Input, j: Input, lib: Library)
    ensures ArrayText(Canonical(i, lib)) == ArrayText(Canonical(j, lib)) <==> SameTexts(Canonical(i, lib), Canonical(j, lib))
    ensures AllWellFormed(Canonical(i, lib)) ==>
              (ArrayText(Canonical(i, lib)) == ArrayText(Canonical(j, lib)) <==> Canonical(i, lib) == Canonical(j, lib))
  {
    ArrayTextInjective(Canonical(i, lib), Canonical(j, lib));
    DeterminedIffWellFormed(Canonical(i, lib));
  }

  // ---------- the preimage, spelled out ----------

  /** A text between quotes. */
  function Quoted(t: Text): string { ['"'] + Body(t) + ['"'] }

  function CommaSeparated(ts: seq<Text>): string {
    if ts == [] then [] else if |ts| == 1 then Quoted(ts[0]) else Quoted(ts[0]) + [','] + CommaSeparated(ts[1..])
  }

  lemma {:induction false} ItemsSeparated(ts: seq<Text>)
    ensures Items(ts) == CommaSeparated(ts)
  {
    if ts != [] { ItemsSeparated(ts[1..]); }
  }

  /** The bytes that are hashed: the eight dimensions in their order, only the source type in lower case, each in canonical form. */
  lemma PreimageText(i: Input, lib: Library)
    ensures ArrayText(Canonical(i, lib))
            == ['['] + CommaSeparated([lib.canonical(i.workspaceID), lib.canonical(lib.lower(i.sourceType)), lib.canonical(i.sourceID),
                                       lib.canonical(i.sourceVersion), lib.canonical(i.customerID), lib.canonical(i.nodeOrPhase),
                                       lib.canonical(i.occurrence), lib.canonical(i.variant)]) + [']']
  {
    ItemsSeparated(Canonical(i, lib));
    assert Canonical(i, lib) == [lib.canonical(i.workspaceID), lib.canonical(lib.lower(i.sourceType)), lib.canonical(i.sourceID),
                                 lib.canonical(i.sourceVersion), lib.canonical(i.customerID), lib.canonical(i.nodeOrPhase),
                                 lib.canonical(i.occurrence), lib.canonical(i.variant)];
  }

  /** The code point a unit stands for; a stray byte is read as the replacement character. */
  function Point(u: Unit): int { match u case Scalar(c) => c as int case Stray(_) => 0xFFFD }

  function Points(t: Text): seq<int> { if t == [] then [] else [Point(t[0])] + Points(t[1..]) }

  function HexValue(c: char): int { if '0' <= c <= '9' then c as int - '0' as int else if 'a' <= c <= 'f' then c as int - 'a' as int + 10 else 0 }

  /** A reader of JSON strings (section 7 of RFC 8259). */
  function Read(s: string): seq<int>
    decreases |s|
  {
    if s == [] then []
    else if s[0] != '\\' then [s[0] as int] + Read(s[1..])
    else if |s| >= 6 && s[1] == 'u' then
      [HexValue(s[2]) * 4096 + HexValue(s[3]) * 256 + HexValue(s[4]) * 16 + HexValue(s[5])] + Read(s[6..])
    else if |s| >= 2 then [EscapeValue(s[1])] + Read(s[2..])
    else []
  }

  function EscapeValue(letter: char): int {
    if letter == 'b' then 8 else if letter == 'f' then 12 else if letter == 'n' then 10 else if letter == 'r' then 13
    else if letter == 't' then 9 else letter as int
  }

  lemma HexReads(d: nat)
    requires d < 16
    ensures HexValue(HexDigit(d)) == d
  {}

  lemma LongReads(n: CodeUnit, rest: string)
    ensures Read(Written(Long(n)) + rest) == [n] + Read(rest)
  {
    var s := Written(Long(n)) + rest;
    HexReads(n / 16 / 16 / 16);
    HexReads(n / 16 / 16 % 16);
    HexReads(n / 16 % 16);
    HexReads(n % 16);
    assert s[0] == '\\' && s[1] == 'u' && s[2] == Hex4(n)[0] && s[3] == Hex4(n)[1] && s[4] == Hex4(n)[2] && s[5] == Hex4(n)[3];
    assert s[6..] == rest;
    Nibbles(n);
  }

  lemma Nibbles(n: CodeUnit)
    ensures n / 16 / 16 / 16 * 4096 + n / 16 / 16 % 16 * 256 + n / 16 % 16 * 16 + n % 16 == n
  {}

  lemma CodeReads(u: Unit, rest: string)
    ensures Read(Written(CodeOf(u)) + rest) == [Point(u)] + Read(rest)
  {
    var s := Written(CodeOf(u)) + rest;
    match CodeOf(u)
    case Raw(c) => assert s[1..] == rest;
    case Short(letter) => assert s[1] == letter && s[2..] == rest && letter != 'u';
    case Long(n) => LongReads(n, rest);
  }

  /** Reading what was written gives the text back, stray bytes as replacement characters. */
  lemma {:induction false} BodyReads(t: Text)
    ensures Read(Body(t)) == Points(t)
  {
    if t != [] {
      CodeReads(t[0], Body(t[1..]));
      BodyReads(t[1..]);
    }
  }

  /** What JSON for the web must not hold as it is. */
  predicate Escapes(c: char) {
    c == '"' || c == '\\' || c < ' ' || c == '<' || c == '>' || c == '&' || c == '\U{2028}' || c == '\U{2029}'
  }

  /** Exactly the characters that need it are escaped; all others are written as they are. */
  lemma EscapedIff(c: char)
    ensures Written(CodeOf(Scalar(c))) == [c] <==> !Escapes(c)
    ensures Escapes(c) ==> Written(CodeOf(Scalar(c)))[0] == '\\'
  {}

  // ---------- which inputs a key pins down ----------

  /**
   What the library's functions keep: canonical texts are fixed, stray bytes are told apart by neither
   NFKC nor trimming, well-formed texts stay so, and lower-casing leaves no stray byte.
   */
  ghost predicate Lawful(lib: Library) {
    && (forall t: Text :: lib.canonical(lib.canonical(t)) == lib.canonical(t))
    && (forall s: Text, t: Text | SameText(s, t) && lib.canonical(s) == s :: lib.canonical(t) == t)
    && (forall t: Text | WellFormed(t) :: WellFormed(lib.canonical(t)))
    && (forall t: Text :: WellFormed(lib.lower(t)))
  }

  /** Every input with the same preimage has the same dimensions. */
  ghost predicate PinnedDown(i: Input, lib: Library) {
    forall j: Input | ArrayText(Canonical(j, lib)) == ArrayText(Canonical(i, lib)) :: Canonical(j, lib) == Canonical(i, lib)
  }

  function WithDimension(i: Input, k: nat, t: Text): Input {
    match k
    case 0 => i.(workspaceID := t)
    case 1 => i.(sourceType := t)
    case 2 => i.(sourceID := t)
    case 3 => i.(sourceVersion := t)
    case 4 => i.(customerID := t)
    case 5 => i.(nodeOrPhase := t)
    case 6 => i.(occurrence := t)
    case _ => i.(variant := t)
  }

  lemma WithDimensionNamed(i: Input, k: nat, t: Text, lib: Library)
    requires k < 8 && k != 1
    ensures Canonical(WithDimension(i, k, t), lib) == Canonical(i, lib)[k := lib.canonical(t)]
  {
    assert Named(WithDimension(i, k, t), lib) == Named(i, lib)[k := t];
  }

  /** A stray byte in a dimension makes two different inputs collide. */
  lemma StrayCollides(i: Input, lib: Library, k: nat, j: nat)
    requires Lawful(lib) && k < 8 && j < |Canonical(i, lib)[k]| && Canonical(i, lib)[k][j].Stray?
    ensures !PinnedDown(i, lib)
  {
    var t := Canonical(i, lib)[k];
    var u := Swapped(t, j);
    assert k != 1 by { assert WellFormed(lib.canonical(lib.lower(i.sourceType))); }
    assert lib.canonical(t) == t by { assert t == lib.canonical(Named(i, lib)[k]); }
    assert SameText(t, u) && u[j] != t[j];
    WithDimensionNamed(i, k, u, lib);
    ArrayTextInjective(Canonical(WithDimension(i, k, u), lib), Canonical(i, lib));
  }

  /** An effect key's preimage pins the dimensions of its input down exactly when they are valid UTF-8. */
  lemma PinnedDownIffWellFormed(i: Input, lib: Library)
    requires Lawful(lib)
    ensures PinnedDown(i, lib) <==> AllWellFormed(Canonical(i, lib))
  {
    if AllWellFormed(Canonical(i, lib)) {
      forall j: Input | ArrayText(Canonical(j, lib)) == ArrayText(Canonical(i, lib))
        ensures Canonical(j, lib) == Canonical(i, lib)
      {
        SamePreimageIffSameDimensions(i, j, lib);
      }
    } else {
      var k :| 0 <= k < 8 && !WellFormed(Canonical(i, lib)[k]);
      var j :| 0 <= j < |Canonical(i, lib)[k]| && Canonical(i, lib)[k][j].Stray?;
      StrayCollides(i, lib, k, j);
    }
  }
}
