/** Normalising one customer identity: its type, and its value by type. */
module CustomerIdentity {
  import opened JsonValues
  import opened Texts
  import opened Wrappers

  /** What library code decides. */
  datatype Library = Library(
    lower: char -> char,
    isEmail: string -> bool, isAlphanumeric: string -> bool, isLocale: string -> bool, isTimezone: string -> bool,
    isCustomerNo: string -> bool,
    /** The canonical text of a non-nil UUID. */
    parseUuid: string -> Option<string>,
    /** Bytes of the encoded metadata. */
    metadataSize: Json -> nat)

  /** All that is assumed of it. */
  ghost predicate Lawful(lib: Library) {
    && (forall c :: lib.lower(lib.lower(c)) == lib.lower(c) && IsSpace(lib.lower(c)) == IsSpace(c))
    && (forall c | 'a' <= c <= 'z' :: lib.lower(c) == c)
    && !lib.isCustomerNo([])
    && forall s :: lib.parseUuid(s).Some? ==>
         var u := lib.parseUuid(s).value; u != [] && Trimmed(u) && lib.parseUuid(u) == Some(u)
  }

  function Lower(lib: Library, s: string): string { seq(|s|, i requires 0 <= i < |s| => lib.lower(s[i])) }

  lemma LowerFixed(lib: Library, s: string)
    requires Lawful(lib)
    ensures Lower(lib, Lower(lib, s)) == Lower(lib, s)
    ensures Trimmed(s) ==> Trimmed(Lower(lib, s))
  {}

  /** What trimming leaves of lower-case text is lower-case. */
  lemma {:induction false} TrimmedLowerFixed(lib: Library, s: string)
    requires Lower(lib, s) == s
    ensures Lower(lib, Trim(s)) == Trim(s)
    decreases |s|
  {
    if s != [] {
      if IsSpace(s[0]) {
        assert forall i | 0 <= i < |s| - 1 :: Lower(lib, s)[i + 1] == s[1..][i];
        assert Lower(lib, s[1..]) == s[1..];
        TrimmedLowerFixed(lib, s[1..]);
      } else if IsSpace(s[|s| - 1]) {
        assert forall i | 0 <= i < |s| - 1 :: Lower(lib, s)[i] == s[..|s| - 1][i];
        assert Lower(lib, s[..|s| - 1]) == s[..|s| - 1];
        TrimmedLowerFixed(lib, s[..|s| - 1]);
      }
    }
  }

  // ---------- phone numbers ----------

  predicate IsDigit(c: char) { '0' <= c <= '9' }

  predicate IsSkipped(c: char) { c == ' ' || c == '\t' || c == '-' || c == '(' || c == ')' || c == '.' }

  /** `^\+[1-9][0-9]{6,14}$`. */
  predicate IsE164(s: string) {
    8 <= |s| <= 16 && s[0] == '+' && '1' <= s[1] <= '9' && forall i | 2 <= i < |s| :: IsDigit(s[i])
  }

  /** The international prefix 00 written as +. */
  function Prefixed(s: string): string { if |s| >= 2 && s[0] == '0' && s[1] == '0' then "+" + s[2..] else s }

  /** Every character is a digit, skipped, or a leading plus. */
  predicate PhoneText(s: string) { forall i | 0 <= i < |s| :: IsDigit(s[i]) || IsSkipped(s[i]) || (i == 0 && s[i] == '+') }

  function Unskipped(s: string): string
    decreases |s|
  {
    if s == [] then []
    else
      var rest := Unskipped(s[..|s| - 1]);
      if IsSkipped(s[|s| - 1]) then rest else rest + [s[|s| - 1]]
  }

  function NormalPhone(value: string): Option<string> {
    var s := Prefixed(Trim(value));
    if PhoneText(s) && IsE164(Unskipped(s)) then Some(Unskipped(s)) else None
  }

  /** `normalizeCustomerE164`. */
  method NormalizeE164(value: string) returns (r: Option<string>)
    ensures r == NormalPhone(value)
  {
    var s := Trim(value);
    if |s| >= 2 && s[0] == '0' && s[1] == '0' { s := "+" + s[2..]; }
    var normalized := "";
    for i := 0 to |s|
      invariant forall j | 0 <= j < i :: IsDigit(s[j]) || IsSkipped(s[j]) || (j == 0 && s[j] == '+')
      invariant normalized == Unskipped(s[..i])
    {
      assert s[..i + 1][..i] == s[..i];
      if IsDigit(s[i]) {
        normalized := normalized + [s[i]];
      } else if s[i] == '+' && i == 0 {
        normalized := normalized + [s[i]];
      } else if IsSkipped(s[i]) {
      } else {
        return None;
      }
    }
    assert s[..|s|] == s;
    r := if IsE164(normalized) then Some(normalized) else None;
  }

  lemma {:induction false} UnskippedFixed(s: string)
    requires forall c | c in s :: !IsSkipped(c)
    ensures Unskipped(s) == s
    decreases |s|
  {
    if s != [] {
      UnskippedFixed(s[..|s| - 1]);
      assert s == s[..|s| - 1] + [s[|s| - 1]];
    }
  }

  /** A normal phone number is its own normal form. */
  lemma NormalPhoneFixed(value: string)
    ensures NormalPhone(value).Some? ==>
              IsE164(NormalPhone(value).value) && NormalPhone(NormalPhone(value).value) == NormalPhone(value)
  {
    if NormalPhone(value).Some? {
      var r := NormalPhone(value).value;
      assert Trim(r) == r && Prefixed(r) == r;
      assert forall i | 0 <= i < |r| :: IsDigit(r[i]) || i == 0;
      UnskippedFixed(r);
    }
  }

  /** The digits of a text, in order. */
  function DigitsOf(s: string): string
    decreases |s|
  {
    if s == [] then [] else DigitsOf(s[..|s| - 1]) + if IsDigit(s[|s| - 1]) then [s[|s| - 1]] else []
  }

  /** What may stand between the digits. */
  predicate Spaced(s: string) {
    forall i | 0 <= i < |s| :: IsDigit(s[i]) || s[i] == ' ' || s[i] == '\t' || s[i] == '-' || s[i] == '(' || s[i] == ')' || s[i] == '.'
  }

  lemma {:induction false} UnskippedDigits(s: string)
    requires Spaced(s)
    ensures Unskipped(s) == DigitsOf(s)
    decreases |s|
  {
    if s != [] { UnskippedDigits(s[..|s| - 1]); }
  }

  lemma {:induction false} UnskippedHead(c: char, s: string)
    requires !IsSkipped(c)
    ensures Unskipped([c] + s) == [c] + Unskipped(s)
    decreases |s|
  {
    if s == [] {
      assert [c] + s == [c] && [c][..0] == [];
    } else {
      var t := [c] + s;
      assert t[..|t| - 1] == [c] + s[..|s| - 1];
      UnskippedHead(c, s[..|s| - 1]);
    }
  }

  /** The part after the plus, or after the leading double zero; none when there is neither. */
  function AfterPrefix(s: string): Option<string> {
    if |s| >= 1 && s[0] == '+' then Some(s[1..])
    else if |s| >= 2 && s[0] == '0' && s[1] == '0' then Some(s[2..])
    else None
  }

  /**
   A phone number, as its digits: it has a plus or a double zero in front, then 7 to 15 digits, the first not
   zero, with nothing but spaces, tabs, hyphens, brackets and dots between; normal is a plus and the digits.
   */
  lemma PhoneIsItsDigits(value: string)
    ensures var rest := AfterPrefix(Trim(value));
            NormalPhone(value)
            == if rest.Some? && Spaced(rest.value) && 7 <= |DigitsOf(rest.value)| <= 15 && DigitsOf(rest.value)[0] != '0'
               then Some("+" + DigitsOf(rest.value)) else None
  {
    var t := Trim(value);
    var s := Prefixed(t);
    if AfterPrefix(t).Some? {
      PhoneBody(s, AfterPrefix(t).value);
    } else if PhoneText(s) {
      assert Spaced(s);
      UnskippedDigits(s);
      DigitsAreDigits(s);
    }
  }

  lemma PhoneTextAfterPlus(rest: string)
    ensures PhoneText(['+'] + rest) <==> Spaced(rest)
  {
    var s := ['+'] + rest;
    if PhoneText(s) {
      forall i | 0 <= i < |rest| ensures IsDigit(rest[i]) || IsSkipped(rest[i]) { assert s[i + 1] == rest[i]; }
    }
  }

  lemma E164OfDigits(digits: string)
    requires forall i | 0 <= i < |digits| :: IsDigit(digits[i])
    ensures IsE164(['+'] + digits) <==> 7 <= |digits| <= 15 && digits[0] != '0'
  {
    var s := ['+'] + digits;
    if 7 <= |digits| <= 15 {
      assert s[1] == digits[0] && IsDigit(digits[0]);
      forall i | 2 <= i < |s| ensures IsDigit(s[i]) { assert s[i] == digits[i - 1]; }
    }
  }

  lemma PhoneBody(s: string, rest: string)
    requires s == ['+'] + rest
    ensures PhoneText(s) <==> Spaced(rest)
    ensures Spaced(rest) ==> Unskipped(s) == ['+'] + DigitsOf(rest)
    ensures Spaced(rest) ==> (IsE164(Unskipped(s)) <==> 7 <= |DigitsOf(rest)| <= 15 && DigitsOf(rest)[0] != '0')
  {
    PhoneTextAfterPlus(rest);
    if Spaced(rest) {
      UnskippedHead('+', rest);
      UnskippedDigits(rest);
      DigitsAreDigits(rest);
      E164OfDigits(DigitsOf(rest));
    }
  }

  lemma {:induction false} DigitsAreDigits(s: string)
    ensures forall i | 0 <= i < |DigitsOf(s)| :: IsDigit(DigitsOf(s)[i])
    decreases |s|
  {
    if s != [] { DigitsAreDigits(s[..|s| - 1]); }
  }

  // ---------- identities ----------

  datatype Identity = Identity(
    kind: string, value: string, verified: bool, primary: bool, enabled: Option<bool>, metadata: Option<JsonObject>)

  predicate Supported(kind: string) {
    || kind == "email" || kind == "phone" || kind == "anonymous_id" || kind == "device_id"
    || kind == "whatsapp" || kind == "telegram" || kind == "custom"
  }

  predicate IsPhoneKind(kind: string) { kind == "phone" || kind == "whatsapp" }

  function NormalKind(lib: Library, kind: string): string { Trim(Lower(lib, kind)) }

  /** The value of an identity of that (normal) kind. */
  function NormalValue(lib: Library, kind: string, value: string): Option<string> {
    var v := Trim(value);
    if v == [] || |v| > 1024 then None
    else if kind == "email" then (if lib.isEmail(Lower(lib, v)) then Some(Lower(lib, v)) else None)
    else if IsPhoneKind(kind) then NormalPhone(v)
    else Some(v)
  }

  /** `NormalizeCustomerIdentity` succeeds. */
  predicate Normalizes(lib: Library, id: Identity) {
    var kind := NormalKind(lib, id.kind);
    Supported(kind) && NormalValue(lib, kind, id.value).Some?
  }

  /** The identity with its kind and value rewritten. */
  function Normal(lib: Library, id: Identity): Identity {
    var kind := NormalKind(lib, id.kind);
    var value := NormalValue(lib, kind, id.value);
    if Supported(kind) && value.Some? then id.(kind := kind, value := value.value) else id
  }

  /** `NormalizeCustomerIdentity`. */
  method NormalizeIdentity(lib: Library, id: Identity) returns (r: Option<(string, string)>)
    ensures r.Some? <==> Normalizes(lib, id)
    ensures r.Some? ==> r.value == (Normal(lib, id).kind, Normal(lib, id).value)
  {
    var kind := Trim(Lower(lib, id.kind));
    if !Supported(kind) { return None; }
    var value := Trim(id.value);
    if value == [] || |value| > 1024 { return None; }
    if kind == "email" {
      value := Lower(lib, Trim(value));
      if !lib.isEmail(value) { return None; }
    } else if IsPhoneKind(kind) {
      var phone := NormalizeE164(value);
      if phone.None? { return None; }
      value := phone.value;
    }
    r := Some((kind, value));
  }

  /** Normalising again changes nothing, and never fails. */
  lemma NormalIsFixed(lib: Library, id: Identity)
    requires Lawful(lib) && Normalizes(lib, id)
    ensures Normalizes(lib, Normal(lib, id)) && Normal(lib, Normal(lib, id)) == Normal(lib, id)
  {
    var kind := NormalKind(lib, id.kind);
    LowerFixed(lib, id.kind);
    TrimmedLowerFixed(lib, Lower(lib, id.kind));
    assert NormalKind(lib, kind) == kind;
    NormalValueFixed(lib, kind, id.value);
  }

  lemma NormalValueFixed(lib: Library, kind: string, value: string)
    requires Lawful(lib) && NormalValue(lib, kind, value).Some?
    ensures NormalValue(lib, kind, NormalValue(lib, kind, value).value) == NormalValue(lib, kind, value)
  {
    var v := Trim(value);
    LowerFixed(lib, v);
    if IsPhoneKind(kind) { NormalPhoneFixed(v); }
  }

  /** The key of a normal identity. */
  function Key(id: Identity): string { id.kind + "\0" + id.value }

  /** Kinds hold no NUL, so the key tells kind and value apart. */
  lemma KeyDeterminesIdentity(a: Identity, b: Identity)
    requires Supported(a.kind) && Supported(b.kind)
    ensures Key(a) == Key(b) <==> a.kind == b.kind && a.value == b.value
  {
    if Key(a) == Key(b) {
      NoNul(a.kind);
      NoNul(b.kind);
      assert Key(a)[|a.kind|] == '\0' && Key(b)[|b.kind|] == '\0';
      assert a.kind == Key(a)[..|a.kind|] && b.kind == Key(b)[..|b.kind|];
      assert a.value == Key(a)[|a.kind| + 1..] && b.value == Key(b)[|b.kind| + 1..];
    }
  }

  lemma NoNul(kind: string)
    requires Supported(kind)
    ensures '\0' !in kind
  {}
}
