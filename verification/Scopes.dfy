/** OIDC scope lists: split, de-duplicate, force `openid` first, and store as one string. */
module Scopes {
  import opened Texts

  const DEFAULT_SCOPES := "openid email profile"
  const OPENID := "openid"

  predicate Separator(c: char) { c == ',' || c == ';' || IsSpace(c) }

  /** A token as the splitter produces it. */
  predicate Token(t: string) { t != [] && forall i | 0 <= i < |t| :: !Separator(t[i]) }

  function TokenLength(s: string): (n: nat)
    ensures n <= |s| && forall i | 0 <= i < n :: !Separator(s[i])
    ensures n < |s| ==> Separator(s[n])
  {
    if s == [] || Separator(s[0]) then 0 else 1 + TokenLength(s[1..])
  }

  /** `strings.FieldsFunc` with the separator test. */
  function Fields(s: string): (tokens: seq<string>)
    ensures forall i | 0 <= i < |tokens| :: Token(tokens[i])
  {
    if s == [] then []
    else if Separator(s[0]) then Fields(s[1..])
    else var n := TokenLength(s); [s[..n]] + Fields(s[n..])
  }

  /** The tokens without later repetitions. */
  function FirstOccurrences(tokens: seq<string>): (r: seq<string>)
    ensures forall t :: t in r <==> t in tokens
  {
    if tokens == [] then []
    else
      var rest, last := tokens[..|tokens| - 1], tokens[|tokens| - 1];
      assert tokens == rest + [last];
      if last in rest then FirstOccurrences(rest) else FirstOccurrences(rest) + [last]
  }

  function Without(tokens: seq<string>, t: string): (r: seq<string>)
    ensures forall u :: u in r <==> u in tokens && u != t
  {
    if tokens == [] then []
    else
      var rest, last := tokens[..|tokens| - 1], tokens[|tokens| - 1];
      assert tokens == rest + [last];
      if last == t then Without(rest, t) else Without(rest, t) + [last]
  }

  function Emails(setting: string): seq<string> { FirstOccurrences(Fields(setting)) }

  function Scopes(raw: string): seq<string> { [OPENID] + Without(Emails(raw), OPENID) }

  function Stored(raw: string): string { Join(Scopes(if Fields(raw) == [] then DEFAULT_SCOPES else raw), ' ') }

  /** `ParseRootEmails`. */
  method ParseRootEmails(setting: string) returns (out: seq<string>)
    ensures out == Emails(setting)
  {
    out := [];
    if setting == "" { return; }
    var seen: set<string>, tokens := {}, Fields(setting);
    for i := 0 to |tokens|
      invariant out == FirstOccurrences(tokens[..i])
      invariant forall t :: t in seen <==> t in out
    {
      assert tokens[..i + 1][..i] == tokens[..i];
      if tokens[i] !in seen {
        seen := seen + {tokens[i]};
        out := out + [tokens[i]];
      }
    }
    assert tokens[..|tokens|] == tokens;
  }

  /** `ParseScopes`. */
  method ParseScopes(raw: string) returns (out: seq<string>)
    ensures out == Scopes(raw)
  {
    var parsed := ParseRootEmails(raw);
    out := [OPENID];
    for i := 0 to |parsed|
      invariant out == [OPENID] + Without(parsed[..i], OPENID)
    {
      assert parsed[..i + 1][..i] == parsed[..i];
      if parsed[i] != OPENID { out := out + [parsed[i]]; }
    }
    assert parsed[..|parsed|] == parsed;
  }

  /** `NormalizeScopesForStorage`. */
  method NormalizeScopesForStorage(raw: string) returns (stored: string)
    ensures stored == Stored(raw)
  {
    var tokens := ParseRootEmails(raw);
    NothingParsed(Fields(raw));
    var scopes := ParseScopes(if |tokens| == 0 then DEFAULT_SCOPES else raw);
    stored := Join(scopes, ' ');
  }

  lemma NothingParsed(tokens: seq<string>)
    ensures FirstOccurrences(tokens) == [] <==> tokens == []
  {
    if tokens != [] { assert tokens[0] in FirstOccurrences(tokens); }
  }

  // ---------- round trip ----------

  predicate NoRepeats(tokens: seq<string>) { forall i, j | 0 <= i < j < |tokens| :: tokens[i] != tokens[j] }

  lemma {:induction false} FirstOccurrencesDistinct(tokens: seq<string>)
    ensures NoRepeats(FirstOccurrences(tokens))
    ensures NoRepeats(tokens) ==> FirstOccurrences(tokens) == tokens
  {
    if tokens != [] {
      var rest := tokens[..|tokens| - 1];
      FirstOccurrencesDistinct(rest);
      assert tokens == rest + [tokens[|tokens| - 1]];
    }
  }

  lemma {:induction false} WithoutDistinct(tokens: seq<string>, t: string)
    requires NoRepeats(tokens)
    ensures NoRepeats(Without(tokens, t))
    ensures t !in tokens ==> Without(tokens, t) == tokens
  {
    if tokens != [] {
      var rest := tokens[..|tokens| - 1];
      WithoutDistinct(rest, t);
      assert tokens == rest + [tokens[|tokens| - 1]];
      assert tokens[|tokens| - 1] !in rest;
    }
  }

  lemma {:induction false} FieldsOfToken(t: string, rest: string)
    requires Token(t) && (rest == [] || Separator(rest[0]))
    ensures TokenLength(t + rest) == |t|
    ensures Fields(t + rest) == [t] + Fields(rest)
  {
    var s, n := t + rest, TokenLength(t + rest);
    assert forall i | 0 <= i < |t| :: s[i] == t[i];
    assert |t| < |s| ==> s[|t|] == rest[0];
    assert n == |t|;
    assert s[..|t|] == t && s[|t|..] == rest;
  }

  /** The first token of a text ends at the first comma, semicolon or space, and nothing else ends it; such a character in front is skipped. */
  lemma FieldsStep(t: string, c: char, rest: string)
    requires t != [] && forall i | 0 <= i < |t| :: t[i] != ',' && t[i] != ';' && !IsSpace(t[i])
    requires c == ',' || c == ';' || IsSpace(c)
    ensures Fields(t) == [t]
    ensures Fields(t + [c] + rest) == [t] + Fields(rest) && Fields([c] + rest) == Fields(rest)
  {
    FieldsOfToken(t, []);
    FieldsOfToken(t, [c] + rest);
    assert t + [] == t && t + [c] + rest == t + ([c] + rest) && ([c] + rest)[1..] == rest;
  }

  /** Splitting a space-joined list of tokens gives the list back. */
  lemma {:induction false} FieldsOfJoin(tokens: seq<string>)
    requires forall i | 0 <= i < |tokens| :: Token(tokens[i])
    ensures Fields(Join(tokens, ' ')) == tokens
  {
    if |tokens| == 1 {
      FieldsOfToken(tokens[0], []);
      assert tokens[0] + [] == tokens[0];
    } else if |tokens| > 1 {
      FieldsOfJoin(tokens[1..]);
      var rest := [' '] + Join(tokens[1..], ' ');
      FieldsOfToken(tokens[0], rest);
      assert Join(tokens, ' ') == tokens[0] + rest && rest[1..] == Join(tokens[1..], ' ');
    }
  }

  /** A parsed scope list starts with `openid`, repeats nothing, and consists of tokens that were asked for. */
  lemma ScopesShape(raw: string)
    ensures Scopes(raw)[0] == OPENID && NoRepeats(Scopes(raw))
    ensures AllTokens(Scopes(raw))
    ensures forall t :: t in Scopes(raw) <==> t == OPENID || t in Fields(raw)
  {
    var tail := Without(Emails(raw), OPENID);
    FirstOccurrencesDistinct(Fields(raw));
    WithoutDistinct(Emails(raw), OPENID);
    TailTokens(raw);
    PutInFront(OPENID, tail);
    OpenIDIsToken();
    TokensInFront(OPENID, tail);
  }

  lemma TokensInFront(t: string, tail: seq<string>)
    requires Token(t) && AllTokens(tail)
    ensures AllTokens([t] + tail)
  {}

  predicate AllTokens(tokens: seq<string>) { forall i | 0 <= i < |tokens| :: Token(tokens[i]) }

  lemma OpenIDIsToken()
    ensures Token(OPENID)
  {}

  lemma TailTokens(raw: string)
    ensures AllTokens(Without(Emails(raw), OPENID))
  {
    var tail := Without(Emails(raw), OPENID);
    forall i | 0 <= i < |tail| ensures Token(tail[i]) { assert tail[i] in tail && tail[i] in Fields(raw); }
  }

  lemma PutInFront(t: string, tail: seq<string>)
    requires NoRepeats(tail) && t !in tail
    ensures NoRepeats([t] + tail)
  {
    forall i, j | 0 <= i < j < |tail| + 1 ensures ([t] + tail)[i] != ([t] + tail)[j] {
      assert ([t] + tail)[j] == tail[j - 1] && tail[j - 1] in tail;
    }
  }

  const DEFAULT_LIST := [OPENID, "email", "profile"]

  lemma DefaultListDistinct()
    ensures NoRepeats(DEFAULT_LIST)
  {
    assert OPENID[0] == 'o' && "email"[0] == 'e' && "profile"[0] == 'p';
  }

  lemma DefaultJoins()
    ensures Join(DEFAULT_LIST, ' ') == DEFAULT_SCOPES
  {
    assert DEFAULT_LIST[1..] == ["email", "profile"] && ["email", "profile"][1..] == ["profile"];
    assert Join(["email", "profile"], ' ') == "email profile";
  }

  lemma DefaultFields()
    ensures Fields(DEFAULT_SCOPES) == DEFAULT_LIST
  {
    DefaultJoins();
    DefaultTokens();
    FieldsOfJoin(DEFAULT_LIST);
  }

  lemma DefaultTokens()
    ensures AllTokens(DEFAULT_LIST)
  {
    OpenIDIsToken();
    assert Token("email") && Token("profile");
  }

  lemma DefaultScopes()
    ensures Fields(DEFAULT_SCOPES) == DEFAULT_LIST && Scopes(DEFAULT_SCOPES) == DEFAULT_LIST
  {
    DefaultFields();
    DefaultListDistinct();
    FirstOccurrencesDistinct(DEFAULT_LIST);
    WithoutHead(DEFAULT_LIST, OPENID);
  }

  /** A text with nothing but separators is stored as the default, any other as openid and its further tokens. */
  lemma StoredText(raw: string)
    ensures (forall i | 0 <= i < |raw| :: raw[i] == ',' || raw[i] == ';' || IsSpace(raw[i])) ==> Stored(raw) == "openid email profile"
    ensures (exists i | 0 <= i < |raw| :: !(raw[i] == ',' || raw[i] == ';' || IsSpace(raw[i]))) ==>
              Stored(raw) == Join(Scopes(raw), ' ') && Scopes(raw)[0] == "openid"
  {
    NoFieldsIff(raw);
    DefaultScopes();
    DefaultJoins();
  }

  lemma {:induction false} NoFieldsIff(s: string)
    ensures Fields(s) == [] <==> forall i | 0 <= i < |s| :: Separator(s[i])
  {
    if s != [] && Separator(s[0]) {
      NoFieldsIff(s[1..]);
      assert forall i | 1 <= i < |s| :: s[i] == s[1..][i - 1];
    }
  }

  /**
   Parsing what was stored gives what parsing the original gives, or the full default when the
   original has no token; storing the stored form again changes nothing.
   */
  lemma StorageRoundTrip(raw: string)
    ensures Scopes(Stored(raw)) == if Fields(raw) == [] then DEFAULT_LIST else Scopes(raw)
    ensures Stored(Stored(raw)) == Stored(raw)
  {
    DefaultScopes();
    var source := if Fields(raw) == [] then DEFAULT_SCOPES else raw;
    var list := Scopes(source);
    ScopesShape(source);
    FieldsOfJoin(list);
    FirstOccurrencesDistinct(list);
    assert list == [OPENID] + list[1..] && OPENID !in list[1..];
    WithoutHead(list, OPENID);
    assert Scopes(Stored(raw)) == list;
  }

  lemma {:induction false} WithoutHead(tokens: seq<string>, t: string)
    requires NoRepeats(tokens) && tokens != [] && tokens[0] == t
    ensures Without(tokens, t) == tokens[1..]
  {
    var rest := tokens[..|tokens| - 1];
    if |tokens| > 1 {
      WithoutHead(rest, t);
      assert tokens[1..] == rest[1..] + [tokens[|tokens| - 1]];
    } else {
      assert Without(rest, t) == [];
    }
  }

  // ---------- order ----------

  /** Where a token first occurs. */
  function FirstIndex(tokens: seq<string>, t: string): (i: nat)
    requires t in tokens
    ensures i < |tokens| && tokens[i] == t && t !in tokens[..i]
  {
    var rest := tokens[..|tokens| - 1];
    assert tokens == rest + [tokens[|tokens| - 1]];
    if t in rest then
      var i := FirstIndex(rest, t);
      assert rest[..i] == tokens[..i];
      i
    else |rest|
  }

  predicate InOrderOf(list: seq<string>, tokens: seq<string>) {
    && (forall i | 0 <= i < |list| :: list[i] in tokens)
    && forall i, j | 0 <= i < j < |list| :: FirstIndex(tokens, list[i]) < FirstIndex(tokens, list[j])
  }

  lemma {:induction false} FirstOccurrencesInOrder(tokens: seq<string>)
    ensures InOrderOf(FirstOccurrences(tokens), tokens)
  {
    if tokens != [] {
      var rest, last := tokens[..|tokens| - 1], tokens[|tokens| - 1];
      assert tokens == rest + [last];
      FirstOccurrencesInOrder(rest);
      var kept := FirstOccurrences(rest);
      forall i | 0 <= i < |kept| ensures kept[i] in rest && FirstIndex(tokens, kept[i]) == FirstIndex(rest, kept[i]) < |rest| {
        assert kept[i] in kept;
      }
    }
  }

  lemma {:induction false} WithoutInOrder(list: seq<string>, tokens: seq<string>, t: string)
    requires InOrderOf(list, tokens)
    ensures InOrderOf(Without(list, t), tokens)
  {
    if list != [] {
      var rest, last := list[..|list| - 1], list[|list| - 1];
      WithoutInOrder(rest, tokens, t);
      var kept := Without(rest, t);
      forall i | 0 <= i < |kept| ensures FirstIndex(tokens, kept[i]) < FirstIndex(tokens, last) {
        assert kept[i] in kept;
        var j :| 0 <= j < |rest| && rest[j] == kept[i];
        assert list[j] == kept[i];
      }
    }
  }

  /** After `openid`, scopes come in the order in which they first occur in the raw text. */
  lemma ScopesInOrder(raw: string)
    ensures InOrderOf(Scopes(raw)[1..], Fields(raw))
  {
    FirstOccurrencesInOrder(Fields(raw));
    WithoutInOrder(Emails(raw), Fields(raw), OPENID);
  }

  /** A parsed address list repeats nothing, holds exactly the tokens of the text, and has them in the order of their first occurrence. */
  lemma EmailsShape(setting: string)
    ensures NoRepeats(Emails(setting)) && InOrderOf(Emails(setting), Fields(setting))
    ensures forall t :: t in Emails(setting) <==> t in Fields(setting)
  {
    FirstOccurrencesDistinct(Fields(setting));
    FirstOccurrencesInOrder(Fields(setting));
  }
}
