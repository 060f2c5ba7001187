/** The slug normaliser of the blog and the grammar its results must be in. */
module Slug {
  import opened Sequences
  import opened Texts

  /** `unicode.ToLower` as a parameter; all that is asked of it is that slug characters are fixed. */
  ghost predicate FixesSlugCharacters(lower: char -> char) {
    forall c | SlugChar(c) :: lower(c) == c
  }

  predicate Alnum(c: char) { 'a' <= c <= 'z' || '0' <= c <= '9' }
  predicate SlugChar(c: char) { Alnum(c) || c == '-' }

  // ---------- the grammar ----------

  datatype State = NeedAlnum | InRun

  /** The automaton of `^[a-z0-9]+(?:-[a-z0-9]+)*$`. */
  predicate Accepts(s: string, q: State) {
    if s == [] then q == InRun
    else if Alnum(s[0]) then Accepts(s[1..], InRun)
    else s[0] == '-' && q == InRun && Accepts(s[1..], NeedAlnum)
  }

  predicate IsSlug(s: string) { Accepts(s, NeedAlnum) }

  // ---------- the steps ----------

  function Lowered(s: string, lower: char -> char): string { seq(|s|, i requires 0 <= i < |s| => lower(s[i])) }

  /** `strings.ReplaceAll` of one character by a hyphen. */
  function Hyphenated(s: string, from: char): string {
    seq(|s|, i requires 0 <= i < |s| => if s[i] == from then '-' else s[i])
  }

  function Kept(s: string): string {
    if s == [] then [] else Kept(s[..|s| - 1]) + if SlugChar(s[|s| - 1]) then [s[|s| - 1]] else []
  }

  /** The text before hyphens are collapsed. */
  function Filtered(s: string, lower: char -> char): string {
    Kept(Hyphenated(Hyphenated(Trim(Lowered(s, lower)), ' '), '_'))
  }

  predicate HasDouble(s: string) { exists i | 0 <= i < |s| - 1 :: s[i] == '-' && s[i + 1] == '-' }

  /** One pass of `strings.ReplaceAll(s, "--", "-")`. */
  function Halve(s: string): (r: string)
    ensures |r| <= |s|
  {
    if |s| < 2 then s
    else if s[0] == '-' && s[1] == '-' then ['-'] + Halve(s[2..])
    else [s[0]] + Halve(s[1..])
  }

  lemma {:induction false} HalveShrinks(s: string)
    requires HasDouble(s)
    ensures |Halve(s)| < |s|
  {
    var i :| 0 <= i < |s| - 1 && s[i] == '-' && s[i + 1] == '-';
    if !(s[0] == '-' && s[1] == '-') {
      assert s[1..][i - 1] == '-' && s[1..][i] == '-';
      HalveShrinks(s[1..]);
    }
  }

  /** `strings.Trim(s, "-")`. */
  function TrimHyphens(s: string): string {
    if s == [] then s
    else if s[0] == '-' then TrimHyphens(s[1..])
    else if s[|s| - 1] == '-' then TrimHyphens(s[..|s| - 1])
    else s
  }

  /** `NormalizeSlug`. */
  method NormalizeSlug(input: string, lower: char -> char) returns (s: string)
    ensures s == Normalized(input, lower)
  {
    s := Lowered(input, lower);
    s := Trim(s);
    s := Hyphenated(s, ' ');
    s := Hyphenated(s, '_');
    var builder := "";
    for i := 0 to |s|
      invariant builder == Kept(s[..i])
    {
      if SlugChar(s[i]) { builder := builder + [s[i]]; }
      assert s[..i + 1][..i] == s[..i];
    }
    assert s[..|s|] == s;
    s := builder;
    while HasDouble(s)
      invariant Runs(s) == Runs(Filtered(input, lower))
      decreases |s|
    {
      HalveShrinks(s);
      HalveKeepsRuns(s);
      s := Halve(s);
    }
    TrimKeepsRuns(s);
    ghost var from, to := TrimIsStretch(s);
    assert forall i | 0 <= i < to - from :: s[from..to][i] == s[from + i];
    s := TrimHyphens(s);
    SingleHyphensJoin(s);
  }

  // ---------- runs ----------

  function NonEmpty(parts: seq<string>): seq<string> {
    if parts == [] then [] else (if parts[0] == [] then [] else [parts[0]]) + NonEmpty(parts[1..])
  }

  /** The maximal runs between hyphens. */
  function Runs(s: string): seq<string> { NonEmpty(Split(s, '-')) }

  /** The maximal alphanumeric runs of the filtered text, joined by single hyphens. */
  function Normalized(s: string, lower: char -> char): string { Join(Runs(Filtered(s, lower)), '-') }

  lemma {:induction false} HalveSplit(s: string)
    ensures Split(Halve(s), '-')[0] == Split(s, '-')[0]
    ensures NonEmpty(Split(Halve(s), '-')[1..]) == NonEmpty(Split(s, '-')[1..])
  {
    if |s| >= 2 {
      if s[0] == '-' && s[1] == '-' {
        HalveSplit(s[2..]);
        var r := Halve(s);
        assert r[1..] == Halve(s[2..]);
        assert s[1..][1..] == s[2..];
        assert Split(r, '-')[1..] == Split(r[1..], '-');
        assert Split(s, '-')[1..] == Split(s[1..], '-') == [[]] + Split(s[2..], '-');
      } else {
        HalveSplit(s[1..]);
        var r := Halve(s);
        assert r[1..] == Halve(s[1..]);
        if s[0] == '-' {
          assert Split(r, '-')[1..] == Split(r[1..], '-') && Split(s, '-')[1..] == Split(s[1..], '-');
        } else {
          assert Split(r, '-')[1..] == Split(r[1..], '-')[1..] && Split(s, '-')[1..] == Split(s[1..], '-')[1..];
        }
      }
    }
  }

  /** A pass never merges or loses a run. */
  lemma HalveKeepsRuns(s: string)
    ensures Runs(Halve(s)) == Runs(s)
  {
    HalveSplit(s);
  }

  lemma {:induction false} SplitTrailing(s: string)
    ensures Split(s + ['-'], '-') == Split(s, '-') + [[]]
  {
    if s != [] {
      SplitTrailing(s[1..]);
      assert (s + ['-'])[1..] == s[1..] + ['-'];
    } else {
      assert s + ['-'] == ['-'] && ['-'][1..] == [];
    }
  }

  lemma {:induction false} NonEmptyTrailing(parts: seq<string>)
    ensures NonEmpty(parts + [[]]) == NonEmpty(parts)
  {
    if parts == [] {
      assert parts + [[]] == [[]];
    } else {
      NonEmptyTrailing(parts[1..]);
      assert (parts + [[]])[1..] == parts[1..] + [[]];
    }
  }

  lemma {:induction false} TrimKeepsRuns(s: string)
    ensures Runs(TrimHyphens(s)) == Runs(s)
  {
    if s != [] && s[0] == '-' {
      TrimKeepsRuns(s[1..]);
      assert Split(s, '-')[1..] == Split(s[1..], '-');
    } else if s != [] && s[|s| - 1] == '-' {
      var t := s[..|s| - 1];
      assert s == t + ['-'];
      TrimKeepsRuns(t);
      SplitTrailing(t);
      NonEmptyTrailing(Split(t, '-'));
    }
  }

  /** The result of trimming is a stretch of the text with no hyphen at either end. */
  lemma {:induction false} TrimIsStretch(s: string) returns (i: nat, j: nat)
    ensures i <= j <= |s| && TrimHyphens(s) == s[i..j]
    ensures i == j || (s[i] != '-' && s[j - 1] != '-')
  {
    if s == [] {
      i, j := 0, 0;
    } else if s[0] == '-' {
      i, j := TrimIsStretch(s[1..]);
      i, j := i + 1, j + 1;
    } else if s[|s| - 1] == '-' {
      i, j := TrimIsStretch(s[..|s| - 1]);
    } else {
      i, j := 0, |s|;
    }
  }

  /** Without double or trailing hyphens, only the first part can be empty. */
  lemma {:induction false} PartsAreRuns(s: string)
    requires !HasDouble(s) && (s == [] || s[|s| - 1] != '-')
    ensures Split(s, '-')[0] == [] <==> s == [] || s[0] == '-'
    ensures NonEmpty(Split(s, '-')[1..]) == Split(s, '-')[1..]
  {
    if s != [] {
      var t := s[1..];
      forall i | 0 <= i < |t| - 1 ensures !(t[i] == '-' && t[i + 1] == '-') { assert s[i + 1] == t[i] && s[i + 2] == t[i + 1]; }
      PartsAreRuns(t);
      if s[0] == '-' {
        assert t != [] && s[1] == t[0];
        assert Split(s, '-')[1..] == Split(t, '-');
        assert Split(t, '-') == [Split(t, '-')[0]] + Split(t, '-')[1..];
      } else {
        assert Split(s, '-')[1..] == Split(t, '-')[1..];
      }
    }
  }

  lemma SingleHyphensJoin(s: string)
    requires !HasDouble(s) && (s == [] || (s[0] != '-' && s[|s| - 1] != '-'))
    ensures s == Join(Runs(s), '-')
  {
    PartsAreRuns(s);
    JoinSplit(s, '-');
    var parts := Split(s, '-');
    assert parts == [parts[0]] + parts[1..];
    if s == [] { assert parts == [[]]; }
  }

  // ---------- what comes out ----------

  lemma {:induction false} AlnumPrefix(run: string, rest: string, q: State)
    requires AllAlnum(run)
    ensures Accepts(run + rest, q) <==> Accepts(rest, if run == [] then q else InRun)
  {
    if run == [] {
      assert run + rest == rest;
    } else {
      AlnumPrefix(run[1..], rest, InRun);
      assert (run + rest)[1..] == run[1..] + rest;
      assert (run + rest)[0] == run[0] && run[0] in run;
    }
  }

  predicate AllAlnum(run: string) { forall c | c in run :: Alnum(c) }

  predicate AlnumRuns(runs: seq<string>) { forall i | 0 <= i < |runs| :: runs[i] != [] && AllAlnum(runs[i]) }

  lemma {:induction false} JoinAccepted(runs: seq<string>)
    requires AlnumRuns(runs) && runs != []
    ensures IsSlug(Join(runs, '-'))
  {
    if |runs| == 1 {
      AlnumPrefix(runs[0], [], NeedAlnum);
      assert runs[0] + [] == runs[0];
    } else {
      JoinAccepted(runs[1..]);
      var rest := ['-'] + Join(runs[1..], '-');
      AlnumPrefix(runs[0], rest, NeedAlnum);
      assert Join(runs, '-') == runs[0] + rest && rest[1..] == Join(runs[1..], '-');
    }
  }

  lemma {:induction false} RunsOfSlugChars(s: string)
    requires forall c | c in s :: SlugChar(c)
    ensures forall p | p in Split(s, '-') :: AllAlnum(p)
  {
    if s != [] {
      assert s[0] in s;
      RunsOfSlugChars(s[1..]);
      var rest := Split(s[1..], '-');
      forall p | p in Split(s, '-') ensures AllAlnum(p) {
        if s[0] == '-' { assert p == [] || p in rest; }
        else { assert p == [s[0]] + rest[0] || p in rest; assert rest[0] in rest; }
      }
    }
  }

  lemma {:induction false} NonEmptyMembers(parts: seq<string>)
    ensures forall p :: p in NonEmpty(parts) <==> p in parts && p != []
  {
    if parts != [] {
      NonEmptyMembers(parts[1..]);
      assert parts == [parts[0]] + parts[1..];
    }
  }

  lemma {:induction false} KeptMembers(s: string)
    ensures forall c :: c in Kept(s) <==> c in s && SlugChar(c)
    ensures (forall c | c in s :: SlugChar(c)) ==> Kept(s) == s
  {
    if s != [] {
      KeptMembers(s[..|s| - 1]);
      assert s == s[..|s| - 1] + [s[|s| - 1]];
    }
  }

  /** The result is empty or in the grammar, whatever the input and the lower-casing. */
  lemma ResultInGrammar(s: string, lower: char -> char)
    ensures Normalized(s, lower) == [] || IsSlug(Normalized(s, lower))
  {
    var f := Filtered(s, lower);
    KeptMembers(Hyphenated(Hyphenated(Trim(Lowered(s, lower)), ' '), '_'));
    RunsOfSlugChars(f);
    NonEmptyMembers(Split(f, '-'));
    forall i | 0 <= i < |Runs(f)| ensures Runs(f)[i] in Split(f, '-') && Runs(f)[i] != [] { assert Runs(f)[i] in Runs(f); }
    if Runs(f) != [] { JoinAccepted(Runs(f)); }
  }

  lemma {:induction false} AcceptedShape(s: string, q: State)
    requires Accepts(s, q)
    ensures forall c | c in s :: SlugChar(c)
    ensures !HasDouble(s) && (s != [] ==> s[|s| - 1] != '-')
    ensures q == NeedAlnum ==> s != [] && s[0] != '-'
  {
    if s != [] {
      var next := if Alnum(s[0]) then InRun else NeedAlnum;
      AcceptedShape(s[1..], next);
      assert s == [s[0]] + s[1..];
      forall i | 0 <= i < |s| - 1 ensures !(s[i] == '-' && s[i + 1] == '-') {
        if i > 0 { assert s[i] == s[1..][i - 1] && s[i + 1] == s[1..][i]; }
      }
    }
  }

  lemma SlugUnchanged(s: string, lower: char -> char)
    requires IsSlug(s) && FixesSlugCharacters(lower)
    ensures Normalized(s, lower) == s
  {
    AcceptedShape(s, NeedAlnum);
    forall i | 0 <= i < |s| ensures SlugChar(s[i]) { assert s[i] in s; }
    assert Lowered(s, lower) == s;
    assert Trimmed(s);
    assert Hyphenated(Hyphenated(s, ' '), '_') == s;
    KeptMembers(s);
    SingleHyphensJoin(s);
  }

  /** The fixed points are the valid slugs and the empty string; so a second pass changes nothing. */
  lemma FixedPointsAreSlugs(s: string, lower: char -> char)
    requires FixesSlugCharacters(lower)
    ensures Normalized(s, lower) == s <==> s == [] || IsSlug(s)
    ensures Normalized(Normalized(s, lower), lower) == Normalized(s, lower)
  {
    ResultInGrammar(s, lower);
    EmptyUnchanged(lower);
    if IsSlug(s) { SlugUnchanged(s, lower); }
    if IsSlug(Normalized(s, lower)) { SlugUnchanged(Normalized(s, lower), lower); }
  }

  lemma EmptyUnchanged(lower: char -> char)
    ensures Normalized([], lower) == []
  {
    assert Lowered([], lower) == [];
    assert Hyphenated(Hyphenated([], ' '), '_') == [];
  }

  // ---------- the same in one pass ----------

  /**
   Reads a lower-case text from left to right: letters and digits are kept; spaces, underscores and hyphens owe one
   hyphen, paid before the next letter or digit if there was one before; everything else is dropped.
   */
  function Scan(s: string, started: bool, owed: bool): string {
    if s == [] then []
    else if 'a' <= s[0] <= 'z' || '0' <= s[0] <= '9' then (if started && owed then ['-'] else []) + [s[0]] + Scan(s[1..], true, false)
    else if s[0] == ' ' || s[0] == '_' || s[0] == '-' then Scan(s[1..], started, true)
    else Scan(s[1..], started, owed)
  }

  /** Before anything is kept, what is owed does not matter. */
  lemma {:induction false} NothingOwed(s: string)
    ensures Scan(s, false, true) == Scan(s, false, false)
  {
    if s != [] { NothingOwed(s[1..]); }
  }

  lemma {:induction false} SpacesInFront(b: string, s: string, owed: bool)
    requires AllSpace(b)
    ensures Scan(b + s, false, owed) == Scan(s, false, false)
    decreases |b|
  {
    NothingOwed(s);
    if b == [] {
      assert b + s == s;
    } else {
      assert (b + s)[1..] == b[1..] + s && b[0] in b;
      SpacesInFront(b[1..], s, true);
      SpacesInFront(b[1..], s, owed);
    }
  }

  lemma {:induction false} SpacesBehind(s: string, a: string, started: bool, owed: bool)
    requires AllSpace(a)
    ensures Scan(s + a, started, owed) == Scan(s, started, owed)
    decreases |s| + |a|
  {
    if s == [] {
      assert s + a == a;
      if a != [] {
        assert a[0] in a && [] + a[1..] == a[1..];
        SpacesBehind([], a[1..], started, true);
        SpacesBehind([], a[1..], started, owed);
      }
    } else {
      assert (s + a)[1..] == s[1..] + a;
      SpacesBehind(s[1..], a, true, false);
      SpacesBehind(s[1..], a, started, true);
      SpacesBehind(s[1..], a, started, owed);
    }
  }

  lemma TrimUnseen(s: string)
    ensures Scan(Trim(s), false, false) == Scan(s, false, false)
  {
    var before, after := TrimIsMiddle(s);
    SpacesBehind(before + Trim(s), after, false, false);
    SpacesInFront(before, Trim(s), false);
  }

  lemma {:induction false} KeptHead(c: char, s: string)
    ensures Kept([c] + s) == (if SlugChar(c) then [c] else []) + Kept(s)
    decreases |s|
  {
    var t := [c] + s;
    if s == [] {
      assert t == [c] && t[..0] == [];
    } else {
      assert t[..|t| - 1] == [c] + s[..|s| - 1];
      KeptHead(c, s[..|s| - 1]);
    }
  }

  function Replaced(c: char): char { if c == ' ' || c == '_' then '-' else c }

  lemma {:induction false} FilterUnseen(s: string, started: bool, owed: bool)
    ensures Scan(Kept(Hyphenated(Hyphenated(s, ' '), '_')), started, owed) == Scan(s, started, owed)
    decreases |s|
  {
    var h := Hyphenated(Hyphenated(s, ' '), '_');
    if s != [] {
      assert h == [Replaced(s[0])] + Hyphenated(Hyphenated(s[1..], ' '), '_');
      KeptHead(Replaced(s[0]), Hyphenated(Hyphenated(s[1..], ' '), '_'));
      var rest := Kept(Hyphenated(Hyphenated(s[1..], ' '), '_'));
      if SlugChar(Replaced(s[0])) { assert Kept(h)[1..] == rest; } else { assert Kept(h) == rest; }
      FilterUnseen(s[1..], true, false);
      FilterUnseen(s[1..], started, true);
      FilterUnseen(s[1..], started, owed);
    } else {
      assert h == [];
    }
  }

  /** The runs after the first, each with a hyphen in front. */
  function Trail(runs: seq<string>): string { if runs == [] then [] else ['-'] + Join(runs, '-') }

  lemma JoinHead(run: string, runs: seq<string>)
    ensures Join([run] + runs, '-') == run + Trail(runs)
  {
    assert ([run] + runs)[1..] == runs;
  }

  lemma RunsHead(f: string)
    requires f != []
    ensures f[0] == '-' ==> Split(f, '-')[0] == [] && Split(f, '-')[1..] == Split(f[1..], '-') && Runs(f) == Runs(f[1..])
    ensures f[0] != '-' ==>
              && Split(f, '-')[0] == [f[0]] + Split(f[1..], '-')[0] && Split(f, '-')[1..] == Split(f[1..], '-')[1..]
              && Runs(f) == [Split(f, '-')[0]] + NonEmpty(Split(f, '-')[1..])
  {}

  /** The first part of a text and the runs after it. */
  function Rest(f: string): string { Split(f, '-')[0] + Trail(NonEmpty(Split(f, '-')[1..])) }

  lemma RestHead(f: string)
    requires f != [] && f[0] != '-'
    ensures Rest(f) == [f[0]] + Rest(f[1..])
  {
    RunsHead(f);
    Reassociated([f[0]], Split(f[1..], '-')[0], Trail(NonEmpty(Split(f[1..], '-')[1..])));
  }

  lemma RestJoins(f: string)
    requires f != [] && f[0] != '-'
    ensures Join(Runs(f), '-') == Rest(f) && Trail(Runs(f)) == ['-'] + Rest(f)
  {
    RunsHead(f);
    JoinHead(Split(f, '-')[0], NonEmpty(Split(f, '-')[1..]));
  }

  /** What the scan makes of a text of letters, digits and hyphens: at the start, after an owed hyphen, and within a run. */
  predicate ScansTo(f: string) {
    Scan(f, false, false) == Join(Runs(f), '-') && Scan(f, true, true) == Trail(Runs(f)) && Scan(f, true, false) == Rest(f)
  }

  lemma HyphenScans(f: string)
    requires f != [] && f[0] == '-' && ScansTo(f[1..])
    ensures ScansTo(f)
  {
    RunsHead(f);
    NothingOwed(f[1..]);
  }

  lemma LetterScans(f: string)
    requires f != [] && Alnum(f[0]) && ScansTo(f[1..])
    ensures ScansTo(f)
  {
    RestHead(f);
    RestJoins(f);
  }

  lemma {:induction false} ScanJoins(f: string)
    requires forall c | c in f :: SlugChar(c)
    ensures ScansTo(f)
    decreases |f|
  {
    if f != [] {
      assert f[0] in f;
      ScanJoins(f[1..]);
      if f[0] == '-' { HyphenScans(f); } else { LetterScans(f); }
    }
  }

  /** The normaliser with its five steps does what the one pass does on the lower-cased text, so its trimming is not needed. */
  lemma NormalizedInOnePass(s: string, lower: char -> char)
    ensures Normalized(s, lower) == Scan(Lowered(s, lower), false, false)
  {
    var l := Lowered(s, lower);
    TrimUnseen(l);
    FilterUnseen(Trim(l), false, false);
    KeptMembers(Hyphenated(Hyphenated(Trim(l), ' '), '_'));
    ScanJoins(Filtered(s, lower));
  }
}
