/**
 Weighted variant assignment of a campaign version. Weights are Go `int`s: the running totals of
 `Validate` and `AssignVariant` wrap around at 64 bits, and the model keeps that.
 */
module Campaign {
  import opened Texts
  import opened Wrappers

  const POSITIONS: nat := 10_000
  const TWO_64: nat := 0x1_0000_0000_0000_0000

  type Int64 = x: int | -0x8000_0000_0000_0000 <= x < 0x8000_0000_0000_0000
  type UInt64 = x: int | 0 <= x < 0x1_0000_0000_0000_0000

  /** Addition of 64-bit `int`s, wrapping around in two's complement. */
  function Plus(a: Int64, b: Int64): Int64 {
    if a + b >= 0x8000_0000_0000_0000 then a + b - 0x1_0000_0000_0000_0000
    else if a + b < -0x8000_0000_0000_0000 then a + b + 0x1_0000_0000_0000_0000
    else a + b
  }

  datatype Variant = Variant(id: string, weightBP: Int64)

  datatype Version = Version(
    campaignID: string, version: Int64, audienceID: string, audienceVersion: Int64,
    listID: string, channel: string, variants: seq<Variant>)

  /** The weights added up as integers. */
  function Sum(vs: seq<Variant>): int {
    if vs == [] then 0 else Sum(vs[..|vs| - 1]) + vs[|vs| - 1].weightBP
  }

  /** The weights added up as the code does, wrapping at every addition. */
  function Total(vs: seq<Variant>): Int64 {
    if vs == [] then 0 else Plus(Total(vs[..|vs| - 1]), vs[|vs| - 1].weightBP)
  }

  /** While the partial sums of positive weights stay in range, nothing wraps. */
  lemma {:induction false} TotalIsSum(vs: seq<Variant>, i: nat)
    requires i <= |vs| && Sum(vs) <= POSITIONS && forall k | 0 <= k < |vs| :: vs[k].weightBP > 0
    ensures Total(vs[..i]) == Sum(vs[..i])
  {
    if i > 0 {
      TotalIsSum(vs, i - 1);
      assert vs[..i][..i - 1] == vs[..i - 1] && vs[..|vs|] == vs;
      SumGrows(vs, i - 1, i);
      SumGrows(vs, i, |vs|);
    }
  }

  /** Exactly one recipient source: an audience with a positive version, or a list. */
  predicate OneSource(v: Version) {
    var audience, list := Trim(v.audienceID) != [], Trim(v.listID) != [];
    || (audience && v.audienceVersion > 0 && !list)
    || (!audience && v.audienceVersion == 0 && list)
  }

  function Ids(vs: seq<Variant>): set<string> {
    if vs == [] then {} else Ids(vs[..|vs| - 1]) + {vs[|vs| - 1].id}
  }

  predicate DistinctIds(vs: seq<Variant>) {
    vs != [] ==> vs[|vs| - 1].id !in Ids(vs[..|vs| - 1]) && DistinctIds(vs[..|vs| - 1])
  }

  /** Ids are not blank and not repeated, weights are positive, and they come to 10,000 as the code adds. */
  predicate ValidVariants(vs: seq<Variant>) {
    && (forall i | 0 <= i < |vs| :: !AllSpace(vs[i].id) && vs[i].weightBP > 0)
    && DistinctIds(vs)
    && Total(vs) == POSITIONS
  }

  predicate Valid(v: Version) {
    && Trim(v.campaignID) != [] && v.version > 0
    && OneSource(v) && Utf8Length(Trim(v.listID)) <= 32
    && Trim(v.channel) != [] && v.variants != []
    && ValidVariants(v.variants)
  }

  lemma PrefixStep(vs: seq<Variant>, i: nat)
    requires i < |vs|
    ensures Ids(vs[..i + 1]) == Ids(vs[..i]) + {vs[i].id}
    ensures DistinctIds(vs[..i + 1]) <==> DistinctIds(vs[..i]) && vs[i].id !in Ids(vs[..i])
    ensures Sum(vs[..i + 1]) == Sum(vs[..i]) + vs[i].weightBP
    ensures Total(vs[..i + 1]) == Plus(Total(vs[..i]), vs[i].weightBP)
  {
    assert vs[..i + 1] == vs[..i] + [vs[i]] && vs[..i + 1][..i] == vs[..i];
  }

  lemma {:induction false} RepeatedId(vs: seq<Variant>, i: nat)
    requires i <= |vs| && !DistinctIds(vs[..i])
    ensures !DistinctIds(vs)
    decreases |vs| - i
  {
    if i < |vs| {
      PrefixStep(vs, i);
      RepeatedId(vs, i + 1);
    } else {
      assert vs[..i] == vs;
    }
  }

  method ValidateVariants(vs: seq<Variant>) returns (ok: bool)
    ensures ok == ValidVariants(vs)
  {
    var total: Int64, seen: set<string> := 0, {};
    for i := 0 to |vs|
      invariant forall j | 0 <= j < i :: !AllSpace(vs[j].id) && vs[j].weightBP > 0
      invariant DistinctIds(vs[..i]) && seen == Ids(vs[..i])
      invariant total == Total(vs[..i])
    {
      if Trim(vs[i].id) == [] || vs[i].weightBP <= 0 { return false; }
      if vs[i].id in seen {
        PrefixStep(vs, i);
        RepeatedId(vs, i + 1);
        return false;
      }
      seen := seen + {vs[i].id};
      total := Plus(total, vs[i].weightBP);
      PrefixStep(vs, i);
    }
    assert vs[..|vs|] == vs;
    ok := total == 10_000;
  }

  /** `CampaignVersion.Validate`. */
  method Validate(v: Version) returns (ok: bool)
    ensures ok == Valid(v)
  {
    if Trim(v.campaignID) == [] || v.version <= 0 { return false; }
    var audienceID, listID := Trim(v.audienceID), Trim(v.listID);
    var audienceFieldsPresent := audienceID != [] || v.audienceVersion != 0;
    var audienceSource := audienceID != [] && v.audienceVersion > 0;
    if (audienceFieldsPresent && !audienceSource) || audienceSource == (listID != []) { return false; }
    if Utf8Length(listID) > 32 { return false; }
    if Trim(v.channel) == [] || v.variants == [] { return false; }
    ok := ValidateVariants(v.variants);
  }

  // ---------- assignment ----------

  datatype Assigned = Winner(index: nat) | Nobody

  /** The first variant, from index `i` on, whose wrapped cumulative weight exceeds the position. */
  function WinnerFrom(vs: seq<Variant>, i: nat, position: nat): Assigned
    requires i <= |vs|
    decreases |vs| - i
  {
    if i == |vs| then Nobody
    else if position < Total(vs[..i + 1]) then Winner(i)
    else WinnerFrom(vs, i + 1, position)
  }

  function WinnerAt(vs: seq<Variant>, position: nat): Assigned { WinnerFrom(vs, 0, position) }

  lemma {:induction false} WinnerFromExists(vs: seq<Variant>, i: nat, position: nat)
    requires i < |vs| && position < Total(vs)
    ensures WinnerFrom(vs, i, position).Winner? && i <= WinnerFrom(vs, i, position).index < |vs|
    decreases |vs| - i
  {
    if i + 1 == |vs| {
      assert vs[..i + 1] == vs;
    } else {
      WinnerFromExists(vs, i + 1, position);
    }
  }

  /** A validated version assigns every position, even when its weights wrap around. */
  lemma AssignmentNeverFails(v: Version, position: nat)
    requires Valid(v) && position < POSITIONS
    ensures WinnerAt(v.variants, position).Winner? && WinnerAt(v.variants, position).index < |v.variants|
  {
    WinnerFromExists(v.variants, 0, position);
  }

  /**
   `CampaignVersion.AssignVariant`; `hash` is the big-endian value of the first eight bytes of the
   SHA-256 digest of customer and run seed.
   */
  method AssignVariant(v: Version, hash: UInt64) returns (r: Result<string>)
    ensures r.Ok? <==> Valid(v)
    ensures r.Ok? ==> WinnerAt(v.variants, hash % POSITIONS).Winner?
                      && WinnerAt(v.variants, hash % POSITIONS).index < |v.variants|
                      && r.value == v.variants[WinnerAt(v.variants, hash % POSITIONS).index].id
  {
    var ok := Validate(v);
    if !ok { return Err; }
    var position := hash % 10_000;
    AssignmentNeverFails(v, position);
    var cumulative: Int64 := 0;
    for i := 0 to |v.variants|
      invariant cumulative == Total(v.variants[..i])
      invariant WinnerAt(v.variants, position) == WinnerFrom(v.variants, i, position)
    {
      PrefixStep(v.variants, i);
      cumulative := Plus(cumulative, v.variants[i].weightBP);
      if position < cumulative { return Ok(v.variants[i].id); }
    }
    assert false;
  }

  predicate Beyond(vs: seq<Variant>, k: nat, position: nat)
    requires k < |vs|
  {
    position < Total(vs[..k + 1])
  }

  /** The winner is the first variant whose running total lies beyond the position. */
  lemma {:induction false} FirstBeyond(vs: seq<Variant>, from: nat, position: nat, i: nat)
    requires from <= i < |vs|
    ensures WinnerFrom(vs, from, position) == Winner(i)
            <==> Beyond(vs, i, position) && forall k | from <= k < i :: !Beyond(vs, k, position)
    decreases |vs| - from
  {
    if from < i {
      assert Beyond(vs, from, position) <==> position < Total(vs[..from + 1]);
      FirstBeyond(vs, from + 1, position, i);
    } else if position >= Total(vs[..i + 1]) {
      LaterWinner(vs, i + 1, position);
    }
  }

  /** Variant `i` gets exactly the hashes that leave a remainder by 10,000 in its stretch of the weights laid end to end. */
  lemma StretchOfVariant(v: Version, i: nat, hash: UInt64)
    requires Valid(v) && i < |v.variants| && Sum(v.variants) == 10_000
    ensures WinnerAt(v.variants, hash % 10_000) == Winner(i) <==> Sum(v.variants[..i]) <= hash % 10_000 < Sum(v.variants[..i + 1])
  {
    assert v.variants[..0] == [];
    WinnerOwnsInterval(v.variants, 0, i, hash % 10_000);
  }

  // ---------- reasons ----------

  datatype Reason =
    | NoCampaign | VersionNotPositive | AudienceIncomplete | NotOneSource | LongList | NoChannel | NoVariants
    | BlankVariant(i: nat) | WeightNotPositive(i: nat) | RepeatedVariant(i: nat, j: nat) | WrongTotal

  /** The version is refused for this reason. */
  predicate RefusedFor(v: Version, r: Reason) {
    var audience, list := !AllSpace(v.audienceID), !AllSpace(v.listID);
    match r
    case NoCampaign => AllSpace(v.campaignID)
    case VersionNotPositive => v.version <= 0
    case AudienceIncomplete => (audience || v.audienceVersion != 0) && !(audience && v.audienceVersion > 0)
    case NotOneSource => (audience && v.audienceVersion > 0) == list
    case LongList => Utf8Length(Trim(v.listID)) > 32
    case NoChannel => AllSpace(v.channel)
    case NoVariants => v.variants == []
    case BlankVariant(i) => i < |v.variants| && AllSpace(v.variants[i].id)
    case WeightNotPositive(i) => i < |v.variants| && v.variants[i].weightBP <= 0
    case RepeatedVariant(i, j) => i < j < |v.variants| && v.variants[i].id == v.variants[j].id
    case WrongTotal => (Sum(v.variants) - 10_000) % TWO_64 != 0
  }

  ghost predicate Refused(v: Version) { exists r: Reason :: RefusedFor(v, r) }

  lemma {:induction false} IdsHold(vs: seq<Variant>)
    ensures forall id :: id in Ids(vs) <==> exists i | 0 <= i < |vs| :: vs[i].id == id
  {
    if vs != [] {
      var n := |vs| - 1;
      IdsHold(vs[..n]);
      forall id ensures id in Ids(vs) <==> exists i | 0 <= i < |vs| :: vs[i].id == id {
        if id in Ids(vs[..n]) {
          var i :| 0 <= i < n && vs[..n][i].id == id;
          assert vs[i].id == id;
        }
        if exists i | 0 <= i < |vs| :: vs[i].id == id {
          var i :| 0 <= i < |vs| && vs[i].id == id;
          if i < n { assert vs[..n][i].id == id; }
        }
      }
    }
  }

  lemma {:induction false} DistinctIdsMeans(vs: seq<Variant>)
    ensures DistinctIds(vs) <==> forall i, j | 0 <= i < j < |vs| :: vs[i].id != vs[j].id
  {
    if vs != [] {
      var n := |vs| - 1;
      DistinctIdsMeans(vs[..n]);
      IdsHold(vs[..n]);
      if DistinctIds(vs) {
        forall i, j | 0 <= i < j < |vs| ensures vs[i].id != vs[j].id {
          if j < n { assert vs[..n][i].id != vs[..n][j].id; } else { assert vs[..n][i].id in Ids(vs[..n]); }
        }
      } else if n > 0 && vs[n].id in Ids(vs[..n]) {
        var i :| 0 <= i < n && vs[..n][i].id == vs[n].id;
        assert vs[i].id == vs[n].id;
      } else {
        var i, j :| 0 <= i < j < n && vs[..n][i].id == vs[..n][j].id;
        assert vs[i].id == vs[j].id;
      }
    }
  }

  lemma SmallMultiple(d: int)
    requires 0 - TWO_64 < d < TWO_64
    ensures d % TWO_64 == 0 <==> d == 0
  {}

  lemma RestOfSum(d: int, k: int)
    ensures (d + k * TWO_64) % TWO_64 == d % TWO_64
  {}

  /** The wrapped total is 10,000 exactly when the true sum is, modulo 2^64. */
  lemma TotalIsModular(vs: seq<Variant>)
    ensures Total(vs) == 10_000 <==> (Sum(vs) - 10_000) % TWO_64 == 0
  {
    var k := TotalModulo(vs);
    RestOfSum(Total(vs) - 10_000, k);
    SmallMultiple(Total(vs) - 10_000);
  }

  lemma SomeReason(v: Version) returns (r: Reason)
    requires !Valid(v)
    ensures RefusedFor(v, r)
  {
    TotalIsModular(v.variants);
    DistinctIdsMeans(v.variants);
    if AllSpace(v.campaignID) { r := NoCampaign; }
    else if v.version <= 0 { r := VersionNotPositive; }
    else if RefusedFor(v, AudienceIncomplete) { r := AudienceIncomplete; }
    else if RefusedFor(v, NotOneSource) { r := NotOneSource; }
    else if Utf8Length(Trim(v.listID)) > 32 { r := LongList; }
    else if AllSpace(v.channel) { r := NoChannel; }
    else if v.variants == [] { r := NoVariants; }
    else if i: nat :| i < |v.variants| && AllSpace(v.variants[i].id) { r := BlankVariant(i); }
    else if i: nat :| i < |v.variants| && v.variants[i].weightBP <= 0 { r := WeightNotPositive(i); }
    else if i: nat, j: nat :| i < j < |v.variants| && v.variants[i].id == v.variants[j].id { r := RepeatedVariant(i, j); }
    else { r := WrongTotal; }
  }

  lemma ValidHasNoReason(v: Version, r: Reason)
    requires Valid(v)
    ensures !RefusedFor(v, r)
  {
    TotalIsModular(v.variants);
    DistinctIdsMeans(v.variants);
  }

  /** A version is accepted exactly when there is no reason to refuse it. */
  lemma ValidIffNoReason(v: Version)
    ensures Valid(v) <==> !Refused(v)
  {
    if Valid(v) {
      forall r: Reason ensures !RefusedFor(v, r) { ValidHasNoReason(v, r); }
    } else {
      var r := SomeReason(v);
    }
  }

  // ---------- how many positions and how many hashes ----------

  /** How many of `0, ..., n - 1` satisfy `p`. */
  function Count(n: nat, p: nat -> bool): nat {
    if n == 0 then 0 else Count(n - 1, p) + if p(n - 1) then 1 else 0
  }

  function Wins(vs: seq<Variant>, i: nat): nat -> bool { (position: nat) => WinnerAt(vs, position) == Winner(i) }

  /** The number of positions that go to variant `i`. */
  function Share(vs: seq<Variant>, i: nat): nat { Count(POSITIONS, Wins(vs, i)) }

  lemma {:induction false} CountInterval(n: nat, p: nat -> bool, low: nat, high: nat)
    requires low <= high <= n
    requires forall x | 0 <= x < n :: p(x) <==> low <= x < high
    ensures Count(n, p) == high - low
    decreases n
  {
    if n > 0 {
      if high == n && low < n { CountInterval(n - 1, p, low, n - 1); }
      else if low == n { CountInterval(n - 1, p, n - 1, n - 1); }
      else { CountInterval(n - 1, p, low, high); }
    }
  }

  lemma {:induction false} SumGrows(vs: seq<Variant>, i: nat, j: nat)
    requires forall k | 0 <= k < |vs| :: vs[k].weightBP > 0
    requires i <= j <= |vs|
    ensures 0 <= Sum(vs[..i]) <= Sum(vs[..j])
    decreases j
  {
    if j > 0 {
      assert vs[..j][..j - 1] == vs[..j - 1];
      SumGrows(vs, if i < j then i else j - 1, j - 1);
    }
  }

  /** Without wrap-around, variant `i` wins exactly the positions of its own weight interval. */
  lemma {:induction false} WinnerOwnsInterval(vs: seq<Variant>, from: nat, i: nat, position: nat)
    requires forall k | 0 <= k < |vs| :: vs[k].weightBP > 0
    requires Sum(vs) == POSITIONS && from <= i < |vs| && Sum(vs[..from]) <= position
    ensures WinnerFrom(vs, from, position) == Winner(i) <==> Sum(vs[..i]) <= position < Sum(vs[..i + 1])
    decreases |vs| - from
  {
    assert vs[..|vs|] == vs;
    SumGrows(vs, from + 1, |vs|);
    SumGrows(vs, from + 1, i + 1);
    TotalIsSum(vs, from + 1);
    if from < i {
      SumGrows(vs, from + 1, i);
      if position >= Sum(vs[..from + 1]) { WinnerOwnsInterval(vs, from + 1, i, position); }
    } else if position >= Sum(vs[..from + 1]) {
      LaterWinner(vs, from + 1, position);
    }
  }

  lemma {:induction false} LaterWinner(vs: seq<Variant>, from: nat, position: nat)
    requires from <= |vs|
    ensures WinnerFrom(vs, from, position).Winner? ==> from <= WinnerFrom(vs, from, position).index
    decreases |vs| - from
  {
    if from < |vs| { LaterWinner(vs, from + 1, position); }
  }

  lemma ShareIsWeight(v: Version, i: nat)
    requires Valid(v) && i < |v.variants| && Sum(v.variants) == POSITIONS
    ensures Share(v.variants, i) == v.variants[i].weightBP
  {
    var vs := v.variants;
    assert vs[..0] == [] && vs[..|vs|] == vs && vs[..i + 1][..i] == vs[..i];
    SumGrows(vs, 0, i);
    SumGrows(vs, i + 1, |vs|);
    var p := Wins(vs, i);
    forall x | 0 <= x < POSITIONS ensures p(x) <==> Sum(vs[..i]) <= x < Sum(vs[..i + 1]) {
      WinnerOwnsInterval(vs, 0, i, x);
    }
    CountInterval(POSITIONS, p, Sum(vs[..i]), Sum(vs[..i + 1]));
  }

  /** The shares of the first `m` variants, over the first `n` positions. */
  function SharesBelow(vs: seq<Variant>, m: nat, n: nat): nat {
    if m == 0 then 0 else SharesBelow(vs, m - 1, n) + Count(n, Wins(vs, m - 1))
  }

  lemma {:induction false} SharesStep(vs: seq<Variant>, m: nat, n: nat)
    ensures SharesBelow(vs, m, n + 1) ==
            SharesBelow(vs, m, n) + if WinnerAt(vs, n).Winner? && WinnerAt(vs, n).index < m then 1 else 0
  {
    if m > 0 { SharesStep(vs, m - 1, n); }
  }

  lemma {:induction false} SharesCoverPositions(vs: seq<Variant>, n: nat)
    requires forall p: nat | p < n :: WinnerAt(vs, p).Winner? && WinnerAt(vs, p).index < |vs|
    ensures SharesBelow(vs, |vs|, n) == n
  {
    if n == 0 {
      NoShares(vs, |vs|);
    } else {
      SharesCoverPositions(vs, n - 1);
      SharesStep(vs, |vs|, n - 1);
    }
  }

  lemma {:induction false} NoShares(vs: seq<Variant>, m: nat)
    ensures SharesBelow(vs, m, 0) == 0
  {
    if m > 0 { NoShares(vs, m - 1); }
  }

  lemma {:induction false} SharesAreWeights(vs: seq<Variant>, m: nat, n: nat)
    requires m <= |vs| && forall i | 0 <= i < |vs| :: Count(n, Wins(vs, i)) == vs[i].weightBP
    ensures SharesBelow(vs, m, n) == Sum(vs[..m])
  {
    if m > 0 {
      SharesAreWeights(vs, m - 1, n);
      assert vs[..m][..m - 1] == vs[..m - 1];
    }
  }

  /**
   A validated version gives every variant exactly its weight in positions if and only if its
   weights add up to 10,000 as integers, not merely modulo 2^64.
   */
  lemma ExactSharesIffNoWrap(v: Version)
    requires Valid(v)
    ensures (forall i | 0 <= i < |v.variants| :: Share(v.variants, i) == v.variants[i].weightBP)
            <==> Sum(v.variants) == POSITIONS
  {
    if Sum(v.variants) == POSITIONS {
      forall i | 0 <= i < |v.variants| ensures Share(v.variants, i) == v.variants[i].weightBP { ShareIsWeight(v, i); }
    } else {
      assert v.variants[..|v.variants|] == v.variants;
      forall p: nat | p < POSITIONS ensures WinnerAt(v.variants, p).Winner? && WinnerAt(v.variants, p).index < |v.variants| {
        AssignmentNeverFails(v, p);
      }
      SharesCoverPositions(v.variants, POSITIONS);
      if forall i | 0 <= i < |v.variants| :: Share(v.variants, i) == v.variants[i].weightBP {
        SharesAreWeights(v.variants, |v.variants|, POSITIONS);
        assert false;
      }
    }
  }

  const WRAPPED: seq<Variant> := [Variant("a", 0x7FFF_FFFF_FFFF_FFFF), Variant("b", 0x7FFF_FFFF_FFFF_FFFF), Variant("c", 10_002)]

  lemma WrappedWeights()
    ensures ValidVariants(WRAPPED) && Sum(WRAPPED) == TWO_64 + POSITIONS
  {
    var a, b, c := WRAPPED[0], WRAPPED[1], WRAPPED[2];
    assert WRAPPED[..0] == [] && WRAPPED[..1] == [a] && WRAPPED[..2] == [a, b] && WRAPPED[..3] == WRAPPED;
    PrefixStep(WRAPPED, 0);
    PrefixStep(WRAPPED, 1);
    PrefixStep(WRAPPED, 2);
    assert Total(WRAPPED[..2]) == -2 && Sum(WRAPPED[..2]) == TWO_64 - 2;
    assert a.id[0] == 'a' && b.id[0] == 'b' && c.id[0] == 'c';
    assert a.id[0] in a.id && b.id[0] in b.id && c.id[0] in c.id;
  }

  /** When the first weight is 10,000 or more, the first variant wins every position. */
  lemma FirstTakesAll(vs: seq<Variant>, i: nat)
    requires vs != [] && vs[0].weightBP >= POSITIONS
    ensures Share(vs, i) == if i == 0 then POSITIONS else 0
  {
    PrefixStep(vs, 0);
    assert vs[..0] == [];
    CountInterval(POSITIONS, Wins(vs, i), 0, if i == 0 then POSITIONS else 0);
  }

  /**
   Such a version exists: this one is accepted although its weights add up to 2^64 + 10,000, and its
   first variant gets every customer, where the second has the same weight and the third has 10,002.
   */
  lemma WrappedWeightsAccepted()
    ensures var v := Version("c", 1, "", 0, "l", "m", WRAPPED);
            && Valid(v) && Sum(v.variants) == TWO_64 + POSITIONS
            && Share(v.variants, 0) == POSITIONS && Share(v.variants, 1) == 0 && Share(v.variants, 2) == 0
  {
    WrappedWeights();
    FirstTakesAll(WRAPPED, 0);
    FirstTakesAll(WRAPPED, 1);
    FirstTakesAll(WRAPPED, 2);
    OneLetter('c');
    OneLetter('l');
    OneLetter('m');
  }

  lemma OneLetter(c: char)
    requires !IsSpace(c)
    ensures Trim([c]) == [c] && Utf8Length([c]) <= 4
  {
    assert [c][1..] == [];
  }

  function HashWins(vs: seq<Variant>, i: nat): nat -> bool { (hash: nat) => Wins(vs, i)(hash % POSITIONS) }

  /** How many hash values below `n` put a customer in variant `i`. */
  function Hashes(vs: seq<Variant>, i: nat, n: nat): nat {
    Count(n, HashWins(vs, i))
  }

  /** The `b`-th value of round `a`. */
  function InRound(m: nat, a: nat, b: nat): nat { a * m + b }

  /** Counting a property of residues modulo `m` over `q` full rounds and `r` more values. */
  lemma {:induction false} CountResidues(m: nat, q: nat, r: nat, f: nat -> bool, g: nat -> bool)
    requires m > 0 && r <= m
    requires forall a: nat, b: nat | b < m :: g(InRound(m, a, b)) == f(b)
    ensures Count(InRound(m, q, r), g) == q * Count(m, f) + Count(r, f)
    decreases q, r
  {
    if r > 0 {
      CountResidues(m, q, r - 1, f, g);
      assert InRound(m, q, r) - 1 == InRound(m, q, r - 1);
    } else if q > 0 {
      CountResidues(m, q - 1, m, f, g);
      assert InRound(m, q - 1, m) == InRound(m, q, 0);
      assert (q - 1) * Count(m, f) + Count(m, f) == q * Count(m, f);
    }
  }

  lemma {:induction false} CountMonotone(m: nat, n: nat, f: nat -> bool)
    requires m <= n
    ensures Count(m, f) <= Count(n, f)
    decreases n
  {
    if m < n { CountMonotone(m, n - 1, f); }
  }

  lemma {:induction false} CountAtMost(n: nat, f: nat -> bool)
    ensures Count(n, f) <= n
  {
    if n > 0 { CountAtMost(n - 1, f); }
  }

  /** Every position stands for q = floor(2^64 / 10,000) hashes, those below 2^64 mod 10,000 for one more. */
  lemma HashesOfShare(vs: seq<Variant>, i: nat)
    ensures var q, share := TWO_64 / POSITIONS, Share(vs, i);
            share <= POSITIONS && q * share <= Hashes(vs, i, TWO_64) <= q * share + share
  {
    var f, g := Wins(vs, i), HashWins(vs, i);
    var q, r := TWO_64 / POSITIONS, TWO_64 % POSITIONS;
    forall a: nat, b: nat | b < POSITIONS ensures g(InRound(POSITIONS, a, b)) == f(b) {
      assert InRound(POSITIONS, a, b) % POSITIONS == b;
    }
    CountResidues(POSITIONS, q, r, f, g);
    CountMonotone(r, POSITIONS, f);
    CountAtMost(POSITIONS, f);
  }

  /** The hashes of variant `i` number between `w * q` and `w * (q + 1)`. */
  predicate Fair(vs: seq<Variant>, i: nat)
    requires i < |vs|
  {
    var w, q := vs[i].weightBP, TWO_64 / POSITIONS;
    w * q <= Hashes(vs, i, TWO_64) <= w * (q + 1)
  }

  /** Variant `i` gets fewer hashes than that. */
  predicate Short(vs: seq<Variant>, i: nat)
    requires i < |vs|
  {
    Hashes(vs, i, TWO_64) < vs[i].weightBP * (TWO_64 / POSITIONS)
  }

  lemma Distribute(w: int, q: nat)
    ensures w * (q + 1) == w * q + w && w * q == q * w
  {}

  lemma FairShare(v: Version, i: nat)
    requires Valid(v) && i < |v.variants| && Sum(v.variants) == POSITIONS
    ensures Fair(v.variants, i)
  {
    HashesOfShare(v.variants, i);
    ShareIsWeight(v, i);
    Distribute(v.variants[i].weightBP, TWO_64 / POSITIONS);
  }

  lemma SmallShare(share: nat, w: int, q: nat)
    requires share < w && share < q
    ensures q * share + share < w * q
  {
    assert q * (share + 1) == q * share + q;
    assert q * (share + 1) <= q * w;
  }

  lemma UnfairShare(vs: seq<Variant>, i: nat)
    requires i < |vs| && Share(vs, i) < vs[i].weightBP
    ensures Short(vs, i)
  {
    HashesOfShare(vs, i);
    SmallShare(Share(vs, i), vs[i].weightBP, TWO_64 / POSITIONS);
  }

  /** The wrapped total differs from the true sum by a multiple of 2^64. */
  lemma {:induction false} TotalModulo(vs: seq<Variant>) returns (k: int)
    ensures Sum(vs) == Total(vs) + k * TWO_64
  {
    if vs == [] {
      k := 0;
    } else {
      var n := |vs| - 1;
      var before := TotalModulo(vs[..n]);
      var sum := Total(vs[..n]) + vs[n].weightBP;
      k := if sum >= 0x8000_0000_0000_0000 then before + 1 else if sum < -0x8000_0000_0000_0000 then before - 1 else before;
    }
  }

  lemma WrappedSumIsLarger(v: Version)
    requires Valid(v) && Sum(v.variants) != POSITIONS
    ensures Sum(v.variants) > POSITIONS
  {
    var k := TotalModulo(v.variants);
    assert v.variants[..|v.variants|] == v.variants;
    SumGrows(v.variants, 0, |v.variants|);
  }

  lemma {:induction false} SharesAtLeastWeights(vs: seq<Variant>, m: nat, n: nat)
    requires m <= |vs| && forall i | 0 <= i < |vs| :: Count(n, Wins(vs, i)) >= vs[i].weightBP
    ensures SharesBelow(vs, m, n) >= Sum(vs[..m])
  {
    if m > 0 {
      SharesAtLeastWeights(vs, m - 1, n);
      assert vs[..m][..m - 1] == vs[..m - 1];
    }
  }

  lemma SomeShareIsSmaller(v: Version) returns (i: nat)
    requires Valid(v) && Sum(v.variants) != POSITIONS
    ensures i < |v.variants| && Share(v.variants, i) < v.variants[i].weightBP
  {
    var vs := v.variants;
    WrappedSumIsLarger(v);
    forall p: nat | p < POSITIONS ensures WinnerAt(vs, p).Winner? && WinnerAt(vs, p).index < |vs| {
      AssignmentNeverFails(v, p);
    }
    SharesCoverPositions(vs, POSITIONS);
    assert vs[..|vs|] == vs;
    if forall i | 0 <= i < |vs| :: Share(vs, i) >= vs[i].weightBP {
      SharesAtLeastWeights(vs, |vs|, POSITIONS);
      assert false;
    }
    i :| 0 <= i < |vs| && Share(vs, i) < vs[i].weightBP;
  }

  predicate AllFair(vs: seq<Variant>) { forall i | 0 <= i < |vs| :: Fair(vs, i) }

  predicate SomeShort(vs: seq<Variant>) { exists i | 0 <= i < |vs| :: Short(vs, i) }

  lemma FairIsNotShort(vs: seq<Variant>)
    ensures !(AllFair(vs) && SomeShort(vs))
  {
    if SomeShort(vs) {
      var i :| 0 <= i < |vs| && Short(vs, i);
      assert !Fair(vs, i);
    }
  }

  lemma FairUnlessWrapped(v: Version)
    requires Valid(v)
    ensures if Sum(v.variants) == POSITIONS then AllFair(v.variants) else SomeShort(v.variants)
  {
    if Sum(v.variants) == POSITIONS {
      forall i | 0 <= i < |v.variants| ensures Fair(v.variants, i) { FairShare(v, i); }
    } else {
      var i := SomeShareIsSmaller(v);
      UnfairShare(v.variants, i);
    }
  }

  /**
   Over all 2^64 hashes a validated version is fair to every variant, within one part in q, exactly when its
   weights add up to 10,000 as integers; else some variant falls below the band.
   */
  lemma HashBias(v: Version)
    requires Valid(v)
    ensures AllFair(v.variants) <==> Sum(v.variants) == POSITIONS
    ensures SomeShort(v.variants) <==> Sum(v.variants) != POSITIONS
  {
    FairUnlessWrapped(v);
    FairIsNotShort(v.variants);
  }
}
