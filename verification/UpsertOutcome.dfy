/**
 What an upsert input is refused for, one reason at a time, and what an accepted one turns into, field by
 field; `CustomerUpsert` says the same as one predicate and one function.
 */
module UpsertOutcome {
  import opened AttributePatch
  import opened CustomerIdentity
  import opened CustomerUpsert
  import opened JsonValues
  import opened Sorting
  import opened Texts
  import opened Wrappers

  // ---------- identities ----------

  const KINDS: set<string> := {"email", "phone", "anonymous_id", "device_id", "whatsapp", "telegram", "custom"}

  /** The canonical type and value of an identity, if it has any: e-mails in lower case, phone numbers as plus and digits, the rest trimmed. */
  function Reading(lib: Library, kind: string, value: string): Option<(string, string)> {
    var k, v := Trim(Lower(lib, kind)), Trim(value);
    if k !in KINDS || v == [] || |v| > 1024 then None
    else if k == "email" then if lib.isEmail(Lower(lib, v)) then Some((k, Lower(lib, v))) else None
    else if k == "phone" || k == "whatsapp" then
      var rest := AfterPrefix(v);
      if rest.Some? && Spaced(rest.value) && 7 <= |DigitsOf(rest.value)| <= 15 && DigitsOf(rest.value)[0] != '0'
      then Some((k, "+" + DigitsOf(rest.value))) else None
    else Some((k, v))
  }

  lemma KindsSupported(kind: string)
    ensures kind in KINDS <==> Supported(kind)
  {}

  lemma ReadingIsNormal(lib: Library, id: Identity)
    ensures Reading(lib, id.kind, id.value).Some? <==> Normalizes(lib, id)
    ensures Normalizes(lib, id) ==>
              Normal(lib, id) == id.(kind := Reading(lib, id.kind, id.value).value.0, value := Reading(lib, id.kind, id.value).value.1)
  {
    KindsSupported(Trim(Lower(lib, id.kind)));
    PhoneIsItsDigits(Trim(id.value));
  }

  // ---------- reasons ----------

  datatype Reason =
    | LocatorForms | LocatorCustomerID | LocatorCustomerNo | LocatorExternalUserID | LocatorIdentity
    | ExternalUserID | NothingToFind
    | IdentityInvalid(i: nat) | IdentityRepeated(i: nat, j: nat) | SecondPrimary(i: nat, j: nat) | MetadataTooLarge(i: nat)
    | ProfileStatus | ProfileLanguage | ProfileTimezone | ProfileAttributes
    | TagInvalid(i: nat)
    | BothListFields | ListInvalid(add: bool, i: nat) | ListRepeated(add: bool, i: nat, j: nat) | ListStatusInvalid(add: bool, i: nat)

  predicate Outside(s: string, longest: nat) { AllSpace(s) || |Trim(s)| > longest }

  const LIST_STATUSES: set<string> := {"active", "pending", "unsubscribed", "bounced", "complained"}

  function Lists(x: Input, add: bool): seq<ListMembership> {
    if add then (if x.membershipsAdd.Some? then x.membershipsAdd.value else []) else (if x.memberships.Some? then x.memberships.value else [])
  }

  // ---------- identities ----------

  predicate InvalidAt(lib: Library, ids: seq<Identity>, i: nat) { i < |ids| && Reading(lib, ids[i].kind, ids[i].value).None? }

  predicate RepeatedAt(lib: Library, ids: seq<Identity>, i: nat, j: nat) {
    i < j < |ids| && Reading(lib, ids[i].kind, ids[i].value).Some?
    && Reading(lib, ids[i].kind, ids[i].value) == Reading(lib, ids[j].kind, ids[j].value)
  }

  predicate SecondPrimaryAt(lib: Library, ids: seq<Identity>, i: nat, j: nat) {
    i < j < |ids| && ids[i].primary && ids[j].primary && Trim(Lower(lib, ids[i].kind)) == Trim(Lower(lib, ids[j].kind))
  }

  predicate MetadataTooLargeAt(lib: Library, ids: seq<Identity>, i: nat) {
    i < |ids| && ids[i].metadata.Some? && lib.metadataSize(ids[i].metadata.value) > 16_384
  }

  ghost predicate EachIdentityFine(lib: Library, ids: seq<Identity>) {
    forall i: nat :: !InvalidAt(lib, ids, i) && !MetadataTooLargeAt(lib, ids, i)
  }

  ghost predicate PairsFine(lib: Library, ids: seq<Identity>) {
    forall i: nat, j: nat :: !RepeatedAt(lib, ids, i, j) && !SecondPrimaryAt(lib, ids, i, j)
  }

  lemma OneAccepted(lib: Library, ids: seq<Identity>, i: nat)
    requires i < |ids|
    ensures IdentityOk(lib, ids[i]) <==> !InvalidAt(lib, ids, i) && !MetadataTooLargeAt(lib, ids, i)
  {
    ReadingIsNormal(lib, ids[i]);
  }

  lemma PairAccepted(lib: Library, ids: seq<Identity>, i: nat, j: nat)
    requires i < j < |ids| && Normalizes(lib, ids[i]) && Normalizes(lib, ids[j])
    ensures Coexist(Normal(lib, ids[i]), Normal(lib, ids[j])) <==> !RepeatedAt(lib, ids, i, j) && !SecondPrimaryAt(lib, ids, i, j)
  {
    ReadingIsNormal(lib, ids[i]);
    ReadingIsNormal(lib, ids[j]);
    KeyDeterminesIdentity(Normal(lib, ids[i]), Normal(lib, ids[j]));
  }

  lemma AllAccepted(lib: Library, ids: seq<Identity>)
    ensures (forall id | id in ids :: IdentityOk(lib, id)) <==> EachIdentityFine(lib, ids)
  {
    if forall id | id in ids :: IdentityOk(lib, id) {
      forall i: nat ensures !InvalidAt(lib, ids, i) && !MetadataTooLargeAt(lib, ids, i) {
        if i < |ids| {
          assert ids[i] in ids;
          OneAccepted(lib, ids, i);
        }
      }
    }
    if EachIdentityFine(lib, ids) {
      forall id | id in ids ensures IdentityOk(lib, id) {
        var i :| 0 <= i < |ids| && ids[i] == id;
        OneAccepted(lib, ids, i);
      }
    }
  }

  lemma PairsAccepted(lib: Library, ids: seq<Identity>)
    requires forall i | 0 <= i < |ids| :: Normalizes(lib, ids[i])
    ensures Pairwise(Normals(lib, ids), Coexist) <==> PairsFine(lib, ids)
  {
    var normals := Normals(lib, ids);
    if Pairwise(normals, Coexist) {
      forall i: nat, j: nat ensures !RepeatedAt(lib, ids, i, j) && !SecondPrimaryAt(lib, ids, i, j) {
        if i < j < |ids| {
          PairAccepted(lib, ids, i, j);
          assert Coexist(normals[i], normals[j]);
        }
      }
    } else {
      var i: nat, j: nat :| i < j < |ids| && !Coexist(normals[i], normals[j]);
      PairAccepted(lib, ids, i, j);
    }
  }

  lemma IdentitiesAccepted(lib: Library, ids: seq<Identity>)
    ensures IdentitiesOk(lib, ids) <==> EachIdentityFine(lib, ids) && PairsFine(lib, ids)
  {
    AllAccepted(lib, ids);
    if EachIdentityFine(lib, ids) {
      forall i | 0 <= i < |ids| ensures Normalizes(lib, ids[i]) { assert ids[i] in ids; }
      PairsAccepted(lib, ids);
    }
  }

  // ---------- tags ----------

  predicate TagInvalidAt(tags: seq<string>, i: nat) { i < |tags| && Outside(tags[i], 64) }

  lemma TagsAccepted(tags: seq<string>)
    ensures TagsOk(tags) <==> forall i: nat :: !TagInvalidAt(tags, i)
  {
    if TagsOk(tags) {
      forall i: nat ensures !TagInvalidAt(tags, i) {
        if i < |tags| { assert tags[i] in tags; }
      }
    }
    if forall i: nat :: !TagInvalidAt(tags, i) {
      forall t | t in tags ensures 1 <= |Trim(t)| <= 64 {
        var i :| 0 <= i < |tags| && tags[i] == t;
        assert !TagInvalidAt(tags, i);
      }
    }
  }

  // ---------- list memberships ----------

  predicate ListInvalidAt(lib: Library, ms: seq<ListMembership>, i: nat) {
    i < |ms| && (Outside(ms[i].listID, 32) || !lib.isAlphanumeric(Trim(ms[i].listID)))
  }

  predicate ListRepeatedAt(ms: seq<ListMembership>, i: nat, j: nat) { i < j < |ms| && Trim(ms[i].listID) == Trim(ms[j].listID) }

  predicate StatusInvalidAt(lib: Library, ms: seq<ListMembership>, i: nat) {
    i < |ms| && !AllSpace(ms[i].status) && Lower(lib, Trim(ms[i].status)) !in LIST_STATUSES
  }

  ghost predicate ListsFine(lib: Library, ms: seq<ListMembership>) {
    && (forall i: nat :: !ListInvalidAt(lib, ms, i) && !StatusInvalidAt(lib, ms, i))
    && forall i: nat, j: nat :: !ListRepeatedAt(ms, i, j)
  }

  /** A blank status becomes active, any other its trimmed text in lower case; that must be one of the five words. */
  lemma StatusAccepted(lib: Library, status: string)
    ensures CanonicalStatus(lib, status) == if AllSpace(status) then "active" else Lower(lib, Trim(status))
    ensures ListStatus(CanonicalStatus(lib, status)) <==> AllSpace(status) || Lower(lib, Trim(status)) in LIST_STATUSES
  {
    assert |Lower(lib, Trim(status))| == |Trim(status)|;
  }

  lemma ListAccepted(lib: Library, ms: seq<ListMembership>, i: nat)
    requires i < |ms|
    ensures MembershipOk(lib, ms[i]) <==> !ListInvalidAt(lib, ms, i) && !StatusInvalidAt(lib, ms, i)
  {
    StatusAccepted(lib, ms[i].status);
  }

  lemma ListsAccepted(lib: Library, ms: seq<ListMembership>)
    ensures MembershipsOk(lib, ms) <==> ListsFine(lib, ms)
  {
    ListKeysDistinct(lib, ms);
    if MembershipsOk(lib, ms) {
      forall i: nat ensures !ListInvalidAt(lib, ms, i) && !StatusInvalidAt(lib, ms, i) {
        if i < |ms| {
          assert ms[i] in ms;
          ListAccepted(lib, ms, i);
        }
      }
    }
    if ListsFine(lib, ms) {
      forall m | m in ms ensures MembershipOk(lib, m) {
        var i :| 0 <= i < |ms| && ms[i] == m;
        ListAccepted(lib, ms, i);
      }
    }
  }

  lemma DistinctAt<T>(s: seq<T>, key: T -> string, i: nat, j: nat)
    requires DistinctKeys(s, key) && i < j < |s|
    ensures key(s[i]) != key(s[j])
  {}

  lemma RepeatedKey<T>(s: seq<T>, key: T -> string) returns (i: nat, j: nat)
    requires !DistinctKeys(s, key)
    ensures i < j < |s| && key(s[i]) == key(s[j])
  {
    i, j :| i < j < |s| && key(s[i]) == key(s[j]);
  }

  lemma ListKeysDistinct(lib: Library, ms: seq<ListMembership>)
    ensures DistinctKeys(CanonicalMemberships(lib, ms), ListKey) <==> forall i: nat, j: nat :: !ListRepeatedAt(ms, i, j)
  {
    var c := CanonicalMemberships(lib, ms);
    if DistinctKeys(c, ListKey) {
      forall i: nat, j: nat ensures !ListRepeatedAt(ms, i, j) {
        if i < j < |ms| { DistinctAt(c, ListKey, i, j); }
      }
    } else {
      var i, j := RepeatedKey(c, ListKey);
      assert ListRepeatedAt(ms, i, j);
    }
  }

  // ---------- locator and profile ----------

  function One(given: bool): nat { if given then 1 else 0 }

  predicate LocatorRefused(lib: Library, l: Locator, r: Reason) {
    match r
    case LocatorForms => One(l.customerID != []) + One(l.customerNo != []) + One(l.externalUserID != []) + One(l.identity.Some?) != 1
    case LocatorCustomerID => l.customerID != [] && lib.parseUuid(Trim(l.customerID)).None?
    case LocatorCustomerNo => l.customerNo != [] && !lib.isCustomerNo(Trim(l.customerNo))
    case LocatorExternalUserID => l.externalUserID != [] && Outside(l.externalUserID, 255)
    case LocatorIdentity => l.identity.Some? && Reading(lib, l.identity.value.0, l.identity.value.1).None?
    case _ => false
  }

  lemma LocatorAccepted(lib: Library, l: Locator)
    ensures LocatorOk(lib, l) <==> forall r: Reason :: !LocatorRefused(lib, l, r)
  {
    if l.identity.Some? { ReadingIsNormal(lib, Bare(l.identity.value)); }
    if forall r: Reason :: !LocatorRefused(lib, l, r) {
      assert !LocatorRefused(lib, l, LocatorForms) && !LocatorRefused(lib, l, LocatorCustomerID) && !LocatorRefused(lib, l, LocatorCustomerNo);
      assert !LocatorRefused(lib, l, LocatorExternalUserID) && !LocatorRefused(lib, l, LocatorIdentity);
    }
  }

  predicate ProfileRefused(lib: Library, p: Profile, r: Reason) {
    match r
    case ProfileStatus => p.status.Some? && Outside(p.status.value, 64)
    case ProfileLanguage => p.language.Some? && (Outside(p.language.value, 50) || !lib.isLocale(Trim(p.language.value)))
    case ProfileTimezone => p.timezone.Some? && (Outside(p.timezone.value, 50) || !lib.isTimezone(Trim(p.timezone.value)))
    case ProfileAttributes => p.attributes.Some? && Apply(EMPTY, p.attributes.value).Err?
    case _ => false
  }

  lemma ProfileAccepted(lib: Library, p: Profile)
    ensures ProfileOk(lib, p) <==> forall r: Reason :: !ProfileRefused(lib, p, r)
  {
    if forall r: Reason :: !ProfileRefused(lib, p, r) {
      assert !ProfileRefused(lib, p, ProfileStatus) && !ProfileRefused(lib, p, ProfileLanguage);
      assert !ProfileRefused(lib, p, ProfileTimezone) && !ProfileRefused(lib, p, ProfileAttributes);
    }
  }

  // ---------- the whole input ----------

  /** The input is refused for this reason. */
  predicate RefusedFor(lib: Library, x: Input, r: Reason) {
    match r
    case ExternalUserID => x.externalUserID.Some? && Outside(x.externalUserID.value, 255)
    case NothingToFind => x.locator.None? && x.externalUserID.None? && x.identities == []
    case IdentityInvalid(i) => InvalidAt(lib, x.identities, i)
    case IdentityRepeated(i, j) => RepeatedAt(lib, x.identities, i, j)
    case SecondPrimary(i, j) => SecondPrimaryAt(lib, x.identities, i, j)
    case MetadataTooLarge(i) => MetadataTooLargeAt(lib, x.identities, i)
    case TagInvalid(i) => x.tags.Some? && TagInvalidAt(x.tags.value, i)
    case BothListFields => x.memberships.Some? && x.membershipsAdd.Some?
    case ListInvalid(add, i) => ListInvalidAt(lib, Lists(x, add), i)
    case ListRepeated(add, i, j) => ListRepeatedAt(Lists(x, add), i, j)
    case ListStatusInvalid(add, i) => StatusInvalidAt(lib, Lists(x, add), i)
    case _ => (x.locator.Some? && LocatorRefused(lib, x.locator.value, r)) || (x.profile.Some? && ProfileRefused(lib, x.profile.value, r))
  }

  ghost predicate Refused(lib: Library, x: Input) { exists r: Reason :: RefusedFor(lib, x, r) }

  /** No reason, part by part. */
  ghost predicate Fine(lib: Library, x: Input) {
    && (x.locator.Some? ==> forall r: Reason :: !LocatorRefused(lib, x.locator.value, r))
    && (x.externalUserID.Some? ==> !Outside(x.externalUserID.value, 255))
    && (x.locator.Some? || x.externalUserID.Some? || x.identities != [])
    && EachIdentityFine(lib, x.identities) && PairsFine(lib, x.identities)
    && (x.profile.Some? ==> forall r: Reason :: !ProfileRefused(lib, x.profile.value, r))
    && (x.tags.Some? ==> forall i: nat :: !TagInvalidAt(x.tags.value, i))
    && !(x.memberships.Some? && x.membershipsAdd.Some?)
    && ListsFine(lib, Lists(x, false)) && ListsFine(lib, Lists(x, true))
  }

  lemma FineIsAccepted(lib: Library, x: Input)
    ensures InputOk(lib, x) <==> Fine(lib, x)
  {
    if x.locator.Some? { LocatorAccepted(lib, x.locator.value); }
    if x.profile.Some? { ProfileAccepted(lib, x.profile.value); }
    if x.tags.Some? { TagsAccepted(x.tags.value); }
    IdentitiesAccepted(lib, x.identities);
    ListsAccepted(lib, Lists(x, false));
    ListsAccepted(lib, Lists(x, true));
    EmptyListsOk(lib);
  }

  lemma EmptyListsOk(lib: Library)
    ensures MembershipsOk(lib, [])
  {}

  lemma FineHasNoReason(lib: Library, x: Input, r: Reason)
    requires Fine(lib, x)
    ensures !RefusedFor(lib, x, r)
  {}

  lemma IdentityReason(lib: Library, x: Input) returns (r: Reason)
    requires !(EachIdentityFine(lib, x.identities) && PairsFine(lib, x.identities))
    ensures RefusedFor(lib, x, r)
  {
    if !EachIdentityFine(lib, x.identities) {
      var i: nat :| InvalidAt(lib, x.identities, i) || MetadataTooLargeAt(lib, x.identities, i);
      r := if InvalidAt(lib, x.identities, i) then IdentityInvalid(i) else MetadataTooLarge(i);
    } else {
      var i: nat, j: nat :| RepeatedAt(lib, x.identities, i, j) || SecondPrimaryAt(lib, x.identities, i, j);
      r := if RepeatedAt(lib, x.identities, i, j) then IdentityRepeated(i, j) else SecondPrimary(i, j);
    }
  }

  lemma ListReason(lib: Library, x: Input, add: bool) returns (r: Reason)
    requires !ListsFine(lib, Lists(x, add))
    ensures RefusedFor(lib, x, r)
  {
    var ms := Lists(x, add);
    if i: nat :| ListInvalidAt(lib, ms, i) || StatusInvalidAt(lib, ms, i) {
      r := if ListInvalidAt(lib, ms, i) then ListInvalid(add, i) else ListStatusInvalid(add, i);
    } else {
      var i: nat, j: nat :| ListRepeatedAt(ms, i, j);
      r := ListRepeated(add, i, j);
    }
  }

  lemma RestReason(lib: Library, x: Input) returns (r: Reason)
    requires !Fine(lib, x) && EachIdentityFine(lib, x.identities) && PairsFine(lib, x.identities)
    requires ListsFine(lib, Lists(x, false)) && ListsFine(lib, Lists(x, true))
    ensures RefusedFor(lib, x, r)
  {
    if x.locator.Some? && exists q: Reason :: LocatorRefused(lib, x.locator.value, q) {
      r :| LocatorRefused(lib, x.locator.value, r);
    } else if x.profile.Some? && exists q: Reason :: ProfileRefused(lib, x.profile.value, q) {
      r :| ProfileRefused(lib, x.profile.value, r);
    } else if x.tags.Some? && exists i: nat :: TagInvalidAt(x.tags.value, i) {
      var i: nat :| TagInvalidAt(x.tags.value, i);
      r := TagInvalid(i);
    } else if x.externalUserID.Some? && Outside(x.externalUserID.value, 255) {
      r := ExternalUserID;
    } else {
      r := if x.memberships.Some? && x.membershipsAdd.Some? then BothListFields else NothingToFind;
    }
  }

  /** An input is accepted exactly when there is no reason to refuse it. */
  lemma AcceptedIffNoReason(lib: Library, x: Input)
    ensures InputOk(lib, x) <==> !Refused(lib, x)
  {
    FineIsAccepted(lib, x);
    if Fine(lib, x) {
      forall r: Reason ensures !RefusedFor(lib, x, r) { FineHasNoReason(lib, x, r); }
    } else if !(EachIdentityFine(lib, x.identities) && PairsFine(lib, x.identities)) {
      var r := IdentityReason(lib, x);
    } else if !ListsFine(lib, Lists(x, false)) {
      var r := ListReason(lib, x, false);
    } else if !ListsFine(lib, Lists(x, true)) {
      var r := ListReason(lib, x, true);
    } else {
      var r := RestReason(lib, x);
    }
  }

  // ---------- what an accepted input becomes ----------

  /** The identities in their places, with canonical type and value and all else as given. */
  predicate IdentitiesBecome(lib: Library, ids: seq<Identity>, n: seq<Identity>) {
    |n| == |ids| && forall i | 0 <= i < |ids| ::
      var r := Reading(lib, ids[i].kind, ids[i].value);
      r.Some? && n[i] == Identity(r.value.0, r.value.1, ids[i].verified, ids[i].primary, ids[i].enabled, ids[i].metadata)
  }

  predicate TextBecomes(s: Option<string>, n: Option<string>) { if s.None? then n.None? else n == Some(Trim(s.value)) }

  /** Exactly the one form given is rewritten. */
  predicate LocatorBecomes(lib: Library, l: Locator, n: Locator) {
    && (if l.customerID == [] then n.customerID == [] else lib.parseUuid(Trim(l.customerID)) == Some(n.customerID))
    && (n.customerNo == if l.customerNo == [] then [] else Trim(l.customerNo))
    && (n.externalUserID == if l.externalUserID == [] then [] else Trim(l.externalUserID))
    && (n.identity == if l.identity.None? then None else Reading(lib, l.identity.value.0, l.identity.value.1))
  }

  /** Lists in their places: the id trimmed, a blank status active, any other trimmed and in lower case. */
  predicate ListsBecome(lib: Library, ms: seq<ListMembership>, n: seq<ListMembership>) {
    |n| == |ms| && forall i | 0 <= i < |ms| ::
      n[i] == ListMembership(Trim(ms[i].listID), if AllSpace(ms[i].status) then "active" else Lower(lib, Trim(ms[i].status)))
  }

  /** An attribute patch that does the same, on all attributes. */
  ghost predicate PatchBecomes(p: Patch, n: Patch) { n.unset == p.unset && forall current: JsonObject :: Apply(current, n) == Apply(current, p) }

  ghost predicate ProfileBecomes(p: Profile, n: Profile) {
    && TextBecomes(p.status, n.status) && TextBecomes(p.language, n.language) && TextBecomes(p.timezone, n.timezone)
    && p.attributes.Some? == n.attributes.Some?
    && (p.attributes.Some? ==> PatchBecomes(p.attributes.value, n.attributes.value))
  }

  /** The tags, trimmed, each once, in order. */
  ghost predicate TagsBecome(tags: seq<string>, n: seq<string>) {
    Ascending(n) && forall t :: t in n <==> exists i :: 0 <= i < |tags| && Trim(tags[i]) == t
  }

  ghost predicate Becomes(lib: Library, x: Input, n: Input) {
    && x.locator.Some? == n.locator.Some? && (x.locator.Some? ==> LocatorBecomes(lib, x.locator.value, n.locator.value))
    && TextBecomes(x.externalUserID, n.externalUserID)
    && x.profile.Some? == n.profile.Some? && (x.profile.Some? ==> ProfileBecomes(x.profile.value, n.profile.value))
    && IdentitiesBecome(lib, x.identities, n.identities)
    && x.tags.Some? == n.tags.Some? && (x.tags.Some? ==> TagsBecome(x.tags.value, n.tags.value))
    && x.memberships.Some? == n.memberships.Some? && (x.memberships.Some? ==> ListsBecome(lib, x.memberships.value, n.memberships.value))
    && x.membershipsAdd.Some? == n.membershipsAdd.Some?
    && (x.membershipsAdd.Some? ==> ListsBecome(lib, x.membershipsAdd.value, n.membershipsAdd.value))
  }

  lemma LocatorOutcome(lib: Library, l: Locator)
    requires LocatorOk(lib, l)
    ensures LocatorBecomes(lib, l, CanonicalLocator(lib, l))
  {
    if l.identity.Some? { ReadingIsNormal(lib, Bare(l.identity.value)); }
  }

  lemma IdentitiesOutcome(lib: Library, ids: seq<Identity>)
    requires IdentitiesOk(lib, ids)
    ensures IdentitiesBecome(lib, ids, Normals(lib, ids))
  {
    forall i | 0 <= i < |ids|
      ensures Reading(lib, ids[i].kind, ids[i].value).Some?
      ensures Normals(lib, ids)[i] == ids[i].(kind := Reading(lib, ids[i].kind, ids[i].value).value.0,
                                              value := Reading(lib, ids[i].kind, ids[i].value).value.1)
    {
      assert ids[i] in ids;
      ReadingIsNormal(lib, ids[i]);
    }
  }

  lemma ListsOutcome(lib: Library, ms: seq<ListMembership>)
    ensures ListsBecome(lib, ms, CanonicalMemberships(lib, ms))
  {
    forall i | 0 <= i < |ms|
      ensures CanonicalMemberships(lib, ms)[i].status == if AllSpace(ms[i].status) then "active" else Lower(lib, Trim(ms[i].status))
    {
      StatusAccepted(lib, ms[i].status);
    }
  }

  lemma ProfileOutcome(p: Profile)
    ensures ProfileBecomes(p, CanonicalProfile(p))
  {
    if p.attributes.Some? {
      forall current: JsonObject ensures Apply(current, CanonicalPatch(p.attributes.value)) == Apply(current, p.attributes.value) {
        CanonicalPatchEquivalent(current, p.attributes.value);
      }
    }
  }

  /** What validation leaves of an accepted input. */
  lemma AcceptedBecomes(lib: Library, x: Input)
    requires InputOk(lib, x)
    ensures Becomes(lib, x, CanonicalInput(lib, x))
  {
    if x.locator.Some? { LocatorOutcome(lib, x.locator.value); }
    if x.profile.Some? { ProfileOutcome(x.profile.value); }
    IdentitiesOutcome(lib, x.identities);
    if x.tags.Some? { CanonicalTagsListSet(x.tags.value); }
    if x.memberships.Some? { ListsOutcome(lib, x.memberships.value); }
    if x.membershipsAdd.Some? { ListsOutcome(lib, x.membershipsAdd.value); }
  }

  // ---------- what the hash tells apart ----------

  predicate SameLists(a: Option<seq<ListMembership>>, b: Option<seq<ListMembership>>) {
    a.Some? == b.Some? && (a.Some? ==> multiset(a.value) == multiset(b.value))
  }

  /** The same validated input but for the order of identities and list memberships. */
  predicate SameUpToOrder(a: Input, b: Input) {
    && a.locator == b.locator && a.externalUserID == b.externalUserID && a.profile == b.profile && a.tags == b.tags
    && multiset(a.identities) == multiset(b.identities)
    && SameLists(a.memberships, b.memberships) && SameLists(a.membershipsAdd, b.membershipsAdd)
  }

  lemma SortedSame<T>(a: seq<T>, b: seq<T>, key: T -> string)
    requires DistinctKeys(a, key) && DistinctKeys(b, key)
    ensures Sorted(a, key) == Sorted(b, key) <==> multiset(a) == multiset(b)
  {
    SortedPermutes(a, key);
    SortedPermutes(b, key);
    if multiset(a) == multiset(b) {
      SortedAscends(b, key);
      AnySortIsSorted(a, Sorted(b, key), key);
    }
  }

  ghost predicate ListsDistinct(ms: Option<seq<ListMembership>>) { ms.Some? ==> DistinctKeys(ms.value, ListKey) }

  lemma ListsSorted(a: Option<seq<ListMembership>>, b: Option<seq<ListMembership>>)
    requires ListsDistinct(a) && ListsDistinct(b)
    ensures Each(a, m => Sorted(m, ListKey)) == Each(b, m => Sorted(m, ListKey)) <==> SameLists(a, b)
  {
    if a.Some? && b.Some? { SortedSame(a.value, b.value, ListKey); }
  }

  lemma OrderedSame(a: Input, b: Input)
    requires DistinctKeys(a.identities, Key) && ListsDistinct(a.memberships) && ListsDistinct(a.membershipsAdd)
    requires DistinctKeys(b.identities, Key) && ListsDistinct(b.memberships) && ListsDistinct(b.membershipsAdd)
    ensures Ordered(a) == Ordered(b) <==> SameUpToOrder(a, b)
  {
    SortedSame(a.identities, b.identities, Key);
    ListsSorted(a.memberships, b.memberships);
    ListsSorted(a.membershipsAdd, b.membershipsAdd);
  }

  lemma AcceptedDistinct(lib: Library, x: Input)
    requires InputOk(lib, x)
    ensures var a := CanonicalInput(lib, x);
            DistinctKeys(a.identities, Key) && ListsDistinct(a.memberships) && ListsDistinct(a.membershipsAdd)
  {
    CoexistKeys(Normals(lib, x.identities));
  }

  /** The hashed forms of two accepted inputs agree exactly when what validation makes of them agrees up to order: no field is left out of the hash. */
  lemma HashFormTellsApart(lib: Library, x: Input, y: Input)
    requires InputOk(lib, Copy(x)) && InputOk(lib, Copy(y))
    ensures HashForm(lib, x).Some? && HashForm(lib, y).Some?
    ensures HashForm(lib, x) == HashForm(lib, y) <==> SameUpToOrder(CanonicalInput(lib, Copy(x)), CanonicalInput(lib, Copy(y)))
  {
    AcceptedDistinct(lib, Copy(x));
    AcceptedDistinct(lib, Copy(y));
    OrderedSame(CanonicalInput(lib, Copy(x)), CanonicalInput(lib, Copy(y)));
  }

  /** Empty metadata hashes as none; that is all the copy loses. */
  lemma CopyLosesEmptyMetadata(x: Input, i: nat)
    requires i < |x.identities|
    ensures var c := Copy(x);
            && c == x.(identities := c.identities) && |c.identities| == |x.identities|
            && c.identities[i] == x.identities[i].(metadata := if x.identities[i].metadata == Some(EMPTY) then None else x.identities[i].metadata)
  {
    assert Copy(x).identities[i] == Copied(x.identities[i]);
  }
}
