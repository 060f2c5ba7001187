/** The upsert input as the mutable structure that validation rewrites field by field. */
module UpsertRequest {
  import opened AttributeEngine
  import opened AttributePatch
  import opened CustomerIdentity
  import opened CustomerUpsert
  import opened Sequences
  import opened Sorting
  import opened Texts
  import opened Wrappers

  class UpsertInput {
    var locator: Option<Locator>
    var externalUserID: Option<string>
    var profile: Option<Profile>
    var identities: seq<Identity>
    var tags: Option<seq<string>>
    var memberships: Option<seq<ListMembership>>
    var membershipsAdd: Option<seq<ListMembership>>

    function Value(): Input
      reads this
    {
      Input(locator, externalUserID, profile, identities, tags, memberships, membershipsAdd)
    }

    constructor (x: Input)
      ensures Value() == x
    {
      locator, externalUserID, profile, identities := x.locator, x.externalUserID, x.profile, x.identities;
      tags, memberships, membershipsAdd := x.tags, x.memberships, x.membershipsAdd;
    }

    /** `CustomerUpsertInput.Validate`; a rejected input is left partly rewritten. */
    method Validate(lib: Library) returns (ok: bool)
      modifies this
      ensures ok <==> InputOk(lib, old(Value()))
      ensures ok ==> Value() == CanonicalInput(lib, old(Value()))
    {
      if locator.Some? {
        var l := ValidateLocator(lib, locator.value);
        if l.None? { return false; }
        locator := l;
      }
      if externalUserID.Some? {
        externalUserID := Some(Trim(externalUserID.value));
        if externalUserID.value == [] || |externalUserID.value| > 255 { return false; }
      }
      if locator.None? && externalUserID.None? && identities == [] { return false; }
      ok := ValidateIdentities(lib);
      if !ok { return false; }
      ok := ValidateDetails(lib);
    }

    /** Profile, tags and list memberships, in the order of the source. */
    method ValidateDetails(lib: Library) returns (ok: bool)
      modifies this`profile, this`tags, this`memberships, this`membershipsAdd
      ensures ok <==> DetailsOk(lib, old(Value()))
      ensures ok ==> profile == Each(old(profile), p => CanonicalProfile(p)) && tags == Each(old(tags), t => CanonicalTags(t))
      ensures ok ==> memberships == Each(old(memberships), m => CanonicalMemberships(lib, m))
      ensures ok ==> membershipsAdd == Each(old(membershipsAdd), m => CanonicalMemberships(lib, m))
    {
      if profile.Some? {
        var p := ValidateProfile(lib, profile.value);
        if p.None? { return false; }
        profile := p;
      }
      if tags.Some? {
        var t := ValidateTags(tags.value);
        if t.None? { return false; }
        tags := t;
      }
      if memberships.Some? && membershipsAdd.Some? { return false; }
      if memberships.Some? {
        var m := ValidateMemberships(lib, memberships.value);
        if m.None? { return false; }
        memberships := m;
      }
      if membershipsAdd.Some? {
        var m := ValidateMemberships(lib, membershipsAdd.value);
        if m.None? { return false; }
        membershipsAdd := m;
      }
      ok := true;
    }

    /** Rewrites the identities one by one, with the keys and primaries seen so far. */
    method ValidateIdentities(lib: Library) returns (ok: bool)
      modifies this`identities
      ensures ok <==> IdentitiesOk(lib, old(identities))
      ensures ok ==> identities == Normals(lib, old(identities))
    {
      ghost var ids, normals := identities, Normals(lib, identities);
      var identityKeys: set<string>, primaries: map<string, nat> := {}, map[];
      for index := 0 to |identities|
        invariant identities == normals[..index] + ids[index..]
        invariant IdentitiesOk(lib, ids[..index])
        invariant Seen(normals[..index], identityKeys, primaries)
      {
        IdentitiesOneMore(lib, ids, index);
        var n := Rewrite(lib, identities[index]);
        if n.None? { return false; }
        StepAlong(normals, ids, identities, index);
        identities := identities[index := n.value];
        ok, identityKeys, primaries := Admit(identityKeys, primaries, n.value, normals[..index]);
        if !ok || !MetadataOk(lib, n.value) { return false; }
      }
      WholePrefix(ids);
      WholePrefix(normals);
      ok := true;
    }
  }

  /** A further identity is fine when it is so by itself and does not clash with those before; otherwise none of the whole is. */
  lemma IdentitiesOneMore(lib: Library, ids: seq<Identity>, i: nat)
    requires i < |ids|
    ensures var normals := Normals(lib, ids);
            && normals[i] == Normal(lib, ids[i])
            && normals[..i + 1] == normals[..i] + [normals[i]]
            && (IdentitiesOk(lib, ids[..i + 1]) <==>
                  IdentitiesOk(lib, ids[..i]) && IdentityOk(lib, ids[i]) && !Clashes(normals[..i], normals[i]))
            && (IdentitiesOk(lib, ids) ==> IdentitiesOk(lib, ids[..i + 1]))
  {
    var normals := Normals(lib, ids);
    MappedAt(ids, i, id => Normal(lib, id));
    PrefixOneMore(ids, i);
    PrefixOneMore(normals, i);
    MappedPrefix(ids, i, id => Normal(lib, id));
    IdentitiesJoin(lib, ids[..i], ids[i]);
    if IdentitiesOk(lib, ids) { IdentitiesPrefix(lib, ids, i + 1); }
  }

  lemma IdentitiesJoin(lib: Library, ids: seq<Identity>, id: Identity)
    ensures IdentitiesOk(lib, ids + [id])
            <==> IdentitiesOk(lib, ids) && IdentityOk(lib, id) && !Clashes(Normals(lib, ids), Normal(lib, id))
  {
    MappedJoin(ids, [id], id => Normal(lib, id));
    MappedAt([id], 0, id => Normal(lib, id));
    assert Normals(lib, [id]) == [Normal(lib, id)];
    CoexistOneMore(Normals(lib, ids), Normal(lib, id));
    InJoin(ids, id);
  }

  lemma IdentitiesPrefix(lib: Library, ids: seq<Identity>, n: nat)
    requires n <= |ids| && IdentitiesOk(lib, ids)
    ensures IdentitiesOk(lib, ids[..n])
  {
    MappedPrefix(ids, n, id => Normal(lib, id));
    PairwisePrefix(Normals(lib, ids), n);
    forall id | id in ids[..n] ensures id in ids {}
  }

  lemma MappedAt<A, B>(s: seq<A>, i: nat, f: A -> B)
    requires i < |s|
    ensures Mapped(s, f)[i] == f(s[i])
  {}

  lemma MappedPrefix<A, B>(s: seq<A>, n: nat, f: A -> B)
    requires n <= |s|
    ensures Mapped(s[..n], f) == Mapped(s, f)[..n]
  {}

  lemma PairwisePrefix(ids: seq<Identity>, n: nat)
    requires n <= |ids| && Pairwise(ids, Coexist)
    ensures Pairwise(ids[..n], Coexist)
  {
    forall i, j | 0 <= i < j < n ensures Coexist(ids[..n][i], ids[..n][j]) { assert Coexist(ids[i], ids[j]); }
  }

  /** Overwriting place i moves the border between the two sequences on. */
  lemma StepAlong<T>(done: seq<T>, todo: seq<T>, s: seq<T>, i: nat)
    requires i < |done| == |todo| && s == done[..i] + todo[i..]
    ensures s[i := done[i]] == done[..i + 1] + todo[i + 1..]
  {}

  predicate HasKey(ids: seq<Identity>, k: string) { exists i | 0 <= i < |ids| :: Key(ids[i]) == k }

  predicate HasPrimary(ids: seq<Identity>, kind: string) { exists i | 0 <= i < |ids| :: ids[i].primary && ids[i].kind == kind }

  /** The key was seen before, or another primary of the kind. */
  predicate Clashes(before: seq<Identity>, id: Identity) {
    HasKey(before, Key(id)) || (id.primary && HasPrimary(before, id.kind))
  }

  /** What the loop remembers of the identities before: their keys, and the kinds with a primary. */
  ghost predicate Seen(ids: seq<Identity>, keys: set<string>, primaries: map<string, nat>) {
    && (forall k :: k in keys <==> HasKey(ids, k))
    && (forall kind :: kind in primaries <==> HasPrimary(ids, kind))
    && forall kind | kind in primaries :: primaries[kind] == 1
  }

  lemma CoexistOneMore(ids: seq<Identity>, id: Identity)
    ensures Pairwise(ids + [id], Coexist) <==> Pairwise(ids, Coexist) && !Clashes(ids, id)
  {
    var all := ids + [id];
    assert all[|ids|] == id && all[..|ids|] == ids;
    if Pairwise(all, Coexist) {
      PairwisePrefix(all, |ids|);
      forall i | 0 <= i < |ids| ensures Coexist(ids[i], id) { assert Coexist(all[i], all[|ids|]); }
    }
  }

  lemma HasOneMore(ids: seq<Identity>, id: Identity)
    ensures forall k :: HasKey(ids + [id], k) <==> HasKey(ids, k) || k == Key(id)
    ensures forall kind :: HasPrimary(ids + [id], kind) <==> HasPrimary(ids, kind) || (id.primary && kind == id.kind)
  {
    var all := ids + [id];
    assert all[|ids|] == id && forall i | 0 <= i < |ids| :: all[i] == ids[i];
  }

  method Rewrite(lib: Library, id: Identity) returns (r: Option<Identity>)
    ensures r.Some? <==> Normalizes(lib, id)
    ensures r.Some? ==> r.value == Normal(lib, id) && MetadataOk(lib, r.value) == MetadataOk(lib, id)
  {
    var n := NormalizeIdentity(lib, id);
    r := if n.None? then None else Some(id.(kind := n.value.0, value := n.value.1));
  }

  /** The two checks against the identities before, and what is remembered of this one. */
  method Admit(identityKeys: set<string>, primaries: map<string, nat>, id: Identity, ghost before: seq<Identity>)
    returns (ok: bool, keys: set<string>, counts: map<string, nat>)
    requires Seen(before, identityKeys, primaries)
    ensures ok <==> !Clashes(before, id)
    ensures ok ==> Seen(before + [id], keys, counts)
  {
    HasOneMore(before, id);
    keys, counts := identityKeys, primaries;
    if Key(id) in keys { return false, keys, counts; }
    keys := keys + {Key(id)};
    if id.primary {
      counts := counts[id.kind := (if id.kind in counts then counts[id.kind] else 0) + 1];
      if counts[id.kind] > 1 { return false, keys, counts; }
    }
    ok := true;
  }

  /** Everything checked after the identities. */
  ghost predicate DetailsOk(lib: Library, x: Input) {
    && (x.profile.Some? ==> ProfileOk(lib, x.profile.value))
    && (x.tags.Some? ==> TagsOk(x.tags.value))
    && !(x.memberships.Some? && x.membershipsAdd.Some?)
    && (x.memberships.Some? ==> MembershipsOk(lib, x.memberships.value))
    && (x.membershipsAdd.Some? ==> MembershipsOk(lib, x.membershipsAdd.value))
  }

  /** `CustomerLocator.Validate`. */
  method ValidateLocator(lib: Library, l: Locator) returns (r: Option<Locator>)
    ensures r.Some? <==> LocatorOk(lib, l)
    ensures r.Some? ==> r.value == CanonicalLocator(lib, l)
  {
    var forms := 0;
    if l.customerID != [] { forms := forms + 1; }
    if l.customerNo != [] { forms := forms + 1; }
    if l.externalUserID != [] { forms := forms + 1; }
    if l.identity.Some? { forms := forms + 1; }
    if forms != 1 { return None; }
    if l.customerID != [] {
      var parsed := lib.parseUuid(Trim(l.customerID));
      return if parsed.None? then None else Some(l.(customerID := parsed.value));
    }
    if l.customerNo != [] {
      var trimmed := Trim(l.customerNo);
      return if !lib.isCustomerNo(trimmed) then None else Some(l.(customerNo := trimmed));
    }
    if l.externalUserID != [] {
      var trimmed := Trim(l.externalUserID);
      return if trimmed == [] || |trimmed| > 255 then None else Some(l.(externalUserID := trimmed));
    }
    var n := NormalizeIdentity(lib, Bare(l.identity.value));
    r := if n.None? then None else Some(l.(identity := n));
  }

  method TrimText(s: Option<string>, longest: nat) returns (ok: bool, r: Option<string>)
    ensures ok <==> TextOk(s, longest)
    ensures r == TrimmedText(s)
  {
    r := if s.None? then None else Some(Trim(s.value));
    ok := s.None? || (r.value != [] && |r.value| <= longest);
  }

  /** `CustomerProfilePatch.Validate`; the attribute patch is tried on no attributes. */
  method ValidateProfile(lib: Library, p: Profile) returns (r: Option<Profile>)
    ensures r.Some? <==> ProfileOk(lib, p)
    ensures r.Some? ==> r.value == CanonicalProfile(p)
  {
    var ok, status := TrimText(p.status, 64);
    if !ok { return None; }
    var language, timezone;
    ok, language := TrimText(p.language, 50);
    if !ok || (language.Some? && !lib.isLocale(language.value)) { return None; }
    ok, timezone := TrimText(p.timezone, 50);
    if !ok || (timezone.Some? && !lib.isTimezone(timezone.value)) { return None; }
    var attributes: Option<Patch> := None;
    if p.attributes.Some? {
      ok := ValidateAttributes(p.attributes.value);
      if !ok { return None; }
      attributes := Some(CanonicalPatch(p.attributes.value));
    }
    r := Some(Profile(status, language, timezone, attributes));
  }

  /** Trims, drops repetitions and sorts. */
  method ValidateTags(tags: seq<string>) returns (r: Option<seq<string>>)
    ensures r.Some? <==> TagsOk(tags)
    ensures r.Some? ==> r.value == CanonicalTags(tags)
  {
    var normalized: seq<string>, seen: set<string> := [], {};
    for i := 0 to |tags|
      invariant TagsOk(tags[..i])
      invariant normalized == Distinct(tags[..i])
      invariant forall t :: t in seen <==> t in normalized
    {
      var tag := Trim(tags[i]);
      assert tags[..i + 1] == tags[..i] + [tags[i]] && tags[..i + 1][..i] == tags[..i];
      assert tags[i] in tags;
      if tag == [] || |tag| > 64 { return None; }
      if tag !in seen {
        seen := seen + {tag};
        normalized := normalized + [tag];
      }
    }
    assert tags[..|tags|] == tags;
    r := Some(Sorted(normalized, t => t));
  }

  predicate HasList(ms: seq<ListMembership>, listID: string) { exists i | 0 <= i < |ms| :: ListKey(ms[i]) == listID }

  lemma ListsOneMore(ms: seq<ListMembership>, m: ListMembership)
    ensures DistinctKeys(ms + [m], ListKey) <==> DistinctKeys(ms, ListKey) && !HasList(ms, ListKey(m))
  {
    var all := ms + [m];
    assert all[|ms|] == m;
    assert forall i | 0 <= i < |ms| :: all[i] == ms[i];
    if DistinctKeys(all, ListKey) {
      forall i, j | 0 <= i < j < |ms| ensures ListKey(ms[i]) != ListKey(ms[j]) { assert ListKey(all[i]) != ListKey(all[j]); }
      forall i | 0 <= i < |ms| ensures ListKey(ms[i]) != ListKey(m) { assert ListKey(all[i]) != ListKey(all[|ms|]); }
    }
  }

  lemma HasListOneMore(ms: seq<ListMembership>, m: ListMembership)
    ensures forall k :: HasList(ms + [m], k) <==> HasList(ms, k) || k == ListKey(m)
  {
    var all := ms + [m];
    assert all[|ms|] == m;
    assert forall i | 0 <= i < |ms| :: all[i] == ms[i];
  }

  /** A further membership is fine when it is so by itself and its list was not seen; otherwise none of the whole is. */
  lemma MembershipsOneMore(lib: Library, ms: seq<ListMembership>, i: nat)
    requires i < |ms|
    ensures var all := CanonicalMemberships(lib, ms);
            && all[i] == CanonicalMembership(lib, ms[i])
            && all[..i + 1] == all[..i] + [all[i]]
            && (MembershipsOk(lib, ms[..i + 1]) <==>
                  MembershipsOk(lib, ms[..i]) && MembershipOk(lib, ms[i]) && !HasList(all[..i], ListKey(all[i])))
            && (MembershipsOk(lib, ms) ==> MembershipsOk(lib, ms[..i + 1]))
  {
    var all := CanonicalMemberships(lib, ms);
    MappedAt(ms, i, m => CanonicalMembership(lib, m));
    PrefixOneMore(ms, i);
    PrefixOneMore(all, i);
    MappedPrefix(ms, i, m => CanonicalMembership(lib, m));
    MembershipsJoin(lib, ms[..i], ms[i]);
    if MembershipsOk(lib, ms) { MembershipsPrefix(lib, ms, i + 1); }
  }

  lemma MembershipsJoin(lib: Library, ms: seq<ListMembership>, m: ListMembership)
    ensures var all := CanonicalMemberships(lib, ms);
            MembershipsOk(lib, ms + [m])
            <==> MembershipsOk(lib, ms) && MembershipOk(lib, m) && !HasList(all, ListKey(CanonicalMembership(lib, m)))
  {
    MappedJoin(ms, [m], m => CanonicalMembership(lib, m));
    assert CanonicalMemberships(lib, [m]) == [CanonicalMembership(lib, m)];
    ListsOneMore(CanonicalMemberships(lib, ms), CanonicalMembership(lib, m));
    InJoin(ms, m);
  }

  lemma MembershipsPrefix(lib: Library, ms: seq<ListMembership>, n: nat)
    requires n <= |ms| && MembershipsOk(lib, ms)
    ensures MembershipsOk(lib, ms[..n])
  {
    var all := CanonicalMemberships(lib, ms);
    MappedPrefix(ms, n, m => CanonicalMembership(lib, m));
    forall i, j | 0 <= i < j < n ensures ListKey(all[..n][i]) != ListKey(all[..n][j]) { assert ListKey(all[i]) != ListKey(all[j]); }
    forall m | m in ms[..n] ensures m in ms {}
  }

  method ValidateListID(lib: Library, id: string) returns (r: Option<string>)
    ensures r.Some? <==> ListIDOk(lib, id)
    ensures r.Some? ==> r.value == Trim(id)
  {
    var trimmed := Trim(id);
    r := if trimmed == [] || |trimmed| > 32 || !lib.isAlphanumeric(trimmed) then None else Some(trimmed);
  }

  method ValidateStatus(lib: Library, status: string) returns (r: Option<string>)
    ensures r.Some? <==> ListStatus(CanonicalStatus(lib, status))
    ensures r.Some? ==> r.value == CanonicalStatus(lib, status)
  {
    var s := Lower(lib, Trim(status));
    if s == [] { s := "active"; }
    r := if ListStatus(s) then Some(s) else None;
  }

  /** The loop over one of the two list fields. */
  method ValidateMemberships(lib: Library, ms: seq<ListMembership>) returns (r: Option<seq<ListMembership>>)
    ensures r.Some? <==> MembershipsOk(lib, ms)
    ensures r.Some? ==> r.value == CanonicalMemberships(lib, ms)
  {
    ghost var all := CanonicalMemberships(lib, ms);
    var canonical: seq<ListMembership>, seen: set<string> := [], {};
    for i := 0 to |ms|
      invariant canonical == all[..i]
      invariant MembershipsOk(lib, ms[..i])
      invariant forall k :: k in seen <==> HasList(all[..i], k)
    {
      MembershipsOneMore(lib, ms, i);
      HasListOneMore(all[..i], all[i]);
      var listID := ValidateListID(lib, ms[i].listID);
      if listID.None? || listID.value in seen { return None; }
      seen := seen + {listID.value};
      var status := ValidateStatus(lib, ms[i].status);
      if status.None? { return None; }
      canonical := canonical + [ListMembership(listID.value, status.value)];
    }
    WholePrefix(ms);
    WholePrefix(all);
    r := Some(canonical);
  }

  /** `CanonicalPayloadHash` up to the encoding: a copy, validated, with its unordered parts sorted. */
  method CanonicalForm(lib: Library, x: Input) returns (r: Option<Input>)
    ensures r == HashForm(lib, x)
  {
    var canonical := new UpsertInput(Copy(x));
    var ok := canonical.Validate(lib);
    if !ok { return None; }
    canonical.identities := Sorted(canonical.identities, Key);
    if canonical.memberships.Some? { canonical.memberships := Some(Sorted(canonical.memberships.value, ListKey)); }
    if canonical.membershipsAdd.Some? { canonical.membershipsAdd := Some(Sorted(canonical.membershipsAdd.value, ListKey)); }
    r := Some(canonical.Value());
  }
}
