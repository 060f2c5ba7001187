/** Canonicalisation of a customer upsert, on values: what is accepted, what is rewritten, what is hashed. */
module CustomerUpsert {
  import opened AttributePatch
  import opened CustomerIdentity
  import opened JsonValues
  import opened Sorting
  import opened Texts
  import opened Wrappers

  /** Exactly one of the four is to be given; an empty text is not given. */
  datatype Locator = Locator(customerID: string, customerNo: string, externalUserID: string, identity: Option<(string, string)>)

  datatype Profile = Profile(status: Option<string>, language: Option<string>, timezone: Option<string>, attributes: Option<Patch>)

  datatype ListMembership = ListMembership(listID: string, status: string)

  datatype Input = Input(
    locator: Option<Locator>, externalUserID: Option<string>, profile: Option<Profile>, identities: seq<Identity>,
    tags: Option<seq<string>>, memberships: Option<seq<ListMembership>>, membershipsAdd: Option<seq<ListMembership>>)

  // ---------- locator ----------

  function Given(s: string): nat { if s == [] then 0 else 1 }

  function Forms(l: Locator): nat {
    Given(l.customerID) + Given(l.customerNo) + Given(l.externalUserID) + (if l.identity.Some? then 1 else 0)
  }

  function Bare(identity: (string, string)): Identity { Identity(identity.0, identity.1, false, false, None, None) }

  predicate LocatorOk(lib: Library, l: Locator) {
    Forms(l) == 1
    && if l.customerID != [] then lib.parseUuid(Trim(l.customerID)).Some?
       else if l.customerNo != [] then lib.isCustomerNo(Trim(l.customerNo))
       else if l.externalUserID != [] then 1 <= |Trim(l.externalUserID)| <= 255
       else Normalizes(lib, Bare(l.identity.value))
  }

  function CanonicalLocator(lib: Library, l: Locator): Locator
    requires LocatorOk(lib, l)
  {
    if l.customerID != [] then l.(customerID := lib.parseUuid(Trim(l.customerID)).value)
    else if l.customerNo != [] then l.(customerNo := Trim(l.customerNo))
    else if l.externalUserID != [] then l.(externalUserID := Trim(l.externalUserID))
    else
      var n := Normal(lib, Bare(l.identity.value));
      l.(identity := Some((n.kind, n.value)))
  }

  lemma LocatorFixed(lib: Library, l: Locator)
    requires Lawful(lib) && LocatorOk(lib, l)
    ensures LocatorOk(lib, CanonicalLocator(lib, l))
    ensures CanonicalLocator(lib, CanonicalLocator(lib, l)) == CanonicalLocator(lib, l)
  {
    if l.customerID == [] && l.customerNo == [] && l.externalUserID == [] {
      NormalIsFixed(lib, Bare(l.identity.value));
    }
  }

  // ---------- profile ----------

  predicate TextOk(s: Option<string>, longest: nat) { s.Some? ==> 1 <= |Trim(s.value)| <= longest }

  function TrimmedText(s: Option<string>): Option<string> { if s.Some? then Some(Trim(s.value)) else None }

  predicate ProfileOk(lib: Library, p: Profile) {
    && TextOk(p.status, 64)
    && TextOk(p.language, 50) && (p.language.Some? ==> lib.isLocale(Trim(p.language.value)))
    && TextOk(p.timezone, 50) && (p.timezone.Some? ==> lib.isTimezone(Trim(p.timezone.value)))
    && (p.attributes.Some? ==> Accepted(p.attributes.value))
  }

  function CanonicalProfile(p: Profile): Profile {
    Profile(TrimmedText(p.status), TrimmedText(p.language), TrimmedText(p.timezone),
            if p.attributes.Some? then Some(CanonicalPatch(p.attributes.value)) else None)
  }

  lemma ProfileFixed(lib: Library, p: Profile)
    requires ProfileOk(lib, p)
    ensures ProfileOk(lib, CanonicalProfile(p)) && CanonicalProfile(CanonicalProfile(p)) == CanonicalProfile(p)
  {
    if p.attributes.Some? { CanonicalPatchEquivalent(EMPTY, p.attributes.value); }
  }

  // ---------- identities ----------

  predicate MetadataOk(lib: Library, id: Identity) { id.metadata.Some? ==> lib.metadataSize(id.metadata.value) <= 16 * 1024 }

  predicate IdentityOk(lib: Library, id: Identity) { Normalizes(lib, id) && MetadataOk(lib, id) }

  function Normals(lib: Library, ids: seq<Identity>): seq<Identity> { Mapped(ids, id => Normal(lib, id)) }

  /** Two normal identities may appear together. */
  predicate Coexist(a: Identity, b: Identity) { Key(a) != Key(b) && !(a.primary && b.primary && a.kind == b.kind) }

  ghost predicate IdentitiesOk(lib: Library, ids: seq<Identity>) {
    && (forall id | id in ids :: IdentityOk(lib, id))
    && Pairwise(Normals(lib, ids), Coexist)
  }

  lemma IdentitiesFixed(lib: Library, ids: seq<Identity>)
    requires Lawful(lib) && IdentitiesOk(lib, ids)
    ensures IdentitiesOk(lib, Normals(lib, ids)) && Normals(lib, Normals(lib, ids)) == Normals(lib, ids)
  {
    forall i | 0 <= i < |ids|
      ensures IdentityOk(lib, Normals(lib, ids)[i])
      ensures Normal(lib, Normals(lib, ids)[i]) == Normals(lib, ids)[i]
    {
      assert ids[i] in ids;
      NormalIsFixed(lib, ids[i]);
    }
  }

  // ---------- tags ----------

  predicate TagsOk(tags: seq<string>) { forall t | t in tags :: 1 <= |Trim(t)| <= 64 }

  /** The trimmed tags, each at its first place. */
  function Distinct(tags: seq<string>): seq<string>
    decreases |tags|
  {
    if tags == [] then []
    else
      var rest, tag := Distinct(tags[..|tags| - 1]), Trim(tags[|tags| - 1]);
      if tag in rest then rest else rest + [tag]
  }

  function CanonicalTags(tags: seq<string>): seq<string> { Sorted(Distinct(tags), t => t) }

  predicate IsTag(tags: seq<string>, t: string) { exists i | 0 <= i < |tags| :: Trim(tags[i]) == t }

  lemma IsTagOneMore(tags: seq<string>, t: string)
    requires tags != []
    ensures IsTag(tags, t) <==> IsTag(tags[..|tags| - 1], t) || Trim(tags[|tags| - 1]) == t
  {
    var n := |tags| - 1;
    if IsTag(tags[..n], t) {
      var i :| 0 <= i < n && Trim(tags[..n][i]) == t;
      assert Trim(tags[i]) == t;
    }
    if IsTag(tags, t) {
      var i :| 0 <= i < |tags| && Trim(tags[i]) == t;
      if i < n { assert Trim(tags[..n][i]) == t; }
    }
  }

  lemma {:induction false} DistinctHolds(tags: seq<string>)
    ensures forall t :: t in Distinct(tags) <==> IsTag(tags, t)
    ensures DistinctKeys(Distinct(tags), t => t)
    decreases |tags|
  {
    if tags != [] {
      var n := |tags| - 1;
      DistinctHolds(tags[..n]);
      forall t ensures t in Distinct(tags) <==> IsTag(tags, t) { IsTagOneMore(tags, t); }
    }
  }

  /** The canonical tags are the sorted set of the trimmed ones, so only that set matters. */
  lemma CanonicalTagsListSet(tags: seq<string>)
    ensures Ascending(CanonicalTags(tags)) && forall t :: t in CanonicalTags(tags) <==> IsTag(tags, t)
  {
    DistinctHolds(tags);
    SortedPermutes(Distinct(tags), (t: string) => t);
    SortedAscends(Distinct(tags), (t: string) => t);
    forall t ensures t in CanonicalTags(tags) <==> t in Distinct(tags) {
      assert t in CanonicalTags(tags) <==> t in multiset(CanonicalTags(tags));
    }
  }

  lemma TagsPermuted(a: seq<string>, b: seq<string>)
    requires forall t :: t in a <==> t in b
    ensures TagsOk(a) <==> TagsOk(b)
    ensures CanonicalTags(a) == CanonicalTags(b)
  {
    CanonicalTagsListSet(a);
    CanonicalTagsListSet(b);
    forall t ensures IsTag(a, t) <==> IsTag(b, t) {
      SameTags(a, b, t);
      SameTags(b, a, t);
    }
    AscendingUnique(CanonicalTags(a), CanonicalTags(b));
  }

  lemma SameTags(a: seq<string>, b: seq<string>, t: string)
    requires forall s :: s in a ==> s in b
    ensures IsTag(a, t) ==> IsTag(b, t)
  {
    if IsTag(a, t) {
      var i :| 0 <= i < |a| && Trim(a[i]) == t;
      assert a[i] in b;
      var j :| 0 <= j < |b| && b[j] == a[i];
    }
  }

  lemma TagsFixed(tags: seq<string>)
    requires TagsOk(tags)
    ensures TagsOk(CanonicalTags(tags)) && CanonicalTags(CanonicalTags(tags)) == CanonicalTags(tags)
  {
    var c := CanonicalTags(tags);
    CanonicalTagsListSet(tags);
    CanonicalTagsListSet(c);
    forall t | t in c ensures Trim(t) == t && |t| <= 64 && t != [] {
      var i :| 0 <= i < |tags| && Trim(tags[i]) == t;
      assert tags[i] in tags;
    }
    forall t ensures IsTag(c, t) <==> t in c {
      if t in c {
        var i :| 0 <= i < |c| && c[i] == t;
        assert Trim(c[i]) == t;
      }
    }
    AscendingUnique(CanonicalTags(c), c);
  }

  // ---------- list memberships ----------

  predicate ListIDOk(lib: Library, id: string) { 1 <= |Trim(id)| <= 32 && lib.isAlphanumeric(Trim(id)) }

  predicate MembershipOk(lib: Library, m: ListMembership) { ListIDOk(lib, m.listID) && ListStatus(CanonicalStatus(lib, m.status)) }

  predicate ListStatus(s: string) {
    s == "active" || s == "pending" || s == "unsubscribed" || s == "bounced" || s == "complained"
  }

  function CanonicalStatus(lib: Library, status: string): string {
    var s := Lower(lib, Trim(status));
    if s == [] then "active" else s
  }

  function CanonicalMembership(lib: Library, m: ListMembership): ListMembership {
    ListMembership(Trim(m.listID), CanonicalStatus(lib, m.status))
  }

  function CanonicalMemberships(lib: Library, ms: seq<ListMembership>): seq<ListMembership> {
    Mapped(ms, m => CanonicalMembership(lib, m))
  }

  function ListKey(m: ListMembership): string { m.listID }

  ghost predicate MembershipsOk(lib: Library, ms: seq<ListMembership>) {
    (forall m | m in ms :: MembershipOk(lib, m)) && DistinctKeys(CanonicalMemberships(lib, ms), ListKey)
  }

  lemma StatusFixed(lib: Library, status: string)
    requires Lawful(lib)
    ensures CanonicalStatus(lib, CanonicalStatus(lib, status)) == CanonicalStatus(lib, status)
  {
    var s := Lower(lib, Trim(status));
    LowerFixed(lib, Trim(status));
    if s == [] {
      assert Trim("active") == "active" && Lower(lib, "active") == "active";
    }
  }

  lemma MembershipsFixed(lib: Library, ms: seq<ListMembership>)
    requires Lawful(lib) && MembershipsOk(lib, ms)
    ensures MembershipsOk(lib, CanonicalMemberships(lib, ms))
    ensures CanonicalMemberships(lib, CanonicalMemberships(lib, ms)) == CanonicalMemberships(lib, ms)
  {
    var c := CanonicalMemberships(lib, ms);
    forall i | 0 <= i < |ms|
      ensures MembershipOk(lib, c[i]) && CanonicalMembership(lib, c[i]) == c[i]
    {
      assert ms[i] in ms;
      StatusFixed(lib, ms[i].status);
    }
    assert CanonicalMemberships(lib, c) == c;
  }

  // ---------- the whole input ----------

  ghost predicate InputOk(lib: Library, x: Input) {
    && (x.locator.Some? ==> LocatorOk(lib, x.locator.value))
    && TextOk(x.externalUserID, 255)
    && (x.locator.Some? || x.externalUserID.Some? || x.identities != [])
    && IdentitiesOk(lib, x.identities)
    && (x.profile.Some? ==> ProfileOk(lib, x.profile.value))
    && (x.tags.Some? ==> TagsOk(x.tags.value))
    && !(x.memberships.Some? && x.membershipsAdd.Some?)
    && (x.memberships.Some? ==> MembershipsOk(lib, x.memberships.value))
    && (x.membershipsAdd.Some? ==> MembershipsOk(lib, x.membershipsAdd.value))
  }

  function Each<A, B>(s: Option<A>, f: A -> B): Option<B> { if s.Some? then Some(f(s.value)) else None }

  function CanonicalInput(lib: Library, x: Input): Input
    requires x.locator.Some? ==> LocatorOk(lib, x.locator.value)
  {
    Input(if x.locator.Some? then Some(CanonicalLocator(lib, x.locator.value)) else None,
          TrimmedText(x.externalUserID),
          Each(x.profile, p => CanonicalProfile(p)),
          Normals(lib, x.identities),
          Each(x.tags, t => CanonicalTags(t)),
          Each(x.memberships, m => CanonicalMemberships(lib, m)),
          Each(x.membershipsAdd, m => CanonicalMemberships(lib, m)))
  }

  /** `CustomerUpsertInput.Validate`: none when it is rejected. */
  ghost function Validated(lib: Library, x: Input): Option<Input> {
    if InputOk(lib, x) then Some(CanonicalInput(lib, x)) else None
  }

  /** Validating what was validated accepts it and changes nothing. */
  lemma ValidateIdempotent(lib: Library, x: Input)
    requires Lawful(lib) && InputOk(lib, x)
    ensures Validated(lib, CanonicalInput(lib, x)) == Some(CanonicalInput(lib, x))
  {
    if x.locator.Some? { LocatorFixed(lib, x.locator.value); }
    if x.profile.Some? { ProfileFixed(lib, x.profile.value); }
    IdentitiesFixed(lib, x.identities);
    if x.tags.Some? { TagsFixed(x.tags.value); }
    if x.memberships.Some? { MembershipsFixed(lib, x.memberships.value); }
    if x.membershipsAdd.Some? { MembershipsFixed(lib, x.membershipsAdd.value); }
  }

  // ---------- the hashed form ----------

  /** What a trip through JSON leaves of an identity: empty metadata is omitted. */
  function Copied(id: Identity): Identity { if id.metadata == Some(EMPTY) then id.(metadata := None) else id }

  function Copies(ids: seq<Identity>): seq<Identity> { Mapped(ids, Copied) }

  function Copy(x: Input): Input { x.(identities := Copies(x.identities)) }

  function Ordered(x: Input): Input {
    x.(identities := Sorted(x.identities, Key),
       memberships := Each(x.memberships, m => Sorted(m, ListKey)),
       membershipsAdd := Each(x.membershipsAdd, m => Sorted(m, ListKey)))
  }

  /** The value `CanonicalPayloadHash` encodes and hashes. */
  ghost function HashForm(lib: Library, x: Input): Option<Input> {
    var v := Validated(lib, Copy(x));
    if v.Some? then Some(Ordered(v.value)) else None
  }

  lemma SameMembers<T>(a: seq<T>, b: seq<T>)
    requires multiset(a) == multiset(b)
    ensures forall x :: x in a <==> x in b
  {
    forall x ensures x in a <==> x in b {
      assert x in a <==> x in multiset(a);
    }
  }

  lemma CoexistKeys(ids: seq<Identity>)
    requires Pairwise(ids, Coexist)
    ensures DistinctKeys(ids, Key)
  {}

  lemma IdentitiesPermuted(lib: Library, a: seq<Identity>, b: seq<Identity>)
    requires multiset(a) == multiset(b) && IdentitiesOk(lib, a)
    ensures IdentitiesOk(lib, b)
    ensures Sorted(Normals(lib, b), Key) == Sorted(Normals(lib, a), Key)
  {
    SameMembers(a, b);
    MappedPermuted(a, b, (id: Identity) => Normal(lib, id));
    PairwisePermuted(Normals(lib, a), Normals(lib, b), Coexist);
    SortedPermuted(Normals(lib, a), Normals(lib, b));
  }

  lemma SortedPermuted(a: seq<Identity>, b: seq<Identity>)
    requires multiset(a) == multiset(b) && Pairwise(a, Coexist) && Pairwise(b, Coexist)
    ensures Sorted(b, Key) == Sorted(a, Key)
  {
    CoexistKeys(a);
    CoexistKeys(b);
    SortedPermutes(b, Key);
    SortedAscends(b, Key);
    AnySortIsSorted(a, Sorted(b, Key), Key);
  }

  lemma MembershipsPermuted(lib: Library, a: seq<ListMembership>, b: seq<ListMembership>)
    requires multiset(a) == multiset(b) && MembershipsOk(lib, a)
    ensures MembershipsOk(lib, b)
    ensures Sorted(CanonicalMemberships(lib, b), ListKey) == Sorted(CanonicalMemberships(lib, a), ListKey)
  {
    SameMembers(a, b);
    var c, d := CanonicalMemberships(lib, a), CanonicalMemberships(lib, b);
    MappedPermuted(a, b, (m: ListMembership) => CanonicalMembership(lib, m));
    PairwisePermuted(c, d, (x, y) => ListKey(x) != ListKey(y));
    SortedPermutes(d, ListKey);
    SortedAscends(d, ListKey);
    AnySortIsSorted(c, Sorted(d, ListKey), ListKey);
  }

  ghost predicate PermutedLists(a: Option<seq<ListMembership>>, b: Option<seq<ListMembership>>) {
    a.Some? == b.Some? && (a.Some? ==> multiset(a.value) == multiset(b.value))
  }

  /** The same upsert, with identities and list memberships in another order, and tags in another order and repeated. */
  ghost predicate Permuted(x: Input, y: Input) {
    && y.locator == x.locator && y.externalUserID == x.externalUserID && y.profile == x.profile
    && multiset(x.identities) == multiset(y.identities)
    && x.tags.Some? == y.tags.Some? && (x.tags.Some? ==> forall t :: t in x.tags.value <==> t in y.tags.value)
    && PermutedLists(x.memberships, y.memberships) && PermutedLists(x.membershipsAdd, y.membershipsAdd)
  }

  lemma PermutedAccepted(lib: Library, x: Input, y: Input)
    requires Permuted(x, y) && InputOk(lib, x)
    ensures InputOk(lib, y)
    ensures Ordered(CanonicalInput(lib, y)) == Ordered(CanonicalInput(lib, x))
  {
    assert |multiset(x.identities)| == |x.identities| && |multiset(y.identities)| == |y.identities|;
    IdentitiesPermuted(lib, x.identities, y.identities);
    if x.tags.Some? { TagsPermuted(x.tags.value, y.tags.value); }
    if x.memberships.Some? { MembershipsPermuted(lib, x.memberships.value, y.memberships.value); }
    if x.membershipsAdd.Some? { MembershipsPermuted(lib, x.membershipsAdd.value, y.membershipsAdd.value); }
  }

  /** Neither acceptance nor the hashed form depends on the order of identities, tags or memberships, or on repeated tags. */
  lemma HashFormIgnoresOrder(lib: Library, x: Input, y: Input)
    requires Permuted(x, y)
    ensures Validated(lib, x).Some? <==> Validated(lib, y).Some?
    ensures HashForm(lib, x) == HashForm(lib, y)
  {
    if InputOk(lib, x) { PermutedAccepted(lib, x, y); }
    if InputOk(lib, y) { PermutedAccepted(lib, y, x); }
    MappedPermuted(x.identities, y.identities, Copied);
    if InputOk(lib, Copy(x)) { PermutedAccepted(lib, Copy(x), Copy(y)); }
    if InputOk(lib, Copy(y)) { PermutedAccepted(lib, Copy(y), Copy(x)); }
  }

  lemma OrderedPermutes(lib: Library, x: Input)
    ensures Permuted(x, Ordered(x))
  {
    SortedPermutes(x.identities, Key);
    if x.memberships.Some? { SortedPermutes(x.memberships.value, ListKey); }
    if x.membershipsAdd.Some? { SortedPermutes(x.membershipsAdd.value, ListKey); }
  }

  lemma NormalsOfCopies(lib: Library, ids: seq<Identity>)
    ensures Normals(lib, Copies(ids)) == Copies(Normals(lib, ids))
  {
    forall i | 0 <= i < |ids| ensures Normal(lib, Copied(ids[i])) == Copied(Normal(lib, ids[i])) {}
  }

  lemma CopiesFixed(ids: seq<Identity>)
    ensures Copies(Copies(ids)) == Copies(ids)
  {
    forall i | 0 <= i < |ids| ensures Copies(Copies(ids))[i] == Copies(ids)[i] {
      assert Copies(ids)[i] == Copied(ids[i]) && Copies(Copies(ids))[i] == Copied(Copied(ids[i]));
    }
  }

  lemma CopiedOk(lib: Library, id: Identity)
    ensures IdentityOk(lib, id) ==> IdentityOk(lib, Copied(id))
  {
    assert Copied(id).kind == id.kind && Copied(id).value == id.value;
  }

  lemma CopiesOk(lib: Library, ids: seq<Identity>)
    requires IdentitiesOk(lib, ids)
    ensures IdentitiesOk(lib, Copies(ids))
  {
    NormalsOfCopies(lib, ids);
    forall id | id in Copies(ids) ensures IdentityOk(lib, id) {
      var i :| 0 <= i < |ids| && Copies(ids)[i] == id;
      assert ids[i] in ids;
      CopiedOk(lib, ids[i]);
      assert id == Copied(ids[i]);
    }
    CopiesCoexist(Normals(lib, ids));
  }

  lemma CopiesCoexist(ids: seq<Identity>)
    requires Pairwise(ids, Coexist)
    ensures Pairwise(Copies(ids), Coexist)
  {
    forall i, j | 0 <= i < j < |ids| ensures Coexist(Copies(ids)[i], Copies(ids)[j]) {
      assert Coexist(ids[i], ids[j]);
      assert Copies(ids)[i] == Copied(ids[i]) && Copies(ids)[j] == Copied(ids[j]);
    }
  }

  /** Reordering a validated copy and hashing again changes nothing. */
  lemma HashFormOfOrdered(lib: Library, v: Input)
    requires Validated(lib, v) == Some(v) && Copy(v) == v
    ensures HashForm(lib, Ordered(v)) == Some(Ordered(v))
  {
    OrderedPermutes(lib, v);
    HashFormIgnoresOrder(lib, v, Ordered(v));
  }

  /** The hashed form is accepted and hashes as itself. */
  lemma HashFormFixed(lib: Library, x: Input)
    requires Lawful(lib) && HashForm(lib, x).Some?
    ensures HashForm(lib, HashForm(lib, x).value) == HashForm(lib, x)
  {
    var v := CanonicalInput(lib, Copy(x));
    ValidateIdempotent(lib, Copy(x));
    NormalsOfCopies(lib, x.identities);
    CopiesFixed(Normals(lib, x.identities));
    HashFormOfOrdered(lib, v);
  }

  /** An upsert hashes the same before and after it is validated. */
  lemma HashFormOfValidated(lib: Library, x: Input)
    requires Lawful(lib) && InputOk(lib, x)
    ensures HashForm(lib, CanonicalInput(lib, x)) == HashForm(lib, x)
  {
    CopiesOk(lib, x.identities);
    NormalsOfCopies(lib, x.identities);
    assert InputOk(lib, Copy(x));
    assert Copy(CanonicalInput(lib, x)) == CanonicalInput(lib, Copy(x));
    ValidateIdempotent(lib, Copy(x));
  }
}
