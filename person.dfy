/** The person fields that `contact_create` and `contact_update` send: the
    caller's optional arguments, the JSON entries built from them, and the
    five field groups a body can carry. The two handlers differ only in
    the rule that decides whether a group is included. */
module Person {
  import opened Wrappers
  import opened JsonValues

  datatype EmailKind = HomeEmail | WorkEmail | OtherEmail
  datatype PhoneKind = HomePhone | WorkPhone | MobilePhone | OtherPhone

  function EmailKindName(k: EmailKind): string {
    match k
    case HomeEmail => "home"
    case WorkEmail => "work"
    case OtherEmail => "other"
  }

  function PhoneKindName(k: PhoneKind): string {
    match k
    case HomePhone => "home"
    case WorkPhone => "work"
    case MobilePhone => "mobile"
    case OtherPhone => "other"
  }

  /** The email `type` enum: accepts exactly the three names. */
  function ParseEmailKind(s: string): (r: Option<EmailKind>)
    ensures forall k :: r == Some(k) <==> s == EmailKindName(k)
  {
    if s == "home" then Some(HomeEmail)
    else if s == "work" then Some(WorkEmail)
    else if s == "other" then Some(OtherEmail)
    else None
  }

  /** The phone `type` enum: accepts exactly the four names. */
  function ParsePhoneKind(s: string): (r: Option<PhoneKind>)
    ensures forall k :: r == Some(k) <==> s == PhoneKindName(k)
  {
    if s == "home" then Some(HomePhone)
    else if s == "work" then Some(WorkPhone)
    else if s == "mobile" then Some(MobilePhone)
    else if s == "other" then Some(OtherPhone)
    else None
  }

  /** An `emailAddresses` argument entry: `{value, type?}`. */
  datatype EmailAddress = EmailAddress(value: string, kind: Option<EmailKind>)

  /** A `phoneNumbers` argument entry: `{value, type?}`. */
  datatype PhoneNumber = PhoneNumber(value: string, kind: Option<PhoneKind>)

  /** The optional arguments both handlers take; `None` is an omitted key. */
  datatype ContactFields = ContactFields(
    givenName: Option<string>,
    familyName: Option<string>,
    emailAddresses: Option<seq<EmailAddress>>,
    phoneNumbers: Option<seq<PhoneNumber>>,
    organization: Option<string>,
    jobTitle: Option<string>,
    notes: Option<string>)

  /** A `{value, type}` object; the `type` key is absent when no type was given. */
  function TypedEntry(value: string, kind: Option<string>): Json {
    match kind
    case Some(k) => JObject(map["value" := JString(value), "type" := JString(k)])
    case None => JObject(map["value" := JString(value)])
  }

  /** Reads a `{value, type?}` object that has no other key. */
  function TypedEntryOf(j: Json): Option<(string, Option<string>)> {
    match j
    case JObject(m) =>
      if "value" in m && m["value"].JString? then
        if m.Keys == {"value"} then Some((m["value"].str, None))
        else if m.Keys == {"value", "type"} && m["type"].JString? then Some((m["value"].str, Some(m["type"].str)))
        else None
      else None
    case _ => None
  }

  lemma TypedEntryRoundTrip(value: string, kind: Option<string>)
    ensures TypedEntryOf(TypedEntry(value, kind)) == Some((value, kind))
  {
    match kind
    case Some(k) =>
      assert map["value" := JString(value), "type" := JString(k)].Keys == {"value", "type"};
    case None =>
  }

  function EmailJson(e: EmailAddress): Json {
    TypedEntry(e.value, if e.kind.Some? then Some(EmailKindName(e.kind.value)) else None)
  }

  function EmailOf(j: Json): Option<EmailAddress> {
    match TypedEntryOf(j)
    case None => None
    case Some((v, None)) => Some(EmailAddress(v, None))
    case Some((v, Some(k))) =>
      match ParseEmailKind(k)
      case Some(kind) => Some(EmailAddress(v, Some(kind)))
      case None => None
  }

  function PhoneJson(p: PhoneNumber): Json {
    TypedEntry(p.value, if p.kind.Some? then Some(PhoneKindName(p.kind.value)) else None)
  }

  function PhoneOf(j: Json): Option<PhoneNumber> {
    match TypedEntryOf(j)
    case None => None
    case Some((v, None)) => Some(PhoneNumber(v, None))
    case Some((v, Some(k))) =>
      match ParsePhoneKind(k)
      case Some(kind) => Some(PhoneNumber(v, Some(kind)))
      case None => None
  }

  /** An email entry's JSON form loses nothing. */
  lemma EmailRoundTrip(e: EmailAddress)
    ensures EmailOf(EmailJson(e)) == Some(e)
  {
    TypedEntryRoundTrip(e.value, if e.kind.Some? then Some(EmailKindName(e.kind.value)) else None);
  }

  /** A phone entry's JSON form loses nothing. */
  lemma PhoneRoundTrip(p: PhoneNumber)
    ensures PhoneOf(PhoneJson(p)) == Some(p)
  {
    TypedEntryRoundTrip(p.value, if p.kind.Some? then Some(PhoneKindName(p.kind.value)) else None);
  }

  /** A list of entries as a JSON array, element by element. */
  function ListJson<T>(xs: seq<T>, encode: T -> Json): (js: seq<Json>)
    ensures |js| == |xs|
  {
    seq(|xs|, i requires 0 <= i < |xs| => encode(xs[i]))
  }

  /** Reads every element of a JSON array, failing if one does not read. */
  function ListOf<T>(js: seq<Json>, decode: Json -> Option<T>): Option<seq<T>>
    decreases |js|
  {
    if js == [] then Some([])
    else
      match decode(js[0])
      case None => None
      case Some(x) =>
        match ListOf(js[1..], decode)
        case None => None
        case Some(rest) => Some([x] + rest)
  }

  /** A list encoded element by element reads back whole. */
  lemma {:induction false} ListRoundTrip<T>(xs: seq<T>, encode: T -> Json, decode: Json -> Option<T>)
    requires forall x :: decode(encode(x)) == Some(x)
    ensures ListOf(ListJson(xs, encode), decode) == Some(xs)
    decreases |xs|
  {
    if xs != [] {
      var js := ListJson(xs, encode);
      assert js[0] == encode(xs[0]);
      assert js[1..] == ListJson(xs[1..], encode);
      ListRoundTrip(xs[1..], encode, decode);
      assert [xs[0]] + xs[1..] == xs;
    }
  }

  /** The email list a body carries is the caller's list, unchanged. */
  lemma EmailListRoundTrip(es: seq<EmailAddress>)
    ensures ListOf(ListJson(es, EmailJson), EmailOf) == Some(es)
  {
    forall e ensures EmailOf(EmailJson(e)) == Some(e) {
      EmailRoundTrip(e);
    }
    ListRoundTrip(es, EmailJson, EmailOf);
  }

  /** The phone list a body carries is the caller's list, unchanged. */
  lemma PhoneListRoundTrip(ps: seq<PhoneNumber>)
    ensures ListOf(ListJson(ps, PhoneJson), PhoneOf) == Some(ps)
  {
    forall p ensures PhoneOf(PhoneJson(p)) == Some(p) {
      PhoneRoundTrip(p);
    }
    ListRoundTrip(ps, PhoneJson, PhoneOf);
  }

  const PlainText := "TEXT_PLAIN"

  /** `{givenName, familyName}`: both keys present, an omitted one undefined. */
  function NameEntry(given: Option<string>, family: Option<string>): Json {
    JObject(map["givenName" := OptionalString(given), "familyName" := OptionalString(family)])
  }

  /** `{name: organization, title: jobTitle}`: both keys present. */
  function OrganizationEntry(organization: Option<string>, title: Option<string>): Json {
    JObject(map["name" := OptionalString(organization), "title" := OptionalString(title)])
  }

  /** `{value: notes, contentType: 'TEXT_PLAIN'}`. */
  function BiographyEntry(notes: string): Json {
    JObject(map["value" := JString(notes), "contentType" := JString(PlainText)])
  }

  /** The field groups a person body can carry. */
  datatype Group = Names | EmailAddresses | PhoneNumbers | Organizations | Biographies

  /** The groups in the order the handlers test them. */
  const CanonicalOrder: seq<Group> := [Names, EmailAddresses, PhoneNumbers, Organizations, Biographies]

  const GroupCount: nat := 5

  /** The body key, and the `updatePersonFields` entry, of a group. */
  function Key(g: Group): string {
    match g
    case Names => "names"
    case EmailAddresses => "emailAddresses"
    case PhoneNumbers => "phoneNumbers"
    case Organizations => "organizations"
    case Biographies => "biographies"
  }

  /** A group's position in the canonical order. */
  function Rank(g: Group): (r: nat)
    ensures r < GroupCount
  {
    match g
    case Names => 0
    case EmailAddresses => 1
    case PhoneNumbers => 2
    case Organizations => 3
    case Biographies => 4
  }

  /** The group at a position of the canonical order. */
  function GroupAt(i: nat): (g: Group)
    requires i < GroupCount
    ensures Rank(g) == i
  {
    if i == 0 then Names
    else if i == 1 then EmailAddresses
    else if i == 2 then PhoneNumbers
    else if i == 3 then Organizations
    else Biographies
  }

  /** `GroupAt` walks the canonical order. */
  lemma OrderAt(i: nat)
    requires i < GroupCount
    ensures CanonicalOrder[i] == GroupAt(i)
  {
  }

  /** Every group has its own position. */
  lemma RankRoundTrip(g: Group)
    ensures GroupAt(Rank(g)) == g
  {
  }

  /** Distinct groups have distinct keys. */
  lemma KeyFacts(g: Group, h: Group)
    ensures Key(g) == Key(h) ==> g == h
    ensures Key(g) != "etag"
  {
  }

  /** A key is a non-empty name without a comma, so a list of keys
      joined with commas can be split back. */
  lemma KeyShape(g: Group)
    ensures Key(g) != "" && ',' !in Key(g)
  {
  }

  /** A property of the `person` record: the etag, or the key of a group. */
  datatype Field = EtagField | GroupField(group: Group)

  /** The name a property has in the JSON body. */
  function FieldName(k: Field): string {
    match k
    case EtagField => "etag"
    case GroupField(g) => Key(g)
  }

  /** Distinct properties have distinct names. */
  lemma FieldNameInjective(a: Field, b: Field)
    ensures FieldName(a) == FieldName(b) ==> a == b
  {
    match a
    case EtagField =>
      if b.GroupField? {
        KeyFacts(b.group, b.group);
      }
    case GroupField(g) =>
      KeyFacts(g, g);
      if b.GroupField? {
        KeyFacts(g, b.group);
      }
  }

  lemma FieldNamesInjective()
    ensures forall a, b :: FieldName(a) == FieldName(b) ==> a == b
  {
    forall a, b ensures FieldName(a) == FieldName(b) ==> a == b {
      FieldNameInjective(a, b);
    }
  }

  /** The JSON object a record is sent as: each property under its name. */
  function Wire(person: map<Field, Json>): map<string, Json> {
    FieldNamesInjective();
    map k | k in person :: FieldName(k) := person[k]
  }

  /** Every property of the record is sent under its name, with its value. */
  lemma WireHas(person: map<Field, Json>, k: Field)
    requires k in person
    ensures FieldName(k) in Wire(person) && Wire(person)[FieldName(k)] == person[k]
  {
  }

  /** A name is sent exactly when the record has the property of that name. */
  lemma WireName(person: map<Field, Json>, k: Field)
    ensures FieldName(k) in Wire(person) <==> k in person
  {
    if FieldName(k) in Wire(person) {
      var j :| j in person && FieldName(j) == FieldName(k);
      FieldNameInjective(j, k);
    }
  }

  /** The object sent is empty exactly when the record is. */
  lemma WireEmpty(person: map<Field, Json>)
    ensures Wire(person) == map[] <==> person == map[]
  {
    if person != map[] {
      var k :| k in person;
      WireHas(person, k);
    }
  }

  /** Nothing but the record's properties is sent. */
  lemma WireOnly(person: map<Field, Json>, s: string)
    requires s in Wire(person)
    ensures exists k :: k in person && s == FieldName(k)
  {
  }

  /** Presence: some argument of the group was passed at all, even as
      `""` or `[]` (the `!== undefined` tests of `contact_update`). */
  predicate Supplied(f: ContactFields, g: Group) {
    match g
    case Names => f.givenName.Some? || f.familyName.Some?
    case EmailAddresses => f.emailAddresses.Some?
    case PhoneNumbers => f.phoneNumbers.Some?
    case Organizations => f.organization.Some? || f.jobTitle.Some?
    case Biographies => f.notes.Some?
  }

  /** Truthiness: some argument of the group is a non-empty string or a
      non-empty list (the bare `if` tests of `contact_create`). */
  predicate Filled(f: ContactFields, g: Group) {
    match g
    case Names => Truthy(f.givenName) || Truthy(f.familyName)
    case EmailAddresses => HasItems(f.emailAddresses)
    case PhoneNumbers => HasItems(f.phoneNumbers)
    case Organizations => Truthy(f.organization) || Truthy(f.jobTitle)
    case Biographies => Truthy(f.notes)
  }

  /** Which of the two tests a handler applies to every group. */
  datatype Rule = Presence | Truthiness

  predicate Included(rule: Rule, f: ContactFields, g: Group) {
    match rule
    case Presence => Supplied(f, g)
    case Truthiness => Filled(f, g)
  }

  /** A filled group is supplied: truthiness is the stricter test. */
  lemma FilledIsSupplied(f: ContactFields, g: Group)
    ensures Filled(f, g) ==> Supplied(f, g)
  {
  }

  /** The value a group takes in the body, from the arguments it was
      built from (read only when the group is supplied). */
  function GroupValue(f: ContactFields, g: Group): Json {
    match g
    case Names => JArray([NameEntry(f.givenName, f.familyName)])
    case EmailAddresses => JArray(ListJson(f.emailAddresses.GetOr([]), EmailJson))
    case PhoneNumbers => JArray(ListJson(f.phoneNumbers.GetOr([]), PhoneJson))
    case Organizations => JArray([OrganizationEntry(f.organization, f.jobTitle)])
    case Biographies => JArray([BiographyEntry(f.notes.GetOr(""))])
  }

  /** The person fields a rule sends: each included group under its key. */
  function GroupBody(rule: Rule, f: ContactFields): map<Field, Json> {
    map g | g in CanonicalOrder && Included(rule, f, g) :: GroupField(g) := GroupValue(f, g)
  }

  /** The `person` record after the handler has tested the first `n`
      groups, one conditional at a time, starting from `person`. */
  function Fill(rule: Rule, f: ContactFields, person: map<Field, Json>, n: nat): map<Field, Json>
    requires n <= GroupCount
    decreases n
  {
    if n == 0 then person
    else
      var g := GroupAt(n - 1);
      if Included(rule, f, g) then Fill(rule, f, person, n - 1)[GroupField(g) := GroupValue(f, g)]
      else Fill(rule, f, person, n - 1)
  }

  /** Filled from nothing, the record holds only included groups among
      the first `n`. */
  lemma {:induction false} FillKeys(rule: Rule, f: ContactFields, n: nat)
    requires n <= GroupCount
    ensures forall k :: k in Fill(rule, f, map[], n) ==> k.GroupField? && Rank(k.group) < n && Included(rule, f, k.group)
    decreases n
  {
    if n > 0 {
      FillKeys(rule, f, n - 1);
    }
  }

  /** Every included group among the first `n` is in the record, with its
      value. */
  lemma {:induction false} FillGroups(rule: Rule, f: ContactFields, n: nat)
    requires n <= GroupCount
    ensures forall g :: Rank(g) < n && Included(rule, f, g) ==>
      GroupField(g) in Fill(rule, f, map[], n) && Fill(rule, f, map[], n)[GroupField(g)] == GroupValue(f, g)
    decreases n
  {
    if n > 0 {
      FillGroups(rule, f, n - 1);
      forall g | Rank(g) == n - 1 ensures g == GroupAt(n - 1) {
        RankRoundTrip(g);
      }
    }
  }

  /** Starting from the etag alone gives the groups' record plus the etag:
      no group writes over it. */
  lemma {:induction false} FillFromEtag(rule: Rule, f: ContactFields, etag: Json, n: nat)
    requires n <= GroupCount
    ensures Fill(rule, f, map[EtagField := etag], n) == Fill(rule, f, map[], n)[EtagField := etag]
    decreases n
  {
    if n > 0 {
      FillFromEtag(rule, f, etag, n - 1);
      var g := GroupAt(n - 1);
      if Included(rule, f, g) {
        UpdatesCommute(Fill(rule, f, map[], n - 1), EtagField, etag, GroupField(g), GroupValue(f, g));
      }
    }
  }

  /** Removing a property just added to a record without it gives the record back. */
  lemma RemoveAdded(m: map<Field, Json>, k: Field, v: Json)
    requires k !in m
    ensures m[k := v] - {k} == m
  {
  }

  /** Writing two different properties in either order gives the same record. */
  lemma UpdatesCommute(m: map<Field, Json>, a: Field, x: Json, b: Field, y: Json)
    requires a != b
    ensures m[a := x][b := y] == m[b := y][a := x]
  {
  }

  /** Once every group is tested, the record filled from nothing is the
      whole body. */
  lemma FillAll(rule: Rule, f: ContactFields)
    ensures Fill(rule, f, map[], GroupCount) == GroupBody(rule, f)
  {
    FillKeys(rule, f, GroupCount);
    FillGroups(rule, f, GroupCount);
    forall g ensures g in CanonicalOrder {
      InCanonicalOrder(g);
    }
  }

  /** The included groups, kept in the order of `gs`. */
  function Select(rule: Rule, f: ContactFields, gs: seq<Group>): seq<Group>
    decreases |gs|
  {
    if gs == [] then []
    else (if Included(rule, f, gs[0]) then [gs[0]] else []) + Select(rule, f, gs[1..])
  }

  /** The keys of the included groups, in canonical order. */
  function FieldMask(rule: Rule, f: ContactFields): seq<string> {
    var gs := Select(rule, f, CanonicalOrder);
    seq(|gs|, i requires 0 <= i < |gs| => Key(gs[i]))
  }

  /** The `updatePersonFields` list after the first `n` groups are tested. */
  function MaskUpTo(rule: Rule, f: ContactFields, n: nat): seq<string>
    requires n <= GroupCount
    decreases n
  {
    if n == 0 then []
    else
      var g := GroupAt(n - 1);
      MaskUpTo(rule, f, n - 1) + (if Included(rule, f, g) then [Key(g)] else [])
  }

  lemma {:induction false} MaskUpToSelect(rule: Rule, f: ContactFields, n: nat)
    requires n <= GroupCount
    ensures var gs := Select(rule, f, CanonicalOrder[..n]);
      MaskUpTo(rule, f, n) == seq(|gs|, i requires 0 <= i < |gs| => Key(gs[i]))
    decreases n
  {
    if n > 0 {
      MaskUpToSelect(rule, f, n - 1);
      var g := GroupAt(n - 1);
      OrderAt(n - 1);
      assert CanonicalOrder[..n] == CanonicalOrder[..n - 1] + [g];
      SelectSnoc(rule, f, CanonicalOrder[..n - 1], g);
    }
  }

  lemma {:induction false} SelectSnoc(rule: Rule, f: ContactFields, gs: seq<Group>, g: Group)
    ensures Select(rule, f, gs + [g]) == Select(rule, f, gs) + (if Included(rule, f, g) then [g] else [])
    decreases |gs|
  {
    if gs == [] {
      assert [] + [g] == [g];
    } else {
      assert (gs + [g])[0] == gs[0] && (gs + [g])[1..] == gs[1..] + [g];
      SelectSnoc(rule, f, gs[1..], g);
    }
  }

  lemma MaskUpToAll(rule: Rule, f: ContactFields)
    ensures MaskUpTo(rule, f, GroupCount) == FieldMask(rule, f)
  {
    assert CanonicalOrder[..GroupCount] == CanonicalOrder;
    MaskUpToSelect(rule, f, GroupCount);
  }

  lemma InCanonicalOrder(g: Group)
    ensures g in CanonicalOrder
  {
    OrderAt(Rank(g));
    RankRoundTrip(g);
    assert CanonicalOrder[Rank(g)] == g;
  }

  /** One group's place in the body: present exactly when the rule
      includes it, and then with its own value; the etag is not a group. */
  lemma GroupInBody(rule: Rule, f: ContactFields, g: Group)
    ensures GroupField(g) in GroupBody(rule, f) <==> Included(rule, f, g)
    ensures Included(rule, f, g) ==> GroupBody(rule, f)[GroupField(g)] == GroupValue(f, g)
    ensures EtagField !in GroupBody(rule, f)
  {
    InCanonicalOrder(g);
  }

  /** Every property of the body is an included group. */
  lemma BodyHoldsGroups(rule: Rule, f: ContactFields, k: Field)
    requires k in GroupBody(rule, f)
    ensures k.GroupField? && Included(rule, f, k.group)
  {
  }

  /** On the wire, a group's name is a property exactly when the rule
      includes the group, and then it carries the group's value. */
  lemma GroupOnWire(rule: Rule, f: ContactFields, g: Group)
    ensures Key(g) in Wire(GroupBody(rule, f)) <==> Included(rule, f, g)
    ensures Included(rule, f, g) ==> Wire(GroupBody(rule, f))[Key(g)] == GroupValue(f, g)
  {
    var body := GroupBody(rule, f);
    GroupInBody(rule, f, g);
    assert FieldName(GroupField(g)) == Key(g);
    WireName(body, GroupField(g));
    if Included(rule, f, g) {
      WireHas(body, GroupField(g));
    }
  }

  /** The body holds exactly the included groups, each with its value. */
  lemma GroupBodyContents(rule: Rule, f: ContactFields)
    ensures forall g :: GroupField(g) in GroupBody(rule, f) <==> Included(rule, f, g)
    ensures forall g :: Included(rule, f, g) ==> GroupBody(rule, f)[GroupField(g)] == GroupValue(f, g)
    ensures forall k :: k in GroupBody(rule, f) ==> k.GroupField?
  {
    forall g ensures (GroupField(g) in GroupBody(rule, f) <==> Included(rule, f, g))
      && (Included(rule, f, g) ==> GroupBody(rule, f)[GroupField(g)] == GroupValue(f, g))
    {
      GroupInBody(rule, f, g);
    }
  }

  predicate StrictlyRanked(gs: seq<Group>) {
    forall i, j :: 0 <= i < j < |gs| ==> Rank(gs[i]) < Rank(gs[j])
  }

  /** The tail of a strictly ranked list is strictly ranked and ranks
      above its head. */
  lemma RankedTail(gs: seq<Group>)
    requires gs != [] && StrictlyRanked(gs)
    ensures StrictlyRanked(gs[1..])
    ensures forall g :: g in gs[1..] ==> Rank(gs[0]) < Rank(g)
  {
    forall i, j | 0 <= i < j < |gs[1..]| ensures Rank(gs[1..][i]) < Rank(gs[1..][j]) {
      assert gs[1..][i] == gs[i + 1] && gs[1..][j] == gs[j + 1];
    }
    forall g | g in gs[1..] ensures Rank(gs[0]) < Rank(g) {
      var k :| 0 <= k < |gs[1..]| && gs[1..][k] == g;
      assert gs[k + 1] == g;
    }
  }

  /** Selecting keeps exactly the included groups of `gs`. */
  lemma {:induction false} SelectMembers(rule: Rule, f: ContactFields, gs: seq<Group>)
    ensures forall g :: g in Select(rule, f, gs) <==> g in gs && Included(rule, f, g)
    decreases |gs|
  {
    if gs != [] {
      SelectMembers(rule, f, gs[1..]);
      assert gs == [gs[0]] + gs[1..];
    }
  }

  /** Selecting from a strictly ranked list keeps it strictly ranked. */
  lemma {:induction false} SelectRanked(rule: Rule, f: ContactFields, gs: seq<Group>)
    requires StrictlyRanked(gs)
    ensures StrictlyRanked(Select(rule, f, gs))
    decreases |gs|
  {
    if gs != [] {
      var rest := Select(rule, f, gs[1..]);
      RankedTail(gs);
      SelectRanked(rule, f, gs[1..]);
      SelectMembers(rule, f, gs[1..]);
      if Included(rule, f, gs[0]) {
        var s := [gs[0]] + rest;
        forall i, j | 0 <= i < j < |s| ensures Rank(s[i]) < Rank(s[j]) {
          assert s[j] == rest[j - 1];
          assert rest[j - 1] in rest;
          if i > 0 {
            assert s[i] == rest[i - 1];
          }
        }
      }
    }
  }

  /** Entry `i` of the mask is the key of the `i`-th selected group. */
  lemma MaskEntries(rule: Rule, f: ContactFields)
    ensures var gs := Select(rule, f, CanonicalOrder);
      |FieldMask(rule, f)| == |gs| && forall i :: 0 <= i < |gs| ==> FieldMask(rule, f)[i] == Key(gs[i])
  {
  }

  /** Every mask entry is the key of a group the rule includes. */
  lemma MaskKeyHasGroup(rule: Rule, f: ContactFields, k: string)
    requires k in FieldMask(rule, f)
    ensures exists g :: k == Key(g) && Included(rule, f, g)
  {
    MaskEntries(rule, f);
    SelectMembers(rule, f, CanonicalOrder);
    MaskEntryHasGroup(FieldMask(rule, f), Select(rule, f, CanonicalOrder), k);
  }

  /** A group's key is in the mask exactly when the rule includes it. */
  lemma GroupKeyInFieldMask(rule: Rule, f: ContactFields, g: Group)
    ensures Key(g) in FieldMask(rule, f) <==> Included(rule, f, g)
  {
    var gs := Select(rule, f, CanonicalOrder);
    MaskEntries(rule, f);
    SelectMembers(rule, f, CanonicalOrder);
    InCanonicalOrder(g);
    if Included(rule, f, g) {
      GroupKeyInMask(FieldMask(rule, f), gs, g);
    } else if Key(g) in FieldMask(rule, f) {
      MaskEntryHasGroup(FieldMask(rule, f), gs, Key(g));
      var h :| h in gs && Key(g) == Key(h);
      KeyFacts(g, h);
    }
  }

  lemma MaskEntryHasGroup(mask: seq<string>, gs: seq<Group>, k: string)
    requires |mask| == |gs| && forall i :: 0 <= i < |gs| ==> mask[i] == Key(gs[i])
    requires k in mask
    ensures exists g :: g in gs && k == Key(g)
  {
    var i :| 0 <= i < |mask| && mask[i] == k;
    assert gs[i] in gs;
  }

  lemma GroupKeyInMask(mask: seq<string>, gs: seq<Group>, g: Group)
    requires |mask| == |gs| && forall i :: 0 <= i < |gs| ==> mask[i] == Key(gs[i])
    requires g in gs
    ensures Key(g) in mask
  {
    var i :| 0 <= i < |gs| && gs[i] == g;
    assert mask[i] == Key(g);
  }

  /** Keys of a strictly ranked list of groups are distinct, and ordered
      by the ranks of their groups. */
  lemma RankedKeys(mask: seq<string>, gs: seq<Group>)
    requires |mask| == |gs| && forall i :: 0 <= i < |gs| ==> mask[i] == Key(gs[i])
    requires StrictlyRanked(gs)
    ensures forall i, j :: 0 <= i < j < |mask| ==> mask[i] != mask[j]
    ensures forall i, j, g, h :: 0 <= i < j < |mask| && mask[i] == Key(g) && mask[j] == Key(h) ==> Rank(g) < Rank(h)
  {
    forall i, j, g, h | 0 <= i < j < |mask| && mask[i] == Key(g) && mask[j] == Key(h) ensures Rank(g) < Rank(h) {
      KeyFacts(gs[i], g);
      KeyFacts(gs[j], h);
    }
    forall i, j | 0 <= i < j < |mask| ensures mask[i] != mask[j] {
      KeyFacts(gs[i], gs[j]);
    }
  }

  /** The field mask names exactly the groups of the body. */
  lemma FieldMaskMatchesBody(rule: Rule, f: ContactFields)
    ensures forall g :: Key(g) in FieldMask(rule, f) <==> GroupField(g) in GroupBody(rule, f)
    ensures forall s :: s in FieldMask(rule, f) ==> exists g :: s == Key(g)
  {
    forall g ensures Key(g) in FieldMask(rule, f) <==> GroupField(g) in GroupBody(rule, f) {
      GroupKeyInFieldMask(rule, f, g);
      GroupInBody(rule, f, g);
    }
    forall s | s in FieldMask(rule, f) ensures exists g :: s == Key(g) {
      MaskKeyHasGroup(rule, f, s);
    }
  }

  /** On the wire, the mask names exactly the properties of the sent groups. */
  lemma FieldMaskMatchesWire(rule: Rule, f: ContactFields)
    ensures forall s :: s in FieldMask(rule, f) <==> s in Wire(GroupBody(rule, f))
  {
    var body := GroupBody(rule, f);
    forall s | s in Wire(body) ensures s in FieldMask(rule, f) {
      WireOnly(body, s);
      var k :| k in body && s == FieldName(k);
      BodyHoldsGroups(rule, f, k);
      GroupKeyInFieldMask(rule, f, k.group);
    }
    forall s | s in FieldMask(rule, f) ensures s in Wire(body) {
      MaskKeyHasGroup(rule, f, s);
      var g :| s == Key(g) && Included(rule, f, g);
      GroupInBody(rule, f, g);
      assert FieldName(GroupField(g)) == s;
      WireHas(body, GroupField(g));
    }
  }

  /** The field mask names each key once, in the canonical order of the
      groups. */
  lemma FieldMaskOrdered(rule: Rule, f: ContactFields)
    ensures var mask := FieldMask(rule, f);
      forall i, j :: 0 <= i < j < |mask| ==> mask[i] != mask[j]
    ensures var mask := FieldMask(rule, f);
      forall i, j, g, h :: 0 <= i < j < |mask| && mask[i] == Key(g) && mask[j] == Key(h) ==> Rank(g) < Rank(h)
  {
    MaskEntries(rule, f);
    SelectRanked(rule, f, CanonicalOrder);
    RankedKeys(FieldMask(rule, f), Select(rule, f, CanonicalOrder));
  }

  /** Every mask entry is a non-empty name without a comma. */
  lemma FieldMaskShape(rule: Rule, f: ContactFields)
    ensures var mask := FieldMask(rule, f);
      forall i :: 0 <= i < |mask| ==> mask[i] != "" && ',' !in mask[i]
  {
    var gs := Select(rule, f, CanonicalOrder);
    MaskEntries(rule, f);
    forall i | 0 <= i < |gs| ensures Key(gs[i]) != "" && ',' !in Key(gs[i]) {
      KeyShape(gs[i]);
    }
  }
}
