/** `contact_create`: a POST whose body holds only the field groups with a
    truthy argument. An empty string or an empty list is dropped. */
module ContactCreate {
  import opened Wrappers
  import opened JsonValues
  import opened Http
  import opened Person

  const CreatePath := "/people:createContact"

  /** The person record create sends: the groups the truthiness rule includes. */
  function CreateBody(f: ContactFields): map<Field, Json> {
    GroupBody(Truthiness, f)
  }

  /** The request create sends, the record serialised as a JSON object. */
  function CreateRequest(f: ContactFields): Request {
    Request(POST, CreatePath, [], Some(Wire(CreateBody(f))))
  }

  /** The handler's first phase: fills an empty `person` record under
      five independent truthiness tests. */
  method BuildCreatePerson(f: ContactFields) returns (person: map<Field, Json>)
    ensures person == CreateBody(f)
  {
    person := map[];

    assert person == Fill(Truthiness, f, map[], 0);
    if Truthy(f.givenName) || Truthy(f.familyName) {
      person := person[GroupField(Names) := JArray([NameEntry(f.givenName, f.familyName)])];
    }

    assert person == Fill(Truthiness, f, map[], 1);
    if HasItems(f.emailAddresses) {
      person := person[GroupField(EmailAddresses) := JArray(ListJson(f.emailAddresses.value, EmailJson))];
    }

    assert person == Fill(Truthiness, f, map[], 2);
    if HasItems(f.phoneNumbers) {
      person := person[GroupField(PhoneNumbers) := JArray(ListJson(f.phoneNumbers.value, PhoneJson))];
    }

    assert person == Fill(Truthiness, f, map[], 3);
    if Truthy(f.organization) || Truthy(f.jobTitle) {
      person := person[GroupField(Organizations) := JArray([OrganizationEntry(f.organization, f.jobTitle)])];
    }

    assert person == Fill(Truthiness, f, map[], 4);
    if Truthy(f.notes) {
      person := person[GroupField(Biographies) := JArray([BiographyEntry(f.notes.value)])];
    }

    assert person == Fill(Truthiness, f, map[], 5);
    FillAll(Truthiness, f);
  }

  /** The handler: builds the person record and posts it. */
  method BuildCreateRequest(f: ContactFields) returns (req: Request)
    ensures req == CreateRequest(f)
    ensures req.verb == POST && req.path == "/people:createContact" && req.query == [] && req.body.Some?
  {
    var person := BuildCreatePerson(f);
    req := Request(POST, CreatePath, [], Some(Wire(person)));
  }

  /** No optional field set means an empty body; more precisely, the body
      is empty exactly when no argument is a non-empty string or list. */
  lemma CreateBodyEmptyIff(f: ContactFields)
    ensures Wire(CreateBody(f)) == map[] <==> forall g :: !Filled(f, g)
    ensures f == ContactFields(None, None, None, None, None, None, None) ==> Wire(CreateBody(f)) == map[]
  {
    WireEmpty(CreateBody(f));
    CreateRecordEmptyIff(f);
  }

  /** The same at the level of the person record. */
  lemma CreateRecordEmptyIff(f: ContactFields)
    ensures CreateBody(f) == map[] <==> forall g :: !Filled(f, g)
  {
    if CreateBody(f) != map[] {
      var k :| k in CreateBody(f);
      BodyHoldsGroups(Truthiness, f, k);
    }
    if exists g :: Filled(f, g) {
      var g :| Filled(f, g);
      GroupInBody(Truthiness, f, g);
    }
  }

  /** `names` on the wire: present exactly under its truthiness test,
      carrying the name group, built from `givenName` and `familyName`. */
  lemma CreateSendsNames(f: ContactFields)
    ensures var body := Wire(CreateBody(f));
      && ("names" in body <==> Truthy(f.givenName) || Truthy(f.familyName))
      && ("names" in body ==> body["names"] == JArray([NameEntry(f.givenName, f.familyName)]))
  {
    GroupOnWire(Truthiness, f, Names);
  }

  /** `emailAddresses` on the wire: present exactly under its truthiness
      test, carrying the caller's email list. */
  lemma CreateSendsEmails(f: ContactFields)
    ensures var body := Wire(CreateBody(f));
      && ("emailAddresses" in body <==> f.emailAddresses.Some? && |f.emailAddresses.value| > 0)
      && ("emailAddresses" in body ==> body["emailAddresses"] == JArray(ListJson(f.emailAddresses.value, EmailJson)))
  {
    GroupOnWire(Truthiness, f, EmailAddresses);
  }

  /** `phoneNumbers` on the wire: present exactly under its truthiness test,
      carrying the caller's phone list. */
  lemma CreateSendsPhones(f: ContactFields)
    ensures var body := Wire(CreateBody(f));
      && ("phoneNumbers" in body <==> f.phoneNumbers.Some? && |f.phoneNumbers.value| > 0)
      && ("phoneNumbers" in body ==> body["phoneNumbers"] == JArray(ListJson(f.phoneNumbers.value, PhoneJson)))
  {
    GroupOnWire(Truthiness, f, PhoneNumbers);
  }

  /** `organizations` on the wire: present exactly under its truthiness
      test, carrying the organization group, built from `organization` and
      `jobTitle`. */
  lemma CreateSendsOrganization(f: ContactFields)
    ensures var body := Wire(CreateBody(f));
      && ("organizations" in body <==> Truthy(f.organization) || Truthy(f.jobTitle))
      && ("organizations" in body ==> body["organizations"] == JArray([OrganizationEntry(f.organization, f.jobTitle)]))
  {
    GroupOnWire(Truthiness, f, Organizations);
  }

  /** `biographies` on the wire: present exactly under its truthiness test,
      carrying the notes as one plain-text biography. */
  lemma CreateSendsNotes(f: ContactFields)
    ensures var body := Wire(CreateBody(f));
      && ("biographies" in body <==> f.notes.Some? && f.notes.value != "")
      && ("biographies" in body ==> body["biographies"] == JArray([JObject(map["value" := JString(f.notes.value), "contentType" := JString("TEXT_PLAIN")])]))
  {
    GroupOnWire(Truthiness, f, Biographies);
  }

  /** Nothing but the groups that pass their test is sent. */
  lemma CreateSendsNothingElse(f: ContactFields, s: string)
    requires s in Wire(CreateBody(f))
    ensures exists g :: s == Key(g) && Filled(f, g)
  {
    WireOnly(CreateBody(f), s);
    var k :| k in CreateBody(f) && s == FieldName(k);
    BodyHoldsGroups(Truthiness, f, k);
  }

  /** No property of the create body is an empty list: every value is a
      non-empty JSON array. */
  lemma CreateNoEmptyList(f: ContactFields)
    ensures var body := Wire(CreateBody(f));
      forall s :: s in body ==> body[s].JArray? && |body[s].items| > 0
  {
    var body := Wire(CreateBody(f));
    forall s | s in body ensures body[s].JArray? && |body[s].items| > 0 {
      WireOnly(CreateBody(f), s);
      var k :| k in CreateBody(f) && s == FieldName(k);
      BodyHoldsGroups(Truthiness, f, k);
      GroupInBody(Truthiness, f, k.group);
      WireHas(CreateBody(f), k);
      FilledValueNonEmpty(f, k.group);
    }
  }

  /** A group that passes the truthiness test is sent as a non-empty array. */
  lemma FilledValueNonEmpty(f: ContactFields, g: Group)
    requires Filled(f, g)
    ensures GroupValue(f, g).JArray? && |GroupValue(f, g).items| > 0
  {
  }

  /** The email and phone lists in the create body read back as the
      caller's lists, unchanged. */
  lemma CreateListsUnchanged(f: ContactFields)
    ensures var body := Wire(CreateBody(f));
      "emailAddresses" in body ==> body["emailAddresses"].JArray? && ListOf(body["emailAddresses"].items, EmailOf) == f.emailAddresses
    ensures var body := Wire(CreateBody(f));
      "phoneNumbers" in body ==> body["phoneNumbers"].JArray? && ListOf(body["phoneNumbers"].items, PhoneOf) == f.phoneNumbers
  {
    CreateSendsEmails(f);
    CreateSendsPhones(f);
    if f.emailAddresses.Some? {
      EmailListRoundTrip(f.emailAddresses.value);
    }
    if f.phoneNumbers.Some? {
      PhoneListRoundTrip(f.phoneNumbers.value);
    }
  }
}
