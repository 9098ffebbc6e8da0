/** `contact_update`: a PATCH carrying the etag and every field group the
    caller passed at all, and an `updatePersonFields` mask naming exactly
    those groups. Passing `""` or `[]` includes a group, which clears it
    remotely. */
module ContactUpdate {
  import opened Wrappers
  import opened JsonValues
  import opened Text
  import opened Http
  import opened Schema
  import opened Person

  /** The arguments as the caller passes them; `resourceName` and `etag` are required. */
  datatype UpdateArgs = UpdateArgs(resourceName: Option<string>, etag: Option<string>, fields: ContactFields)

  /** The arguments once validated. */
  datatype UpdateInput = UpdateInput(resourceName: string, etag: string, fields: ContactFields)

  /** Schema check: either required string missing fails the call, checked
      in the schema's order, before any request is built. */
  function ValidateUpdateArgs(a: UpdateArgs): (r: Result<UpdateInput, ValidationError>)
    ensures r.Success? <==> a.resourceName.Some? && a.etag.Some?
    ensures r.Success? ==> r.value == UpdateInput(a.resourceName.value, a.etag.value, a.fields)
    ensures a.resourceName.None? ==> r == Failure(MissingField("resourceName"))
    ensures a.resourceName.Some? && a.etag.None? ==> r == Failure(MissingField("etag"))
  {
    match Required("resourceName", a.resourceName)
    case Failure(e) => Failure(e)
    case Success(name) =>
      match Required("etag", a.etag)
      case Failure(e) => Failure(e)
      case Success(etag) => Success(UpdateInput(name, etag, a.fields))
  }

  /** The person body update sends: the etag and the groups the presence
      rule includes. */
  function UpdateBody(u: UpdateInput): map<Field, Json> {
    GroupBody(Presence, u.fields)[EtagField := JString(u.etag)]
  }

  /** The `updatePersonFields` list: the supplied groups in canonical order. */
  function UpdateMask(u: UpdateInput): seq<string> {
    FieldMask(Presence, u.fields)
  }

  /** The request update sends. */
  function UpdateRequest(u: UpdateInput): Request {
    Request(PATCH, ActionPath(u.resourceName, "updateContact"), [("updatePersonFields", Join(UpdateMask(u), ','))], Some(Wire(UpdateBody(u))))
  }

  /** The handler's five conditionals as they build `person`: it starts
      from the etag and gains each supplied group under a presence test. */
  method BuildUpdatePerson(u: UpdateInput) returns (person: map<Field, Json>)
    ensures person == UpdateBody(u)
  {
    var f := u.fields;
    person := map[EtagField := JString(u.etag)];
    assert person == Fill(Presence, f, map[EtagField := JString(u.etag)], 0);

    if f.givenName.Some? || f.familyName.Some? {
      person := person[GroupField(Names) := JArray([NameEntry(f.givenName, f.familyName)])];
    }
    assert person == Fill(Presence, f, map[EtagField := JString(u.etag)], 1);

    if f.emailAddresses.Some? {
      person := person[GroupField(EmailAddresses) := JArray(ListJson(f.emailAddresses.value, EmailJson))];
    }
    assert person == Fill(Presence, f, map[EtagField := JString(u.etag)], 2);

    if f.phoneNumbers.Some? {
      person := person[GroupField(PhoneNumbers) := JArray(ListJson(f.phoneNumbers.value, PhoneJson))];
    }
    assert person == Fill(Presence, f, map[EtagField := JString(u.etag)], 3);

    if f.organization.Some? || f.jobTitle.Some? {
      person := person[GroupField(Organizations) := JArray([OrganizationEntry(f.organization, f.jobTitle)])];
    }
    assert person == Fill(Presence, f, map[EtagField := JString(u.etag)], 4);

    if f.notes.Some? {
      person := person[GroupField(Biographies) := JArray([BiographyEntry(f.notes.value)])];
    }
    assert person == Fill(Presence, f, map[EtagField := JString(u.etag)], 5);
    FillFromEtag(Presence, f, JString(u.etag), GroupCount);
    FillAll(Presence, f);
  }

  /** The same five conditionals as they push each supplied group's name
      onto `updatePersonFields`. The handler does both in one pass; the
      five conditions only read the arguments, so two passes build the same pair. */
  method BuildUpdateFields(u: UpdateInput) returns (updatePersonFields: seq<string>)
    ensures updatePersonFields == UpdateMask(u)
  {
    var f := u.fields;
    updatePersonFields := [];
    assert updatePersonFields == MaskUpTo(Presence, f, 0);

    if f.givenName.Some? || f.familyName.Some? {
      updatePersonFields := updatePersonFields + ["names"];
    }
    assert updatePersonFields == MaskUpTo(Presence, f, 1);

    if f.emailAddresses.Some? {
      updatePersonFields := updatePersonFields + ["emailAddresses"];
    }
    assert updatePersonFields == MaskUpTo(Presence, f, 2);

    if f.phoneNumbers.Some? {
      updatePersonFields := updatePersonFields + ["phoneNumbers"];
    }
    assert updatePersonFields == MaskUpTo(Presence, f, 3);

    if f.organization.Some? || f.jobTitle.Some? {
      updatePersonFields := updatePersonFields + ["organizations"];
    }
    assert updatePersonFields == MaskUpTo(Presence, f, 4);

    if f.notes.Some? {
      updatePersonFields := updatePersonFields + ["biographies"];
    }
    assert updatePersonFields == MaskUpTo(Presence, f, 5);
    MaskUpToAll(Presence, f);
  }

  /** The handler: builds the person record and the field list, sets the
      one query parameter on a fresh parameter list, and sends a PATCH to
      the contact's path. */
  method BuildUpdateRequest(u: UpdateInput) returns (req: Request)
    ensures req == UpdateRequest(u)
  {
    var person := BuildUpdatePerson(u);
    var updatePersonFields := BuildUpdateFields(u);
    var params := new SearchParams();
    params.Set("updatePersonFields", Join(updatePersonFields, ','));
    req := Request(PATCH, ActionPath(u.resourceName, "updateContact"), params.entries, Some(Wire(person)));
  }

  /** The body always carries the caller's etag, whatever else is given. */
  lemma UpdateKeepsEtag(u: UpdateInput)
    ensures "etag" in Wire(UpdateBody(u)) && Wire(UpdateBody(u))["etag"] == JString(u.etag)
  {
    assert FieldName(EtagField) == "etag";
    WireHas(UpdateBody(u), EtagField);
  }

  /** One group of the update body on the wire: its name is a property
      exactly when the group is supplied, with the group's value. */
  lemma UpdateGroupOnWire(u: UpdateInput, g: Group)
    ensures Key(g) in Wire(UpdateBody(u)) <==> Supplied(u.fields, g)
    ensures Supplied(u.fields, g) ==> Wire(UpdateBody(u))[Key(g)] == GroupValue(u.fields, g)
  {
    var body := UpdateBody(u);
    GroupInBody(Presence, u.fields, g);
    assert FieldName(GroupField(g)) == Key(g);
    WireName(body, GroupField(g));
    if Supplied(u.fields, g) {
      WireHas(body, GroupField(g));
    }
  }

  /** Every property of the update body is the etag or a supplied group. */
  lemma UpdateWireNames(u: UpdateInput, s: string)
    requires s in Wire(UpdateBody(u))
    ensures s == "etag" || exists g :: s == Key(g) && Supplied(u.fields, g)
  {
    WireOnly(UpdateBody(u), s);
    var k :| k in UpdateBody(u) && s == FieldName(k);
    if k != EtagField {
      BodyHoldsGroups(Presence, u.fields, k);
    }
  }

  /** `names` on the wire: present exactly when one of its arguments was
      passed, carrying the name group, built from `givenName` and `familyName`. */
  lemma UpdateSendsNames(u: UpdateInput)
    ensures var f, body := u.fields, Wire(UpdateBody(u));
      && ("names" in body <==> f.givenName.Some? || f.familyName.Some?)
      && ("names" in body ==> body["names"] == JArray([NameEntry(f.givenName, f.familyName)]))
  {
    UpdateGroupOnWire(u, Names);
  }

  /** `emailAddresses` on the wire: present exactly when one of its
      arguments was passed, carrying the caller's email list. */
  lemma UpdateSendsEmails(u: UpdateInput)
    ensures var f, body := u.fields, Wire(UpdateBody(u));
      && ("emailAddresses" in body <==> f.emailAddresses.Some?)
      && ("emailAddresses" in body ==> body["emailAddresses"] == JArray(ListJson(f.emailAddresses.value, EmailJson)))
  {
    UpdateGroupOnWire(u, EmailAddresses);
  }

  /** `phoneNumbers` on the wire: present exactly when one of its arguments
      was passed, carrying the caller's phone list. */
  lemma UpdateSendsPhones(u: UpdateInput)
    ensures var f, body := u.fields, Wire(UpdateBody(u));
      && ("phoneNumbers" in body <==> f.phoneNumbers.Some?)
      && ("phoneNumbers" in body ==> body["phoneNumbers"] == JArray(ListJson(f.phoneNumbers.value, PhoneJson)))
  {
    UpdateGroupOnWire(u, PhoneNumbers);
  }

  /** `organizations` on the wire: present exactly when one of its arguments
      was passed, carrying the organization group, built from `organization` and
      `jobTitle`. */
  lemma UpdateSendsOrganization(u: UpdateInput)
    ensures var f, body := u.fields, Wire(UpdateBody(u));
      && ("organizations" in body <==> f.organization.Some? || f.jobTitle.Some?)
      && ("organizations" in body ==> body["organizations"] == JArray([OrganizationEntry(f.organization, f.jobTitle)]))
  {
    UpdateGroupOnWire(u, Organizations);
  }

  /** `biographies` on the wire: present exactly when one of its arguments
      was passed, carrying the notes as one plain-text biography. */
  lemma UpdateSendsNotes(u: UpdateInput)
    ensures var f, body := u.fields, Wire(UpdateBody(u));
      && ("biographies" in body <==> f.notes.Some?)
      && ("biographies" in body ==> body["biographies"] == JArray([JObject(map["value" := JString(f.notes.value), "contentType" := JString("TEXT_PLAIN")])]))
  {
    UpdateGroupOnWire(u, Biographies);
  }

  /** `updatePersonFields` lists exactly the body's properties other than
      `etag`, each once, in the canonical order names, emailAddresses,
      phoneNumbers, organizations, biographies. */
  lemma UpdateMaskMatchesBody(u: UpdateInput)
    ensures forall s :: s in UpdateMask(u) <==> s in Wire(UpdateBody(u)) && s != "etag"
    ensures var mask := UpdateMask(u);
      forall i, j :: 0 <= i < j < |mask| ==> mask[i] != mask[j]
    ensures var mask := UpdateMask(u);
      forall i, j, g, h :: 0 <= i < j < |mask| && mask[i] == Key(g) && mask[j] == Key(h) ==> Rank(g) < Rank(h)
  {
    forall s ensures s in UpdateMask(u) <==> s in Wire(UpdateBody(u)) && s != "etag" {
      if s in UpdateMask(u) {
        MaskKeyHasGroup(Presence, u.fields, s);
        var g :| s == Key(g) && Supplied(u.fields, g);
        KeyFacts(g, g);
        UpdateGroupOnWire(u, g);
      }
      if s in Wire(UpdateBody(u)) && s != "etag" {
        UpdateWireNames(u, s);
        var g :| s == Key(g) && Supplied(u.fields, g);
        GroupKeyInFieldMask(Presence, u.fields, g);
      }
    }
    FieldMaskOrdered(Presence, u.fields);
  }

  /** The one query parameter reads back, split at its commas, as the
      field list; with nothing supplied the body holds the etag alone and
      the parameter is the empty string. */
  lemma UpdateQueryReadsBack(u: UpdateInput)
    ensures var q := UpdateRequest(u).query;
      |q| == 1 && q[0].0 == "updatePersonFields" && SplitMask(q[0].1) == UpdateMask(u)
    ensures UpdateMask(u) == [] <==> UpdateBody(u).Keys == {EtagField}
    ensures UpdateMask(u) == [] ==> UpdateRequest(u).query == [("updatePersonFields", "")]
  {
    FieldMaskShape(Presence, u.fields);
    MaskRoundTrip(UpdateMask(u));
    if UpdateMask(u) != [] {
      assert UpdateMask(u)[0] in UpdateMask(u);
      MaskKeyHasGroup(Presence, u.fields, UpdateMask(u)[0]);
      var g :| UpdateMask(u)[0] == Key(g) && Supplied(u.fields, g);
      GroupInBody(Presence, u.fields, g);
      assert GroupField(g) in UpdateBody(u).Keys;
    }
    if UpdateBody(u).Keys != {EtagField} {
      var k :| k in UpdateBody(u) && k != EtagField;
      BodyHoldsGroups(Presence, u.fields, k);
      GroupKeyInFieldMask(Presence, u.fields, k.group);
    }
  }

  /** The request is a PATCH whose path names the contact being updated. */
  lemma UpdatePathNamesContact(u: UpdateInput)
    ensures UpdateRequest(u).verb == PATCH
    ensures ResourceOf(UpdateRequest(u).path, "updateContact") == Some(u.resourceName)
    ensures UpdateRequest(u).path == "/" + u.resourceName + ":updateContact"
  {
    ActionPathRoundTrip(u.resourceName, "updateContact");
    var prefix := "/" + u.resourceName;
    assert ":" + "updateContact" == ":updateContact";
    assert prefix + ":" + "updateContact" == prefix + (":" + "updateContact");
  }

  /** The email and phone lists in the update body read back as the
      caller's lists, unchanged, an empty list included. */
  lemma UpdateListsUnchanged(u: UpdateInput)
    ensures var body := Wire(UpdateBody(u));
      "emailAddresses" in body ==> body["emailAddresses"].JArray? && ListOf(body["emailAddresses"].items, EmailOf) == u.fields.emailAddresses
    ensures var body := Wire(UpdateBody(u));
      "phoneNumbers" in body ==> body["phoneNumbers"].JArray? && ListOf(body["phoneNumbers"].items, PhoneOf) == u.fields.phoneNumbers
  {
    UpdateSendsEmails(u);
    UpdateSendsPhones(u);
    if u.fields.emailAddresses.Some? {
      EmailListRoundTrip(u.fields.emailAddresses.value);
    }
    if u.fields.phoneNumbers.Some? {
      PhoneListRoundTrip(u.fields.phoneNumbers.value);
    }
  }
}
