/** The one rule that separates `contact_create` from `contact_update`:
    create tests truthiness, update tests presence. For the same
    arguments, create's body is update's body with the etag removed and
    with every group dropped whose arguments were only `""` or `[]`. */
module CreateVsUpdate {
  import opened Wrappers
  import opened JsonValues
  import opened Person
  import opened ContactCreate
  import opened ContactUpdate

  /** No argument was passed as an empty string or an empty list. */
  predicate NoEmptyValues(f: ContactFields) {
    && (f.givenName.Some? ==> f.givenName.value != "")
    && (f.familyName.Some? ==> f.familyName.value != "")
    && (f.emailAddresses.Some? ==> f.emailAddresses.value != [])
    && (f.phoneNumbers.Some? ==> f.phoneNumbers.value != [])
    && (f.organization.Some? ==> f.organization.value != "")
    && (f.jobTitle.Some? ==> f.jobTitle.value != "")
    && (f.notes.Some? ==> f.notes.value != "")
  }

  /** Everything create sends, update sends too, with the same value. */
  lemma CreateWithinUpdate(u: UpdateInput)
    ensures forall k :: k in CreateBody(u.fields) ==> k in UpdateBody(u) && UpdateBody(u)[k] == CreateBody(u.fields)[k]
  {
    forall k | k in CreateBody(u.fields) ensures k in UpdateBody(u) && UpdateBody(u)[k] == CreateBody(u.fields)[k] {
      BodyHoldsGroups(Truthiness, u.fields, k);
      GroupInBody(Truthiness, u.fields, k.group);
      GroupInBody(Presence, u.fields, k.group);
    }
  }

  /** A group is sent by update and not by create exactly when it was
      passed but only as empty strings or an empty list. */
  lemma OnlyUpdateSendsEmpty(u: UpdateInput, g: Group)
    ensures GroupField(g) in UpdateBody(u) && GroupField(g) !in CreateBody(u.fields) <==> Supplied(u.fields, g) && !Filled(u.fields, g)
  {
    GroupInBody(Truthiness, u.fields, g);
    GroupInBody(Presence, u.fields, g);
  }

  /** `notes: ""` puts `biographies` (the key of the notes group) into
      update's body and its field list, and leaves it out of create's
      body; omitting `notes` leaves it out of all three. */
  lemma EmptyNotes(u: UpdateInput)
    ensures u.fields.notes == Some("") ==>
      Key(Biographies) in Wire(UpdateBody(u)) && Key(Biographies) in UpdateMask(u) && Key(Biographies) !in Wire(CreateBody(u.fields))
    ensures u.fields.notes.None? ==>
      Key(Biographies) !in Wire(UpdateBody(u)) && Key(Biographies) !in UpdateMask(u) && Key(Biographies) !in Wire(CreateBody(u.fields))
  {
    UpdateGroupOnWire(u, Biographies);
    GroupOnWire(Truthiness, u.fields, Biographies);
    GroupKeyInFieldMask(Presence, u.fields, Biographies);
  }

  /** An empty email list clears the remote emails on update (an empty
      array under `emailAddresses`, the key of the email group, in the
      body and the field list), and is not sent at all on create. */
  lemma EmptyEmailList(u: UpdateInput)
    ensures u.fields.emailAddresses == Some([]) ==>
      Key(EmailAddresses) in Wire(UpdateBody(u)) && Wire(UpdateBody(u))[Key(EmailAddresses)] == JArray([])
      && Key(EmailAddresses) in UpdateMask(u) && Key(EmailAddresses) !in Wire(CreateBody(u.fields))
  {
    UpdateGroupOnWire(u, EmailAddresses);
    GroupOnWire(Truthiness, u.fields, EmailAddresses);
    GroupKeyInFieldMask(Presence, u.fields, EmailAddresses);
  }

  /** Without empty values the two tests pick the same groups, so the
      two rules build the same person fields. */
  lemma RulesAgree(f: ContactFields)
    requires NoEmptyValues(f)
    ensures GroupBody(Truthiness, f) == GroupBody(Presence, f)
  {
    var a, b := GroupBody(Truthiness, f), GroupBody(Presence, f);
    forall k | k in a ensures k in b && b[k] == a[k] {
      BodyHoldsGroups(Truthiness, f, k);
      GroupInBody(Presence, f, k.group);
    }
    forall k | k in b ensures k in a {
      BodyHoldsGroups(Presence, f, k);
      GroupInBody(Truthiness, f, k.group);
    }
  }

  /** Without empty values the two handlers agree: create's body is
      update's body without the etag. */
  lemma AgreeWithoutEmptyValues(u: UpdateInput)
    requires NoEmptyValues(u.fields)
    ensures CreateBody(u.fields) == UpdateBody(u) - {EtagField}
  {
    RulesAgree(u.fields);
    GroupInBody(Presence, u.fields, Names);
    RemoveAdded(GroupBody(Presence, u.fields), EtagField, JString(u.etag));
  }
}
