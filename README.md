# Google Contacts tools: request construction

This project models how the tool handlers of a Google Contacts MCP server
turn validated tool arguments into one outbound People API request. A
request has a method, a path, an ordered list of unencoded query
parameters and, for create and update, a JSON body. The five handlers
modelled are `contact_update`, `contact_create`, `contacts_list`,
`directory_search` and `contact_delete`.

The central fact is the rule that separates create from update:

- `contact_update` includes a field group when the caller passed one of
  its arguments at all, `""` and `[]` included. It always sends `etag`.
  Its `updatePersonFields` query parameter names exactly the groups it
  sent, in the order `names`, `emailAddresses`, `phoneNumbers`,
  `organizations`, `biographies`.
- `contact_create` includes a group only when one of its arguments is a
  non-empty string or a non-empty list.

Modules:

- `Wrappers`: `Option` and `Result`.
- `JsonValues`: `Json` values, with `undefined` as a value of its own, and
  JavaScript truthiness.
- `Text`: decimal rendering with its parser, comma join and split, and the
  `/{resource}:{action}` path.
- `Http`: `Request`, and `URLSearchParams` as the class `SearchParams` over
  an ordered parameter list. `set` replaces the first parameter of a name
  and removes later ones, or appends.
- `Schema`: required strings and bounded, defaulted page sizes.
- `Person`: the contact arguments and the JSON entries built from them. It
  also holds the five field groups and the body and field mask that either
  rule selects.
- `ContactCreate`, `ContactUpdate`, `ContactsList`, `DirectorySearch`,
  `ContactDelete`: one module per handler.
- `CreateVsUpdate`: lemmas contrasting the two rules.

Each imperative handler is a `method` that builds its record or parameter
list step by step, as the source does. It is proved equal to a
declarative function of its inputs, and the properties are lemmas about
that function.

The record `person` is keyed by a `Field` datatype (the etag or one of the
five groups). `Person.Wire` turns it into the JSON object sent, with each
field under its property name.

`contact_create` tests truthiness (`if (givenName || familyName)`,
`if (notes)`), so the model drops `""` as well as an omitted argument.
`contacts_list` and `directory_search` likewise drop an empty `pageToken`
(`if (pageToken)`).

## Model

| member | source | states |
|---|---|---|
| Schema.Required | src/tools/directory-search.ts:8 | A required string argument succeeds exactly when it is given, with that value; otherwise the error names the missing field |
| Schema.PageSize | src/tools/contacts-list.ts:9 | An omitted page size takes the default; a given one is accepted exactly when it lies in [1, max], else an out-of-range error carrying the value and bounds |
| JsonValues.OptionalString | src/tools/contact-update.ts:57 | A property built from an optional string is `undefined` exactly when the argument was omitted, and otherwise the string |
| Text.Decimal | src/tools/contacts-list.ts:61 | `String(pageSize)` is a non-empty digit string with a leading zero only for 0 |
| Text.DecimalRoundTrip | src/tools/contacts-list.ts:61 | The decimal page size parses back to the page size |
| Text.MaskRoundTrip | src/tools/contact-update.ts:82 | Joining non-empty, comma-free names with `,` and splitting the result at its commas gives the names back |
| Text.ActionPathRoundTrip | src/tools/contact-update.ts:84 | The resource name can be read back from `/{resourceName}:{action}` |
| Text.ActionPathInjective | src/tools/contact-delete.ts:27 | Different resource names give different paths |
| Http.Lookup | src/tools/contacts-list.ts:59-69 | Reading a parameter back finds one exactly when some parameter carries the name |
| Http.Without | src/tools/contacts-list.ts:59-69 | Removing a name leaves no parameter of that name, keeps every parameter of another name, and adds nothing new |
| Http.WithoutKeepsOthers | src/tools/contacts-list.ts:59-69 | Removing one name does not change what any other name reads back as |
| Http.SetParamKeepsOthers | src/tools/contacts-list.ts:59-69 | `set` of one name does not change what any other name reads back as |
| Http.SetParamAppends | src/tools/contacts-list.ts:59-69 | `set` of a name not yet present appends the pair at the end |
| Http.SetParamGet | src/tools/contact-update.ts:81-82 | After `set`, the name reads back as the value just set |
| Http.SetParamDistinct | src/tools/contacts-list.ts:59-69 | `set` keeps parameter names distinct and adds no pair except the one set |
| Http.WithoutDistinct | src/tools/contacts-list.ts:59-69 | Removing a name keeps parameter names distinct |
| Http.LookupAppend | src/tools/contacts-list.ts:59-69 | A name is read from the leading part of a query if it occurs there, otherwise from the rest |
| Http.SearchParams.constructor | src/tools/contacts-list.ts:59 | A fresh parameter list is empty |
| Http.SearchParams.Set | src/tools/contacts-list.ts:60 | `set` replaces the list by `SetParam` of the old list |
| Person.ParseEmailKind | src/tools/contact-update.ts:14 | The email `type` enum accepts exactly `home`, `work` and `other` |
| Person.ParsePhoneKind | src/tools/contact-update.ts:18 | The phone `type` enum accepts exactly `home`, `work`, `mobile` and `other` |
| Person.TypedEntryRoundTrip | src/tools/contact-update.ts:12-19 | A `{value, type?}` entry reads back as its value and optional type |
| Person.EmailRoundTrip | src/tools/contact-update.ts:12-15 | An email entry's JSON form reads back as the entry |
| Person.PhoneRoundTrip | src/tools/contact-update.ts:16-19 | A phone entry's JSON form reads back as the entry |
| Person.ListJson | src/tools/contact-update.ts:62 | The JSON array has one element per list entry |
| Person.ListRoundTrip | src/tools/contact-update.ts:61-69 | A list encoded element by element reads back whole whenever each element does |
| Person.EmailListRoundTrip | src/tools/contact-update.ts:62 | The email list a body carries reads back as the caller's list |
| Person.PhoneListRoundTrip | src/tools/contact-update.ts:67 | The phone list a body carries reads back as the caller's list |
| Person.KeyFacts | src/tools/contact-update.ts:53-79 | The five group keys are distinct and none is `etag`, so no group write overwrites another or the etag |
| Person.WireHas | src/tools/contact-update.ts:84 | Every property of the record is sent under its name with its value |
| Person.WireName | src/tools/contact-update.ts:84 | A property name is sent exactly when the record holds that property |
| Person.WireOnly | src/tools/contact-update.ts:84 | Nothing but the record's properties is sent |
| Person.WireEmpty | src/tools/contact-create.ts:74 | The object sent is empty exactly when the record is |
| Person.FilledIsSupplied | src/tools/contact-create.ts:54-72 | Every group create's truthiness test includes, update's presence test includes too |
| Person.FillKeys | src/tools/contact-create.ts:52-72 | After the first n conditionals, the record holds only groups among the first n that the rule includes |
| Person.FillGroups | src/tools/contact-create.ts:52-72 | After the first n conditionals, every included group among the first n is in the record with its value |
| Person.FillFromEtag | src/tools/contact-update.ts:53-79 | Starting from `{etag}` gives the groups' record plus the etag; no group write overwrites the etag |
| Person.FillAll | src/tools/contact-create.ts:52-72 | After all five conditionals, the record equals the declarative body of included groups |
| Person.MaskUpToSelect | src/tools/contact-update.ts:54-79 | After the first n conditionals, the pushed list is the keys of the included groups among the first n, in order |
| Person.SelectSnoc | src/tools/contact-update.ts:54-79 | Testing one more group appends its key exactly when it is included |
| Person.MaskUpToAll | src/tools/contact-update.ts:54-79 | After all five conditionals, the pushed list is the field mask of the included groups |
| Person.GroupInBody | src/tools/contact-create.ts:54-72 | A group is in the body exactly when the rule includes it, with its value; the etag is never a group |
| Person.BodyHoldsGroups | src/tools/contact-create.ts:52-72 | Every property of the body is a group the rule includes |
| Person.GroupOnWire | src/tools/contact-create.ts:54-72 | A group's key is a property sent exactly when the rule includes the group, with the group's value |
| Person.GroupBodyContents | src/tools/contact-update.ts:56-79 | The body holds exactly the included groups, each with its value, and nothing else |
| Person.SelectMembers | src/tools/contact-update.ts:54-79 | The selected groups are exactly the included groups of the list |
| Person.SelectRanked | src/tools/contact-update.ts:54-79 | Selection keeps the canonical order strictly increasing |
| Person.MaskKeyHasGroup | src/tools/contact-update.ts:54-79 | Every mask entry is the key of an included group |
| Person.GroupKeyInFieldMask | src/tools/contact-update.ts:54-79 | A group's key is in the mask exactly when the rule includes the group |
| Person.FieldMaskMatchesBody | src/tools/contact-update.ts:54-79 | The mask names exactly the groups of the body, and holds nothing but group keys |
| Person.FieldMaskMatchesWire | src/tools/contact-update.ts:54-79 | On the wire, the mask names exactly the properties of the sent groups |
| Person.FieldMaskOrdered | src/tools/contact-update.ts:54-79 | The mask names each key once, ordered by the canonical order of the groups |
| Person.FieldMaskShape | src/tools/contact-update.ts:82 | Every mask entry is non-empty and comma-free, so the joined parameter splits back |
| ContactCreate.BuildCreatePerson | src/tools/contact-create.ts:52-72 | The five truthiness conditionals fill an empty record with exactly the declarative create body |
| ContactCreate.BuildCreateRequest | src/tools/contact-create.ts:51-74 | The request is a POST to `/people:createContact` with no query, carrying the create body |
| ContactCreate.CreateBodyEmptyIff | src/tools/contact-create.ts:52-72 | The body sent is empty exactly when no group passes its test; with no optional argument it is empty |
| ContactCreate.CreateRecordEmptyIff | src/tools/contact-create.ts:52-72 | The person record is empty exactly when no group passes its test |
| ContactCreate.CreateSendsNames | src/tools/contact-create.ts:54-56 | `names` is sent exactly when `givenName` or `familyName` is a non-empty string, as the one entry `{givenName, familyName}` |
| ContactCreate.CreateSendsEmails | src/tools/contact-create.ts:58-60 | `emailAddresses` is sent exactly when the list is non-empty, as the caller's entries |
| ContactCreate.CreateSendsPhones | src/tools/contact-create.ts:62-64 | `phoneNumbers` is sent exactly when the list is non-empty, as the caller's entries |
| ContactCreate.CreateSendsOrganization | src/tools/contact-create.ts:66-68 | `organizations` is sent exactly when `organization` or `jobTitle` is non-empty, as `[{name, title}]` |
| ContactCreate.CreateSendsNotes | src/tools/contact-create.ts:70-72 | `biographies` is sent exactly when `notes` is non-empty, as `[{value: notes, contentType: "TEXT_PLAIN"}]` |
| ContactCreate.CreateSendsNothingElse | src/tools/contact-create.ts:52-72 | Every property sent is the key of a group that passed its truthiness test |
| ContactCreate.FilledValueNonEmpty | src/tools/contact-create.ts:54-72 | A group that passes its truthiness test is built as a non-empty array |
| ContactCreate.CreateNoEmptyList | src/tools/contact-create.ts:52-72 | No property of the create body is an empty list |
| ContactCreate.CreateListsUnchanged | src/tools/contact-create.ts:58-64 | The email and phone lists sent read back as the caller's lists |
| ContactUpdate.ValidateUpdateArgs | src/tools/contact-update.ts:8-9 | Validation succeeds exactly when `resourceName` and `etag` are given, and otherwise names the first one missing |
| ContactUpdate.BuildUpdatePerson | src/tools/contact-update.ts:53-79 | Starting from `{etag}`, the five presence conditionals build exactly the declarative update body |
| ContactUpdate.BuildUpdateFields | src/tools/contact-update.ts:54-79 | The five conditionals push exactly the field mask of the supplied groups |
| ContactUpdate.BuildUpdateRequest | src/tools/contact-update.ts:52-84 | The request is the PATCH to the contact's path with the one `updatePersonFields` parameter and the update body |
| ContactUpdate.UpdateKeepsEtag | src/tools/contact-update.ts:53 | The body always carries `etag` with the caller's etag |
| ContactUpdate.UpdateGroupOnWire | src/tools/contact-update.ts:56-79 | A group's key is sent exactly when the group was supplied, with the group's value |
| ContactUpdate.UpdateWireNames | src/tools/contact-update.ts:53-79 | Every property sent is `etag` or the key of a supplied group |
| ContactUpdate.UpdateSendsNames | src/tools/contact-update.ts:56-59 | `names` is sent exactly when `givenName` or `familyName` was passed, `""` included, as the one entry `{givenName, familyName}` |
| ContactUpdate.UpdateSendsEmails | src/tools/contact-update.ts:61-64 | `emailAddresses` is sent exactly when passed, `[]` included, as the caller's entries |
| ContactUpdate.UpdateSendsPhones | src/tools/contact-update.ts:66-69 | `phoneNumbers` is sent exactly when passed, `[]` included, as the caller's entries |
| ContactUpdate.UpdateSendsOrganization | src/tools/contact-update.ts:71-74 | `organizations` is sent exactly when `organization` or `jobTitle` was passed, as `[{name, title}]` |
| ContactUpdate.UpdateSendsNotes | src/tools/contact-update.ts:76-79 | `biographies` is sent exactly when `notes` was passed, `""` included, as one plain-text entry |
| ContactUpdate.UpdateMaskMatchesBody | src/tools/contact-update.ts:54-79 | `updatePersonFields` names exactly the body's properties other than `etag`, each once, in canonical order |
| ContactUpdate.UpdateQueryReadsBack | src/tools/contact-update.ts:81-82 | The query is the one parameter `updatePersonFields`, which splits back into the field list; it is `""` exactly when only the etag is sent |
| ContactUpdate.UpdatePathNamesContact | src/tools/contact-update.ts:84 | The request is a PATCH to `/{resourceName}:updateContact`, from which the resource name reads back |
| ContactUpdate.UpdateListsUnchanged | src/tools/contact-update.ts:61-69 | The email and phone lists sent read back as the caller's lists, an empty list included |
| CreateVsUpdate.CreateWithinUpdate | src/tools/contact-create.ts:54-72 | Everything create sends, update sends for the same arguments, with the same value |
| CreateVsUpdate.OnlyUpdateSendsEmpty | src/tools/contact-update.ts:56-79 | A group is sent by update and not by create exactly when it was passed only as `""` or `[]` |
| CreateVsUpdate.EmptyNotes | src/tools/contact-update.ts:76-79 | `notes: ""` puts `biographies` in update's body and field list but not in create's body; omitted notes are in none of the three |
| CreateVsUpdate.EmptyEmailList | src/tools/contact-update.ts:61-64 | `emailAddresses: []` is sent by update as an empty array and named in its field list, and is not sent by create |
| CreateVsUpdate.RulesAgree | src/tools/contact-create.ts:54-72 | Without empty strings or lists, the truthiness and presence rules build the same groups |
| CreateVsUpdate.AgreeWithoutEmptyValues | src/tools/contact-create.ts:52-72 | Without empty strings or lists, create's body is update's body without the etag |
| ContactsList.ParseSortOrder | src/tools/contacts-list.ts:11 | The `sortOrder` enum accepts exactly its four names |
| ContactsList.ValidateListArgs | src/tools/contacts-list.ts:9-11 | Validation succeeds exactly when the page size is omitted or in [1, 1000] and the sort order is omitted or listed; the page size defaults to 100 |
| ContactsList.BuildListRequest | src/tools/contacts-list.ts:58-71 | The `set` calls build exactly the declarative list query; the request is a GET on `/people/me/connections` with no body |
| ContactsList.ListQueryReadsBack | src/tools/contacts-list.ts:59-69 | The query leads with the fixed mask and the decimal page size, holds `pageToken` exactly when it is non-empty and `sortOrder` exactly when given, and no name twice |
| ContactsList.ListTokenBeforeSortOrder | src/tools/contacts-list.ts:63-69 | With both optional parameters, the page token is third and the sort order fourth |
| DirectorySearch.ValidateSearchArgs | src/tools/directory-search.ts:8-10 | Validation succeeds exactly when `query` is given and the page size is omitted or in [1, 500]; the page size defaults to 10 |
| DirectorySearch.BuildSearchRequest | src/tools/directory-search.ts:57-68 | The five `set` calls build exactly the declarative search query; the request is a GET on `/people:searchDirectoryPeople` with no body |
| DirectorySearch.SearchQueryReadsBack | src/tools/directory-search.ts:58-66 | The query starts with `query`, `readMask`, `sources` and the decimal page size, holds `pageToken` exactly when it is non-empty, and no name twice |
| ContactDelete.DeleteRequest | src/tools/contact-delete.ts:27 | The request is a DELETE to `/{resourceName}:deleteContact` with no query and no body, and the name reads back from the path |
| ContactDelete.DeleteOutcome | src/tools/contact-delete.ts:27-28 | A transport failure propagates unchanged; any success becomes `{success: true, message: "Contact {resourceName} deleted successfully"}` |
| ContactDelete.DeleteIgnoresResponse | src/tools/contact-delete.ts:28 | The result does not depend on the remote response body |
| ContactDelete.DeleteMessageNamesContact | src/tools/contact-delete.ts:28 | Different contacts get different confirmation messages |

## Left out

- `makePeopleApiCall`, the HTTP transport with its base URL, bearer token and status handling, is not part of this model. A request is the value handed to it, and a response is a parameter (`Result<Json, ApiError>` in `ContactDelete.DeleteOutcome`).
- `jsonResult` and `outputSchema.parse` (zod output parsing with `.passthrough()`) are library behaviour and are not modelled. Only `contact_delete`'s own result object is.
- `strictSchemaWithAliases` is not part of this model. Every call passes an empty alias table, so aliases and unknown-key rejection are not modelled.
- Input validation beyond required strings, page-size bounds and the enums is not modelled: zod's type checks on entries and on non-string values, and zod reporting every error rather than the first.
- `contact_get` is a fixed-literal GET like `contact_delete`'s path, and `index.ts` only registers tools. Neither is modelled.
- Percent-encoding by `URLSearchParams.toString()` and the concatenation of path and query into one URL are not modelled. The query is the ordered, unencoded parameter list.
- `pageSize` is an integer. `z.number()` would also admit fractions; a float's decimal rendering is not modelled.
- `Json` numbers are integers only, and `JUndefined` stands for a property present with the value `undefined`. What `JSON.stringify` does with such a property (it drops it) is not modelled.
- `async`/`await`, MCP registration, tool titles, descriptions and annotations are not modelled.
- ContactUpdate.BuildUpdateRequest: the handler builds `person` and `updatePersonFields` in one pass of five conditionals. The model runs the same conditionals twice, once in `BuildUpdatePerson` and once in `BuildUpdateFields`. The five conditions only read the arguments, so the pair is the same.
- Person.Wire: the record is keyed by the `Field` datatype rather than by property-name strings. `Wire` renames the keys to the JSON property names, and `Person.KeyFacts`, `Person.WireHas`, `Person.WireName` and `Person.WireOnly` state that nothing is lost.
- CreateVsUpdate.EmptyNotes, CreateVsUpdate.EmptyEmailList: these name the property as `Key(Biographies)` and `Key(EmailAddresses)`. `Person.Key` defines them as `"biographies"` and `"emailAddresses"`.
