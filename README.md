# Contact store

A model of the contact manager canister in `src/index.ts`: an ordered map from contact id to
`Contact` record (`contactStorage`) and the operations the service exposes on it — validated
creation, lookup by id, case-insensitive lookup by name, case-insensitive filtering by
category, enumeration of all records, full replacement of a record's text fields, and deletion
guarded by an owner comparison.

Modules:

- `Text` (`text.dfy`): the lower-casing behind the case-insensitive comparisons.
- `KeyOrder` (`key_order.dfy`): the order in which the store enumerates its keys, a strict
  total order on identifiers, and the sorted key sequence that `insert` and `remove` maintain.
- `Contacts` (`contacts.dfy`): the `Contact` and `ContactPayload` records, the error kinds,
  `Result`, the payload check and the records that create and update build.
- `Queries` (`queries.dfy`): `find` by name and `filter` by category over the enumerated values.
- `ContactStorage` (`contact_storage.dfy`): the class `ContactStore`, whose fields are the map
  and its key sequence. Create, update and delete are methods that change those fields. The
  four queries are functions that read them.
- `Scenarios` (`scenarios.dfy`): clients that use only the contracts. They cover one contact's
  life, and what the owner comparison of `deleteContact` lets through.

Values that come from outside the service are parameters of the operations:

- the generated uuid: `freshId`, required to be non-empty and not yet stored;
- `ic.time()`: `now`, required to be no earlier than any instant seen before;
- `ic.caller()`: `caller`;
- the right-hand side of the owner comparison in `deleteContact`: `callerToken`;
- a storage exception on `insert`/`remove`: `insertFails`/`removeFails`.

Two behaviours of the code are kept as written:

- `updateContact` makes no owner check (`src/index.ts:143-168`): any caller may replace any
  record. `UpdateContact` takes no caller.
- `deleteContact` refuses when the owner *equals* `ic.caller.toString()` (`src/index.ts:182-184`).
  That value is the text of the `caller` function, not the caller's identity. `DeleteContact`
  keeps this comparison against an opaque `callerToken`. The owner-only deletion that
  the comment at `src/index.ts:181` intends is `DeleteOwnedContact`; see Findings.

## Model

| member | source | states |
|---|---|---|
| Text.Lower | src/index.ts:96 | lower-casing keeps the length, turns each ASCII capital into its own small letter, leaves no capital letter and keeps every other character |
| Text.LowerFixesLowerCase | src/index.ts:111 | text without capitals is unchanged by lower-casing |
| Text.LowerIdempotent | src/index.ts:96 | lowering an already lowered text changes nothing |
| Text.SameIgnoringCaseIsEquivalence | src/index.ts:96 | the case-insensitive comparison is reflexive, symmetric and transitive and relates a text to its lower-case form |
| Text.WorkMatchesLowerCaseWork | src/index.ts:111 | "Work" and "work" compare equal ignoring case |
| KeyOrder.BelowIrreflexive | src/index.ts:40 | no key comes before itself in the store's key order |
| KeyOrder.BelowTransitive | src/index.ts:40 | the key order is transitive |
| KeyOrder.BelowTotal | src/index.ts:40 | any two distinct keys are ordered one way or the other |
| KeyOrder.BelowAsymmetric | src/index.ts:40 | two keys are never each before the other |
| KeyOrder.SortedPositions | src/index.ts:40 | in the sorted key sequence, one key comes before another exactly when it stands earlier, and positions are distinct keys |
| KeyOrder.InsertKey | src/index.ts:65 | inserting a new key keeps the key sequence sorted and adds exactly that key |
| KeyOrder.RemoveKey | src/index.ts:187 | removing a key keeps the sequence sorted and drops exactly that key (nothing when absent) |
| Queries.FindByName | src/index.ts:96-102 | the record found is one of the values and matches the name ignoring case; not found only when no value matches |
| Queries.FindByNameTakesLeastKey | src/index.ts:93-96 | over a key-ordered enumeration, no matching record has a smaller key than the one found |
| Queries.SelectByCategory | src/index.ts:111 | the filter keeps exactly the values whose category matches ignoring case |
| Queries.SelectKeepsAscending | src/index.ts:108-111 | the filter keeps the key order of the enumeration |
| Queries.FilterByCategory | src/index.ts:108-117 | success carries a non-empty list of exactly the matching values; no match gives NotFound, never an empty success |
| Queries.AscendingListingUnique | src/index.ts:108-124 | two key-ordered listings of the same records are equal, so a query's result is fixed by the stored records |
| Queries.CategoryQueryIgnoresCase | src/index.ts:111 | a record filed under "Work" is in the result of the query for "work" |
| ContactStorage.EnumerationIsListing | src/index.ts:124 | `values()` lists every stored record once, in ascending key order, and nothing else |
| ContactStorage.EnumerationDeterminedByRecords | src/index.ts:40 | the enumeration depends only on the stored records, not on the order they were inserted in |
| ContactStorage.ContactStore.constructor | src/index.ts:40 | the store starts empty |
| ContactStorage.ContactStore.GetContact | src/index.ts:75-88 | an empty id is InvalidId; otherwise the record stored under the id, or NotFound when there is none; the record returned carries that id |
| ContactStorage.ContactStore.GetContactByName | src/index.ts:92-103 | success is a stored record matching the name ignoring case with the least key among the matches; NotFound exactly when no stored record matches |
| ContactStorage.ContactStore.GetContactsByCategory | src/index.ts:107-118 | success is a non-empty key-ordered list of exactly the stored records whose category matches ignoring case; NotFound when none match |
| ContactStorage.ContactStore.GetAllContacts | src/index.ts:122-128 | always succeeds with every stored record exactly once, in key order |
| ContactStorage.ContactStore.CreateContact | src/index.ts:44-71 | an empty payload field gives MissingFields and a failed insert StorageFailure, with the store unchanged; otherwise exactly one new key, the fresh id, holding the payload's fields, `owner = caller`, `createdAt = now`, no `updatedAt`; that record is returned and read back by `getContact` |
| ContactStorage.ContactStore.UpdateContact | src/index.ts:132-169 | InvalidId, MissingFields, NotFound (in that order) or StorageFailure leave the store unchanged; success keeps id, owner and createdAt, replaces all five text fields, sets `updatedAt = now` with `createdAt <= now`, writes only that key and keeps the key set; the caller is never consulted |
| ContactStorage.ContactStore.DeleteContact | src/index.ts:173-195 | InvalidId, NotFound, NotPermitted when the owner equals the comparison token, or StorageFailure leave the store unchanged; otherwise exactly that key is removed, the prior record is returned and a later `getContact` is NotFound |
| ContactStorage.ContactStore.DeleteOwnedContact | src/index.ts:173-195 | as DeleteContact, but a caller who is not the owner is refused, and success implies the caller is the owner |
| Scenarios.NonOwnerDeletes | src/index.ts:182-188 | a record owned by "alice" is deleted when the comparison token is "bob" |
| Scenarios.OwnerTokenRefused | src/index.ts:182-184 | the comparison refuses the deletion when the token equals the owner |
| Scenarios.OwnerOnlyDeletion | src/index.ts:182-188 | with owner-only deletion, "bob" is refused and "alice" then deletes her record |

## Left out

- The uuid generator and the `globalThis.crypto` shim with its `Math.random` loop (`src/index.ts:52`, `src/index.ts:198-209`) are left out. The id is the parameter `freshId`. It is required to be non-empty and not currently stored. The model does not exclude the reuse of a deleted id.
- `ic.time()` and `ic.caller()` are platform calls and are not modelled; their values are the parameters `now` and `caller`. The clock is taken to be monotonic (`requires clock <= now`). A principal is represented by its text form.
- The persistence of `StableBTreeMap` and its sizing arguments are not modelled; the store is an in-memory map. Its key order is modelled as lexicographic order on characters, not as the library's order on serialised keys.
- Storage exceptions on writes are the boolean parameters `insertFails` and `removeFails`; the store is then unchanged. The `catch` branches of `getContact` and `getAllContacts` are not modelled: reads do not fail in the model, so `GetAllContacts` always succeeds.
- Error messages are the kinds of `Contacts.Error`, not their text.
- `Text.Lower` lowers the ASCII letters only; JavaScript's full Unicode `toLowerCase` is not modelled.
- The `$query`/`$update` decorators and the Candid types are framework glue and not modelled.
- Timestamps are bounded to `nat64`; no arithmetic is done on them, so there is no wrap-around to model.

## Findings

| source | as written | input that shows it | evidently intended | confidence | as-written member | corrected member |
|---|---|---|---|---|---|---|
| src/index.ts:182-184 | deletion is refused when the owner's text equals `ic.caller.toString()`, the text of the `caller` function, and allowed otherwise, so no caller identity is compared | a record owned by "alice" and any comparison value other than "alice", such as a call made by "bob": the record is removed | only the record's owner may delete it: refuse when the owner differs from `ic.caller()` | not executed; high | ContactStorage.ContactStore.DeleteContact, Scenarios.NonOwnerDeletes | ContactStorage.ContactStore.DeleteOwnedContact, Scenarios.OwnerOnlyDeletion |
