/** Clients of the store that use only the operations' contracts: the life of one contact, and
    what the owner comparison of `deleteContact` lets through. */
module Scenarios {
  import opened Contacts
  import opened ContactStorage
  import Text

  /** Create, read, find, replace, delete and read again one contact. */
  method Lifecycle() {
    var store := new ContactStore();
    var ann := Payload("Ann", "555", "a@x.com", "Work", "1 St");
    var created := store.CreateContact(ann, "id-1", 10, "alice", false);
    assert created.Ok? && created.value.updatedAt == None && created.value.createdAt == 10;
    assert store.GetContact("id-1") == created;

    var byCategory := store.GetContactsByCategory("work");
    Text.WorkMatchesLowerCaseWork();
    assert created.value in store.contents.Values;
    assert byCategory.Ok? && created.value in byCategory.value;

    var moved := Payload("Ann", "555", "a@x.com", "Personal", "2 St");
    var updated := store.UpdateContact("id-1", moved, 20, false);
    assert updated.Ok? && updated.value.category == "Personal" && updated.value.owner == "alice";
    assert updated.value.createdAt == 10 && updated.value.updatedAt == Some(20);

    var deleted := store.DeleteContact("id-1", "token", false);
    assert deleted == updated;
    assert store.GetContact("id-1") == Err(NotFound);
  }

  /** `deleteContact` as written: a record owned by "alice" is removed when the comparison
      token is anything other than "alice", so a caller who is not the owner deletes it. */
  method NonOwnerDeletes() returns (r: Result<Contact>)
    ensures r.Ok? && r.value.owner == "alice"
  {
    var store := new ContactStore();
    var created := store.CreateContact(Payload("Ann", "555", "a@x.com", "Work", "1 St"), "id-1", 10, "alice", false);
    r := store.DeleteContact("id-1", "bob", false);
  }

  /** `deleteContact` as written: the comparison refuses exactly when the token is the owner. */
  method OwnerTokenRefused() returns (r: Result<Contact>)
    ensures r == Err(NotPermitted)
  {
    var store := new ContactStore();
    var created := store.CreateContact(Payload("Ann", "555", "a@x.com", "Work", "1 St"), "id-1", 10, "alice", false);
    r := store.DeleteContact("id-1", "alice", false);
  }

  /** Owner-only deletion: the stranger is refused and the record stays; the owner removes it. */
  method OwnerOnlyDeletion() returns (stranger: Result<Contact>, owner: Result<Contact>)
    ensures stranger == Err(NotPermitted)
    ensures owner.Ok? && owner.value.owner == "alice"
  {
    var store := new ContactStore();
    var created := store.CreateContact(Payload("Ann", "555", "a@x.com", "Work", "1 St"), "id-1", 10, "alice", false);
    stranger := store.DeleteOwnedContact("id-1", "bob", false);
    owner := store.DeleteOwnedContact("id-1", "alice", false);
  }
}
