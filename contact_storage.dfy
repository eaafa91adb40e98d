/** The module-level `contactStorage` map and the operations of the service on it. */
module ContactStorage {
  import opened Contacts
  import opened KeyOrder
  import opened Queries

  /** `ks` lists the keys of `m` in key order, and each record is filed under its own id. */
  ghost predicate Indexed(m: map<string, Contact>, ks: seq<string>) {
    && Sorted(ks)
    && (forall k :: k in ks <==> k in m)
    && (forall k :: k in m ==> m[k].id == k)
  }

  /** `values()`: the records in the order of the key sequence. */
  function Enumerate(m: map<string, Contact>, ks: seq<string>): seq<Contact>
    requires forall k :: k in ks ==> k in m
  {
    seq(|ks|, i requires 0 <= i < |ks| => m[ks[i]])
  }

  /** The enumeration lists every stored record once, in ascending key order, and nothing else. */
  lemma EnumerationIsListing(m: map<string, Contact>, ks: seq<string>)
    requires Indexed(m, ks)
    ensures var vs := Enumerate(m, ks);
      IdsAscending(vs) && forall c :: c in vs <==> c in m.Values
  {
    var vs := Enumerate(m, ks);
    assert forall i :: 0 <= i < |vs| ==> vs[i].id == ks[i];
    forall c | c in m.Values ensures c in vs {
      var k :| k in m && m[k] == c;
      var i :| 0 <= i < |ks| && ks[i] == k;
      assert vs[i] == c;
    }
  }

  /** Two stores holding the same records enumerate them identically, whatever order the
      records were inserted in. */
  lemma EnumerationDeterminedByRecords(m: map<string, Contact>, ks1: seq<string>, ks2: seq<string>)
    requires Indexed(m, ks1) && Indexed(m, ks2)
    ensures Enumerate(m, ks1) == Enumerate(m, ks2)
  {
    EnumerationIsListing(m, ks1);
    EnumerationIsListing(m, ks2);
    AscendingListingUnique(Enumerate(m, ks1), Enumerate(m, ks2));
  }

  class ContactStore {
    /** The records by id. */
    var contents: map<string, Contact>
    /** The ids in the order the store enumerates them. */
    var keys: seq<string>
    /** The latest instant the clock has reported to an operation. */
    ghost var clock: Nat64

    ghost predicate Valid()
      reads this
    {
      && Indexed(contents, keys)
      && forall k :: k in contents ==> Stamped(contents[k], clock)
    }

    /** The store is empty on first boot. */
    constructor ()
      ensures Valid()
      ensures contents == map[] && keys == [] && clock == 0
    {
      contents := map[];
      keys := [];
      clock := 0;
    }

    function Values(): seq<Contact>
      reads this
      requires Valid()
    {
      Enumerate(contents, keys)
    }

    /** `getContact`: the record with the given id. */
    function GetContact(id: string): (r: Result<Contact>)
      reads this
      requires Valid()
      ensures r.Ok? <==> id != "" && id in contents
      ensures r.Ok? ==> r.value == contents[id] && r.value.id == id
      ensures r.Err? ==> r.error == if id == "" then InvalidId else NotFound
    {
      if id == "" then Err(InvalidId)
      else if id in contents then Ok(contents[id])
      else Err(NotFound)
    }

    /** `getContactByName`: the stored record with the least key whose name equals `name`
        ignoring case. */
    function GetContactByName(name: string): (r: Result<Contact>)
      reads this
      requires Valid()
      ensures r.Ok? ==> r.value in contents.Values && NameMatches(r.value, name)
      ensures r.Ok? ==> forall c :: c in contents.Values && NameMatches(c, name) ==> !Below(c.id, r.value.id)
      ensures r.Err? ==> r.error == NotFound && forall c :: c in contents.Values ==> !NameMatches(c, name)
    {
      EnumerationIsListing(contents, keys);
      FindByNameTakesLeastKey(Values(), name);
      FindByName(Values(), name)
    }

    /** `getContactsByCategory`: exactly the stored records whose category equals `category`
        ignoring case, in key order; an error rather than an empty list when there are none. */
    function GetContactsByCategory(category: string): (r: Result<seq<Contact>>)
      reads this
      requires Valid()
      ensures r.Ok? ==> |r.value| > 0 && IdsAscending(r.value)
      ensures r.Ok? ==> forall c :: c in r.value <==> c in contents.Values && CategoryMatches(c, category)
      ensures r.Err? ==> r.error == NotFound && forall c :: c in contents.Values ==> !CategoryMatches(c, category)
    {
      EnumerationIsListing(contents, keys);
      SelectKeepsAscending(Values(), category);
      FilterByCategory(Values(), category)
    }

    /** `getAllContacts`: every stored record once, in key order. */
    function GetAllContacts(): (r: Result<seq<Contact>>)
      reads this
      requires Valid()
      ensures r.Ok? && IdsAscending(r.value)
      ensures forall c :: c in r.value <==> c in contents.Values
    {
      EnumerationIsListing(contents, keys);
      Ok(Values())
    }

    /** `createContact`. `freshId` is the generated uuid, `now` the clock, `caller` the
        caller's principal and `insertFails` whether the store throws on insert. */
    method CreateContact(payload: Payload, freshId: string, now: Nat64, caller: string, insertFails: bool)
      returns (r: Result<Contact>)
      requires Valid()
      requires freshId != "" && freshId !in contents
      requires clock <= now
      modifies this
      ensures Valid() && clock == now
      ensures r.Err? ==> contents == old(contents) && keys == old(keys)
      ensures MissingField(payload) ==> r == Err(MissingFields)
      ensures !MissingField(payload) && insertFails ==> r == Err(StorageFailure)
      ensures !MissingField(payload) && !insertFails ==> r.Ok?
      ensures r.Ok? ==>
        && r.value.id == freshId && Fields(r.value) == payload
        && r.value.owner == caller && r.value.createdAt == now && r.value.updatedAt == None
      ensures r.Ok? ==> contents == old(contents)[freshId := r.value] && keys == InsertKey(old(keys), freshId)
      ensures r.Ok? ==> GetContact(freshId) == r
    {
      clock := now;
      if MissingField(payload) {
        return Err(MissingFields);
      }
      var contact := NewContact(freshId, payload, now, caller);
      if insertFails {
        return Err(StorageFailure);
      }
      contents := contents[freshId := contact];
      keys := InsertKey(keys, freshId);
      r := Ok(contact);
    }

    /** `updateContact`: replaces the five text fields of an existing record. Nothing compares
        the caller with the record's owner. */
    method UpdateContact(id: string, payload: Payload, now: Nat64, insertFails: bool)
      returns (r: Result<Contact>)
      requires Valid()
      requires clock <= now
      modifies this
      ensures Valid() && clock == now
      ensures r.Err? ==> contents == old(contents) && keys == old(keys)
      ensures id == "" ==> r == Err(InvalidId)
      ensures id != "" && MissingField(payload) ==> r == Err(MissingFields)
      ensures id != "" && !MissingField(payload) && id !in old(contents) ==> r == Err(NotFound)
      ensures id != "" && !MissingField(payload) && id in old(contents) && insertFails ==> r == Err(StorageFailure)
      ensures id != "" && !MissingField(payload) && id in old(contents) && !insertFails ==> r.Ok?
      ensures r.Ok? ==> id in old(contents)
      ensures r.Ok? ==>
        && r.value.id == id
        && r.value.owner == old(contents)[id].owner
        && r.value.createdAt == old(contents)[id].createdAt
        && Fields(r.value) == payload
        && r.value.updatedAt == Some(now)
        && r.value.createdAt <= now
      ensures r.Ok? ==> contents == old(contents)[id := r.value] && keys == old(keys)
      ensures r.Ok? ==> GetContact(id) == r
    {
      clock := now;
      if id == "" {
        return Err(InvalidId);
      }
      if MissingField(payload) {
        return Err(MissingFields);
      }
      if id !in contents {
        return Err(NotFound);
      }
      var existing := contents[id];
      var updated := Replaced(existing, payload, now);
      if insertFails {
        return Err(StorageFailure);
      }
      contents := contents[updated.id := updated];
      r := Ok(updated);
    }

    /** `deleteContact` as written: it refuses when the record's owner equals `callerToken`,
        the text the service compares the owner with, and removes the record otherwise. */
    method DeleteContact(id: string, callerToken: string, removeFails: bool)
      returns (r: Result<Contact>)
      requires Valid()
      modifies this
      ensures Valid() && clock == old(clock)
      ensures r.Err? ==> contents == old(contents) && keys == old(keys)
      ensures id == "" ==> r == Err(InvalidId)
      ensures id != "" && id !in old(contents) ==> r == Err(NotFound)
      ensures id != "" && id in old(contents) && old(contents)[id].owner == callerToken ==> r == Err(NotPermitted)
      ensures id != "" && id in old(contents) && old(contents)[id].owner != callerToken ==>
        r == if removeFails then Err(StorageFailure) else Ok(old(contents)[id])
      ensures r.Ok? ==> contents == old(contents) - {id} && keys == RemoveKey(old(keys), id)
      ensures r.Ok? ==> GetContact(id) == Err(NotFound)
    {
      if id == "" {
        return Err(InvalidId);
      }
      if id !in contents {
        return Err(NotFound);
      }
      var existing := contents[id];
      if existing.owner == callerToken {
        return Err(NotPermitted);
      }
      if removeFails {
        return Err(StorageFailure);
      }
      contents := contents - {id};
      keys := RemoveKey(keys, id);
      r := Ok(existing);
    }

    /** Owner-only deletion: the check `deleteContact` evidently intends. Only the record's
        owner may remove it. */
    method DeleteOwnedContact(id: string, caller: string, removeFails: bool)
      returns (r: Result<Contact>)
      requires Valid()
      modifies this
      ensures Valid() && clock == old(clock)
      ensures r.Err? ==> contents == old(contents) && keys == old(keys)
      ensures id == "" ==> r == Err(InvalidId)
      ensures id != "" && id !in old(contents) ==> r == Err(NotFound)
      ensures id != "" && id in old(contents) && old(contents)[id].owner != caller ==> r == Err(NotPermitted)
      ensures r.Ok? ==> id in old(contents) && old(contents)[id].owner == caller
      ensures id != "" && id in old(contents) && old(contents)[id].owner == caller ==>
        r == if removeFails then Err(StorageFailure) else Ok(old(contents)[id])
      ensures r.Ok? ==> contents == old(contents) - {id} && keys == RemoveKey(old(keys), id)
      ensures r.Ok? ==> GetContact(id) == Err(NotFound)
    {
      if id == "" {
        return Err(InvalidId);
      }
      if id !in contents {
        return Err(NotFound);
      }
      var existing := contents[id];
      if existing.owner != caller {
        return Err(NotPermitted);
      }
      if removeFails {
        return Err(StorageFailure);
      }
      contents := contents - {id};
      keys := RemoveKey(keys, id);
      r := Ok(existing);
    }
  }
}
