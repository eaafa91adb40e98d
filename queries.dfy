/** The read-only scans over the store's values: `find` by name and `filter` by category. */
module Queries {
  import opened Contacts
  import opened Text
  import opened KeyOrder

  predicate NameMatches(c: Contact, name: string) {
    SameIgnoringCase(c.name, name)
  }

  predicate CategoryMatches(c: Contact, category: string) {
    SameIgnoringCase(c.category, category)
  }

  /** The records are listed in strictly ascending key order. */
  ghost predicate IdsAscending(vs: seq<Contact>) {
    forall i, j :: 0 <= i < j < |vs| ==> Below(vs[i].id, vs[j].id)
  }

  /** `values().find(...)`: the first record whose name equals `name` ignoring case. */
  function FindByName(vs: seq<Contact>, name: string): (r: Result<Contact>)
    ensures r.Ok? ==> r.value in vs && NameMatches(r.value, name)
    ensures r.Err? ==> r.error == NotFound && forall c :: c in vs ==> !NameMatches(c, name)
  {
    if vs == [] then Err(NotFound)
    else if NameMatches(vs[0], name) then Ok(vs[0])
    else FindByName(vs[1..], name)
  }

  /** Over an enumeration in key order, the record found has the least key among the matches. */
  lemma {:induction false} FindByNameTakesLeastKey(vs: seq<Contact>, name: string)
    requires IdsAscending(vs)
    ensures var r := FindByName(vs, name);
      r.Ok? ==> forall c :: c in vs && NameMatches(c, name) ==> !Below(c.id, r.value.id)
  {
    if vs != [] {
      var r := FindByName(vs, name);
      if NameMatches(vs[0], name) {
        forall c | c in vs && NameMatches(c, name) ensures !Below(c.id, r.value.id) {
          var j :| 0 <= j < |vs| && vs[j] == c;
          if j == 0 {
            BelowIrreflexive(c.id);
          } else {
            BelowAsymmetric(vs[0].id, vs[j].id);
          }
        }
      } else {
        FindByNameTakesLeastKey(vs[1..], name);
        forall c | c in vs && NameMatches(c, name) ensures c in vs[1..] {
          var j :| 0 <= j < |vs| && vs[j] == c;
          assert j != 0;
          assert vs[1..][j - 1] == c;
        }
      }
    }
  }

  /** `values().filter(...)`: the records whose category equals `category` ignoring case. */
  function SelectByCategory(vs: seq<Contact>, category: string): (r: seq<Contact>)
    ensures forall c :: c in r <==> c in vs && CategoryMatches(c, category)
    ensures |r| <= |vs|
  {
    if vs == [] then []
    else
      var rest := SelectByCategory(vs[1..], category);
      assert forall c :: c in vs <==> c == vs[0] || c in vs[1..] by {
        assert vs == [vs[0]] + vs[1..];
      }
      if CategoryMatches(vs[0], category) then [vs[0]] + rest else rest
  }

  /** Filtering keeps the key order of the enumeration. */
  lemma {:induction false} SelectKeepsAscending(vs: seq<Contact>, category: string)
    requires IdsAscending(vs)
    ensures IdsAscending(SelectByCategory(vs, category))
  {
    if vs != [] {
      SelectKeepsAscending(vs[1..], category);
      var rest := SelectByCategory(vs[1..], category);
      forall c | c in rest ensures Below(vs[0].id, c.id) {
        var j :| 0 <= j < |vs[1..]| && vs[1..][j] == c;
        assert vs[j + 1] == c;
      }
    }
  }

  /** `getContactsByCategory`: the filtered records, or an error when there are none. */
  function FilterByCategory(vs: seq<Contact>, category: string): (r: Result<seq<Contact>>)
    ensures r.Ok? ==> |r.value| > 0 && forall c :: c in r.value <==> c in vs && CategoryMatches(c, category)
    ensures r.Err? ==> r.error == NotFound && forall c :: c in vs ==> !CategoryMatches(c, category)
  {
    var selected := SelectByCategory(vs, category);
    if |selected| > 0 then Ok(selected) else Err(NotFound)
  }

  /** Two listings in ascending key order with the same records are the same listing: the
      ascending order and the set of records determine the result of a query completely. */
  lemma {:induction false} AscendingListingUnique(s1: seq<Contact>, s2: seq<Contact>)
    requires IdsAscending(s1) && IdsAscending(s2)
    requires forall c :: c in s1 <==> c in s2
    ensures s1 == s2
    decreases |s1|
  {
    if s1 != [] {
      assert s1[0] in s2 && s2[0] in s1;
      var i :| 0 <= i < |s1| && s1[i] == s2[0];
      var j :| 0 <= j < |s2| && s2[j] == s1[0];
      if i != 0 {
        BelowAsymmetric(s1[0].id, s1[i].id);
        assert false;
      }
      forall c | c in s1[1..] ensures c in s2[1..] {
        var k :| 0 <= k < |s1[1..]| && s1[1..][k] == c;
        BelowAsymmetric(s1[0].id, s1[k + 1].id);
        assert c in s2;
        var m :| 0 <= m < |s2| && s2[m] == c;
        assert m != 0;
        assert s2[1..][m - 1] == c;
      }
      forall c | c in s2[1..] ensures c in s1[1..] {
        var k :| 0 <= k < |s2[1..]| && s2[1..][k] == c;
        BelowAsymmetric(s2[0].id, s2[k + 1].id);
        assert c in s1;
        var m :| 0 <= m < |s1| && s1[m] == c;
        assert m != 0;
        assert s1[1..][m - 1] == c;
      }
      AscendingListingUnique(s1[1..], s2[1..]);
      assert s1 == [s1[0]] + s1[1..] && s2 == [s2[0]] + s2[1..];
    } else {
      FirstIsMember(s2);
    }
  }

  lemma FirstIsMember(s: seq<Contact>)
    ensures s != [] ==> s[0] in s
  {
  }

  /** A record filed under "Work" is returned by the query for "work". */
  lemma CategoryQueryIgnoresCase(vs: seq<Contact>, c: Contact)
    requires c in vs && c.category == "Work"
    ensures var r := FilterByCategory(vs, "work"); r.Ok? && c in r.value
  {
    WorkMatchesLowerCaseWork();
  }
}
