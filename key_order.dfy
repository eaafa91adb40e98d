/** The order in which the ordered record store enumerates its keys, and the sorted key
    sequence that gives that enumeration. */
module KeyOrder {

  /** Strict lexicographic order on identifiers (a proper prefix comes first). */
  predicate Below(a: string, b: string)
    decreases |a|
  {
    if a == [] then b != []
    else if b == [] then false
    else a[0] < b[0] || (a[0] == b[0] && Below(a[1..], b[1..]))
  }

  lemma {:induction false} BelowIrreflexive(a: string)
    ensures !Below(a, a)
    decreases |a|
  {
    if a != [] {
      BelowIrreflexive(a[1..]);
    }
  }

  lemma {:induction false} BelowTransitive(a: string, b: string, c: string)
    requires Below(a, b) && Below(b, c)
    ensures Below(a, c)
    decreases |a|
  {
    if a != [] && a[0] == b[0] && b[0] == c[0] {
      BelowTransitive(a[1..], b[1..], c[1..]);
    }
  }

  lemma {:induction false} BelowTotal(a: string, b: string)
    requires a != b
    ensures Below(a, b) || Below(b, a)
    decreases |a|
  {
    if a != [] && b != [] && a[0] == b[0] {
      assert a == [a[0]] + a[1..] && b == [b[0]] + b[1..];
      BelowTotal(a[1..], b[1..]);
    }
  }

  lemma BelowAsymmetric(a: string, b: string)
    requires Below(a, b)
    ensures !Below(b, a) && a != b
  {
    BelowIrreflexive(a);
    if Below(b, a) {
      BelowTransitive(a, b, a);
    }
  }

  /** Strictly ascending: the key sequence has no duplicates and is in key order. */
  ghost predicate Sorted(ks: seq<string>) {
    forall i, j :: 0 <= i < j < |ks| ==> Below(ks[i], ks[j])
  }

  /** Where two keys of a sorted sequence stand tells how they compare. */
  lemma {:induction false} SortedPositions(ks: seq<string>, i: nat, j: nat)
    requires Sorted(ks) && i < |ks| && j < |ks|
    ensures Below(ks[i], ks[j]) <==> i < j
    ensures ks[i] == ks[j] <==> i == j
  {
    if i < j {
      BelowAsymmetric(ks[i], ks[j]);
    } else if j < i {
      BelowAsymmetric(ks[j], ks[i]);
    } else {
      BelowIrreflexive(ks[i]);
    }
  }

  /** The key sequence after `insert` of a key that is not yet stored. */
  function InsertKey(ks: seq<string>, k: string): (r: seq<string>)
    requires Sorted(ks) && k !in ks
    ensures Sorted(r)
    ensures forall x :: x in r <==> x in ks || x == k
    ensures |r| == |ks| + 1
  {
    if ks == [] then [k]
    else if Below(k, ks[0]) then
      assert forall j :: 0 < j < |ks| ==> Below(k, ks[j]) by {
        forall j | 0 < j < |ks| ensures Below(k, ks[j]) {
          BelowTransitive(k, ks[0], ks[j]);
        }
      }
      [k] + ks
    else
      BelowTotal(k, ks[0]);
      var rest := InsertKey(ks[1..], k);
      assert forall x :: x in rest ==> Below(ks[0], x) by {
        forall x | x in rest ensures Below(ks[0], x) {
          if x != k {
            var j :| 0 <= j < |ks[1..]| && ks[1..][j] == x;
            assert ks[j + 1] == x;
          }
        }
      }
      [ks[0]] + rest
  }

  /** The key sequence after `remove` of a key (unchanged when the key is absent). */
  function RemoveKey(ks: seq<string>, k: string): (r: seq<string>)
    requires Sorted(ks)
    ensures Sorted(r)
    ensures forall x :: x in r <==> x in ks && x != k
    ensures |r| == if k in ks then |ks| - 1 else |ks|
  {
    if ks == [] then []
    else if ks[0] == k then
      assert k !in ks[1..] by {
        forall j | 0 <= j < |ks[1..]| ensures ks[1..][j] != k {
          SortedPositions(ks, 0, j + 1);
        }
      }
      ks[1..]
    else
      var rest := RemoveKey(ks[1..], k);
      assert forall x :: x in rest ==> Below(ks[0], x) by {
        forall x | x in rest ensures Below(ks[0], x) {
          var j :| 0 <= j < |ks[1..]| && ks[1..][j] == x;
          assert ks[j + 1] == x;
        }
      }
      [ks[0]] + rest
  }
}
