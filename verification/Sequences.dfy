/** Sequences without repetition, and dropping one element. */
module Sequences {
  ghost predicate Distinct<T>(s: seq<T>)
  {
    forall i, j :: 0 <= i < j < |s| ==> s[i] != s[j]
  }

  ghost function Without<T>(r: seq<T>, i: nat): seq<T>
    requires i < |r|
  {
    r[..i] + r[i + 1..]
  }

  lemma MembersWithout<T>(r: seq<T>, i: nat, x: T)
    requires i < |r| && Distinct(r)
    ensures x in Without(r, i) <==> x in r && x != r[i]
  {
    var s := Without(r, i);
    if x in s {
      var j :| 0 <= j < |s| && s[j] == x;
      assert s[j] == r[if j < i then j else j + 1];
    }
    if x in r && x != r[i] {
      var j :| 0 <= j < |r| && r[j] == x;
      assert s[if j < i then j else j - 1] == r[j];
    }
  }
}
