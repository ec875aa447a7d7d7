/** The least and the greatest element of a finite set of ids. */
module IdSets {

  lemma Member(ids: set<int>) returns (one: int)
    requires ids != {}
    ensures one in ids
  {
    assert (forall x: int :: x !in ids) ==> ids == {};
    one :| one in ids;
  }

  lemma {:induction false} Minimum(ids: set<int>) returns (least: int)
    requires ids != {}
    ensures least in ids && forall x | x in ids :: least <= x
    decreases |ids|
  {
    var one := Member(ids);
    var rest := ids - {one};
    least := one;
    if rest != {} {
      var other := Minimum(rest);
      least := if one < other then one else other;
    }
    forall x | x in ids
      ensures least <= x
    {
      assert x == one || x in rest;
    }
  }

  lemma HasLeast(ids: set<int>)
    requires ids != {}
    ensures exists id :: id in ids && forall x | x in ids :: id <= x
  {
    var least := Minimum(ids);
  }

  function Least(ids: set<int>): (id: int)
    requires ids != {}
    ensures id in ids && forall x | x in ids :: id <= x
  {
    HasLeast(ids);
    var id :| id in ids && forall x | x in ids :: id <= x;
    id
  }

  lemma {:induction false} Maximum(ids: set<int>) returns (greatest: int)
    requires ids != {}
    ensures greatest in ids && forall x | x in ids :: x <= greatest
    decreases |ids|
  {
    var one := Member(ids);
    var rest := ids - {one};
    greatest := one;
    if rest != {} {
      var other := Maximum(rest);
      greatest := if one > other then one else other;
    }
    forall x | x in ids
      ensures x <= greatest
    {
      assert x == one || x in rest;
    }
  }

  lemma HasGreatest(ids: set<int>)
    requires ids != {}
    ensures exists id :: id in ids && forall x | x in ids :: x <= id
  {
    var greatest := Maximum(ids);
  }

  function Greatest(ids: set<int>): (id: int)
    requires ids != {}
    ensures id in ids && forall x | x in ids :: x <= id
  {
    HasGreatest(ids);
    var id :| id in ids && forall x | x in ids :: x <= id;
    id
  }
}
