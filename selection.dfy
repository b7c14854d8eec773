/** The facility checklist of `FacilityChecker`: the list of selected facilities and
    the checkbox handler that removes a checked facility or appends an unchecked one. */
module FacilitySelection {
  import opened Catalog

  /** `filter((item) => item.id !== id)`: every entry with that id removed, the rest
      in their order. */
  function WithoutId(s: seq<FacilityInfo>, id: string): (r: seq<FacilityInfo>)
    ensures forall x {:trigger x in r} :: x in r <==> x in s && x.id != id
    ensures |r| <= |s|
    ensures |r| == |s| <==> forall x :: x in s ==> x.id != id
  {
    if s == [] then []
    else if s[0].id == id then WithoutId(s[1..], id)
    else [s[0]] + WithoutId(s[1..], id)
  }

  /** Filtering a concatenation filters each part: entries of the earlier part stay
      before entries of the later part. */
  lemma {:induction false} WithoutIdConcat(a: seq<FacilityInfo>, b: seq<FacilityInfo>, id: string)
    ensures WithoutId(a + b, id) == WithoutId(a, id) + WithoutId(b, id)
  {
    if a == [] {
      assert a + b == b;
    } else {
      assert (a + b)[0] == a[0];
      assert (a + b)[1..] == a[1..] + b;
      WithoutIdConcat(a[1..], b, id);
    }
  }

  /** A list with no entry of that id passes the filter unchanged. */
  lemma {:induction false} WithoutAbsentId(s: seq<FacilityInfo>, id: string)
    requires forall x :: x in s ==> x.id != id
    ensures WithoutId(s, id) == s
  {
    if s != [] {
      assert s[0] in s;
      assert forall x :: x in s[1..] ==> x in s;
      WithoutAbsentId(s[1..], id);
    }
  }

  /** Two kept entries keep their relative order. */
  lemma WithoutIdKeepsOrder(s: seq<FacilityInfo>, id: string, i: int, j: int)
    requires 0 <= i < j < |s|
    requires s[i].id != id && s[j].id != id
    ensures var r := WithoutId(s, id);
      exists p, q :: 0 <= p < q < |r| && r[p] == s[i] && r[q] == s[j]
  {
    var front, back := s[..j], s[j..];
    var first := WithoutId(front, id);
    assert s == front + back;
    WithoutIdConcat(front, back, id);
    assert back[0] == s[j] && back[1..] == s[j + 1..];
    assert WithoutId(back, id) == [s[j]] + WithoutId(s[j + 1..], id);
    assert front[i] == s[i] && s[i] in front && s[i] in first;
    var p :| 0 <= p < |first| && first[p] == s[i];
    var r := WithoutId(s, id);
    assert r[p] == s[i] && r[|first|] == s[j];
  }

  /** Filtering a list without repeated ids leaves a list without repeated ids. */
  lemma {:induction false} WithoutIdKeepsUniqueIds(s: seq<FacilityInfo>, id: string)
    requires UniqueIds(s)
    ensures UniqueIds(WithoutId(s, id))
  {
    if s != [] {
      var rest := WithoutId(s[1..], id);
      WithoutIdKeepsUniqueIds(s[1..], id);
      if s[0].id != id {
        forall x | x in rest
          ensures x.id != s[0].id
        {
          var k :| 0 <= k < |s[1..]| && s[1..][k] == x;
          assert s[k + 1] == x;
        }
        var r := [s[0]] + rest;
        forall i, j | 0 <= i < j < |r|
          ensures r[i].id != r[j].id
        {
          assert r[j] == rest[j - 1] && r[j] in rest;
          if i > 0 {
            assert r[i] == rest[i - 1];
          }
        }
      }
    }
  }

  /** The checkbox `onChange`: a checked facility (`includes`, by value here) is
      removed by id, an unchecked one is appended.  The facility's own checked state
      flips, and no entry of another id is affected. */
  function Toggle(selected: seq<FacilityInfo>, facility: FacilityInfo): (r: seq<FacilityInfo>)
    ensures facility in r <==> facility !in selected
    ensures forall x: FacilityInfo {:trigger x in r} :: x.id != facility.id ==> (x in r <==> x in selected)
    ensures facility in selected ==> r == WithoutId(selected, facility.id) && |r| < |selected|
    ensures facility !in selected ==> |r| == |selected| + 1 && r[..|selected|] == selected && r[|selected|] == facility
  {
    if facility in selected then WithoutId(selected, facility.id)
    else selected + [facility]
  }

  /** Toggling a facility whose id is not in the list, twice in a row, gives back the
      list. */
  lemma ToggleTwiceRestores(selected: seq<FacilityInfo>, facility: FacilityInfo)
    requires forall x :: x in selected ==> x.id != facility.id
    ensures Toggle(Toggle(selected, facility), facility) == selected
  {
    assert facility !in selected;
    var once := selected + [facility];
    assert facility in once;
    WithoutIdConcat(selected, [facility], facility.id);
    WithoutAbsentId(selected, facility.id);
    assert WithoutId([facility], facility.id) == [];
  }

  /** Toggling a checked facility twice in a list without repeated ids gives back the
      same entries: the first toggle removes it, the second appends it, so it moves to
      the end of the list. */
  lemma ToggleTwiceKeepsMembership(selected: seq<FacilityInfo>, facility: FacilityInfo)
    requires UniqueIds(selected) && facility in selected
    ensures Toggle(Toggle(selected, facility), facility) == WithoutId(selected, facility.id) + [facility]
    ensures forall x :: x in Toggle(Toggle(selected, facility), facility) <==> x in selected
  {
    assert facility !in WithoutId(selected, facility.id);
    forall x | x in selected && x.id == facility.id
      ensures x == facility
    {
      var i :| 0 <= i < |selected| && selected[i] == x;
      var j :| 0 <= j < |selected| && selected[j] == facility;
      assert i == j;
    }
  }

  /** Membership is by value: if another entry with the same id is in the list, the
      second toggle removes it as well, so the list does not come back. */
  lemma ToggleTwiceDropsSameId(selected: seq<FacilityInfo>, facility: FacilityInfo, twin: FacilityInfo)
    requires facility !in selected
    requires twin in selected && twin.id == facility.id
    ensures Toggle(Toggle(selected, facility), facility) != selected
  {
    var twice := Toggle(Toggle(selected, facility), facility);
    assert twin !in twice;
  }

  /** For entries of the catalog, value membership and id membership agree, since
      catalog ids are unique. */
  lemma CatalogCheckedById(selected: seq<FacilityInfo>, facility: FacilityInfo)
    requires forall x :: x in selected ==> x in FacilityItems
    requires facility in FacilityItems
    ensures facility in selected <==> exists x :: x in selected && x.id == facility.id
  {
    if x :| x in selected && x.id == facility.id {
      CatalogEntryById(x, facility);
    }
  }

  /** The `selectedFacilities` state of `FacilityChecker`. */
  class FacilityChecker {
    var selectedFacilities: seq<FacilityInfo>

    /** The list only ever holds catalog entries, each id at most once. */
    ghost predicate Valid()
      reads this
    {
      && (forall x :: x in selectedFacilities ==> x in FacilityItems)
      && UniqueIds(selectedFacilities)
    }

    constructor ()
      ensures selectedFacilities == []
      ensures Valid()
    {
      selectedFacilities := [];
    }

    /** The checkbox `onChange` handler. */
    method OnChange(facility: FacilityInfo)
      requires Valid() && facility in FacilityItems
      modifies this
      ensures selectedFacilities == Toggle(old(selectedFacilities), facility)
      ensures facility in old(selectedFacilities) <==>
        exists x :: x in old(selectedFacilities) && x.id == facility.id
      ensures Valid()
    {
      var before := selectedFacilities;
      if facility in selectedFacilities {
        selectedFacilities := WithoutId(selectedFacilities, facility.id);
      } else {
        selectedFacilities := selectedFacilities + [facility];
      }
      CatalogCheckedById(before, facility);
      if facility in before {
        WithoutIdKeepsUniqueIds(before, facility.id);
      } else {
        var after := selectedFacilities;
        forall i, j | 0 <= i < j < |after|
          ensures after[i].id != after[j].id
        {
          if j == |before| {
            assert after[i] == before[i] && after[i] in before;
          } else {
            assert after[i] == before[i] && after[j] == before[j];
          }
        }
      }
    }
  }
}
