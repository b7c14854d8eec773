/** The static facility catalog (`FACILITY_ITEMS`) and its grouping by facility
    category (`getFacilitiesByCategory`). */
module Catalog {

  /** The facility groups; the comment gives the label the group is shown under. */
  datatype FacilityCategory =
    | Parking             // 주차시설
    | MechanicalEquipment // 기계설비시설
    | ElectricalTelecom   // 전기통신시설
    | ResidentAmenity     // 주민편의시설
    | Management          // 관리시설
    | Other               // 기타시설

  /** A facility record: its id, its display name and its group. */
  datatype FacilityInfo = FacilityInfo(id: string, name: string, category: FacilityCategory)

  /** The catalog's values in definition order (the order `Object.values` yields,
      since none of the keys is an array index).  Each record is stored under its own id. */
  const FacilityItems: seq<FacilityInfo> := [
    FacilityInfo("UNDERGROUND_PARKING", "지하주차장", Parking),
    FacilityInfo("GROUND_PARKING", "지상주차장", Parking),
    FacilityInfo("PUMP_ROOM", "펌프실", MechanicalEquipment),
    FacilityInfo("ELECTRIC_ROOM", "전기실", ElectricalTelecom),
    FacilityInfo("MACHINE_ROOM", "기계실", MechanicalEquipment),
    FacilityInfo("GENERATOR_ROOM", "발전기실", ElectricalTelecom),
    FacilityInfo("VENTILATION_ROOM", "제연휀룸", MechanicalEquipment),
    FacilityInfo("COMMUNICATION_ROOM", "통신실", ElectricalTelecom),
    FacilityInfo("COMMUNITY_FACILITY", "주민공동시설", ResidentAmenity),
    FacilityInfo("MANAGEMENT_OFFICE", "관리사무소", Management),
    FacilityInfo("STAFF_LOUNGE", "용역원휴게실", Management),
    FacilityInfo("DISASTER_PREVENTION_ROOM", "방재실,MDF실", ElectricalTelecom),
    FacilityInfo("EXERCISE_FACILITY", "주민운동시설", ResidentAmenity),
    FacilityInfo("OUTDOOR_STAIRS", "옥외계단", Other),
    FacilityInfo("STORAGE", "세대창고", Other),
    FacilityInfo("SECURITY_OFFICE", "경비실", Management),
    FacilityInfo("NEIGHBORHOOD_FACILITY", "근린생활시설", Other)
  ]

  /** No two entries share an id. */
  predicate UniqueIds(s: seq<FacilityInfo>)
  {
    forall i, j :: 0 <= i < j < |s| ==> s[i].id != s[j].id
  }

  /** The position of `id` among the keys of the catalog object, or -1 when it is not
      a key. */
  function KeyPosition(id: string): int
  {
    if id == "UNDERGROUND_PARKING" then 0
    else if id == "GROUND_PARKING" then 1
    else if id == "PUMP_ROOM" then 2
    else if id == "ELECTRIC_ROOM" then 3
    else if id == "MACHINE_ROOM" then 4
    else if id == "GENERATOR_ROOM" then 5
    else if id == "VENTILATION_ROOM" then 6
    else if id == "COMMUNICATION_ROOM" then 7
    else if id == "COMMUNITY_FACILITY" then 8
    else if id == "MANAGEMENT_OFFICE" then 9
    else if id == "STAFF_LOUNGE" then 10
    else if id == "DISASTER_PREVENTION_ROOM" then 11
    else if id == "EXERCISE_FACILITY" then 12
    else if id == "OUTDOOR_STAIRS" then 13
    else if id == "STORAGE" then 14
    else if id == "SECURITY_OFFICE" then 15
    else if id == "NEIGHBORHOOD_FACILITY" then 16
    else -1
  }

  /** Rows 0 to 5 of the catalog are stored under their own key. */
  lemma KeyPositionsFrom0()
    ensures forall k :: 0 <= k < 6 ==> KeyPosition(FacilityItems[k].id) == k
  {
    assert KeyPosition(FacilityItems[0].id) == 0;
    assert KeyPosition(FacilityItems[1].id) == 1;
    assert KeyPosition(FacilityItems[2].id) == 2;
    assert KeyPosition(FacilityItems[3].id) == 3;
    assert KeyPosition(FacilityItems[4].id) == 4;
    assert KeyPosition(FacilityItems[5].id) == 5;
  }

  /** Rows 6 to 8 of the catalog are stored under their own key. */
  lemma KeyPositionsFrom6()
    ensures forall k :: 6 <= k < 9 ==> KeyPosition(FacilityItems[k].id) == k
  {
    assert KeyPosition(FacilityItems[6].id) == 6;
    assert KeyPosition(FacilityItems[7].id) == 7;
    assert KeyPosition(FacilityItems[8].id) == 8;
  }

  /** Rows 9 to 11 of the catalog are stored under their own key. */
  lemma KeyPositionsFrom9()
    ensures forall k :: 9 <= k < 12 ==> KeyPosition(FacilityItems[k].id) == k
  {
    assert KeyPosition(FacilityItems[9].id) == 9;
    assert KeyPosition(FacilityItems[10].id) == 10;
    assert KeyPosition(FacilityItems[11].id) == 11;
  }

  /** Rows 12 to 16 of the catalog are stored under their own key. */
  lemma KeyPositionsFrom12()
    ensures forall k :: 12 <= k < 17 ==> KeyPosition(FacilityItems[k].id) == k
  {
    assert KeyPosition(FacilityItems[12].id) == 12;
    assert KeyPosition(FacilityItems[13].id) == 13;
    assert KeyPosition(FacilityItems[14].id) == 14;
    assert KeyPosition(FacilityItems[15].id) == 15;
    assert KeyPosition(FacilityItems[16].id) == 16;
  }

  /** Ids are keys of the catalog object, so no two entries share one. */
  lemma CatalogIdsUnique()
    ensures UniqueIds(FacilityItems)
  {
    KeyPositionsFrom0();
    KeyPositionsFrom6();
    KeyPositionsFrom9();
    KeyPositionsFrom12();
    assert |FacilityItems| == 17;
  }

  /** Two catalog entries with the same id are the same entry. */
  lemma CatalogEntryById(f: FacilityInfo, g: FacilityInfo)
    requires f in FacilityItems && g in FacilityItems
    requires f.id == g.id
    ensures f == g
  {
    CatalogIdsUnique();
    var i :| 0 <= i < |FacilityItems| && FacilityItems[i] == f;
    var j :| 0 <= j < |FacilityItems| && FacilityItems[j] == g;
    assert i == j;
  }

  predicate NoDuplicates<T(==)>(s: seq<T>)
  {
    forall i, j :: 0 <= i < j < |s| ==> s[i] != s[j]
  }

  /** The categories occurring in `items`, each once, in the order of their first
      occurrence: the key order of the object the reduce builds. */
  function FirstAppearances(items: seq<FacilityInfo>): (order: seq<FacilityCategory>)
    ensures forall c {:trigger c in order} :: c in order <==> exists f :: f in items && f.category == c
    ensures NoDuplicates(order)
  {
    if items == [] then []
    else
      var order := FirstAppearances(items[..|items| - 1]);
      var last := items[|items| - 1];
      assert forall f :: f in items <==> f in items[..|items| - 1] || f == last by {
        assert items == items[..|items| - 1] + [last];
      }
      if last.category in order then order else order + [last.category]
  }

  /** The entries of `items` in category `c`, in the order of `items`. */
  function InCategory(items: seq<FacilityInfo>, c: FacilityCategory): (group: seq<FacilityInfo>)
    ensures forall f {:trigger f in group} :: f in group <==> f in items && f.category == c
    ensures |group| <= |items|
  {
    if items == [] then []
    else
      var last := items[|items| - 1];
      assert forall f :: f in items <==> f in items[..|items| - 1] || f == last by {
        assert items == items[..|items| - 1] + [last];
      }
      InCategory(items[..|items| - 1], c) + (if last.category == c then [last] else [])
  }

  lemma FirstAppearancesSnoc(prefix: seq<FacilityInfo>, f: FacilityInfo)
    ensures FirstAppearances(prefix + [f]) ==
      var order := FirstAppearances(prefix);
      if f.category in order then order else order + [f.category]
  {
    assert (prefix + [f])[..|prefix|] == prefix;
  }

  /** The key order is the order of first occurrence: for two keys, some entry of the
      earlier one comes before every entry of the later one. */
  lemma {:induction false} FirstAppearancesInOrder(items: seq<FacilityInfo>, p: int, q: int)
    requires 0 <= p < q < |FirstAppearances(items)|
    ensures exists i :: 0 <= i < |items| && items[i].category == FirstAppearances(items)[p] &&
                        (forall j :: 0 <= j <= i ==> items[j].category != FirstAppearances(items)[q])
    decreases |items|
  {
    var init, x := items[..|items| - 1], items[|items| - 1];
    assert items == init + [x];
    FirstAppearancesSnoc(init, x);
    var order0, order := FirstAppearances(init), FirstAppearances(items);
    if q < |order0| {
      FirstAppearancesInOrder(init, p, q);
      var i :| 0 <= i < |init| && init[i].category == order0[p] &&
               (forall j :: 0 <= j <= i ==> init[j].category != order0[q]);
      assert forall j :: 0 <= j <= i ==> items[j] == init[j];
      assert items[i].category == order[p];
    } else {
      assert order0[p] in order0;
      var f :| f in init && f.category == order0[p];
      var i :| 0 <= i < |init| && init[i] == f;
      forall j | 0 <= j <= i
        ensures items[j].category != order[q]
      {
        assert items[j] == init[j] && init[j] in init;
      }
      assert items[i].category == order[p];
    }
  }

  lemma InCategorySnoc(prefix: seq<FacilityInfo>, f: FacilityInfo, c: FacilityCategory)
    ensures InCategory(prefix + [f], c) == InCategory(prefix, c) + (if f.category == c then [f] else [])
  {
    assert (prefix + [f])[..|prefix|] == prefix;
  }

  lemma NoEntriesNoGroup(items: seq<FacilityInfo>, c: FacilityCategory)
    requires c !in FirstAppearances(items)
    ensures InCategory(items, c) == []
  {
  }

  /** A plain object keyed by facility category: its keys in insertion order and
      the array stored under each key. */
  datatype CategoryGroups = CategoryGroups(order: seq<FacilityCategory>, groups: map<FacilityCategory, seq<FacilityInfo>>)

  /** One step of the reduce: create the category's array if the category is new,
      then push the entry onto it. */
  function AddFacility(acc: CategoryGroups, f: FacilityInfo): (r: CategoryGroups)
    ensures r.order == if f.category in acc.groups then acc.order else acc.order + [f.category]
    ensures f.category in r.groups
    ensures r.groups[f.category] == (if f.category in acc.groups then acc.groups[f.category] else []) + [f]
    ensures forall c {:trigger c in r.groups} :: c != f.category ==> (c in r.groups <==> c in acc.groups)
    ensures forall c {:trigger r.groups[c]} :: c != f.category && c in acc.groups ==> r.groups[c] == acc.groups[c]
  {
    var created :=
      if f.category in acc.groups then acc
      else CategoryGroups(acc.order + [f.category], acc.groups[f.category := []]);
    CategoryGroups(created.order, created.groups[f.category := created.groups[f.category] + [f]])
  }

  /** The object the reduce returns: its steps applied to the entries in order,
      starting from an empty object. */
  function Grouped(items: seq<FacilityInfo>): (r: CategoryGroups)
    ensures forall c {:trigger c in r.groups} {:trigger c in r.order} :: c in r.groups <==> c in r.order
    ensures NoDuplicates(r.order)
    ensures |r.order| <= |items|
    decreases |items|
  {
    if items == [] then CategoryGroups([], map[])
    else AddFacility(Grouped(items[..|items| - 1]), items[|items| - 1])
  }

  /** What the reduce computes: the keys are the categories that occur, in order of
      first occurrence, and each key holds exactly the entries of its category, in
      the order of `items`. */
  lemma {:induction false} GroupedByCategory(items: seq<FacilityInfo>, c: FacilityCategory)
    ensures Grouped(items).order == FirstAppearances(items)
    ensures c in Grouped(items).groups <==> c in FirstAppearances(items)
    ensures c in Grouped(items).groups ==> Grouped(items).groups[c] == InCategory(items, c)
    decreases |items|
  {
    if items != [] {
      var init, x := items[..|items| - 1], items[|items| - 1];
      assert items == init + [x];
      GroupedByCategory(init, c);
      GroupedByCategory(init, x.category);
      FirstAppearancesSnoc(init, x);
      InCategorySnoc(init, x, c);
      if c == x.category && c !in Grouped(init).groups {
        NoEntriesNoGroup(init, c);
      }
    }
  }

  /** `getFacilitiesByCategory`: the reduce over the catalog's values, starting from
      an empty object.  The catalog is passed in as `items`. */
  method GetFacilitiesByCategory(items: seq<FacilityInfo>) returns (acc: CategoryGroups)
    ensures acc == Grouped(items)
  {
    var order: seq<FacilityCategory> := [];
    var groups: map<FacilityCategory, seq<FacilityInfo>> := map[];
    var i := 0;
    while i < |items|
      invariant 0 <= i <= |items|
      invariant CategoryGroups(order, groups) == Grouped(items[..i])
    {
      var facility := items[i];
      assert items[..i + 1][..i] == items[..i];
      if facility.category !in groups {
        groups := groups[facility.category := []];
        order := order + [facility.category];
      }
      groups := groups[facility.category := groups[facility.category] + [facility]];
      i := i + 1;
    }
    assert items[..i] == items;
    acc := CategoryGroups(order, groups);
  }

  /** Every entry lies in the group keyed by its own category, and a group holds
      only entries of the items in its category. */
  lemma GroupsPartitionItems(items: seq<FacilityInfo>)
    ensures forall f :: f in items ==>
      f.category in Grouped(items).groups && f in Grouped(items).groups[f.category]
    ensures forall c, f :: c in Grouped(items).groups && f in Grouped(items).groups[c] ==>
      f in items && f.category == c
  {
    forall c {
      GroupedByCategory(items, c);
    }
  }

  /** Entries of an earlier part of the catalog come before entries of a later part
      in every group. */
  lemma {:induction false} InCategoryConcat(a: seq<FacilityInfo>, b: seq<FacilityInfo>, c: FacilityCategory)
    ensures InCategory(a + b, c) == InCategory(a, c) + InCategory(b, c)
    decreases |b|
  {
    if b == [] {
      assert a + b == a;
    } else {
      var init := b[..|b| - 1];
      assert (a + b)[..|a + b| - 1] == a + init;
      InCategoryConcat(a, init, c);
    }
  }

  lemma InCategoryKeepsOrder(items: seq<FacilityInfo>, i: int, j: int)
    requires 0 <= i < j < |items|
    requires items[i].category == items[j].category
    ensures var group := InCategory(items, items[i].category);
      exists p, q :: 0 <= p < q < |group| && group[p] == items[i] && group[q] == items[j]
  {
    var c := items[i].category;
    var front := items[..j + 1];
    var first := InCategory(items[..j], c);
    assert front[..j] == items[..j];
    assert InCategory(front, c) == first + [items[j]];
    assert items == front + items[j + 1..];
    InCategoryConcat(front, items[j + 1..], c);
    assert items[..j][i] == items[i] && items[i] in items[..j] && items[i] in first;
    var p :| 0 <= p < |first| && first[p] == items[i];
    var group := InCategory(items, c);
    assert group[p] == items[i] && group[|first|] == items[j];
  }

  /** Within a group, two entries keep the relative order they have in the catalog. */
  lemma GroupKeepsCatalogOrder(items: seq<FacilityInfo>, i: int, j: int)
    requires 0 <= i < j < |items|
    requires items[i].category == items[j].category
    ensures items[i].category in Grouped(items).groups
    ensures var group := Grouped(items).groups[items[i].category];
      exists p, q :: 0 <= p < q < |group| && group[p] == items[i] && group[q] == items[j]
  {
    GroupedByCategory(items, items[i].category);
    assert items[i] in items;
    InCategoryKeepsOrder(items, i, j);
  }

  /** The summed sizes of the groups named in `order`. */
  function SizeSum(order: seq<FacilityCategory>, groups: map<FacilityCategory, seq<FacilityInfo>>): nat
  {
    if order == [] then 0
    else (if order[0] in groups then |groups[order[0]]| else 0) + SizeSum(order[1..], groups)
  }

  /** The summed sizes of the categories in `order` within `items`. */
  function CountIn(order: seq<FacilityCategory>, items: seq<FacilityInfo>): nat
  {
    if order == [] then 0 else |InCategory(items, order[0])| + CountIn(order[1..], items)
  }

  lemma {:induction false} SizeSumIsCountIn(order: seq<FacilityCategory>, items: seq<FacilityInfo>, groups: map<FacilityCategory, seq<FacilityInfo>>)
    requires forall c :: c in order ==> c in groups && groups[c] == InCategory(items, c)
    ensures SizeSum(order, groups) == CountIn(order, items)
  {
    if order != [] {
      SizeSumIsCountIn(order[1..], items, groups);
    }
  }

  /** Adding one entry adds one to the count of a duplicate-free list of categories
      exactly when it names the entry's category. */
  lemma {:induction false} CountInSnoc(order: seq<FacilityCategory>, init: seq<FacilityInfo>, x: FacilityInfo)
    requires NoDuplicates(order)
    ensures CountIn(order, init + [x]) == CountIn(order, init) + (if x.category in order then 1 else 0)
  {
    var items := init + [x];
    assert items[..|items| - 1] == init;
    if order != [] {
      assert NoDuplicates(order[1..]) by {
        forall i, j | 0 <= i < j < |order[1..]| ensures order[1..][i] != order[1..][j] {
          assert order[1..][i] == order[i + 1] && order[1..][j] == order[j + 1];
        }
      }
      CountInSnoc(order[1..], init, x);
      assert x.category in order <==> x.category == order[0] || x.category in order[1..] by {
        assert order == [order[0]] + order[1..];
      }
      assert x.category == order[0] ==> x.category !in order[1..];
    }
  }

  lemma {:induction false} CountInAppend(order: seq<FacilityCategory>, c: FacilityCategory, items: seq<FacilityInfo>)
    ensures CountIn(order + [c], items) == CountIn(order, items) + |InCategory(items, c)|
  {
    if order == [] {
      assert order + [c] == [c];
    } else {
      assert (order + [c])[1..] == order[1..] + [c];
      CountInAppend(order[1..], c, items);
    }
  }

  lemma {:induction false} CountAll(items: seq<FacilityInfo>)
    ensures CountIn(FirstAppearances(items), items) == |items|
  {
    if items != [] {
      var init, x := items[..|items| - 1], items[|items| - 1];
      assert items == init + [x];
      var prior := FirstAppearances(init);
      CountAll(init);
      CountInSnoc(prior, init, x);
      if x.category !in prior {
        CountInAppend(prior, x.category, items);
        NoEntriesNoGroup(init, x.category);
        assert items[..|items| - 1] == init;
      }
    }
  }

  /** The group sizes add up to the number of entries: no entry is lost or counted
      twice. */
  lemma GroupSizesSum(items: seq<FacilityInfo>)
    ensures SizeSum(Grouped(items).order, Grouped(items).groups) == |items|
  {
    var g := Grouped(items);
    forall c {
      GroupedByCategory(items, c);
    }
    SizeSumIsCountIn(g.order, items, g.groups);
    CountAll(items);
  }
}
