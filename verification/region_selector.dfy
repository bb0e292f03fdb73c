/**
 * The region cascade selector of the admin site: the province / city /
 * county option tree, the selection object handed to forms, and the
 * conversion back from a form value to a code path.
 */
module RegionSelector {
  import opened Wrappers
  import opened Text

  /** One entry of the bundled region data: an administrative code and its name. */
  datatype Place = Place(id: string, name: string)

  /** A cascader option; `children` is left undefined rather than empty. */
  datatype Node = Node(value: string, title: string, children: Option<seq<Node>>)

  /** `table[key] || []`: a missing lookup reads as an empty list. */
  function Lookup(table: map<string, seq<Place>>, key: string): (r: seq<Place>)
    ensures key in table ==> r == table[key]
    ensures key !in table ==> r == []
  {
    if key in table then table[key] else []
  }

  /** Children are set only when there is at least one. */
  function ChildrenOf(nodes: seq<Node>): (r: Option<seq<Node>>)
    ensures r.None? <==> |nodes| == 0
    ensures r.Some? ==> r.value == nodes
  {
    if |nodes| > 0 then Some(nodes) else None
  }

  function CountyNode(county: Place): Node {
    Node(county.id, county.name, None)
  }

  function CityNode(city: Place, countyData: map<string, seq<Place>>): (n: Node)
    ensures n.value == city.id && n.title == city.name
    ensures n.children.None? <==> |Lookup(countyData, city.id)| == 0
    ensures n.children.Some? ==> |n.children.value| == |Lookup(countyData, city.id)|
                                 && forall k :: 0 <= k < |n.children.value| ==>
                                      n.children.value[k] == Node(Lookup(countyData, city.id)[k].id, Lookup(countyData, city.id)[k].name, None)
  {
    var counties := Lookup(countyData, city.id);
    Node(city.id, city.name, ChildrenOf(seq(|counties|, k requires 0 <= k < |counties| => CountyNode(counties[k]))))
  }

  function ProvinceNode(province: Place, cityData: map<string, seq<Place>>, countyData: map<string, seq<Place>>): (n: Node)
    ensures n.value == province.id && n.title == province.name
    ensures n.children.None? <==> |Lookup(cityData, province.id)| == 0
    ensures n.children.Some? ==> |n.children.value| == |Lookup(cityData, province.id)|
                                 && forall j :: 0 <= j < |n.children.value| ==>
                                      n.children.value[j] == CityNode(Lookup(cityData, province.id)[j], countyData)
  {
    var cities := Lookup(cityData, province.id);
    Node(province.id, province.name, ChildrenOf(seq(|cities|, j requires 0 <= j < |cities| => CityNode(cities[j], countyData))))
  }

  /**
   * `processRegionData`: one node per province in input order, cities
   * looked up by province id, counties by city id.
   */
  function ProcessRegionData(provinces: seq<Place>, cityData: map<string, seq<Place>>, countyData: map<string, seq<Place>>)
    : (r: seq<Node>)
    ensures |r| == |provinces|
    ensures forall i :: 0 <= i < |r| ==> r[i] == ProvinceNode(provinces[i], cityData, countyData)
  {
    seq(|provinces|, i requires 0 <= i < |provinces| => ProvinceNode(provinces[i], cityData, countyData))
  }

  /**
   * `codes` is a complete selection in `nodes`: each code names an option
   * on the current level and the last one is a leaf.
   */
  predicate IsPath(nodes: seq<Node>, codes: seq<string>)
    decreases |codes|
  {
    |codes| > 0 &&
    exists i :: 0 <= i < |nodes| && nodes[i].value == codes[0] &&
      (if |codes| == 1 then nodes[i].children.None?
       else nodes[i].children.Some? && IsPath(nodes[i].children.value, codes[1..]))
  }

  /** A three-level path with the county found under the city found under the province. */
  predicate CountyPath(provinces: seq<Place>, cityData: map<string, seq<Place>>, countyData: map<string, seq<Place>>,
                       p: string, c: string, d: string)
  {
    (exists i :: 0 <= i < |provinces| && provinces[i].id == p) &&
    (exists j :: 0 <= j < |Lookup(cityData, p)| && Lookup(cityData, p)[j].id == c) &&
    (exists k :: 0 <= k < |Lookup(countyData, c)| && Lookup(countyData, c)[k].id == d)
  }

  /** A county code is a complete path below a city iff the county is listed under it. */
  lemma CountyLevel(city: Place, countyData: map<string, seq<Place>>, d: string)
    requires CityNode(city, countyData).children.Some?
    ensures IsPath(CityNode(city, countyData).children.value, [d])
            <==> exists k :: 0 <= k < |Lookup(countyData, city.id)| && Lookup(countyData, city.id)[k].id == d
  {
    var counties := CityNode(city, countyData).children.value;
    if k :| 0 <= k < |Lookup(countyData, city.id)| && Lookup(countyData, city.id)[k].id == d {
      assert counties[k].value == d && counties[k].children.None?;
    }
  }

  /** A city and county code are a complete path below a province iff the city is listed under it and the county under the city. */
  lemma CityLevel(province: Place, cityData: map<string, seq<Place>>, countyData: map<string, seq<Place>>, c: string, d: string)
    requires ProvinceNode(province, cityData, countyData).children.Some?
    ensures IsPath(ProvinceNode(province, cityData, countyData).children.value, [c, d])
            <==> (exists j :: 0 <= j < |Lookup(cityData, province.id)| && Lookup(cityData, province.id)[j].id == c)
                 && (exists k :: 0 <= k < |Lookup(countyData, c)| && Lookup(countyData, c)[k].id == d)
  {
    var cities := ProvinceNode(province, cityData, countyData).children.value;
    assert [c, d][1..] == [d];
    if IsPath(cities, [c, d]) {
      var j :| 0 <= j < |cities| && cities[j].value == c && cities[j].children.Some? && IsPath(cities[j].children.value, [d]);
      CountyLevel(Lookup(cityData, province.id)[j], countyData, d);
    }
    if j :| 0 <= j < |Lookup(cityData, province.id)| && Lookup(cityData, province.id)[j].id == c {
      if k :| 0 <= k < |Lookup(countyData, c)| && Lookup(countyData, c)[k].id == d {
        CountyLevel(Lookup(cityData, province.id)[j], countyData, d);
        assert cities[j].value == c;
      }
    }
  }

  lemma {:induction false} PathFromTree(provinces: seq<Place>, cityData: map<string, seq<Place>>,
                                        countyData: map<string, seq<Place>>, p: string, c: string, d: string)
    requires IsPath(ProcessRegionData(provinces, cityData, countyData), [p, c, d])
    ensures CountyPath(provinces, cityData, countyData, p, c, d)
  {
    var tree := ProcessRegionData(provinces, cityData, countyData);
    assert [p, c, d][1..] == [c, d];
    var i :| 0 <= i < |tree| && tree[i].value == p && tree[i].children.Some? && IsPath(tree[i].children.value, [c, d]);
    CityLevel(provinces[i], cityData, countyData, c, d);
  }

  lemma {:induction false} TreeFromPath(provinces: seq<Place>, cityData: map<string, seq<Place>>,
                                        countyData: map<string, seq<Place>>, p: string, c: string, d: string)
    requires CountyPath(provinces, cityData, countyData, p, c, d)
    ensures IsPath(ProcessRegionData(provinces, cityData, countyData), [p, c, d])
  {
    var tree := ProcessRegionData(provinces, cityData, countyData);
    assert [p, c, d][1..] == [c, d];
    var i :| 0 <= i < |provinces| && provinces[i].id == p;
    assert |Lookup(cityData, p)| > 0;
    CityLevel(provinces[i], cityData, countyData, c, d);
    assert tree[i].value == p;
  }

  /**
   * The tree offers exactly the province / city / county paths the data
   * holds: a selection of three codes is complete in the tree iff the
   * city is listed under the province and the county under the city.
   */
  lemma ThreeLevelPaths(provinces: seq<Place>, cityData: map<string, seq<Place>>,
                        countyData: map<string, seq<Place>>, p: string, c: string, d: string)
    ensures IsPath(ProcessRegionData(provinces, cityData, countyData), [p, c, d])
            <==> CountyPath(provinces, cityData, countyData, p, c, d)
  {
    if IsPath(ProcessRegionData(provinces, cityData, countyData), [p, c, d]) {
      PathFromTree(provinces, cityData, countyData, p, c, d);
    }
    if CountyPath(provinces, cityData, countyData, p, c, d) {
      TreeFromPath(provinces, cityData, countyData, p, c, d);
    }
  }

  /** `labels.join(" / ")`: the text shown for a selection. */
  function DisplayRender(labels: seq<string>): string {
    Join(labels, " / ")
  }

  lemma DisplayThree(province: string, city: string, county: string)
    ensures DisplayRender([province, city, county]) == province + " / " + city + " / " + county
  {
    JoinThree(province, city, county, " / ");
  }

  /**
   * A region value as forms hold it. Every key may be absent: the
   * selector fills them all, the edit forms only some.
   */
  datatype RegionInfo = RegionInfo(provinceCode: Option<string>, provinceName: Option<string>,
                                   cityCode: Option<string>, cityName: Option<string>,
                                   districtCode: Option<string>, districtName: Option<string>,
                                   codes: Option<seq<string>>, names: Option<string>)

  /** What a form field may hold: nothing, a bare code array, or an object. */
  datatype FormValue = Missing | Codes(path: seq<string>) | Info(info: RegionInfo)

  /** `xs[i]` in JavaScript: `undefined` past the end. */
  function At(xs: seq<string>, i: nat): (r: Option<string>)
    ensures r.Some? <==> i < |xs|
    ensures i < |xs| ==> r.value == xs[i]
  {
    if i < |xs| then Some(xs[i]) else None
  }

  /**
   * `handleChange`: the selected codes (one per level, as the cascader
   * reports them) with the labels of the chosen options.
   */
  function HandleChange(selected: seq<string>, labels: seq<string>): (r: RegionInfo)
    ensures r.codes == Some(selected)
    ensures r.names == Some(DisplayRender(labels))
  {
    RegionInfo(At(selected, 0), At(labels, 0), At(selected, 1), At(labels, 1), At(selected, 2), At(labels, 2),
               Some(selected), Some(DisplayRender(labels)))
  }

  /** `.filter(Boolean)` over optional strings. */
  function Compact(xs: seq<Option<string>>): (r: seq<string>)
    ensures |r| <= |xs|
    ensures forall i :: 0 <= i < |r| ==> r[i] != ""
    ensures (forall i :: 0 <= i < |xs| ==> Truthy(xs[i])) ==> |r| == |xs| && forall i :: 0 <= i < |r| ==> r[i] == xs[i].value
  {
    if |xs| == 0 then []
    else (if Truthy(xs[0]) then [xs[0].value] else []) + Compact(xs[1..])
  }

  /**
   * `convertToValue`: nothing selects nothing, an array is used as it is,
   * and an object contributes its three code keys with falsy ones dropped.
   */
  function ConvertToValue(v: FormValue): (r: seq<string>)
    ensures v.Missing? ==> r == []
    ensures v.Codes? ==> r == v.path
    ensures v.Info? ==> |r| <= 3 && forall i :: 0 <= i < |r| ==> r[i] != ""
  {
    match v
    case Missing => []
    case Codes(path) => path
    case Info(info) => Compact([info.provinceCode, info.cityCode, info.districtCode])
  }

  /** `codes` holds one non-empty code per level for at most three levels. */
  predicate CodePath(codes: seq<string>) {
    |codes| <= 3 && forall i :: 0 <= i < |codes| ==> codes[i] != ""
  }

  /**
   * The object the selector hands out converts back to the selection it
   * came from, whichever level the user stopped at.
   */
  lemma {:induction false} SelectionRoundTrip(selected: seq<string>, labels: seq<string>)
    requires CodePath(selected)
    ensures ConvertToValue(Info(HandleChange(selected, labels))) == selected
  {
    var info := HandleChange(selected, labels);
    ConvertInfo(info);
    if |selected| == 0 {
    } else if |selected| == 1 {
      assert selected == [selected[0]];
    } else if |selected| == 2 {
      assert selected == [selected[0]] + [selected[1]];
    } else {
      assert selected == [selected[0]] + [selected[1]] + [selected[2]];
    }
  }

  /** One slot of `[provinceCode, cityCode, districtCode].filter(Boolean)`. */
  function Keep(o: Option<string>): (r: seq<string>)
    ensures Truthy(o) ==> r == [o.value]
    ensures !Truthy(o) ==> r == []
  {
    if Truthy(o) then [o.value] else []
  }

  /** An object converts slot by slot: each truthy code key contributes itself, in order. */
  lemma {:induction false} ConvertInfo(info: RegionInfo)
    ensures ConvertToValue(Info(info)) == Keep(info.provinceCode) + Keep(info.cityCode) + Keep(info.districtCode)
  {
    var slots := [info.provinceCode, info.cityCode, info.districtCode];
    assert slots[1..] == [info.cityCode, info.districtCode];
    assert slots[1..][1..] == [info.districtCode];
    assert slots[1..][1..][1..] == [];
    assert Compact(slots[1..][1..]) == Keep(info.districtCode) + Compact([]);
    assert Compact(slots[1..]) == Keep(info.cityCode) + Compact(slots[1..][1..]);
    assert Compact(slots) == Keep(info.provinceCode) + Compact(slots[1..]);
  }
}
