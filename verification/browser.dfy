/**
 * `Browser`: the query parameters the gobo browser sends to the API (sorting,
 * the 1-based page and the page count) and which list it shows.
 */
module Browser {
  import opened Wrappers
  import opened Numerals

  datatype SortDirection = Asc | Desc

  /** The enum's string value. */
  function DirectionValue(d: SortDirection): string {
    if d.Asc? then "asc" else "desc"
  }

  /** A plain object with string keys: its properties in insertion order. */
  type Record<V> = seq<(string, V)>

  predicate DistinctKeys<V>(o: Record<V>) {
    forall i, j | 0 <= i < j < |o| :: o[i].0 != o[j].0
  }

  function KeysOf<V>(o: Record<V>): (ks: seq<string>)
    ensures |ks| == |o|
  {
    if |o| == 0 then [] else [o[0].0] + KeysOf(o[1..])
  }

  /** `o[k]`, or `None` for a missing property. */
  function Get<V>(o: Record<V>, k: string): Option<V> {
    if |o| == 0 then None else if o[0].0 == k then Some(o[0].1) else Get(o[1..], k)
  }

  /**
   * `o[k] = v`: an existing property keeps its place and takes the new value,
   * a new one is added at the end.
   */
  function Put<V>(o: Record<V>, k: string, v: V): (r: Record<V>)
    ensures Get(r, k) == Some(v)
    ensures forall k' :: k' != k ==> Get(r, k') == Get(o, k')
    ensures KeysOf(r) == if Get(o, k).Some? then KeysOf(o) else KeysOf(o) + [k]
    ensures DistinctKeys(o) ==> DistinctKeys(r)
  {
    if |o| == 0 then
      [(k, v)]
    else if o[0].0 == k then
      [(k, v)] + o[1..]
    else
      var rest := Put(o[1..], k, v);
      var r := [o[0]] + rest;
      assert r[1..] == rest;
      assert KeysOf(o) == [o[0].0] + KeysOf(o[1..]);
      NotInKeys(o[1..], o[0].0);
      NotInKeys(rest, o[0].0);
      assert DistinctKeys(o) ==> DistinctKeys(o[1..]) && forall i | 0 <= i < |o[1..]| :: o[1..][i].0 != o[0].0;
      r
  }

  lemma {:induction false} NotInKeys<V>(o: Record<V>, k: string)
    ensures Get(o, k).None? <==> forall i | 0 <= i < |o| :: o[i].0 != k
    decreases |o|
  {
    if |o| > 0 {
      NotInKeys(o[1..], k);
      assert forall i | 1 <= i < |o| :: o[i] == o[1..][i - 1];
    }
  }

  /** `Object.assign(target, source)` for one source. */
  function Assign<V>(target: Record<V>, source: Record<V>): Record<V>
    decreases |source|
  {
    if |source| == 0 then target
    else Assign(Put(target, source[0].0, source[0].1), source[1..])
  }

  /** After `Object.assign` a property holds the source's value if the source has it, else the target's. */
  lemma {:induction false} AssignGet<V>(target: Record<V>, source: Record<V>, k: string)
    requires DistinctKeys(source)
    ensures Get(Assign(target, source), k) == if Get(source, k).Some? then Get(source, k) else Get(target, k)
    decreases |source|
  {
    if |source| > 0 {
      assert DistinctKeys(source[1..]);
      NotInKeys(source[1..], source[0].0);
      AssignGet(Put(target, source[0].0, source[0].1), source[1..], k);
    }
  }

  /** One entry of react-table's `sortBy` state; a missing `desc` reads as false. */
  datatype SortRule = SortRule(id: string, desc: bool)

  /** The `sortMap` memo: each column id mapped to its direction. */
  function SortMap(sortBy: seq<SortRule>): Record<SortDirection>
    decreases |sortBy|
  {
    if |sortBy| == 0 then []
    else
      var rule := sortBy[|sortBy| - 1];
      Put(SortMap(sortBy[..|sortBy| - 1]), rule.id, if rule.desc then Desc else Asc)
  }

  /** The direction of the last rule for `id`, if any. */
  function LastRuleFor(sortBy: seq<SortRule>, id: string): Option<SortDirection>
    decreases |sortBy|
  {
    if |sortBy| == 0 then None
    else if sortBy[|sortBy| - 1].id == id then Some(if sortBy[|sortBy| - 1].desc then Desc else Asc)
    else LastRuleFor(sortBy[..|sortBy| - 1], id)
  }

  /** Column ids whose API field has another name. */
  const SortFieldMap: map<string, string> := map["name" := "name", "code" := "sortWeight"]

  /** `sortFieldMap[k] ?? k`. */
  function SortField(fieldMap: map<string, string>, k: string): string {
    if k in fieldMap then fieldMap[k] else k
  }

  /** `${param}[${field}]`. */
  function OrderKey(param: string, field: string): (key: string)
    ensures |key| == |param| + |field| + 2
    ensures key[..|param|] == param && key[|param|] == '['
  {
    param + "[" + field + "]"
  }

  /** `buildOrderParams`. */
  function BuildOrderParams(sortBy: Record<SortDirection>, fieldMap: map<string, string>, param: string): Record<string>
    decreases |sortBy|
  {
    if |sortBy| == 0 then []
    else
      var (k, v) := sortBy[|sortBy| - 1];
      Put(BuildOrderParams(sortBy[..|sortBy| - 1], fieldMap, param), OrderKey(param, SortField(fieldMap, k)), DirectionValue(v))
  }

  /** The direction of the last sort whose field maps to `key`, if any. */
  function LastSortFor(sortBy: Record<SortDirection>, fieldMap: map<string, string>, param: string, key: string): Option<string>
    decreases |sortBy|
  {
    if |sortBy| == 0 then None
    else
      var (k, v) := sortBy[|sortBy| - 1];
      if OrderKey(param, SortField(fieldMap, k)) == key then Some(DirectionValue(v))
      else LastSortFor(sortBy[..|sortBy| - 1], fieldMap, param, key)
  }

  /** The memo gives each column the direction of its last rule: `desc` exactly when that rule says so. */
  lemma {:induction false} SortMapSpec(sortBy: seq<SortRule>)
    ensures DistinctKeys(SortMap(sortBy))
    ensures forall id :: Get(SortMap(sortBy), id) == LastRuleFor(sortBy, id)
    decreases |sortBy|
  {
    if |sortBy| > 0 {
      SortMapSpec(sortBy[..|sortBy| - 1]);
    }
  }

  /**
   * The order parameters: distinct keys, no more than there are sorts, and
   * under every key the direction of the last sort that maps to it, so that
   * later sorts on the same field win.
   */
  lemma {:induction false} OrderParamsSpec(sortBy: Record<SortDirection>, fieldMap: map<string, string>, param: string)
    ensures DistinctKeys(BuildOrderParams(sortBy, fieldMap, param))
    ensures |BuildOrderParams(sortBy, fieldMap, param)| <= |sortBy|
    ensures forall key :: Get(BuildOrderParams(sortBy, fieldMap, param), key) == LastSortFor(sortBy, fieldMap, param, key)
    decreases |sortBy|
  {
    if |sortBy| > 0 {
      OrderParamsSpec(sortBy[..|sortBy| - 1], fieldMap, param);
    }
  }

  /** Every order parameter is named `param[field]` after some sorted column. */
  lemma {:induction false} OrderKeysNameColumns(sortBy: Record<SortDirection>, fieldMap: map<string, string>, param: string, key: string)
    requires LastSortFor(sortBy, fieldMap, param, key).Some?
    ensures exists j :: 0 <= j < |sortBy| && key == OrderKey(param, SortField(fieldMap, sortBy[j].0))
    decreases |sortBy|
  {
    var n := |sortBy| - 1;
    if OrderKey(param, SortField(fieldMap, sortBy[n].0)) != key {
      OrderKeysNameColumns(sortBy[..n], fieldMap, param, key);
      var j :| 0 <= j < n && key == OrderKey(param, SortField(fieldMap, sortBy[..n][j].0));
      assert sortBy[..n][j] == sortBy[j];
    }
  }

  lemma OrderOfOne(id: string, d: SortDirection)
    ensures SortMap([SortRule(id, d.Desc?)]) == [(id, d)]
    ensures BuildOrderParams([(id, d)], SortFieldMap, "order") == [(OrderKey("order", SortField(SortFieldMap, id)), DirectionValue(d))]
  {
  }

  /** The table's columns sort by these API fields. */
  lemma ColumnOrderFields()
    ensures BuildOrderParams(SortMap([SortRule("code", false)]), SortFieldMap, "order") == [("order[sortWeight]", "asc")]
    ensures BuildOrderParams(SortMap([SortRule("name", true)]), SortFieldMap, "order") == [("order[name]", "desc")]
    ensures BuildOrderParams(SortMap([SortRule("imageId", false)]), SortFieldMap, "order") == [("order[imageId]", "asc")]
  {
    assert OrderKey("order", "sortWeight") == "order[sortWeight]";
    assert OrderKey("order", "name") == "order[name]";
    assert OrderKey("order", "imageId") == "order[imageId]";
    OrderOfOne("code", Asc);
    OrderOfOne("name", Desc);
    OrderOfOne("imageId", Asc);
    assert SortField(SortFieldMap, "code") == "sortWeight";
    assert SortField(SortFieldMap, "name") == "name";
    assert "imageId" !in SortFieldMap by {
      assert "imageId"[0] == 'i' && "name"[0] == 'n' && "code"[0] == 'c';
    }
  }

  /** The table's page size. */
  const PageSize := 10

  /** The API counts pages from 1, the table from 0. */
  function PageParam(pageIndex: nat): nat {
    pageIndex + 1
  }

  /** `Math.ceil(totalItems / pageSize)`: the fewest pages that hold every item. */
  function PageCount(totalItems: nat, pageSize: nat): (n: nat)
    requires pageSize > 0
    ensures n * pageSize >= totalItems
    ensures n == 0 || (n - 1) * pageSize < totalItems
  {
    var n := (totalItems + pageSize - 1) / pageSize;
    assert n * pageSize + (totalItems + pageSize - 1) % pageSize == totalItems + pageSize - 1;
    n
  }

  /** The query of `NameFilteredGoboList`'s fetcher. */
  function NameFilterQuery(code: string, name: string, pageIndex: nat, pageSize: nat, sortBy: Record<SortDirection>): Record<string> {
    Assign([("code", code), ("name", name),
            ("page", IntToString(PageParam(pageIndex))), ("itemsPerPage", IntToString(pageSize))],
           BuildOrderParams(sortBy, SortFieldMap, "order"))
  }

  /** The query of `MaterialTab`'s fetcher. */
  function SeriesQuery(materialId: int, seriesId: int, pageIndex: nat, pageSize: nat, sortBy: Record<SortDirection>): Record<string> {
    Assign([("material", IntToString(materialId)), ("manufacturer", IntToString(seriesId)),
            ("page", IntToString(PageParam(pageIndex))), ("itemsPerPage", IntToString(pageSize))],
           BuildOrderParams(sortBy, SortFieldMap, "order"))
  }

  /** An order parameter is never named like a filter or paging parameter. */
  lemma OrderParamsMissBaseKeys(sortBy: Record<SortDirection>, key: string)
    requires |key| > 0 && key[0] != 'o'
    ensures Get(BuildOrderParams(sortBy, SortFieldMap, "order"), key) == None
  {
    OrderParamsSpec(sortBy, SortFieldMap, "order");
    if LastSortFor(sortBy, SortFieldMap, "order", key).Some? {
      OrderKeysNameColumns(sortBy, SortFieldMap, "order", key);
    }
  }

  /** Adding the order parameters to a query keeps every property not named `order[...]`. */
  lemma OrderKeepsQuery(base: Record<string>, sortBy: Record<SortDirection>, key: string)
    requires |key| > 0 && key[0] != 'o'
    ensures Get(Assign(base, BuildOrderParams(sortBy, SortFieldMap, "order")), key) == Get(base, key)
  {
    OrderParamsSpec(sortBy, SortFieldMap, "order");
    OrderParamsMissBaseKeys(sortBy, key);
    AssignGet(base, BuildOrderParams(sortBy, SortFieldMap, "order"), key);
  }

  /** Every order parameter reaches a query that has no property of that name. */
  lemma QueryCarriesOrder(base: Record<string>, sortBy: Record<SortDirection>, key: string)
    requires Get(base, key) == None
    ensures Get(Assign(base, BuildOrderParams(sortBy, SortFieldMap, "order")), key)
            == Get(BuildOrderParams(sortBy, SortFieldMap, "order"), key)
  {
    OrderParamsSpec(sortBy, SortFieldMap, "order");
    AssignGet(base, BuildOrderParams(sortBy, SortFieldMap, "order"), key);
  }

  /** A four-property object literal. */
  lemma FourFields<V>(k0: string, v0: V, k1: string, v1: V, k2: string, v2: V, k3: string, v3: V)
    requires k0 != k1 && k0 != k2 && k0 != k3 && k1 != k2 && k1 != k3 && k2 != k3
    ensures var o := [(k0, v0), (k1, v1), (k2, v2), (k3, v3)];
            Get(o, k0) == Some(v0) && Get(o, k1) == Some(v1) && Get(o, k2) == Some(v2) && Get(o, k3) == Some(v3)
  {
    var o := [(k0, v0), (k1, v1), (k2, v2), (k3, v3)];
    assert o[1..] == [(k1, v1), (k2, v2), (k3, v3)];
    assert o[1..][1..] == [(k2, v2), (k3, v3)];
    assert o[1..][1..][1..] == [(k3, v3)];
    assert Get(o[1..][1..], k2) == Some(v2);
    assert Get(o[1..][1..][1..], k3) == Some(v3);
    assert Get(o[1..][1..], k3) == Some(v3);
  }

  /**
   * A four-property query with the order parameters assigned over it: the
   * four properties survive, and every `order[...]` property is the order
   * parameter of that name.
   */
  lemma OrderedQuery(k0: string, v0: string, k1: string, v1: string, k2: string, v2: string,
                                        k3: string, v3: string, sortBy: Record<SortDirection>)
    requires k0 != k1 && k0 != k2 && k0 != k3 && k1 != k2 && k1 != k3 && k2 != k3
    requires |k0| > 0 && k0[0] != 'o' && |k1| > 0 && k1[0] != 'o'
    requires |k2| > 0 && k2[0] != 'o' && |k3| > 0 && k3[0] != 'o'
    ensures var q := Assign([(k0, v0), (k1, v1), (k2, v2), (k3, v3)], BuildOrderParams(sortBy, SortFieldMap, "order"));
            && Get(q, k0) == Some(v0) && Get(q, k1) == Some(v1) && Get(q, k2) == Some(v2) && Get(q, k3) == Some(v3)
            && forall k | |k| > 0 && k[0] == 'o' :: Get(q, k) == Get(BuildOrderParams(sortBy, SortFieldMap, "order"), k)
  {
    var base := [(k0, v0), (k1, v1), (k2, v2), (k3, v3)];
    FourFields(k0, v0, k1, v1, k2, v2, k3, v3);
    OrderKeepsQuery(base, sortBy, k0);
    OrderKeepsQuery(base, sortBy, k1);
    OrderKeepsQuery(base, sortBy, k2);
    OrderKeepsQuery(base, sortBy, k3);
    forall k | |k| > 0 && k[0] == 'o'
      ensures Get(Assign(base, BuildOrderParams(sortBy, SortFieldMap, "order")), k)
              == Get(BuildOrderParams(sortBy, SortFieldMap, "order"), k)
    {
      NotInKeys(base, k);
      QueryCarriesOrder(base, sortBy, k);
    }
  }

  /**
   * Sorting never overrides the filters or the paging: the fetch asks for the
   * filtered gobos on page `pageIndex + 1`, and every `order[...]` property of
   * the query is the order parameter of that name.
   */
  lemma NameFilterQuerySpec(code: string, name: string, pageIndex: nat, pageSize: nat, sortBy: Record<SortDirection>)
    ensures var q := NameFilterQuery(code, name, pageIndex, pageSize, sortBy);
            && Get(q, "code") == Some(code)
            && Get(q, "name") == Some(name)
            && Get(q, "page") == Some(IntToString(pageIndex + 1))
            && Get(q, "itemsPerPage") == Some(IntToString(pageSize))
            && forall k | |k| > 0 && k[0] == 'o' :: Get(q, k) == Get(BuildOrderParams(sortBy, SortFieldMap, "order"), k)
  {
    assert PageParam(pageIndex) == pageIndex + 1;
    var page, size := IntToString(pageIndex + 1), IntToString(pageSize);
    assert "code"[0] == 'c' && "name"[0] == 'n' && "page"[0] == 'p' && "itemsPerPage"[0] == 'i';
    OrderedQuery("code", code, "name", name, "page", page, "itemsPerPage", size, sortBy);
    assert NameFilterQuery(code, name, pageIndex, pageSize, sortBy)
        == Assign([("code", code), ("name", name), ("page", page), ("itemsPerPage", size)],
                  BuildOrderParams(sortBy, SortFieldMap, "order"));
  }

  /** The same for the manufacturer and material tabs. */
  lemma SeriesQuerySpec(materialId: int, seriesId: int, pageIndex: nat, pageSize: nat, sortBy: Record<SortDirection>)
    ensures var q := SeriesQuery(materialId, seriesId, pageIndex, pageSize, sortBy);
            && Get(q, "material") == Some(IntToString(materialId))
            && Get(q, "manufacturer") == Some(IntToString(seriesId))
            && Get(q, "page") == Some(IntToString(pageIndex + 1))
            && Get(q, "itemsPerPage") == Some(IntToString(pageSize))
            && forall k | |k| > 0 && k[0] == 'o' :: Get(q, k) == Get(BuildOrderParams(sortBy, SortFieldMap, "order"), k)
  {
    var material, series := IntToString(materialId), IntToString(seriesId);
    assert PageParam(pageIndex) == pageIndex + 1;
    var page, size := IntToString(pageIndex + 1), IntToString(pageSize);
    assert "material"[0] == 'm' && "manufacturer"[0] == 'm' && "page"[0] == 'p' && "itemsPerPage"[0] == 'i';
    assert |"material"| == 8 && |"manufacturer"| == 12;
    OrderedQuery("material", material, "manufacturer", series, "page", page, "itemsPerPage", size, sortBy);
    assert SeriesQuery(materialId, seriesId, pageIndex, pageSize, sortBy)
        == Assign([("material", material), ("manufacturer", series), ("page", page), ("itemsPerPage", size)],
                  BuildOrderParams(sortBy, SortFieldMap, "order"));
  }

  /** The name/code search results are shown. */
  predicate ShowsFilteredList(filterCode: string, filterName: string) {
    |filterCode| > 0 || |filterName| > 0
  }

  /** The manufacturer tabs are shown. */
  predicate ShowsManufacturerTabs(filterCode: string, filterName: string, manufacturersLoaded: bool) {
    |filterCode| == 0 && |filterName| == 0 && manufacturersLoaded
  }

  /** The two views exclude each other, and once manufacturers are loaded one of them shows. */
  lemma OneViewAtATime(filterCode: string, filterName: string, manufacturersLoaded: bool)
    ensures !(ShowsFilteredList(filterCode, filterName) && ShowsManufacturerTabs(filterCode, filterName, manufacturersLoaded))
    ensures manufacturersLoaded ==>
              ShowsFilteredList(filterCode, filterName) || ShowsManufacturerTabs(filterCode, filterName, manufacturersLoaded)
  {
  }
}
