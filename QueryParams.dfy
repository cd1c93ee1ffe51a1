/**
 * The query-parameter classifier of 493999/b1/b1.go. NewQueryParams sorts
 * URL values into four predefined fields (matched case-insensitively), the
 * filters (keys starting with "filter_") and everything else; ApplyToQuery
 * writes them back into another set of URL values.
 *
 * Go's map iteration order is a parameter: each loop over a map takes the
 * order in which it visits the keys.
 */
module QueryParams {
  import opened Wrappers
  import opened GoStrings

  type Values = map<string, seq<string>>

  const FilterPrefix: string := "filter_"
  const DefaultPage: int := 1
  const DefaultPageSize: int := 10

  /** The fields of a QueryParams. */
  datatype Params = Params(
    filters: map<string, seq<string>>,
    sortField: string,
    sortOrder: string,
    page: int,
    pageSize: int,
    extra: Values)

  const Empty: Params := Params(map[], "", "", 0, 0, map[])

  function Lookup(qr: Values, key: string): seq<string> {
    if key in qr then qr[key] else []
  }

  /** The lower-cased keys that NewQueryParams treats specially. */
  predicate Special(word: string) {
    word == "sortfield" || word == "sortorder" || word == "page" || word == "pagesize"
  }

  /** parseInt: the integer s spells, or the default when it spells none. */
  function ParseInt(s: string, defaultValue: int): (v: int)
    ensures Atoi(s).Some? ==> v == Atoi(s).value
    ensures Atoi(s).None? ==> v == defaultValue
  {
    match Atoi(s)
    case Some(value) => value
    case None => defaultValue
  }

  /** The keys of a map, each exactly once: one iteration order. */
  predicate Enumerates<V>(m: map<string, V>, order: seq<string>) {
    && (forall i, j | 0 <= i < j < |order| :: order[i] != order[j])
    && (forall i | 0 <= i < |order| :: order[i] in m)
    && (forall k | k in m :: k in order)
  }

  /** A predefined key always has a first value to take. */
  predicate Indexable(values: Values) {
    forall k | k in values && Special(ToLower(k)) :: |values[k]| > 0
  }

  // ---------------------------------------------------------------------
  // NewQueryParams

  /** One iteration of the first loop. */
  function Classify(p: Params, key: string, vs: seq<string>): Params
    requires Special(ToLower(key)) ==> |vs| > 0
  {
    var word := ToLower(key);
    if word == "sortfield" then p.(sortField := vs[0])
    else if word == "sortorder" then p.(sortOrder := vs[0])
    else if word == "page" then p.(page := ParseInt(vs[0], DefaultPage))
    else if word == "pagesize" then p.(pageSize := ParseInt(vs[0], DefaultPageSize))
    else p.(extra := p.extra[key := vs])
  }

  /** The last key in the order that lower-cases to word. */
  function Last(order: seq<string>, word: string): (r: Option<string>)
    ensures r.Some? ==> r.value in order && ToLower(r.value) == word
    decreases |order|
  {
    if order == [] then None
    else if ToLower(order[|order| - 1]) == word then Some(order[|order| - 1])
    else Last(order[..|order| - 1], word)
  }

  /** The first value of the key Last finds, if any. */
  function FirstValue(values: Values, order: seq<string>, word: string): Option<string>
    requires forall i | 0 <= i < |order| :: order[i] in values
    requires Indexable(values) && Special(word)
  {
    match Last(order, word)
    case None => None
    case Some(k) => Some(values[k][0])
  }

  /** The first loop over a prefix of the iteration order. */
  function ClassifyAll(values: Values, order: seq<string>): (p: Params)
    requires forall i | 0 <= i < |order| :: order[i] in values
    requires Indexable(values)
    ensures p.filters == map[]
    decreases |order|
  {
    if order == [] then Empty
    else
      var key := order[|order| - 1];
      Classify(ClassifyAll(values, order[..|order| - 1]), key, values[key])
  }

  /**
   * Each predefined field holds the first value of the last key visited
   * that names it, and its zero value when no key does.
   */
  lemma {:induction false} ClassifyAllFields(values: Values, order: seq<string>)
    requires forall i | 0 <= i < |order| :: order[i] in values
    requires Indexable(values)
    ensures var p := ClassifyAll(values, order);
      && p.sortField == (match FirstValue(values, order, "sortfield") case None => "" case Some(v) => v)
      && p.sortOrder == (match FirstValue(values, order, "sortorder") case None => "" case Some(v) => v)
      && p.page == (match FirstValue(values, order, "page") case None => 0 case Some(v) => ParseInt(v, DefaultPage))
      && p.pageSize == (match FirstValue(values, order, "pagesize") case None => 0 case Some(v) => ParseInt(v, DefaultPageSize))
    decreases |order|
  {
    if order != [] {
      ClassifyAllFields(values, order[..|order| - 1]);
    }
  }

  /** The extras are exactly the other keys visited, with all their values. */
  lemma {:induction false} ClassifyAllExtras(values: Values, order: seq<string>)
    requires forall i | 0 <= i < |order| :: order[i] in values
    requires Indexable(values)
    ensures forall k :: k in ClassifyAll(values, order).extra <==> k in order && !Special(ToLower(k))
    ensures forall k | k in ClassifyAll(values, order).extra :: ClassifyAll(values, order).extra[k] == values[k]
    decreases |order|
  {
    if order != [] {
      var init := order[..|order| - 1];
      var key := order[|order| - 1];
      assert forall k :: k in order <==> k in init || k == key;
      ClassifyAllExtras(values, init);
    }
  }

  /** One iteration of the second loop. */
  function CollectFilter(filters: map<string, seq<string>>, key: string, vs: seq<string>): map<string, seq<string>> {
    if HasPrefix(key, FilterPrefix) then filters[TrimPrefix(key, FilterPrefix) := vs] else filters
  }

  /** The second loop over a prefix of the iteration order. */
  function CollectFilters(filters: map<string, seq<string>>, values: Values, order: seq<string>): map<string, seq<string>>
    requires forall i | 0 <= i < |order| :: order[i] in values
    decreases |order|
  {
    if order == [] then filters
    else
      var key := order[|order| - 1];
      CollectFilter(CollectFilters(filters, values, order[..|order| - 1]), key, values[key])
  }

  /** Starting empty, field f holds the values of key "filter_" + f, for exactly the keys visited. */
  lemma {:induction false} CollectFiltersExact(values: Values, order: seq<string>)
    requires forall i | 0 <= i < |order| :: order[i] in values
    ensures forall f :: f in CollectFilters(map[], values, order) <==> FilterPrefix + f in order
    ensures forall f | f in CollectFilters(map[], values, order) ::
      CollectFilters(map[], values, order)[f] == values[FilterPrefix + f]
    decreases |order|
  {
    if order != [] {
      var init := order[..|order| - 1];
      var key := order[|order| - 1];
      assert forall k :: k in order <==> k in init || k == key;
      CollectFiltersExact(values, init);
      forall f | FilterPrefix + f == key
        ensures HasPrefix(key, FilterPrefix) && f == TrimPrefix(key, FilterPrefix)
      {
        assert key[..|FilterPrefix|] == FilterPrefix;
      }
    }
  }

  /** What NewQueryParams returns for the given iteration order. */
  function New(values: Values, order: seq<string>): Params
    requires Enumerates(values, order) && Indexable(values)
  {
    var p := ClassifyAll(values, order);
    p.(filters := CollectFilters(p.filters, values, order))
  }

  method NewQueryParams(values: Values, order: seq<string>) returns (params: Params)
    requires Enumerates(values, order) && Indexable(values)
    ensures params == New(values, order)
  {
    params := ClassifyValues(values, order);
    var filters := CollectFilterValues(values, order);
    params := params.(filters := filters);
  }

  /** The first loop of NewQueryParams: predefined fields and extra parameters. */
  method ClassifyValues(values: Values, order: seq<string>) returns (params: Params)
    requires forall i | 0 <= i < |order| :: order[i] in values
    requires Indexable(values)
    ensures params == ClassifyAll(values, order)
  {
    params := Empty;
    var i := 0;
    while i < |order|
      invariant 0 <= i <= |order|
      invariant params == ClassifyAll(values, order[..i])
    {
      var key := order[i];
      var vs := values[key];
      assert order[..i + 1][..i] == order[..i];
      var word := ToLower(key);
      if word == "sortfield" {
        params := params.(sortField := vs[0]);
      } else if word == "sortorder" {
        params := params.(sortOrder := vs[0]);
      } else if word == "page" {
        params := params.(page := ParseInt(vs[0], DefaultPage));
      } else if word == "pagesize" {
        params := params.(pageSize := ParseInt(vs[0], DefaultPageSize));
      } else {
        params := params.(extra := params.extra[key := vs]);
      }
      i := i + 1;
    }
    assert order[..i] == order;
  }

  /** The second loop of NewQueryParams: every "filter_" key, prefix removed. */
  method CollectFilterValues(values: Values, order: seq<string>) returns (filters: map<string, seq<string>>)
    requires forall i | 0 <= i < |order| :: order[i] in values
    ensures filters == CollectFilters(map[], values, order)
  {
    filters := map[];
    var i := 0;
    while i < |order|
      invariant 0 <= i <= |order|
      invariant filters == CollectFilters(map[], values, order[..i])
    {
      var key := order[i];
      assert order[..i + 1][..i] == order[..i];
      if HasPrefix(key, FilterPrefix) {
        var field := TrimPrefix(key, FilterPrefix);
        filters := filters[field := values[key]];
      }
      i := i + 1;
    }
    assert order[..i] == order;
  }

  /** A filter key lower-cases to a word starting with 'f', so it is never predefined. */
  lemma FilterKeyNotSpecial(key: string)
    requires HasPrefix(key, FilterPrefix)
    ensures !Special(ToLower(key))
  {
    assert key[0] == FilterPrefix[0];
    assert ToLower(key)[0] == 'f';
  }

  /**
   * The filters are exactly the "filter_" keys with the prefix dropped, and
   * every such key is kept in the extras as well, under its full name.
   */
  lemma NewFilters(values: Values, order: seq<string>)
    requires Enumerates(values, order) && Indexable(values)
    ensures forall f :: f in New(values, order).filters <==> FilterPrefix + f in values
    ensures forall f | f in New(values, order).filters ::
      && New(values, order).filters[f] == values[FilterPrefix + f]
      && FilterPrefix + f in New(values, order).extra
      && New(values, order).extra[FilterPrefix + f] == values[FilterPrefix + f]
  {
    var p := New(values, order);
    CollectFiltersExact(values, order);
    ClassifyAllExtras(values, order);
    forall f | f in p.filters
      ensures FilterPrefix + f in p.extra
    {
      var key := FilterPrefix + f;
      assert key[..|FilterPrefix|] == FilterPrefix;
      FilterKeyNotSpecial(key);
    }
  }

  /** The extras are exactly the keys that are not predefined, with all their values. */
  lemma NewExtras(values: Values, order: seq<string>)
    requires Enumerates(values, order) && Indexable(values)
    ensures forall k :: k in New(values, order).extra <==> k in values && !Special(ToLower(k))
    ensures forall k | k in New(values, order).extra :: New(values, order).extra[k] == values[k]
  {
    ClassifyAllExtras(values, order);
  }

  /**
   * A page that is set but not a number reads as page 1, one that is
   * absent as page 0.
   */
  lemma PageDefaults(values: Values, order: seq<string>)
    requires Enumerates(values, order) && Indexable(values)
    ensures Last(order, "page").None? ==> New(values, order).page == 0
    ensures Last(order, "page").Some? && Atoi(values[Last(order, "page").value][0]).None? ==>
      New(values, order).page == DefaultPage
  {
    ClassifyAllFields(values, order);
  }

  /**
   * "page" and "PAGE" in one query: which one wins depends on the order in
   * which the map is visited.
   */
  lemma CaseVariantsDependOnOrder()
    ensures var values := map["page" := ["2"], "PAGE" := ["3"]];
      && New(values, ["page", "PAGE"]).page == 3
      && New(values, ["PAGE", "page"]).page == 2
  {
    var values := map["page" := ["2"], "PAGE" := ["3"]];
    assert ToLower("PAGE") == "page";
    assert ToLower("page") == "page";
    assert Atoi("2") == Some(2);
    assert Atoi("3") == Some(3);
    assert Last(["page", "PAGE"], "page") == Some("PAGE");
    assert Last(["PAGE", "page"], "page") == Some("page");
    assert ["page", "PAGE"][..1] == ["page"];
    assert ["PAGE", "page"][..1] == ["PAGE"];
  }

  // ---------------------------------------------------------------------
  // ApplyToQuery

  /** url.Values.Add */
  function Add(query: Values, key: string, value: string): Values {
    query[key := Lookup(query, key) + [value]]
  }

  /** addParam: adds the value unless it is empty. */
  function AddParam(query: Values, key: string, value: string): (r: Values)
    ensures value == "" ==> r == query
    ensures value != "" ==> Lookup(r, key) == Lookup(query, key) + [value]
    ensures forall k | k != key :: Lookup(r, k) == Lookup(query, k)
  {
    if value != "" then Add(query, key, value) else query
  }

  /** The four predefined parameters; page and page size are always written. */
  function AddPredefined(p: Params, query: Values): (r: Values)
    ensures Lookup(r, "sortfield") == Lookup(query, "sortfield") + (if p.sortField != "" then [p.sortField] else [])
    ensures Lookup(r, "sortorder") == Lookup(query, "sortorder") + (if p.sortOrder != "" then [p.sortOrder] else [])
    ensures Lookup(r, "page") == Lookup(query, "page") + [Itoa(p.page)]
    ensures Lookup(r, "pagesize") == Lookup(query, "pagesize") + [Itoa(p.pageSize)]
    ensures forall k | k != "sortfield" && k != "sortorder" && k != "page" && k != "pagesize" ::
      Lookup(r, k) == Lookup(query, k)
  {
    var q1 := AddParam(query, "sortfield", p.sortField);
    var q2 := AddParam(q1, "sortorder", p.sortOrder);
    var q3 := AddParam(q2, "page", Itoa(p.page));
    AddParam(q3, "pagesize", Itoa(p.pageSize))
  }

  function NonEmpty(vs: seq<string>): (r: seq<string>)
    ensures forall i | 0 <= i < |r| :: r[i] != ""
    decreases |vs|
  {
    if vs == [] then []
    else NonEmpty(vs[..|vs| - 1]) + (if vs[|vs| - 1] != "" then [vs[|vs| - 1]] else [])
  }

  /** The inner filter loop over a prefix of one field's values. */
  function AddValues(query: Values, key: string, vs: seq<string>): (r: Values)
    ensures Lookup(r, key) == Lookup(query, key) + NonEmpty(vs)
    ensures forall k | k != key :: Lookup(r, k) == Lookup(query, k)
    decreases |vs|
  {
    if vs == [] then query
    else AddParam(AddValues(query, key, vs[..|vs| - 1]), key, vs[|vs| - 1])
  }

  /** The outer filter loop over a prefix of the fields' iteration order. */
  function AddFilters(query: Values, filters: map<string, seq<string>>, fields: seq<string>): Values
    requires forall i | 0 <= i < |fields| :: fields[i] in filters
    decreases |fields|
  {
    if fields == [] then query
    else
      var f := fields[|fields| - 1];
      AddValues(AddFilters(query, filters, fields[..|fields| - 1]), FilterPrefix + f, filters[f])
  }

  /** The filter loop touches only keys that start with "filter_". */
  lemma {:induction false} AddFiltersOtherKeys(query: Values, filters: map<string, seq<string>>, fields: seq<string>, k: string)
    requires forall i | 0 <= i < |fields| :: fields[i] in filters
    requires !HasPrefix(k, FilterPrefix)
    ensures Lookup(AddFilters(query, filters, fields), k) == Lookup(query, k)
    decreases |fields|
  {
    if fields != [] {
      var f := fields[|fields| - 1];
      assert (FilterPrefix + f)[..|FilterPrefix|] == FilterPrefix;
      AddFiltersOtherKeys(query, filters, fields[..|fields| - 1], k);
    }
  }

  /** Each field's non-empty values are appended, in order, under "filter_" + field. */
  lemma {:induction false} AddFiltersFields(query: Values, filters: map<string, seq<string>>, fields: seq<string>, f: string)
    requires forall i | 0 <= i < |fields| :: fields[i] in filters
    requires forall i, j | 0 <= i < j < |fields| :: fields[i] != fields[j]
    requires f in fields
    ensures Lookup(AddFilters(query, filters, fields), FilterPrefix + f)
         == Lookup(query, FilterPrefix + f) + NonEmpty(filters[f])
    decreases |fields|
  {
    var init := fields[..|fields| - 1];
    var g := fields[|fields| - 1];
    if f != g {
      assert f in init;
      AddFiltersFields(query, filters, init, f);
      KeysDistinct(f, g);
    } else {
      assert f !in init;
      AddFiltersAbsent(query, filters, init, f);
    }
  }

  /** Different fields have different filter keys. */
  lemma KeysDistinct(f: string, g: string)
    requires f != g
    ensures FilterPrefix + f != FilterPrefix + g
  {
    assert (FilterPrefix + f)[|FilterPrefix|..] == f;
    assert (FilterPrefix + g)[|FilterPrefix|..] == g;
  }

  /** A field that has not been visited yet has nothing added under its key. */
  lemma {:induction false} AddFiltersAbsent(query: Values, filters: map<string, seq<string>>, fields: seq<string>, f: string)
    requires forall i | 0 <= i < |fields| :: fields[i] in filters
    requires f !in fields
    ensures Lookup(AddFilters(query, filters, fields), FilterPrefix + f) == Lookup(query, FilterPrefix + f)
    decreases |fields|
  {
    if fields != [] {
      var g := fields[|fields| - 1];
      AddFiltersAbsent(query, filters, fields[..|fields| - 1], f);
      KeysDistinct(f, g);
    }
  }

  /** The extras loop over a prefix of its iteration order: whole keys replaced. */
  function AddExtras(query: Values, extra: Values, keys: seq<string>): (r: Values)
    requires forall i | 0 <= i < |keys| :: keys[i] in extra
    ensures forall k | k in keys :: k in r && r[k] == extra[k]
    ensures forall k | k !in keys :: Lookup(r, k) == Lookup(query, k)
    decreases |keys|
  {
    if keys == [] then query
    else
      var init := keys[..|keys| - 1];
      var k := keys[|keys| - 1];
      assert forall g :: g in keys <==> g in init || g == k;
      AddExtras(query, extra, init)[k := extra[k]]
  }

  /** What ApplyToQuery leaves in query, for the given iteration orders. */
  function Apply(p: Params, query: Values, fields: seq<string>, keys: seq<string>): Values
    requires Enumerates(p.filters, fields) && Enumerates(p.extra, keys)
  {
    AddExtras(AddFilters(AddPredefined(p, query), p.filters, fields), p.extra, keys)
  }

  /** The inner filter loop: every non-empty value of one field appended under key. */
  method AppendValues(query: Values, key: string, vs: seq<string>) returns (out: Values)
    ensures out == AddValues(query, key, vs)
  {
    out := query;
    var j := 0;
    while j < |vs|
      invariant 0 <= j <= |vs|
      invariant out == AddValues(query, key, vs[..j])
    {
      assert vs[..j + 1][..j] == vs[..j];
      out := AddParam(out, key, vs[j]);
      j := j + 1;
    }
    assert vs[..j] == vs;
  }

  /** The outer filter loop, over the fields in their iteration order. */
  method AppendFilters(query: Values, filters: map<string, seq<string>>, fields: seq<string>) returns (out: Values)
    requires forall i | 0 <= i < |fields| :: fields[i] in filters
    ensures out == AddFilters(query, filters, fields)
  {
    out := query;
    var i := 0;
    while i < |fields|
      invariant 0 <= i <= |fields|
      invariant out == AddFilters(query, filters, fields[..i])
    {
      var field := fields[i];
      AddFiltersNext(query, filters, fields, i);
      out := AppendValues(out, FilterPrefix + field, filters[field]);
      i := i + 1;
    }
    assert fields[..i] == fields;
  }

  /** One more field of the filter loop appends that field's values. */
  lemma AddFiltersNext(query: Values, filters: map<string, seq<string>>, fields: seq<string>, i: nat)
    requires forall i | 0 <= i < |fields| :: fields[i] in filters
    requires i < |fields|
    ensures AddFilters(query, filters, fields[..i + 1])
      == AddValues(AddFilters(query, filters, fields[..i]), FilterPrefix + fields[i], filters[fields[i]])
  {
    var next := fields[..i + 1];
    assert next[..i] == fields[..i] && next[i] == fields[i];
  }

  /** The extras loop, over the keys in their iteration order. */
  method ReplaceExtras(query: Values, extra: Values, keys: seq<string>) returns (out: Values)
    requires forall i | 0 <= i < |keys| :: keys[i] in extra
    ensures out == AddExtras(query, extra, keys)
  {
    out := query;
    var i := 0;
    while i < |keys|
      invariant 0 <= i <= |keys|
      invariant out == AddExtras(query, extra, keys[..i])
    {
      assert keys[..i + 1][..i] == keys[..i];
      out := out[keys[i] := extra[keys[i]]];
      i := i + 1;
    }
    assert keys[..i] == keys;
  }

  method ApplyToQuery(p: Params, query: Values, fields: seq<string>, keys: seq<string>) returns (out: Values)
    requires Enumerates(p.filters, fields) && Enumerates(p.extra, keys)
    ensures out == Apply(p, query, fields, keys)
  {
    out := AddParam(query, "sortfield", p.sortField);
    out := AddParam(out, "sortorder", p.sortOrder);
    out := AddParam(out, "page", Itoa(p.page));
    out := AddParam(out, "pagesize", Itoa(p.pageSize));
    out := AppendFilters(out, p.filters, fields);
    out := ReplaceExtras(out, p.extra, keys);
  }

  /** A filter key differs from the four predefined keys. */
  lemma FilterKeyNotPredefined(f: string)
    ensures var k := FilterPrefix + f; k != "sortfield" && k != "sortorder" && k != "page" && k != "pagesize"
  {
    var k := FilterPrefix + f;
    assert k[0] == 'f';
  }

  /** Unless an extra key "page" overrides it, the page number is always appended. */
  lemma ApplyAddsPage(p: Params, query: Values, fields: seq<string>, keys: seq<string>)
    requires Enumerates(p.filters, fields) && Enumerates(p.extra, keys)
    requires "page" !in p.extra
    ensures Lookup(Apply(p, query, fields, keys), "page") == Lookup(query, "page") + [Itoa(p.page)]
  {
    var pre := AddPredefined(p, query);
    assert Lookup(pre, "page") == Lookup(query, "page") + [Itoa(p.page)];
    assert !HasPrefix("page", FilterPrefix);
    AddFiltersOtherKeys(pre, p.filters, fields, "page");
  }

  /** Every extra key ends up with exactly its values, whatever query held. */
  lemma ApplyReplacesExtras(p: Params, query: Values, fields: seq<string>, keys: seq<string>, k: string)
    requires Enumerates(p.filters, fields) && Enumerates(p.extra, keys)
    requires k in p.extra
    ensures Lookup(Apply(p, query, fields, keys), k) == p.extra[k]
  {
  }

  /**
   * Writing back what NewQueryParams read into empty values reproduces every
   * key that is not predefined, filters included, exactly.
   */
  lemma RoundTripOtherKeys(values: Values, order: seq<string>, fields: seq<string>, keys: seq<string>, k: string)
    requires Enumerates(values, order) && Indexable(values)
    requires Enumerates(New(values, order).filters, fields) && Enumerates(New(values, order).extra, keys)
    requires k in values && !Special(ToLower(k))
    ensures Lookup(Apply(New(values, order), map[], fields, keys), k) == values[k]
  {
    NewExtras(values, order);
    ApplyReplacesExtras(New(values, order), map[], fields, keys, k);
  }
}
