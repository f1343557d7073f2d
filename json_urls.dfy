/**
 * extract_urls: the walk over the JSON-like business record that gathers
 * every URL found in its string values, and the deduplication
 * `list(set(...))` the caller applies to the result.
 */
module JsonUrls {
  import opened UrlPattern

  /**
   * A value as `json.load` builds it. An object keeps its fields in the
   * dict's iteration (insertion) order; only the values are walked.
   */
  datatype Json =
    | JNull
    | JBool(b: bool)
    | JNumber(n: real)
    | JString(s: string)
    | JArray(items: seq<Json>)
    | JObject(fields: seq<Field>)

  /** One key/value pair of a dict. */
  datatype Field = Field(key: string, value: Json)

  /** The string leaves of v, in the order the walk visits them. */
  function Leaves(v: Json): seq<string>
    decreases v
  {
    match v
    case JString(s) => [s]
    case JArray(items) => ItemLeaves(items)
    case JObject(fields) => FieldLeaves(fields)
    case _ => []
  }

  function ItemLeaves(items: seq<Json>): seq<string>
    decreases items
  {
    if items == [] then [] else ItemLeaves(items[..|items| - 1]) + Leaves(items[|items| - 1])
  }

  function FieldLeaves(fields: seq<Field>): seq<string>
    decreases fields
  {
    if fields == [] then []
    else
      FieldLeaves(fields[..|fields| - 1]) + Leaves(fields[|fields| - 1].value)
  }

  /** The results of f on each string of ss, one after the other. */
  function ConcatMap(f: string -> seq<string>, ss: seq<string>): seq<string>
  {
    if ss == [] then [] else ConcatMap(f, ss[..|ss| - 1]) + f(ss[|ss| - 1])
  }

  /** The findall results of each string of ss, one after the other. */
  function UrlsOfStrings(ss: seq<string>): seq<string>
  {
    ConcatMap(FindAll, ss)
  }

  /** Reference definition of what extract_urls returns: the URLs of the string leaves, leaf by leaf. */
  function UrlsOf(v: Json): seq<string>
  {
    UrlsOfStrings(Leaves(v))
  }

  lemma {:induction false} ConcatMapAppend(f: string -> seq<string>, a: seq<string>, b: seq<string>)
    ensures ConcatMap(f, a + b) == ConcatMap(f, a) + ConcatMap(f, b)
    decreases |b|
  {
    if b == [] {
      assert a + b == a;
    } else {
      var b' := b[..|b| - 1];
      var ab := a + b;
      assert ab[..|ab| - 1] == a + b';
      assert ab[|ab| - 1] == b[|b| - 1];
      ConcatMapAppend(f, a, b');
    }
  }

  lemma UrlsOfStringsAppend(a: seq<string>, b: seq<string>)
    ensures UrlsOfStrings(a + b) == UrlsOfStrings(a) + UrlsOfStrings(b)
  {
    ConcatMapAppend(FindAll, a, b);
  }

  /**
   * extract_urls(obj): a dict or a list extends the accumulator with the
   * result of each value or item in turn, a string contributes its
   * findall matches, any other scalar nothing.
   */
  method ExtractUrls(v: Json) returns (urls: seq<string>)
    ensures urls == UrlsOf(v)
    decreases v
  {
    urls := [];
    match v {
      case JObject(fields) =>
        for k := 0 to |fields|
          invariant urls == UrlsOfStrings(FieldLeaves(fields[..k]))
        {
          var sub := ExtractUrls(fields[k].value);
          assert fields[..k + 1][..k] == fields[..k];
          UrlsOfStringsAppend(FieldLeaves(fields[..k]), Leaves(fields[k].value));
          urls := urls + sub;
        }
        assert fields[..|fields|] == fields;
      case JArray(items) =>
        for k := 0 to |items|
          invariant urls == UrlsOfStrings(ItemLeaves(items[..k]))
        {
          var sub := ExtractUrls(items[k]);
          assert items[..k + 1][..k] == items[..k];
          UrlsOfStringsAppend(ItemLeaves(items[..k]), Leaves(items[k]));
          urls := urls + sub;
        }
        assert items[..|items|] == items;
      case JString(s) =>
        assert [s][..0] == [];
        assert ConcatMap(FindAll, [s]) == ConcatMap(FindAll, []) + FindAll(s);
        assert UrlsOfStrings([s]) == FindAll(s);
        urls := urls + FindAll(s);
      case _ =>
    }
  }

  /** Every URL the walk finds is a whole match of the pattern. */
  lemma {:induction false} UrlsOfStringsAreTokens(ss: seq<string>)
    ensures forall k :: 0 <= k < |UrlsOfStrings(ss)| ==> IsUrlToken(UrlsOfStrings(ss)[k])
    decreases |ss|
  {
    if ss != [] {
      assert UrlsOfStrings(ss) == UrlsOfStrings(ss[..|ss| - 1]) + FindAll(ss[|ss| - 1]);
      UrlsOfStringsAreTokens(ss[..|ss| - 1]);
      FindAllAreTokens(ss[|ss| - 1]);
    }
  }

  lemma UrlsAreTokens(v: Json)
    ensures forall k :: 0 <= k < |UrlsOf(v)| ==> IsUrlToken(UrlsOf(v)[k])
  {
    UrlsOfStringsAreTokens(Leaves(v));
  }

  /** The URLs of each item, one item after the other. */
  function ItemUrls(items: seq<Json>): seq<string>
  {
    if items == [] then [] else ItemUrls(items[..|items| - 1]) + UrlsOf(items[|items| - 1])
  }

  /** The URLs of each field value, one field after the other. */
  function FieldUrls(fields: seq<Field>): seq<string>
  {
    if fields == [] then [] else FieldUrls(fields[..|fields| - 1]) + UrlsOf(fields[|fields| - 1].value)
  }

  /** On a list: the concatenation of the items' results, in list order. */
  lemma {:induction false} ArrayUrls(items: seq<Json>)
    ensures UrlsOf(JArray(items)) == ItemUrls(items)
    decreases |items|
  {
    if items != [] {
      var init := items[..|items| - 1];
      var last := items[|items| - 1];
      calc {
        UrlsOf(JArray(items));
        UrlsOfStrings(Leaves(JArray(items)));
        UrlsOfStrings(ItemLeaves(items));
        UrlsOfStrings(ItemLeaves(init) + Leaves(last));
        { UrlsOfStringsAppend(ItemLeaves(init), Leaves(last)); }
        UrlsOfStrings(ItemLeaves(init)) + UrlsOf(last);
        { ArrayUrls(init); }
        ItemUrls(init) + UrlsOf(last);
        ItemUrls(items);
      }
    } else {
      assert Leaves(JArray(items)) == [];
    }
  }

  /** On a dict: the concatenation of the values' results, in iteration order. */
  lemma {:induction false} ObjectUrls(fields: seq<Field>)
    ensures UrlsOf(JObject(fields)) == FieldUrls(fields)
    decreases |fields|
  {
    if fields != [] {
      var init := fields[..|fields| - 1];
      var last := fields[|fields| - 1].value;
      calc {
        UrlsOf(JObject(fields));
        UrlsOfStrings(Leaves(JObject(fields)));
        UrlsOfStrings(FieldLeaves(fields));
        UrlsOfStrings(FieldLeaves(init) + Leaves(last));
        { UrlsOfStringsAppend(FieldLeaves(init), Leaves(last)); }
        UrlsOfStrings(FieldLeaves(init)) + UrlsOf(last);
        { ObjectUrls(init); }
        FieldUrls(init) + UrlsOf(last);
        FieldUrls(fields);
      }
    } else {
      assert Leaves(JObject(fields)) == [];
    }
  }

  /** On a string: its findall matches; on null, a bool or a number: nothing. */
  lemma ScalarUrls(v: Json)
    requires !v.JArray? && !v.JObject?
    ensures v.JString? ==> UrlsOf(v) == FindAll(v.s)
    ensures !v.JString? ==> UrlsOf(v) == []
  {
    if v.JString? {
      assert UrlsOfStrings([v.s]) == UrlsOfStrings([]) + FindAll(v.s);
    }
  }

  predicate Distinct(ys: seq<string>) {
    forall j, k :: 0 <= j < k < |ys| ==> ys[j] != ys[k]
  }

  /**
   * `list(s)` for a set s: every element once, in an order the set's
   * iteration chooses (left open here, as Python's hash order is).
   */
  method ListOfSet(s: set<string>) returns (ys: seq<string>)
    ensures forall x :: x in ys <==> x in s
    ensures Distinct(ys)
    ensures |ys| == |s|
  {
    ys := [];
    var rest := s;
    while rest != {}
      invariant rest <= s
      invariant forall x :: x in ys <==> x in s - rest
      invariant Distinct(ys)
      invariant |ys| + |rest| == |s|
      decreases |rest|
    {
      var x :| x in rest;
      assert x !in ys;
      assert |rest - {x}| == |rest| - 1;
      ghost var before := ys;
      ys := ys + [x];
      assert forall j :: 0 <= j < |before| ==> ys[j] == before[j];
      rest := rest - {x};
    }
  }

  /** Line 116: `list(set(urls))`. */
  method Dedup(urls: seq<string>) returns (ys: seq<string>)
    ensures forall x :: x in ys <==> x in urls
    ensures Distinct(ys)
  {
    ys := ListOfSet(set x | x in urls);
  }

  lemma {:induction false} DistinctOccursOnce(ys: seq<string>, x: string)
    requires Distinct(ys)
    ensures multiset(ys)[x] == if x in ys then 1 else 0
    decreases |ys|
  {
    if ys != [] {
      var init := ys[..|ys| - 1];
      assert ys == init + [ys[|ys| - 1]];
      assert Distinct(init);
      assert ys[|ys| - 1] !in init;
      DistinctOccursOnce(init, x);
    }
  }

  /**
   * A URL occurring any number of times in the record, at any depth,
   * appears exactly once in a deduplicated list; one absent from it, not at all.
   */
  lemma DedupOnce(v: Json, ys: seq<string>, x: string)
    requires forall u :: u in ys <==> u in UrlsOf(v)
    requires Distinct(ys)
    ensures multiset(ys)[x] == if x in UrlsOf(v) then 1 else 0
  {
    DistinctOccursOnce(ys, x);
  }
}
