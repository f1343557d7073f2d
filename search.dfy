/**
 * rechercher_liens: one site-restricted search per platform, keeping only
 * the first result of each. The search service is the parameter `search`,
 * which maps a query to the result URLs it returns, in order.
 */
module Search {
  import opened Wrappers

  /** One entry of the suggestions dict: its key and the suggested URL. */
  datatype Suggestion = Suggestion(key: string, url: string)

  /** `" ".join(words)`. */
  function Join(words: seq<string>): (r: string)
    ensures words == [] ==> r == ""
    ensures |words| == 1 ==> r == words[0]
    ensures words != [] ==> words[0] <= r
    decreases |words|
  {
    if words == [] then ""
    else if |words| == 1 then words[0]
    else words[0] + " " + Join(words[1..])
  }

  /**
   * Joining two non-empty runs of words is joining each and putting one
   * space between them; so the query is "nom ville" followed by " " and
   * the joined tags when there are tags.
   */
  lemma {:induction false} JoinAppend(a: seq<string>, b: seq<string>)
    requires a != [] && b != []
    ensures Join(a + b) == Join(a) + " " + Join(b)
    decreases |a|
  {
    if |a| == 1 {
      assert (a + b)[0] == a[0] && (a + b)[1..] == b;
    } else {
      assert (a + b)[0] == a[0] && (a + b)[1..] == a[1..] + b;
      JoinAppend(a[1..], b);
    }
  }

  /** The join ends with the last word. */
  lemma {:induction false} JoinLast(words: seq<string>)
    requires words != []
    ensures |words[|words| - 1]| <= |Join(words)|
    ensures Join(words)[|Join(words)| - |words[|words| - 1]|..] == words[|words| - 1]
    decreases |words|
  {
    if |words| > 1 {
      JoinLast(words[1..]);
      assert words[1..][|words[1..]| - 1] == words[|words| - 1];
    }
  }

  /** The dict keys and the sites searched, in the order of the searches. */
  const Sites: seq<(string, string)> :=
    [("facebook", "facebook.com"), ("instagram", "instagram.com"),
     ("tripadvisor", "tripadvisor.fr"), ("google", "g.co")]

  function SiteQuery(requete: string, site: string): string {
    requete + " site:" + site
  }

  /** For each site in turn, the first result of its query, when there is one. */
  function FirstResults(search: string -> seq<string>, requete: string, sites: seq<(string, string)>): (r: seq<Suggestion>)
    ensures |r| <= |sites|
    ensures forall k :: 0 <= k < |r| ==> exists j :: 0 <= j < |sites| && sites[j].0 == r[k].key
    decreases |sites|
  {
    if sites == [] then []
    else
      var hits := search(SiteQuery(requete, sites[0].1));
      (if hits == [] then [] else [Suggestion(sites[0].0, hits[0])])
      + FirstResults(search, requete, sites[1..])
  }

  /** rechercher_liens(nom, ville, activites). */
  function RechercherLiens(search: string -> seq<string>, nom: string, ville: string, activites: seq<string>): (r: seq<Suggestion>)
    ensures |r| <= 4
    ensures forall k :: 0 <= k < |r| ==> r[k].key in {"facebook", "instagram", "tripadvisor", "google"}
  {
    FirstResults(search, Join([nom, ville] + activites), Sites)
  }

  /** The URL stored under key, if any (the first entry with that key). */
  function Lookup(suggestions: seq<Suggestion>, key: string): Option<string>
    decreases |suggestions|
  {
    if suggestions == [] then None
    else if suggestions[0].key == key then Some(suggestions[0].url)
    else Lookup(suggestions[1..], key)
  }

  lemma {:induction false} LookupAppend(a: seq<Suggestion>, b: seq<Suggestion>, key: string)
    ensures Lookup(a + b, key) == if Lookup(a, key).Some? then Lookup(a, key) else Lookup(b, key)
    decreases |a|
  {
    if a == [] {
      assert a + b == b;
    } else {
      assert (a + b)[1..] == a[1..] + b;
      LookupAppend(a[1..], b, key);
    }
  }

  predicate DistinctKeys(sites: seq<(string, string)>) {
    forall j, k :: 0 <= j < k < |sites| ==> sites[j].0 != sites[k].0
  }

  /**
   * Under each site's key stands the first result of that site's query,
   * and the key is absent when the query found nothing; every entry
   * belongs to one of the sites.
   */
  lemma {:induction false} FirstResultsLookup(search: string -> seq<string>, requete: string,
                                              sites: seq<(string, string)>, j: nat)
    requires DistinctKeys(sites) && j < |sites|
    ensures var hits := search(SiteQuery(requete, sites[j].1));
            Lookup(FirstResults(search, requete, sites), sites[j].0)
            == if hits == [] then None else Some(hits[0])
    decreases |sites|
  {
    var rest := FirstResults(search, requete, sites[1..]);
    var hits0 := search(SiteQuery(requete, sites[0].1));
    var head := if hits0 == [] then [] else [Suggestion(sites[0].0, hits0[0])];
    assert FirstResults(search, requete, sites) == head + rest;
    LookupAppend(head, rest, sites[j].0);
    if j == 0 {
      if hits0 == [] {
        FirstResultsLacksKey(search, requete, sites[1..], sites[0].0);
      }
    } else {
      assert sites[1..][j - 1] == sites[j];
      FirstResultsLookup(search, requete, sites[1..], j - 1);
    }
  }

  lemma {:induction false} FirstResultsLacksKey(search: string -> seq<string>, requete: string,
                                                sites: seq<(string, string)>, key: string)
    requires forall k :: 0 <= k < |sites| ==> sites[k].0 != key
    ensures Lookup(FirstResults(search, requete, sites), key).None?
    decreases |sites|
  {
    if sites != [] {
      var hits0 := search(SiteQuery(requete, sites[0].1));
      var head := if hits0 == [] then [] else [Suggestion(sites[0].0, hits0[0])];
      LookupAppend(head, FirstResults(search, requete, sites[1..]), key);
      FirstResultsLacksKey(search, requete, sites[1..], key);
    }
  }

  /**
   * The entries come in the order of the sites that produced them: an
   * earlier entry's key belongs to an earlier site.
   */
  predicate InSiteOrder(r: seq<Suggestion>, sites: seq<(string, string)>) {
    forall a, b, i, j ::
      (0 <= a < b < |r| && 0 <= i < |sites| && 0 <= j < |sites| && sites[i].0 == r[a].key && sites[j].0 == r[b].key)
      ==> i < j
  }

  /** Entries in site order have distinct keys, when each key is some site's. */
  lemma InSiteOrderDistinct(r: seq<Suggestion>, sites: seq<(string, string)>)
    requires InSiteOrder(r, sites)
    requires forall k :: 0 <= k < |r| ==> exists j :: 0 <= j < |sites| && sites[j].0 == r[k].key
    ensures forall a, b :: 0 <= a < b < |r| ==> r[a].key != r[b].key
  {
    forall a, b | 0 <= a < b < |r| ensures r[a].key != r[b].key {
      var j :| 0 <= j < |sites| && sites[j].0 == r[a].key;
    }
  }

  /** A site's entry put before entries of later sites, in order, stays in order. */
  lemma {:induction false} InSiteOrderCons(head: seq<Suggestion>, rest: seq<Suggestion>, sites: seq<(string, string)>)
    requires sites != [] && DistinctKeys(sites)
    requires forall k :: 0 <= k < |head| ==> head[k].key == sites[0].0
    requires |head| <= 1
    requires InSiteOrder(rest, sites[1..])
    requires forall k :: 0 <= k < |rest| ==> exists j :: 1 <= j < |sites| && sites[j].0 == rest[k].key
    ensures InSiteOrder(head + rest, sites)
  {
    var r := head + rest;
    var tail := sites[1..];
    forall k | 0 <= k < |rest| ensures rest[k].key != sites[0].0 {
      assert exists j :: 1 <= j < |sites| && sites[j].0 == rest[k].key;
      var j :| 1 <= j < |sites| && sites[j].0 == rest[k].key;
      assert sites[0].0 != sites[j].0;
    }
    forall a, b, i, j | 0 <= a < b < |r| && 0 <= i < |sites| && 0 <= j < |sites|
                        && sites[i].0 == r[a].key && sites[j].0 == r[b].key
      ensures i < j
    {
      assert r[b] == rest[b - |head|];
      assert j != 0;
      if a >= |head| {
        assert r[a] == rest[a - |head|];
        assert i != 0;
        assert tail[i - 1] == sites[i] && tail[j - 1] == sites[j];
      }
    }
  }

  /**
   * With distinct site keys, the result holds each key at most once (it is
   * a dict), in the order of the searches.
   */
  lemma {:induction false} FirstResultsOrder(search: string -> seq<string>, requete: string, sites: seq<(string, string)>)
    requires DistinctKeys(sites)
    ensures InSiteOrder(FirstResults(search, requete, sites), sites)
    ensures var r := FirstResults(search, requete, sites);
            forall a, b :: 0 <= a < b < |r| ==> r[a].key != r[b].key
    decreases |sites|
  {
    if sites != [] {
      var tail := sites[1..];
      forall j, k | 0 <= j < k < |tail| ensures tail[j].0 != tail[k].0 {
        assert tail[j] == sites[j + 1] && tail[k] == sites[k + 1];
      }
      FirstResultsOrder(search, requete, tail);
      var rest := FirstResults(search, requete, tail);
      var hits := search(SiteQuery(requete, sites[0].1));
      var head := if hits == [] then [] else [Suggestion(sites[0].0, hits[0])];
      assert FirstResults(search, requete, sites) == head + rest;
      forall k | 0 <= k < |rest| ensures exists j :: 1 <= j < |sites| && sites[j].0 == rest[k].key {
        var j :| 0 <= j < |tail| && tail[j].0 == rest[k].key;
        assert sites[j + 1] == tail[j];
      }
      InSiteOrderCons(head, rest, sites);
    }
    InSiteOrderDistinct(FirstResults(search, requete, sites), sites);
  }

  /**
   * rechercher_liens returns a dict: each of its keys at most once, in the
   * order facebook, instagram, tripadvisor, google.
   */
  lemma RechercherLiensOrder(search: string -> seq<string>, nom: string, ville: string, activites: seq<string>)
    ensures InSiteOrder(RechercherLiens(search, nom, ville, activites), Sites)
    ensures var r := RechercherLiens(search, nom, ville, activites);
            forall a, b :: 0 <= a < b < |r| ==> r[a].key != r[b].key
  {
    FirstResultsOrder(search, Join([nom, ville] + activites), Sites);
  }

  /** The four searches of rechercher_liens, each keeping only its first result. */
  lemma RechercherLiensFirstResult(search: string -> seq<string>, nom: string, ville: string,
                                   activites: seq<string>, j: nat)
    requires j < |Sites|
    ensures var hits := search(Join([nom, ville] + activites) + " site:" + Sites[j].1);
            Lookup(RechercherLiens(search, nom, ville, activites), Sites[j].0)
            == if hits == [] then None else Some(hits[0])
  {
    FirstResultsLookup(search, Join([nom, ville] + activites), Sites, j);
  }
}
