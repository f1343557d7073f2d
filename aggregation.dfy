/**
 * The pipeline of the `__main__` block without its file I/O: deduplicate
 * the discovered URLs, check each, keep the records that are not dropped,
 * then add one record per search suggestion whose platform is not already
 * covered by a relevant discovered link.
 */
module Aggregation {
  import opened Wrappers
  import opened Platforms
  import opened Verdicts
  import opened Search
  import opened JsonUrls

  function KeepSome(r: Option<Verdict>): seq<Verdict> {
    if r.Some? then [r.value] else []
  }

  /** The records the first loop keeps, URL by URL. */
  function Kept(regDomain: string -> string, fetch: string -> FetchOutcome, urls: seq<string>,
                nom: string, ville: string, activites: seq<string>): (r: seq<Verdict>)
    ensures |r| <= |urls|
    ensures forall v :: v in r ==> WellFormedDiscovered(v)
    decreases |urls|
  {
    if urls == [] then []
    else
      var last := urls[|urls| - 1];
      Kept(regDomain, fetch, urls[..|urls| - 1], nom, ville, activites)
      + KeepSome(CheckUrl(regDomain, last, nom, ville, activites, fetch(last)))
  }

  /** Lines 124-128: `results.append(result)` for every URL whose check_url is not None. */
  method CollectVerdicts(regDomain: string -> string, fetch: string -> FetchOutcome, urls: seq<string>,
                         nom: string, ville: string, activites: seq<string>) returns (results: seq<Verdict>)
    ensures results == Kept(regDomain, fetch, urls, nom, ville, activites)
  {
    results := [];
    for k := 0 to |urls|
      invariant results == Kept(regDomain, fetch, urls[..k], nom, ville, activites)
    {
      var result := CheckUrl(regDomain, urls[k], nom, ville, activites, fetch(urls[k]));
      assert urls[..k + 1][..k] == urls[..k];
      if result.Some? {
        results := results + [result.value];
      }
    }
    assert urls[..|urls|] == urls;
  }

  /**
   * Checking a list in two parts gives the records of the first part
   * followed by those of the second: a run stopped after any URL has a
   * valid prefix of the final records.
   */
  lemma {:induction false} KeptAppend(regDomain: string -> string, fetch: string -> FetchOutcome,
                                      a: seq<string>, b: seq<string>, nom: string, ville: string, activites: seq<string>)
    ensures Kept(regDomain, fetch, a + b, nom, ville, activites)
            == Kept(regDomain, fetch, a, nom, ville, activites) + Kept(regDomain, fetch, b, nom, ville, activites)
    decreases |b|
  {
    if b == [] {
      assert a + b == a;
    } else {
      assert (a + b)[..|a + b| - 1] == a + b[..|b| - 1];
      KeptAppend(regDomain, fetch, a, b[..|b| - 1], nom, ville, activites);
    }
  }

  /**
   * A record is kept exactly when it is the non-None check_url result of
   * one of the URLs; every kept record is well formed and names a URL of
   * the list; there are at most as many records as URLs.
   */
  lemma {:induction false} KeptMembers(regDomain: string -> string, fetch: string -> FetchOutcome, urls: seq<string>,
                                       nom: string, ville: string, activites: seq<string>)
    ensures var kept := Kept(regDomain, fetch, urls, nom, ville, activites);
            && |kept| <= |urls|
            && (forall v :: v in kept <==>
                  exists k :: 0 <= k < |urls| && CheckUrl(regDomain, urls[k], nom, ville, activites, fetch(urls[k])) == Some(v))
            && (forall v :: v in kept ==> WellFormedDiscovered(v) && v.initialUrl.value in urls)
    decreases |urls|
  {
    if urls != [] {
      var init := urls[..|urls| - 1];
      KeptMembers(regDomain, fetch, init, nom, ville, activites);
      forall k | 0 <= k < |init| ensures init[k] == urls[k] { }
    }
  }

  /** Line 131: the platforms of the INITIAL URLs of the relevant records. */
  function ExistingReseaux(regDomain: string -> string, results: seq<Verdict>): (r: set<Option<string>>)
    ensures forall p :: p in r ==> p.None? || p.value in PlatformNames
  {
    set v | v in results && v.pertinent && v.initialUrl.Some? :: DetectReseau(regDomain, v.initialUrl.value)
  }

  /** The record added for a suggestion: lines 134-142. */
  function Synthetic(regDomain: string -> string, url: string): (v: Verdict)
    ensures !WellFormedDiscovered(v)
    ensures v.pertinent && v.erreur.None? && v.urlCorrigee == Some(url)
    ensures v.reseau.Some? <==> regDomain(url) in ReseauxValides
  {
    Verdict(None, None, DetectReseau(regDomain, url), None, true, None, Some(url))
  }

  /** The records the second loop adds, suggestion by suggestion. */
  function Suggested(regDomain: string -> string, suggestions: seq<Suggestion>, existing: set<Option<string>>): (r: seq<Verdict>)
    ensures |r| <= |suggestions|
    ensures forall v :: v in r ==> v.pertinent && v.initialUrl.None? && v.reseau !in existing
    decreases |suggestions|
  {
    if suggestions == [] then []
    else
      var url := suggestions[|suggestions| - 1].url;
      Suggested(regDomain, suggestions[..|suggestions| - 1], existing)
      + (if DetectReseau(regDomain, url) !in existing then [Synthetic(regDomain, url)] else [])
  }

  /** Lines 131-142: add a record for every suggestion whose platform is not among the relevant ones. */
  method AddSuggestions(regDomain: string -> string, results: seq<Verdict>, suggestions: seq<Suggestion>)
    returns (out: seq<Verdict>)
    ensures out == results + Suggested(regDomain, suggestions, ExistingReseaux(regDomain, results))
  {
    var existing := ExistingReseaux(regDomain, results);
    out := results;
    for k := 0 to |suggestions|
      invariant out == results + Suggested(regDomain, suggestions[..k], existing)
    {
      var suggestedUrl := suggestions[k].url;
      assert suggestions[..k + 1][..k] == suggestions[..k];
      if DetectReseau(regDomain, suggestedUrl) !in existing {
        out := out + [Synthetic(regDomain, suggestedUrl)];
      }
    }
    assert suggestions[..|suggestions|] == suggestions;
  }

  /**
   * The suggestions contribute, in their order, one record each for those
   * whose platform is not suppressed and none for the others.
   */
  lemma {:induction false} SuggestedAppend(regDomain: string -> string, a: seq<Suggestion>, b: seq<Suggestion>,
                                           existing: set<Option<string>>)
    ensures Suggested(regDomain, a + b, existing) == Suggested(regDomain, a, existing) + Suggested(regDomain, b, existing)
    decreases |b|
  {
    if b == [] {
      assert a + b == a;
    } else {
      assert (a + b)[..|a + b| - 1] == a + b[..|b| - 1];
      SuggestedAppend(regDomain, a, b[..|b| - 1], existing);
    }
  }

  /**
   * A record is added exactly for a suggestion whose platform is not
   * suppressed, and it is that suggestion's synthetic record (no initial
   * or final URL, no status, relevant, no error, the suggestion as
   * correction); at most one record per suggestion.
   */
  lemma {:induction false} SuggestedMembers(regDomain: string -> string, suggestions: seq<Suggestion>,
                                            existing: set<Option<string>>)
    ensures var added := Suggested(regDomain, suggestions, existing);
            && |added| <= |suggestions|
            && forall v :: v in added <==>
                 exists k :: 0 <= k < |suggestions| && DetectReseau(regDomain, suggestions[k].url) !in existing
                             && v == Verdict(None, None, DetectReseau(regDomain, suggestions[k].url), None, true, None,
                                             Some(suggestions[k].url))
    decreases |suggestions|
  {
    if suggestions != [] {
      var init := suggestions[..|suggestions| - 1];
      SuggestedMembers(regDomain, init, existing);
      forall k | 0 <= k < |init| ensures init[k] == suggestions[k] { }
    }
  }

  /**
   * A relevant record whose initial URL is on platform p suppresses every
   * suggestion on p: nothing after the existing prefix is on p.
   */
  lemma Suppression(regDomain: string -> string, results: seq<Verdict>, suggestions: seq<Suggestion>, v: Verdict)
    requires v in results && v.pertinent && v.initialUrl.Some?
    ensures var out := results + Suggested(regDomain, suggestions, ExistingReseaux(regDomain, results));
            forall k :: |results| <= k < |out| ==> out[k].reseau != DetectReseau(regDomain, v.initialUrl.value)
  {
    var existing := ExistingReseaux(regDomain, results);
    var added := Suggested(regDomain, suggestions, existing);
    var out := results + added;
    assert DetectReseau(regDomain, v.initialUrl.value) in existing;
    SuggestedMembers(regDomain, suggestions, existing);
    forall k | |results| <= k < |out| ensures out[k].reseau != DetectReseau(regDomain, v.initialUrl.value) {
      assert out[k] == added[k - |results|];
      assert out[k] in added;
    }
  }

  /** Both loops of the `__main__` block, on the deduplicated URLs and the suggestions. */
  function Merge(regDomain: string -> string, fetch: string -> FetchOutcome, urls: seq<string>,
                 nom: string, ville: string, activites: seq<string>, suggestions: seq<Suggestion>): (r: seq<Verdict>)
    ensures |r| <= |urls| + |suggestions|
    ensures forall k :: 0 <= k < |r| ==>
              (r[k].initialUrl.Some? <==> k < |Kept(regDomain, fetch, urls, nom, ville, activites)|)
  {
    var discovered := Kept(regDomain, fetch, urls, nom, ville, activites);
    var added := Suggested(regDomain, suggestions, ExistingReseaux(regDomain, discovered));
    assert forall k :: 0 <= k < |discovered| ==> discovered[k] in discovered;
    assert forall k :: 0 <= k < |added| ==> added[k] in added;
    discovered + added
  }

  /**
   * The `__main__` block between loading the record and writing the
   * results: extract and deduplicate the URLs, ask for suggestions, check
   * every URL and merge.
   */
  method Run(regDomain: string -> string, fetch: string -> FetchOutcome, search: string -> seq<string>,
             data: Json, nom: string, ville: string, activites: seq<string>)
    returns (urlsDetected: seq<string>, results: seq<Verdict>)
    ensures Distinct(urlsDetected)
    ensures forall u :: u in urlsDetected <==> u in UrlsOf(data)
    ensures results == Merge(regDomain, fetch, urlsDetected, nom, ville, activites,
                             RechercherLiens(search, nom, ville, activites))
  {
    var found := ExtractUrls(data);
    urlsDetected := Dedup(found);
    var suggestions := RechercherLiens(search, nom, ville, activites);
    var discovered := CollectVerdicts(regDomain, fetch, urlsDetected, nom, ville, activites);
    results := AddSuggestions(regDomain, discovered, suggestions);
  }
}
