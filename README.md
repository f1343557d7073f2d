# Link checker for business records, modelled in Dafny

This project models the link-checking core of `get_errors_links.py`. The
script reads a business record (nested JSON) and finds every URL in its
string values. It checks each URL: fetch it, classify the final URL's
registrable domain against a fixed platform table (`RESEAUX_VALIDES`),
and test the page's structured data for the business's name, city and
activity tags. It keeps a verdict record per URL that is not dropped.
It then adds a record for each search suggestion whose platform is not
already covered by a relevant discovered link.

Foreign collaborators are parameters, so every property holds for all
of them:

- `regDomain: string -> string` is tldextract's `registered_domain`.
- `fetch: string -> FetchOutcome` is `requests.get` plus structured-data
  extraction. The outcome is a response (status, final URL, extracted
  items or the extraction's exception) or a transport exception.
- `search: string -> seq<string>` is the search service. It maps a query
  to its result URLs.

Modules, one per part of the script:

- `UrlPattern` (url_pattern.dfy): the pattern `https?://[^\s"'<>]+` and
  `re.findall`'s leftmost, greedy, non-overlapping scan.
- `JsonUrls` (json_urls.dfy): the JSON value, `extract_urls`, and the
  `list(set(...))` dedup.
- `Platforms` (platforms.dfy): the table and `detect_reseau`.
- `Relevance` (relevance.dfy): `is_valid_business`.
- `Verdicts` (verdicts.dfy): `check_url` after the fetch.
- `Search` (search.dfy): the first-result-per-site logic of
  `rechercher_liens`.
- `Aggregation` (aggregation.dfy): the two loops of the `__main__` block.
- `Scenarios` (scenarios.dfy): concrete runs of the merge where a platform
  is already present: which links the code keeps or adds there.

`Wrappers` (wrappers.dfy) holds `Option`, which stands for Python's `None`.

## Model

| member | source | states |
|---|---|---|
| `UrlPattern.MatchAt` | get_errors_links.py:32 | the pattern applies at position i iff `http://` or `https://` starts there and is followed by a character outside `\s"'<>` |
| `UrlPattern.RunEnd` | get_errors_links.py:32 | the greedy `[^\s"'<>]+` from a position stops at the first terminator or at the end of the string, and holds no terminator |
| `UrlPattern.MatchSpan` | get_errors_links.py:32 | a match that starts where the pattern applies is a whole URL token, longer than its scheme, and is followed by the end of the string or a terminator |
| `UrlPattern.ScanFrom` | get_errors_links.py:32 | the scan from position i returns spans inside `s[i..]`, each non-empty, at most one per 8 characters; `ScanFromCorrect` adds that they are the pattern's greedy matches, in order and not overlapping, and that none is skipped |
| `UrlPattern.ScanFromCorrect` | get_errors_links.py:32 | the spans of the scan are exactly `re.findall`'s: greedy matches, in string order, not overlapping, with no match skipped |
| `UrlPattern.ScanFromAreMatches` | get_errors_links.py:32 | every span findall returns starts where the pattern matches and is the greedy match there |
| `UrlPattern.ScanFromInOrder` | get_errors_links.py:32 | findall's matches come in string order and do not overlap |
| `UrlPattern.ScanFromLeftmost` | get_errors_links.py:32 | every position where the pattern matches lies inside a returned match, so no match is skipped |
| `UrlPattern.FindAll` | get_errors_links.py:32 | `re.findall` with the URL pattern returns at most one URL per 8 characters of the string; `FindAllAreTokens` and `FindAllIsLeftmostGreedy` state what the URLs are |
| `UrlPattern.FindAllAreTokens` | get_errors_links.py:32 | every string `re.findall` returns starts with `http://` or `https://`, has at least one character after `://`, and holds no terminator |
| `UrlPattern.FindAllIsLeftmostGreedy` | get_errors_links.py:32 | each returned string is the text of its match; each match ends at the end of the string or at a terminator; the matches are in order; no uncovered position starts a match |
| `UrlPattern.UrlTokenShape` | get_errors_links.py:32 | a match is at least 8 characters, starts with a scheme, and holds no whitespace, `"`, `'`, `<` or `>` |
| `JsonUrls.ExtractUrls` | get_errors_links.py:23-33 | the recursive walk with its two loops returns exactly the reference `UrlsOf`: the findall results of the string leaves, in traversal order |
| `JsonUrls.UrlsOfStringsAppend` | get_errors_links.py:27 | extending with the URLs of two runs of leaves gives the URLs of their concatenation |
| `JsonUrls.UrlsAreTokens` | get_errors_links.py:23-33 | every URL extracted from a record is a whole match of the pattern |
| `JsonUrls.ArrayUrls` | get_errors_links.py:28-30 | on a list, the result is the items' results concatenated in list order |
| `JsonUrls.ObjectUrls` | get_errors_links.py:25-27 | on a dict, the result is the values' results concatenated in iteration order; keys are ignored |
| `JsonUrls.ScalarUrls` | get_errors_links.py:31-33 | a string gives its findall matches; null, a bool or a number gives nothing |
| `JsonUrls.ListOfSet` | get_errors_links.py:116 | `list(s)` holds each element of the set exactly once |
| `JsonUrls.Dedup` | get_errors_links.py:116 | `list(set(urls))` has the same elements as `urls` and no repeats |
| `JsonUrls.DistinctOccursOnce` | get_errors_links.py:116 | in a list without repeats, an element occurs once and a non-element never |
| `JsonUrls.DedupOnce` | get_errors_links.py:116 | a URL found N >= 1 times anywhere in the record appears exactly once among the deduplicated URLs |
| `Platforms.ReseauxValidesInverse` | get_errors_links.py:8-17 | the `RESEAUX_VALIDES` table and `DomainsOf` are one relation: every key maps to a platform name that owns it, and every domain a platform owns is a key mapping to that platform |
| `Platforms.PlatformNamesAreValues` | get_errors_links.py:8-17 | the platform names are exactly the values of the `RESEAUX_VALIDES` table |
| `Platforms.DomainsOf` | get_errors_links.py:8-17 | a name owns registrable domains exactly when it is one of the table's platforms |
| `Platforms.DetectReseau` | get_errors_links.py:19-21 | the result is a platform iff the registrable domain is a key of the table, and that platform owns the domain |
| `Platforms.DetectReseauIff` | get_errors_links.py:8-21 | a URL is on platform p exactly when its registrable domain is one of p's domains |
| `Platforms.SameDomainSamePlatform` | get_errors_links.py:19-21 | two URLs with the same registrable domain get the same platform |
| `Relevance.Lower` | get_errors_links.py:39-47 | `str.lower()` keeps the length and lowers each character on its own; `LowerIdempotent` adds that lowering twice is lowering once |
| `Relevance.LowerIdempotent` | get_errors_links.py:43-47 | lowering text already lowered at line 47 again at line 43 changes nothing |
| `Relevance.ContainsAll` | get_errors_links.py:42-43 | `contains_all` holds for an empty word list, and when it holds every word fits in the text; `ContainsAllIff` states what it means for the name, city and tags |
| `Relevance.ContainsAllIff` | get_errors_links.py:39-43 | contains_all on a lowered item holds iff the item contains the lowered name, city and every lowered tag |
| `Relevance.SomeItemMatches` | get_errors_links.py:46-49 | the inner loop returns True iff some item of the source passes `contains_all` |
| `Relevance.SomeItemMatchesIff` | get_errors_links.py:46-49 | the inner loop passes iff some item of the source describes the business |
| `Relevance.SomeSourceMatches` | get_errors_links.py:45-50 | the outer loop returns True iff the inner loop passes on some source |
| `Relevance.SomeSourceMatchesIff` | get_errors_links.py:45-50 | the outer loop over the sources passes iff some item of some source describes the business |
| `Relevance.IsValidBusiness` | get_errors_links.py:38-50 | is_valid_business is true iff some item of some source contains the name, city and all tags, ignoring case |
| `Relevance.NoItemsNotValid` | get_errors_links.py:45-50 | with no source, or only empty sources, the result is false |
| `Relevance.NameRequired` | get_errors_links.py:43 | if no item contains the name, the result is false whatever else the items match |
| `Relevance.MoreItemsStayValid` | get_errors_links.py:45-49 | adding items never turns a pass into a failure |
| `Relevance.MoreTagsStayInvalid` | get_errors_links.py:40-43 | adding activity tags never turns a failure into a pass |
| `Verdicts.CheckUrl` | get_errors_links.py:52-88 | the URL is dropped iff the fetch answered and (status >= 400 or the final URL's domain is not in the table); every kept record names the URL, suggests nothing, is relevant iff it has no error, and is either a fetched record (status < 400, known platform, "Contenu non reconnu" when not relevant) or an error record |
| `Verdicts.CheckUrlResponse` | get_errors_links.py:62-77 | a kept response's record has the final URL's platform, the response status, and `pertinent` iff some structured item describes the business |
| `Verdicts.CheckUrlException` | get_errors_links.py:79-88 | an exception gives `final_url` None, `http_status` None, `reseau` "Erreur", `pertinent` false and the exception's text as `erreur`; nothing propagates |
| `Verdicts.ErrorVerdict` | get_errors_links.py:80-88 | the error record names the URL, has no final URL and carries the message; it is well formed: "Erreur" platform, no status, not relevant, no correction |
| `Search.Join` | get_errors_links.py:92 | `" ".join` of no words is empty, of one word is that word, and otherwise starts with the first word; with `JoinAppend` this fixes the join of any list |
| `Search.JoinLast` | get_errors_links.py:92 | the join of a non-empty list ends with its last word |
| `Search.JoinAppend` | get_errors_links.py:92 | joining two non-empty runs of words is joining each with one space between them |
| `Search.FirstResults` | get_errors_links.py:94-107 | no more entries than sites, each under one of the sites' keys; `FirstResultsOrder` adds that keys are distinct and in site order, `FirstResultsLookup` which URL each key holds |
| `Search.RechercherLiens` | get_errors_links.py:90-109 | at most four entries, keyed facebook, instagram, tripadvisor or google; `RechercherLiensOrder` and `RechercherLiensFirstResult` fix the dict |
| `Search.FirstResultsLookup` | get_errors_links.py:94-109 | under each site's key is the first result of that site's query, or no entry when the query found nothing |
| `Search.FirstResultsOrder` | get_errors_links.py:94-107 | with distinct site keys, the entries hold each key at most once, and an earlier entry comes from an earlier site |
| `Search.RechercherLiensFirstResult` | get_errors_links.py:90-109 | under each of the four keys, the first entry (the only one, by `RechercherLiensOrder`) is the first search result for "name city tags site:domain", and the key is absent when that search found nothing |
| `Search.RechercherLiensOrder` | get_errors_links.py:94-109 | the dict holds each of its keys once, in the order facebook, instagram, tripadvisor, google, which is the order line 132 iterates in |
| `Aggregation.CollectVerdicts` | get_errors_links.py:124-128 | the loop's list is exactly the non-None check_url results in URL order |
| `Aggregation.Kept` | get_errors_links.py:124-128 | the first loop keeps at most one record per URL, and every record it keeps is well formed; `KeptMembers` states which records |
| `Aggregation.KeptAppend` | get_errors_links.py:124-128 | the records of a split list are those of its first part followed by its second, so a stopped run leaves a valid prefix |
| `Aggregation.KeptMembers` | get_errors_links.py:124-128 | a record is kept iff it is some URL's non-None check_url result; every kept record is well formed and names a checked URL; there are at most as many records as URLs |
| `Aggregation.ExistingReseaux` | get_errors_links.py:131 | the set holds only table platforms and possibly None |
| `Aggregation.Synthetic` | get_errors_links.py:134-142 | the record for a suggestion is relevant, has no error, proposes the suggested URL, is on a platform iff the URL's domain is in the table, and is not shaped as a discovered record |
| `Aggregation.Suggested` | get_errors_links.py:132-142 | at most one record per suggestion, each relevant, without initial URL, on a platform outside the existing set; `SuggestedMembers` states which records |
| `Aggregation.AddSuggestions` | get_errors_links.py:131-142 | the discovered records stay an unchanged prefix, followed by the synthetic records of the unsuppressed suggestions |
| `Aggregation.SuggestedAppend` | get_errors_links.py:132-142 | the suggestions contribute their records in suggestion order, each on its own |
| `Aggregation.SuggestedMembers` | get_errors_links.py:132-142 | a record is added iff a suggestion's platform is not among the relevant initial-URL platforms, and it is that suggestion's record (no initial or final URL, no status, relevant, no error, the suggestion as correction); at most one per suggestion |
| `Aggregation.Suppression` | get_errors_links.py:131-133 | a relevant record whose initial URL is on platform p leaves no record on p after the discovered prefix |
| `Aggregation.Merge` | get_errors_links.py:124-142 | there are at most as many records as URLs and suggestions together, and a record has an initial URL iff it lies in the prefix of kept discovered records |
| `Aggregation.Run` | get_errors_links.py:116-142 | the URLs checked are the record's URLs without repeats, and the result is the merge of their verdicts with the suggestions |
| `Scenarios.RedirectedLinkDoesNotSuppress` | get_errors_links.py:131-133 | a relevant short link that redirects to Facebook does not suppress the Facebook suggestion, because suppression uses the initial URL; the result holds two Facebook records |
| `Scenarios.TwoDiscoveredOnOnePlatformKept` | get_errors_links.py:124-128 | two relevant discovered links on Facebook are both kept |
| `Scenarios.TwoSuggestionsOnOnePlatformAdded` | get_errors_links.py:131-142 | two suggestions whose URLs are on Facebook are both added, since each is tested only against the discovered records |
| `Scenarios.UnmappedRecordSuppressesUnmappedSuggestions` | get_errors_links.py:131-133 | with None among the existing platforms, every suggestion on no platform is left out |

## Left out

- `requests.get`, its headers, the `Accept-Language` value and the 10-second timeout (get_errors_links.py:54-60) are network I/O. They are the `fetch` parameter. A timeout is one of its `TransportFailed` outcomes.
- `tldextract` (lines 20 and 133) is foreign, data-driven public-suffix logic. It is the `regDomain` parameter.
- `extruct.extract` and `get_base_url` (lines 35-36) are foreign parsers. The fetch outcome carries their result as a sequence of sources of items, or as the exception they raised.
- `json.dumps` (line 47) is foreign. Every item is given as its already-serialised text. That text escapes non-ASCII characters, so a name with accents can never match it; the model cannot see this.
- The DDGS search service (lines 95-107) is the `search` parameter. An exception it raises is outside any `try` and would stop the script; the model does not represent that.
- Relevance.Lower: lower-cases ASCII letters only. Python's `str.lower()` also maps non-ASCII letters, and the Unicode case tables are not part of this model.
- UrlPattern.IsRegexSpace lists, as fixed code points, the characters for which `str.isspace()` holds. That is Python's `\s` for str patterns under its current Unicode data.
- A JSON object is its list of fields. `json.load` keeps only the last value of a repeated key, so the script never sees duplicate keys; the model does not require distinct keys, and on a repeated key its walk would visit every copy.
- JSON numbers are reals. Their value never matters to the walk.
- The order of `list(set(...))` is Python's hash order. `ListOfSet` leaves the order open: it chooses each next element arbitrarily.
- Aggregation.ExistingReseaux only looks at records that have an initial URL. Python would call `detect_reseau(None)` on one without, but every discovered record has an initial URL (`Aggregation.KeptMembers`).
- The exception text `str(e)` (line 86) is an opaque message string.
- File reading and writing, the hard-coded paths, `print`, and reading `name`, `addresses[0].city` and `tags` from `data["info"]` (lines 112-120, 144-147) are I/O glue. `Run` takes the name, city and tags as inputs.
- The script has no content-type or extension filter, no weighted-term or fuzzy scoring, no score field and no concurrency. The model adds none of them.

## Behaviour at the edges

The script's comments describe the search as looking for the links that are missing (line 121) and the second loop as adding the missing links (line 130). To one platform the code can still give several records, and it can leave out a link that is missing:

- two relevant discovered links on the same platform are both kept (`Scenarios.TwoDiscoveredOnOnePlatformKept`);
- two suggestions on the same platform are both added, because each is compared only with the discovered records (`Scenarios.TwoSuggestionsOnOnePlatformAdded`);
- suppression compares the platform of each relevant record's initial URL, not of its final URL (line 131). `Scenarios.RedirectedLinkDoesNotSuppress` shows a run that ends with two Facebook records;
- a relevant record whose initial URL is on no platform puts None in `existing_reseaux`, and then every suggestion whose URL is on no platform is left out (`Scenarios.UnmappedRecordSuppressesUnmappedSuggestions`).

Other behaviour of the code:

- A URL whose domain is not in the table is dropped only when its fetch returns a response. A transport failure on any URL gives an "Erreur" record, whichever domain it is on (`Verdicts.CheckUrl`).
- A structured-data extraction failure does not fall back to an empty corpus. Like any other exception inside `check_url`, it turns the whole record into an error record.
- The table maps `google.com` to "Google" and `g.co` to "Google Maps (short)". It has no YouTube entry.
