/**
 * Concrete runs of the merge. The script's comments (get_errors_links.py,
 * lines 121 and 130) describe the search as looking for the links that
 * are missing and the second loop as adding them; these runs show which
 * links the code actually keeps or adds when a platform is already present.
 */
module Scenarios {
  import opened Wrappers
  import opened Relevance
  import opened Verdicts
  import opened Search
  import opened Aggregation

  /** A link-shortener URL, relevant, whose fetch ends on a Facebook page. */
  function ShortDomain(u: string): string {
    if u == "https://fb.me/x" then "fb.me" else "facebook.com"
  }

  function RedirectFetch(u: string): FetchOutcome {
    Response(200, "https://www.facebook.com/bistrot", Parsed([["bistrot nice"]]))
  }

  /**
   * The relevant discovered record is on Facebook (its final URL), but
   * suppression looks at the platform of its initial URL, which is none;
   * so the Facebook suggestion is added too and the result holds two
   * Facebook records.
   */
  lemma RedirectedLinkDoesNotSuppress()
    ensures var out := Merge(ShortDomain, RedirectFetch, ["https://fb.me/x"], "bistrot", "nice", [],
                             [Suggestion("facebook", "https://www.facebook.com/q")]);
            && |out| == 2
            && out[0].pertinent && out[0].reseau == Some("Facebook") && out[0].initialUrl == Some("https://fb.me/x")
            && out[1].pertinent && out[1].reseau == Some("Facebook") && out[1].urlCorrigee == Some("https://www.facebook.com/q")
  {
    var item := "bistrot nice";
    assert Lower(item) == item;
    assert Lower("bistrot") == "bistrot";
    assert Lower("nice") == "nice";
    assert OccursAt("bistrot", item, 0);
    assert OccursAt("nice", item, 8);
    assert Describes(item, "bistrot", "nice", []);
    assert [[item]][0][0] == item;
    var url := "https://fb.me/x";
    var urls := [url];
    assert urls[..0] == [];
    var discovered := Kept(ShortDomain, RedirectFetch, urls, "bistrot", "nice", []);
    assert |discovered| == 1 && discovered[0].initialUrl == Some(url) && discovered[0].pertinent;
    assert ExistingReseaux(ShortDomain, discovered) == {None};
  }

  /** Every URL is on Facebook. */
  function AllFacebook(u: string): string {
    "facebook.com"
  }

  /** Every URL is on a domain outside the platform table. */
  function AllUnmapped(u: string): string {
    "example.org"
  }

  function BistrotFetch(u: string): FetchOutcome {
    Response(200, u, Parsed([["bistrot nice"]]))
  }

  /**
   * Two relevant discovered links on the same platform are both kept: the
   * first loop keeps every non-None check_url result, whatever its platform.
   */
  lemma TwoDiscoveredOnOnePlatformKept()
    ensures var out := Merge(AllFacebook, BistrotFetch, ["https://facebook.com/a", "https://facebook.com/b"],
                             "bistrot", "nice", [], []);
            && |out| == 2
            && out[0].pertinent && out[0].reseau == Some("Facebook") && out[0].initialUrl == Some("https://facebook.com/a")
            && out[1].pertinent && out[1].reseau == Some("Facebook") && out[1].initialUrl == Some("https://facebook.com/b")
  {
    var item := "bistrot nice";
    assert Lower(item) == item;
    assert Lower("bistrot") == "bistrot";
    assert Lower("nice") == "nice";
    assert OccursAt("bistrot", item, 0);
    assert OccursAt("nice", item, 8);
    assert Describes(item, "bistrot", "nice", []);
    assert [[item]][0][0] == item;
    var urls := ["https://facebook.com/a", "https://facebook.com/b"];
    assert urls[..1] == ["https://facebook.com/a"] && urls[..1][..0] == [];
    var discovered := Kept(AllFacebook, BistrotFetch, urls, "bistrot", "nice", []);
    assert |discovered| == 2;
  }

  /**
   * Two suggestions on the same platform are both added: each suggestion
   * is tested against the platforms of the discovered records only, never
   * against the records added before it.
   */
  lemma TwoSuggestionsOnOnePlatformAdded()
    ensures var out := Suggested(AllFacebook, [Suggestion("facebook", "u1"), Suggestion("google", "u2")], {});
            && out == [Synthetic(AllFacebook, "u1"), Synthetic(AllFacebook, "u2")]
            && out[0].reseau == Some("Facebook") && out[1].reseau == Some("Facebook")
  {
    var sugg := [Suggestion("facebook", "u1"), Suggestion("google", "u2")];
    assert sugg[..1] == [Suggestion("facebook", "u1")] && sugg[..1][..0] == [];
  }

  /**
   * A relevant discovered record whose initial URL is on no platform puts
   * None among the existing platforms, and then every suggestion whose URL
   * is on no platform either is left out.
   */
  lemma UnmappedRecordSuppressesUnmappedSuggestions()
    ensures Suggested(AllUnmapped, [Suggestion("facebook", "u1"), Suggestion("google", "u2")], {None}) == []
  {
    var sugg := [Suggestion("facebook", "u1"), Suggestion("google", "u2")];
    assert sugg[..1] == [Suggestion("facebook", "u1")] && sugg[..1][..0] == [];
  }
}
