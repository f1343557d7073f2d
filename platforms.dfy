/**
 * RESEAUX_VALIDES and detect_reseau: the fixed table from registrable
 * domain to platform name, and the lookup of a URL's registrable domain in it.
 * The public-suffix extraction (`tldextract`) is the parameter `regDomain`.
 */
module Platforms {
  import opened Wrappers

  const ReseauxValides: map<string, string> := map[
    "facebook.com" := "Facebook",
    "instagram.com" := "Instagram",
    "twitter.com" := "Twitter",
    "linkedin.com" := "LinkedIn",
    "google.com" := "Google",
    "g.co" := "Google Maps (short)",
    "tripadvisor.fr" := "TripAdvisor",
    "tripadvisor.com" := "TripAdvisor"
  ]

  /** The platform names the table can produce, written out; `PlatformNamesAreValues` ties them to the table. */
  const PlatformNames: set<string> :=
    {"Facebook", "Instagram", "Twitter", "LinkedIn", "Google", "Google Maps (short)", "TripAdvisor"}

  /**
   * The registrable domains of each platform name, listed platform by
   * platform: the table read in the other direction.
   */
  function DomainsOf(platform: string): (ds: set<string>)
    ensures ds != {} <==> platform in PlatformNames
  {
    if platform == "Facebook" then {"facebook.com"}
    else if platform == "Instagram" then {"instagram.com"}
    else if platform == "Twitter" then {"twitter.com"}
    else if platform == "LinkedIn" then {"linkedin.com"}
    else if platform == "Google" then {"google.com"}
    else if platform == "Google Maps (short)" then {"g.co"}
    else if platform == "TripAdvisor" then {"tripadvisor.fr", "tripadvisor.com"}
    else {}
  }

  /**
   * The table and DomainsOf are the same relation read in the two
   * directions: a domain is a key exactly when it is a domain of some
   * platform name, and it then maps to that name.
   */
  lemma ReseauxValidesInverse()
    ensures forall d :: d in ReseauxValides ==> ReseauxValides[d] in PlatformNames && d in DomainsOf(ReseauxValides[d])
    ensures forall p, d :: p in PlatformNames && d in DomainsOf(p) ==> d in ReseauxValides && ReseauxValides[d] == p
  {
  }

  /** The names listed are exactly the values of the table. */
  lemma PlatformNamesAreValues()
    ensures PlatformNames == ReseauxValides.Values
  {
    ReseauxValidesInverse();
    forall p | p in PlatformNames ensures p in ReseauxValides.Values {
      var d :| d in DomainsOf(p);
      assert ReseauxValides[d] == p;
    }
    forall p | p in ReseauxValides.Values ensures p in PlatformNames {
      var d :| d in ReseauxValides && ReseauxValides[d] == p;
    }
  }

  /** detect_reseau(url): `RESEAUX_VALIDES.get(registered_domain(url))`. */
  function DetectReseau(regDomain: string -> string, url: string): (r: Option<string>)
    ensures r.Some? <==> regDomain(url) in ReseauxValides
    ensures r.Some? ==> r.value in PlatformNames && regDomain(url) in DomainsOf(r.value)
  {
    var d := regDomain(url);
    if d in ReseauxValides then Some(ReseauxValides[d]) else None
  }

  /**
   * A URL is classified as a platform exactly when its registrable domain
   * is one of that platform's domains; so two URLs with the same
   * registrable domain get the same answer.
   */
  lemma DetectReseauIff(regDomain: string -> string, url: string, platform: string)
    ensures DetectReseau(regDomain, url) == Some(platform) <==> regDomain(url) in DomainsOf(platform)
  {
  }

  lemma SameDomainSamePlatform(regDomain: string -> string, u1: string, u2: string)
    requires regDomain(u1) == regDomain(u2)
    ensures DetectReseau(regDomain, u1) == DetectReseau(regDomain, u2)
  {
  }
}
