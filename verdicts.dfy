/**
 * check_url after the fetch: from the outcome of fetching one discovered
 * URL, either drop it or build its verdict record.
 */
module Verdicts {
  import opened Wrappers
  import opened Platforms
  import opened Relevance

  /** What extracting structured data from a page gives: each syntax's items, serialised, or the exception raised. */
  datatype Extraction = Parsed(sources: seq<seq<string>>) | ParseFailed(message: string)

  /**
   * What fetching a URL gives: the response (status code, URL after
   * redirects, and the page's structured data), or the exception raised
   * (timeout, connection failure, malformed URL).
   */
  datatype FetchOutcome =
    | Response(status: int, finalUrl: string, content: Extraction)
    | TransportFailed(message: string)

  /** One output record: initial_url, final_url, reseau, http_status, pertinent, erreur, url_corrigee. */
  datatype Verdict = Verdict(
    initialUrl: Option<string>,
    finalUrl: Option<string>,
    reseau: Option<string>,
    httpStatus: Option<int>,
    pertinent: bool,
    erreur: Option<string>,
    urlCorrigee: Option<string>)

  const ContentNotRecognised: string := "Contenu non reconnu"

  /** The `reseau` of the record built when an exception was caught. */
  const ErrorPlatform: string := "Erreur"

  /** The record of the `except` branch: no final URL, no status, not relevant, the exception's text as error. */
  function ErrorVerdict(url: string, message: string): (v: Verdict)
    ensures WellFormedDiscovered(v)
    ensures v.initialUrl == Some(url) && v.finalUrl.None? && v.erreur == Some(message)
  {
    Verdict(Some(url), None, Some(ErrorPlatform), None, false, Some(message), None)
  }

  /**
   * The shape every record check_url returns has: it names the URL checked
   * and suggests nothing; it is relevant exactly when it carries no error;
   * either it was fetched (a final URL, a status below 400, a known
   * platform, and "Contenu non reconnu" when not relevant) or it records
   * an exception (platform "Erreur", no final URL, no status, not relevant).
   */
  predicate WellFormedDiscovered(v: Verdict) {
    && v.initialUrl.Some?
    && v.urlCorrigee.None?
    && (v.pertinent <==> v.erreur.None?)
    && v.reseau.Some?
    && (v.finalUrl.Some? ==>
          && v.httpStatus.Some? && v.httpStatus.value < 400
          && v.reseau.value in PlatformNames
          && (!v.pertinent ==> v.erreur == Some(ContentNotRecognised)))
    && (v.finalUrl.None? ==>
          && v.httpStatus.None?
          && v.reseau == Some(ErrorPlatform)
          && !v.pertinent)
  }

  /**
   * check_url(url, nom, ville, activites) given the fetch outcome. A
   * response with status >= 400, or whose final URL is on no known
   * platform, is dropped; any exception becomes an error record.
   */
  function CheckUrl(regDomain: string -> string, url: string, nom: string, ville: string,
                    activites: seq<string>, outcome: FetchOutcome): (r: Option<Verdict>)
    ensures r.None? <==> outcome.Response?
                         && (outcome.status >= 400 || regDomain(outcome.finalUrl) !in ReseauxValides)
    ensures r.Some? ==> WellFormedDiscovered(r.value) && r.value.initialUrl == Some(url)
  {
    match outcome
    case TransportFailed(message) => Some(ErrorVerdict(url, message))
    case Response(code, finalUrl, content) =>
      var reseau := DetectReseau(regDomain, finalUrl);
      if code >= 400 || reseau.None? then None
      else
        match content
        case ParseFailed(message) => Some(ErrorVerdict(url, message))
        case Parsed(structuredData) =>
          var valid := IsValidBusiness(structuredData, nom, ville, activites);
          Some(Verdict(Some(url), Some(finalUrl), reseau, Some(code), valid,
                       if valid then None else Some(ContentNotRecognised), None))
  }

  /**
   * A kept response: the platform is that of the FINAL URL, the status is
   * the response's, and the record is relevant exactly when some
   * structured-data item describes the business.
   */
  lemma CheckUrlResponse(regDomain: string -> string, url: string, nom: string, ville: string,
                         activites: seq<string>, code: int, finalUrl: string, structuredData: seq<seq<string>>)
    requires code < 400 && regDomain(finalUrl) in ReseauxValides
    ensures var r := CheckUrl(regDomain, url, nom, ville, activites, Response(code, finalUrl, Parsed(structuredData)));
            && r.Some?
            && r.value.finalUrl == Some(finalUrl)
            && r.value.reseau == Some(ReseauxValides[regDomain(finalUrl)])
            && r.value.httpStatus == Some(code)
            && (r.value.pertinent <==>
                  exists i, j :: 0 <= i < |structuredData| && 0 <= j < |structuredData[i]|
                                 && Describes(structuredData[i][j], nom, ville, activites))
  {
  }

  /** An exception, in the fetch or in the parsing of a kept page, is caught and becomes the error record. */
  lemma CheckUrlException(regDomain: string -> string, url: string, nom: string, ville: string,
                          activites: seq<string>, outcome: FetchOutcome, message: string)
    requires outcome == TransportFailed(message)
             || (outcome.Response? && outcome.content == ParseFailed(message)
                 && outcome.status < 400 && regDomain(outcome.finalUrl) in ReseauxValides)
    ensures var r := CheckUrl(regDomain, url, nom, ville, activites, outcome);
            && r.Some?
            && r.value.initialUrl == Some(url) && r.value.finalUrl.None? && r.value.httpStatus.None?
            && r.value.reseau == Some(ErrorPlatform) && !r.value.pertinent
            && r.value.erreur == Some(message) && r.value.urlCorrigee.None?
  {
  }
}
