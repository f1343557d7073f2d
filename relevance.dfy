/**
 * is_valid_business: the structured-containment test. A page is relevant
 * when one structured-data item, lower-cased, contains the lower-cased
 * business name, city and every activity tag as substrings. Each item is
 * given already serialised (the `json.dumps(item)` text).
 */
module Relevance {

  /** `str.lower()` on one character, for the ASCII letters. */
  function LowerChar(c: char): (d: char)
    ensures 'A' <= c <= 'Z' ==> 'a' <= d <= 'z' && d as int == c as int + 32
    ensures !('A' <= c <= 'Z') ==> d == c
  {
    if 'A' <= c <= 'Z' then (c as int + 32) as char else c
  }

  function Lower(s: string): (r: string)
    ensures |r| == |s|
    ensures forall k :: 0 <= k < |s| ==> r[k] == LowerChar(s[k])
  {
    seq(|s|, k requires 0 <= k < |s| => LowerChar(s[k]))
  }

  /** Lower-casing twice is lower-casing once (the text is lowered by the caller and again by contains_all). */
  lemma LowerIdempotent(s: string)
    ensures Lower(Lower(s)) == Lower(s)
  {
  }

  /** Python's `w in t` on strings. */
  predicate IsSubstring(w: string, t: string) {
    exists k :: 0 <= k <= |t| - |w| && OccursAt(w, t, k)
  }

  predicate OccursAt(w: string, t: string, k: nat) {
    k + |w| <= |t| && t[k..k + |w|] == w
  }

  function LowerAll(ws: seq<string>): (r: seq<string>)
    ensures |r| == |ws|
    ensures forall k :: 0 <= k < |ws| ==> r[k] == Lower(ws[k])
  {
    seq(|ws|, k requires 0 <= k < |ws| => Lower(ws[k]))
  }

  /** `[nom, ville] + activites`, each lower-cased. */
  function Words(nom: string, ville: string, activites: seq<string>): seq<string> {
    [Lower(nom), Lower(ville)] + LowerAll(activites)
  }

  /** contains_all(text): every word is in `text.lower()`. */
  predicate ContainsAll(words: seq<string>, text: string)
    ensures words == [] ==> ContainsAll(words, text)
    ensures ContainsAll(words, text) ==> forall k :: 0 <= k < |words| ==> |words[k]| <= |text|
  {
    forall k :: 0 <= k < |words| ==> IsSubstring(words[k], Lower(text))
  }

  /** The inner loop: some item of one source passes contains_all. */
  predicate SomeItemMatches(items: seq<string>, words: seq<string>)
    ensures SomeItemMatches(items, words) <==> exists j :: 0 <= j < |items| && ContainsAll(words, Lower(items[j]))
    decreases |items|
  {
    if items == [] then false
    else
      assert forall j :: 0 < j < |items| ==> items[j] == items[1..][j - 1];
      ContainsAll(words, Lower(items[0])) || SomeItemMatches(items[1..], words)
  }

  /** The outer loop over the sources of structured data. */
  predicate SomeSourceMatches(sources: seq<seq<string>>, words: seq<string>)
    ensures SomeSourceMatches(sources, words) <==> exists i :: 0 <= i < |sources| && SomeItemMatches(sources[i], words)
    decreases |sources|
  {
    if sources == [] then false
    else
      assert forall i :: 0 < i < |sources| ==> sources[i] == sources[1..][i - 1];
      SomeItemMatches(sources[0], words) || SomeSourceMatches(sources[1..], words)
  }

  /** Reference: an item describes the business when it contains, ignoring case, its name, its city and every tag. */
  predicate Describes(item: string, nom: string, ville: string, activites: seq<string>) {
    && IsSubstring(Lower(nom), Lower(item))
    && IsSubstring(Lower(ville), Lower(item))
    && forall a :: a in activites ==> IsSubstring(Lower(a), Lower(item))
  }

  lemma ContainsAllIff(item: string, nom: string, ville: string, activites: seq<string>)
    ensures ContainsAll(Words(nom, ville, activites), Lower(item)) <==> Describes(item, nom, ville, activites)
  {
    LowerIdempotent(item);
    var words := Words(nom, ville, activites);
    if Describes(item, nom, ville, activites) {
      forall k | 2 <= k < |words| ensures IsSubstring(words[k], Lower(item)) {
        assert words[k] == Lower(activites[k - 2]);
        assert activites[k - 2] in activites;
      }
    }
    if ContainsAll(words, Lower(item)) {
      assert words[0] == Lower(nom) && words[1] == Lower(ville);
      assert IsSubstring(words[0], Lower(item)) && IsSubstring(words[1], Lower(item));
      forall a | a in activites ensures IsSubstring(Lower(a), Lower(item)) {
        var j :| 0 <= j < |activites| && activites[j] == a;
        assert words[j + 2] == Lower(a);
      }
    }
  }

  lemma {:induction false} SomeItemMatchesIff(items: seq<string>, nom: string, ville: string, activites: seq<string>)
    ensures SomeItemMatches(items, Words(nom, ville, activites))
            <==> exists j :: 0 <= j < |items| && Describes(items[j], nom, ville, activites)
    decreases |items|
  {
    if items != [] {
      SomeItemMatchesIff(items[1..], nom, ville, activites);
      ContainsAllIff(items[0], nom, ville, activites);
      if exists j :: 0 <= j < |items| && Describes(items[j], nom, ville, activites) {
        var j :| 0 <= j < |items| && Describes(items[j], nom, ville, activites);
        if j > 0 { assert items[1..][j - 1] == items[j]; }
      }
      if exists j :: 0 <= j < |items[1..]| && Describes(items[1..][j], nom, ville, activites) {
        var j :| 0 <= j < |items[1..]| && Describes(items[1..][j], nom, ville, activites);
        assert items[j + 1] == items[1..][j];
      }
    }
  }

  /** The outer loop passes exactly when some item of some source describes the business. */
  lemma {:induction false} SomeSourceMatchesIff(structuredData: seq<seq<string>>, nom: string, ville: string, activites: seq<string>)
    ensures SomeSourceMatches(structuredData, Words(nom, ville, activites))
            <==> exists i, j :: 0 <= i < |structuredData| && 0 <= j < |structuredData[i]|
                                && Describes(structuredData[i][j], nom, ville, activites)
    decreases |structuredData|
  {
    var sd := structuredData;
    if sd != [] {
      SomeSourceMatchesIff(sd[1..], nom, ville, activites);
      SomeItemMatchesIff(sd[0], nom, ville, activites);
      if exists i, j :: 0 <= i < |sd| && 0 <= j < |sd[i]| && Describes(sd[i][j], nom, ville, activites) {
        var i, j :| 0 <= i < |sd| && 0 <= j < |sd[i]| && Describes(sd[i][j], nom, ville, activites);
        if i > 0 { assert sd[1..][i - 1] == sd[i]; }
      }
      if exists i, j :: 0 <= i < |sd[1..]| && 0 <= j < |sd[1..][i]| && Describes(sd[1..][i][j], nom, ville, activites) {
        var i, j :| 0 <= i < |sd[1..]| && 0 <= j < |sd[1..][i]| && Describes(sd[1..][i][j], nom, ville, activites);
        assert sd[i + 1] == sd[1..][i];
      }
    }
  }

  /**
   * is_valid_business(structured_data, nom, ville, activites): true
   * exactly when some item of some source describes the business.
   */
  predicate IsValidBusiness(structuredData: seq<seq<string>>, nom: string, ville: string, activites: seq<string>)
    ensures IsValidBusiness(structuredData, nom, ville, activites)
            <==> exists i, j :: 0 <= i < |structuredData| && 0 <= j < |structuredData[i]|
                                && Describes(structuredData[i][j], nom, ville, activites)
  {
    SomeSourceMatchesIff(structuredData, nom, ville, activites);
    SomeSourceMatches(structuredData, Words(nom, ville, activites))
  }

  /** With no source, or only empty ones, nothing is relevant. */
  lemma NoItemsNotValid(structuredData: seq<seq<string>>, nom: string, ville: string, activites: seq<string>)
    requires forall i :: 0 <= i < |structuredData| ==> structuredData[i] == []
    ensures !IsValidBusiness(structuredData, nom, ville, activites)
  {
  }

  /** An item that lacks the business name never passes, whatever else it contains. */
  lemma NameRequired(structuredData: seq<seq<string>>, nom: string, ville: string, activites: seq<string>)
    requires forall i, j :: 0 <= i < |structuredData| && 0 <= j < |structuredData[i]|
                            ==> !IsSubstring(Lower(nom), Lower(structuredData[i][j]))
    ensures !IsValidBusiness(structuredData, nom, ville, activites)
  {
  }

  /** Every item of some source, as a set. */
  function ItemSet(structuredData: seq<seq<string>>): set<string> {
    set i, j | 0 <= i < |structuredData| && 0 <= j < |structuredData[i]| :: structuredData[i][j]
  }

  /** Adding items (to a source, or as new sources) never turns a pass into a failure. */
  lemma MoreItemsStayValid(fewer: seq<seq<string>>, more: seq<seq<string>>, nom: string, ville: string, activites: seq<string>)
    requires ItemSet(fewer) <= ItemSet(more)
    requires IsValidBusiness(fewer, nom, ville, activites)
    ensures IsValidBusiness(more, nom, ville, activites)
  {
    var i, j :| 0 <= i < |fewer| && 0 <= j < |fewer[i]| && Describes(fewer[i][j], nom, ville, activites);
    assert fewer[i][j] in ItemSet(fewer);
    var i', j' :| 0 <= i' < |more| && 0 <= j' < |more[i']| && more[i'][j'] == fewer[i][j];
  }

  /** Adding activity tags never turns a failure into a pass. */
  lemma MoreTagsStayInvalid(structuredData: seq<seq<string>>, nom: string, ville: string, fewer: seq<string>, more: seq<string>)
    requires forall a :: a in fewer ==> a in more
    requires !IsValidBusiness(structuredData, nom, ville, fewer)
    ensures !IsValidBusiness(structuredData, nom, ville, more)
  {
  }
}
