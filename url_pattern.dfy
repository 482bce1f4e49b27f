/**
 * The URL pattern matcher `is_url`. Its pattern is an alternation of literal
 * scheme prefixes applied with an anchored match, so matching is a search for
 * the first alternative that is a prefix of the text.
 */
module UrlPattern {
  import opened Wrappers

  /** The alternatives of the URL pattern, in pattern order; the last one ends in a backslash. */
  const UrlAlternatives: seq<string> := ["http://", "https://", "ftp://", "file://", "file:\\"]

  /**
   * An anchored match of a pattern made of literal alternatives: the index of
   * the leftmost alternative that is a prefix of `text`, or None.
   */
  function MatchAlternatives(alts: seq<string>, text: string): (r: Option<nat>)
    ensures r.Some? ==> r.value < |alts| && alts[r.value] <= text
    ensures r.Some? ==> forall j :: 0 <= j < r.value ==> !(alts[j] <= text)
    ensures r.None? ==> forall j :: 0 <= j < |alts| ==> !(alts[j] <= text)
  {
    if alts == [] then None
    else if alts[0] <= text then Some(0)
    else match MatchAlternatives(alts[1..], text)
      case None => None
      case Some(i) => Some(i + 1)
  }

  /** `is_url(resource_name)`: the pattern matches at the start of the text. */
  predicate IsUrl(text: string)
    ensures IsUrl(text) <==> exists i :: 0 <= i < |UrlAlternatives| && UrlAlternatives[i] <= text
  {
    MatchAlternatives(UrlAlternatives, text).Some?
  }

  /** True exactly when the text begins with one of the five scheme prefixes. */
  lemma IsUrlIff(text: string)
    ensures IsUrl(text) <==>
      || "http://" <= text || "https://" <= text || "ftp://" <= text
      || "file://" <= text || "file:\\" <= text
  {
    var r := MatchAlternatives(UrlAlternatives, text);
    if r.None? {
      assert !(UrlAlternatives[0] <= text) && !(UrlAlternatives[1] <= text) && !(UrlAlternatives[2] <= text)
        && !(UrlAlternatives[3] <= text) && !(UrlAlternatives[4] <= text);
    }
  }

  /** Only the start is anchored: whatever follows a URL prefix, the text stays a URL. */
  lemma IsUrlAnyTail(text: string, tail: string)
    requires IsUrl(text)
    ensures IsUrl(text + tail)
  {
    var i := MatchAlternatives(UrlAlternatives, text).value;
    var p := UrlAlternatives[i];
    assert (text + tail)[..|p|] == text[..|p|];
    assert !MatchAlternatives(UrlAlternatives, text + tail).None?;
  }

  lemma IsUrlExamples()
    ensures IsUrl("https://example.com")
    ensures !IsUrl("example.com")
    ensures !IsUrl("")
    ensures IsUrl("file:\\C:\\models")
  {
    IsUrlIff("https://example.com");
    IsUrlIff("example.com");
    IsUrlIff("file:\\C:\\models");
    assert "https://" <= "https://example.com";
    assert "file:\\" <= "file:\\C:\\models";
    assert "example.com"[0] == 'e';
  }
}
