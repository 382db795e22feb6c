/**
 * UrlBuilder: a base URL fixed at construction, and full URLs made by
 * putting a relative URL straight after it. There is no normalisation of
 * any kind: no slash is added, dropped or merged.
 */
module UrlBuilding {
  import opened Wrappers

  /** A .NET string reference, which may be null. */
  datatype NullableString = Null | Str(value: string)

  /** What string interpolation writes for a string: null writes nothing. */
  function Interpolated(s: NullableString): (r: string)
    ensures s.Str? ==> r == s.value
    ensures s.Null? ==> r == ""
  {
    match s
    case Null => ""
    case Str(v) => v
  }

  /** True when `prefix` is an initial segment of `s`. */
  predicate IsPrefix(prefix: string, s: string)
  {
    |prefix| <= |s| && s[..|prefix|] == prefix
  }

  /**
   * The builder. Its one field is given to the constructor and never
   * assigned again, so the builder is a value.
   */
  datatype UrlBuilder = UrlBuilder(baseUrl: NullableString)
  {
    /** The base URL given at construction (a null base reads as ""). */
    function GetBaseUrl(): (r: string)
      ensures baseUrl.Str? ==> r == baseUrl.value
      ensures baseUrl.Null? ==> r == ""
    {
      Interpolated(baseUrl)
    }

    /** The base URL followed by the relative URL, character for character. */
    function GetUrl(relativeUrl: NullableString): (r: string)
      ensures |r| == |GetBaseUrl()| + |Interpolated(relativeUrl)|
      ensures IsPrefix(GetBaseUrl(), r)
      ensures r[|GetBaseUrl()|..] == Interpolated(relativeUrl)
    {
      Interpolated(baseUrl) + Interpolated(relativeUrl)
    }

    /**
     * The inverse of GetUrl: the relative part of a URL made by this
     * builder, or None when the URL does not start with the base.
     */
    function RelativePart(url: string): (r: Option<string>)
      ensures r.Some? <==> IsPrefix(GetBaseUrl(), url)
      ensures r.Some? ==> GetBaseUrl() + r.value == url
    {
      var b := GetBaseUrl();
      if IsPrefix(b, url) then
        assert b + url[|b|..] == url by { assert url == url[..|b|] + url[|b|..]; }
        Some(url[|b|..])
      else
        None
    }
  }

  /** Stripping the base from a built URL gives back the relative URL. */
  lemma GetUrlRoundTrip(builder: UrlBuilder, relativeUrl: NullableString)
    ensures builder.RelativePart(builder.GetUrl(relativeUrl)) == Some(Interpolated(relativeUrl))
  {
  }

  /** Two relative URLs give the same full URL only when they read the same. */
  lemma GetUrlInjective(builder: UrlBuilder, r1: NullableString, r2: NullableString)
    requires builder.GetUrl(r1) == builder.GetUrl(r2)
    ensures Interpolated(r1) == Interpolated(r2)
  {
  }

  /** An empty or null relative URL gives the base URL unchanged. */
  lemma GetUrlOfEmptyIsBase(builder: UrlBuilder)
    ensures builder.GetUrl(Str("")) == builder.GetBaseUrl()
    ensures builder.GetUrl(Null) == builder.GetBaseUrl()
  {
  }

  /**
   * No slash normalisation: a base ending in '/' and a relative URL
   * starting with '/' give two slashes where they meet.
   */
  lemma NoSlashNormalisation(builder: UrlBuilder, relativeUrl: string)
    requires |builder.GetBaseUrl()| > 0 && builder.GetBaseUrl()[|builder.GetBaseUrl()| - 1] == '/'
    requires |relativeUrl| > 0 && relativeUrl[0] == '/'
    ensures var n := |builder.GetBaseUrl()|;
            builder.GetUrl(Str(relativeUrl))[n - 1..n + 1] == "//"
  {
  }

  /**
   * The doubled-slash example of the repository's UrlBuilder tests. Those
   * tests exercise a sibling UrlBuilder class whose source is not part of
   * this model; this lemma assumes it joins the two strings the same way.
   */
  lemma DoubledSlashExample()
    ensures UrlBuilder(Str("https://example.com/")).GetUrl(Str("/api/users"))
            == "https://example.com//api/users"
  {
  }
}
