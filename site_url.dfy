/** The site URL used as the OAuth redirect target
    (components/login-button.tsx, `getURL` and `redirectTo`).

    The two environment variables are parameters: None is an unset
    variable, Some("") a variable set to the empty string. */
module SiteUrl {
  import opened ChatTypes

  const DefaultUrl: string := "http://localhost:3000/"
  const CallbackPath: string := "/api/auth/callback"

  /** `t` occurs in `s` starting at index `i`. */
  predicate OccursAt(s: string, t: string, i: int) {
    0 <= i && i + |t| <= |s| && s[i..i + |t|] == t
  }

  /** `s.includes(t)`. */
  predicate Contains(s: string, t: string) {
    exists i | 0 <= i <= |s| - |t| :: OccursAt(s, t, i)
  }

  /** `s.charAt(s.length - 1) === '/'`; on the empty string charAt gives ''. */
  predicate EndsWithSlash(s: string) {
    |s| > 0 && s[|s| - 1] == '/'
  }

  lemma ContainsInLonger(s: string, t: string, before: string, after: string)
    requires Contains(s, t)
    ensures Contains(before + s + after, t)
  {
    var i :| 0 <= i <= |s| - |t| && OccursAt(s, t, i);
    var whole := before + s + after;
    assert whole[|before| + i..|before| + i + |t|] == s[i..i + |t|];
    assert OccursAt(whole, t, |before| + i);
  }

  /** `NEXT_PUBLIC_SITE_URL ?? NEXT_PUBLIC_VERCEL_URL ?? 'http://localhost:3000/'`:
      `??` only skips an unset variable, so an empty string is kept. */
  function SiteBase(site: Option<string>, vercel: Option<string>): (base: string)
    ensures site.Some? ==> base == site.value
    ensures site.None? && vercel.Some? ==> base == vercel.value
    ensures site.None? && vercel.None? ==> base == DefaultUrl
  {
    match site
    case Some(s) => s
    case None =>
      match vercel
      case Some(v) => v
      case None => DefaultUrl
  }

  /** Line 21: prefix "https://" unless "http" occurs anywhere. */
  function WithScheme(url: string): (r: string)
    ensures Contains(r, "http")
    ensures |r| >= |url| && r[|r| - |url|..] == url
    ensures r == url <==> Contains(url, "http")
    ensures r != url ==> r[..|r| - |url|] == "https://"
  {
    if Contains(url, "http") then url
    else
      var r := "https://" + url;
      assert OccursAt(r, "http", 0);
      r
  }

  /** Line 23: append '/' unless the last character already is one. */
  function WithTrailingSlash(url: string): (r: string)
    ensures EndsWithSlash(r)
    ensures url <= r && |r| <= |url| + 1
    ensures r == url <==> EndsWithSlash(url)
  {
    if EndsWithSlash(url) then url else url + "/"
  }

  /** Lines 21 and 23 together. */
  function Normalize(url: string): (r: string)
    ensures Contains(r, "http") && EndsWithSlash(r)
    ensures Contains(r, url)
  {
    var schemed := WithScheme(url);
    var r := WithTrailingSlash(schemed);
    assert Contains(r, "http") by {
      ContainsInLonger(schemed, "http", "", r[|schemed|..]);
      assert r == "" + schemed + r[|schemed|..];
    }
    assert Contains(r, url) by {
      var before := schemed[..|schemed| - |url|];
      assert Contains(url, url) by { assert OccursAt(url, url, 0); }
      ContainsInLonger(url, url, before, r[|schemed|..]);
      assert r == before + url + r[|schemed|..];
    }
    r
  }

  /** Normalizing a normalized URL changes nothing. */
  lemma NormalizeIdempotent(url: string)
    ensures Normalize(Normalize(url)) == Normalize(url)
  {
    var once := Normalize(url);
    assert WithScheme(once) == once;
    assert WithTrailingSlash(once) == once;
  }

  lemma EndsWithSlashThenPath(url: string, path: string)
    requires EndsWithSlash(url) && path == CallbackPath
    ensures |url + path| >= 19 && (url + path)[|url + path| - 19..] == "//api/auth/callback"
  {
    var whole := url + path;
    assert |path| == 18;
    assert whole[|whole| - 19..] == [url[|url| - 1]] + path;
  }

  /** getURL(). */
  method GetUrl(site: Option<string>, vercel: Option<string>) returns (url: string)
    ensures url == Normalize(SiteBase(site, vercel))
    ensures Contains(url, "http") && EndsWithSlash(url)
    ensures Contains(url, SiteBase(site, vercel))
    ensures site.None? && vercel.None? ==> url == DefaultUrl
  {
    url := SiteBase(site, vercel);
    url := if Contains(url, "http") then url else "https://" + url;
    url := if EndsWithSlash(url) then url else url + "/";
    assert url == Normalize(SiteBase(site, vercel));
    if site.None? && vercel.None? {
      assert Contains(DefaultUrl, "http") by { assert OccursAt(DefaultUrl, "http", 0); }
    }
  }

  /** `${getURL()}/api/auth/callback`: since the URL already ends in '/',
      the target always holds "//api/auth/callback" at its end. */
  method RedirectTo(site: Option<string>, vercel: Option<string>) returns (target: string)
    ensures target == Normalize(SiteBase(site, vercel)) + CallbackPath
    ensures Contains(target, "http")
    ensures |target| >= 19 && target[|target| - 19..] == "//api/auth/callback"
  {
    var url := GetUrl(site, vercel);
    target := url + CallbackPath;
    assert target == "" + url + CallbackPath;
    ContainsInLonger(url, "http", "", CallbackPath);
    EndsWithSlashThenPath(url, CallbackPath);
  }
}
