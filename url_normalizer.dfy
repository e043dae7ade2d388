/**
 * URL canonicalisation and URL metadata of the result-processing pipeline
 * (normalizeUrl, extractDomain, extractFileType).
 */
module UrlNormalizer {
  import opened Wrappers
  import opened Text

  /** What the platform URL parser (`new URL(url)`) yields: host name and path. */
  datatype Url = Url(hostname: string, pathname: string)

  /** The platform URL parser; `None` when it throws on a malformed URL. */
  type UrlParser = string -> Option<Url>

  function StripScheme(s: string): (r: string)
    ensures |r| <= |s| && r == s[|s| - |r|..]
  {
    if StartsWith(s, "https://") then s[8..]
    else if StartsWith(s, "http://") then s[7..]
    else s
  }

  function StripWww(s: string): (r: string)
    ensures |r| <= |s| && r == s[|s| - |r|..]
  {
    if StartsWith(s, "www.") then s[4..] else s
  }

  function StripTrailingSlash(s: string): (r: string)
    ensures |r| <= |s| && r == s[..|r|]
  {
    if EndsWith(s, "/") then s[..|s| - 1] else s
  }

  /**
   * normalizeUrl: trim, lowercase, then drop at most one leading
   * `http://`/`https://`, at most one leading `www.` and at most one
   * trailing `/`.
   */
  function NormalizeUrl(url: string): (r: string)
    ensures IsLowerCase(r)
    ensures |r| <= |url|
  {
    var lowered := ToLower(Trim(url));
    ToLowerIsLowerCase(Trim(url));
    var a := StripScheme(lowered);
    LowerCaseSlice(lowered, |lowered| - |a|, |lowered|);
    var b := StripWww(a);
    LowerCaseSlice(a, |a| - |b|, |a|);
    var c := StripTrailingSlash(b);
    LowerCaseSlice(b, 0, |c|);
    c
  }

  lemma LowerCaseSlice(s: string, i: nat, j: nat)
    requires IsLowerCase(s) && i <= j <= |s|
    ensures IsLowerCase(s[i..j])
  {
    assert forall k :: 0 <= k < j - i ==> s[i..j][k] == s[i + k];
  }

  /**
   * For a lowercase string with no surrounding whitespace, scheme or `www.`,
   * normalisation only drops one trailing slash.
   */
  lemma NormalizeUnchangedPrefix(s: string)
    requires s != [] && !IsSpace(s[0]) && !IsSpace(s[|s| - 1]) && IsLowerCase(s)
    requires !StartsWith(s, "http://") && !StartsWith(s, "https://") && !StartsWith(s, "www.")
    ensures NormalizeUrl(s) == StripTrailingSlash(s)
  {
    assert TrimStart(s) == s;
    assert TrimEnd(s) == s;
    ToLowerIsLowerCase(s);
  }

  /** A string `NormalizeUrl` leaves as it is. */
  predicate IsCanonical(s: string)
  {
    && IsLowerCase(s)
    && Trim(s) == s
    && !StartsWith(s, "http://")
    && !StartsWith(s, "https://")
    && !StartsWith(s, "www.")
    && !EndsWith(s, "/")
  }

  /** The fixed points of `NormalizeUrl` are exactly the canonical strings. */
  lemma NormalizeFixpoint(s: string)
    ensures NormalizeUrl(s) == s <==> IsCanonical(s)
  {
    var t := Trim(s);
    var lowered := ToLower(t);
    var a := StripScheme(lowered);
    var b := StripWww(a);
    var c := StripTrailingSlash(b);
    assert c == NormalizeUrl(s);
    if c == s {
      assert t == s;
      StripSchemeKeepsLength(lowered);
      StripWwwKeepsLength(a);
      StripTrailingSlashKeepsLength(b);
      assert lowered == s;
      ToLowerIsLowerCase(t);
    }
    if IsCanonical(s) {
      ToLowerIsLowerCase(s);
      assert lowered == s;
    }
  }

  lemma StripSchemeKeepsLength(s: string)
    ensures |StripScheme(s)| == |s| <==> !StartsWith(s, "http://") && !StartsWith(s, "https://")
    ensures |StripScheme(s)| == |s| ==> StripScheme(s) == s
  {
  }

  lemma StripWwwKeepsLength(s: string)
    ensures |StripWww(s)| == |s| <==> !StartsWith(s, "www.")
    ensures |StripWww(s)| == |s| ==> StripWww(s) == s
  {
  }

  lemma StripTrailingSlashKeepsLength(s: string)
    ensures |StripTrailingSlash(s)| == |s| <==> !EndsWith(s, "/")
    ensures |StripTrailingSlash(s)| == |s| ==> StripTrailingSlash(s) == s
  {
  }

  /**
   * Normalising twice gives the same string exactly when the first result
   * is canonical: no surrounding whitespace, scheme, `www.` or trailing `/`.
   */
  lemma NormalizeIdempotentIff(url: string)
    ensures NormalizeUrl(NormalizeUrl(url)) == NormalizeUrl(url) <==> IsCanonical(NormalizeUrl(url))
  {
    NormalizeFixpoint(NormalizeUrl(url));
  }

  /**
   * Normalisation is not idempotent: for a canonical host such as `a.com`,
   * `a.com//` normalises to `a.com/`, which normalises to `a.com`.
   */
  lemma NormalizeNotIdempotent(h: string)
    requires IsCanonical(h) && h != [] && ':' !in h
    ensures NormalizeUrl(h + "//") == h + "/"
    ensures NormalizeUrl(NormalizeUrl(h + "//")) == h
    ensures NormalizeUrl(NormalizeUrl(h + "//")) != NormalizeUrl(h + "//")
  {
    var u := h + "//";
    var v := h + "/";
    SlashSuffixes(h, u);
    SlashSuffixes(h, v);
    DropsOneSlash(h, u);
    DropsOneSlash(h, v);
  }

  lemma SlashSuffixes(h: string, s: string)
    requires s == h + "/" || s == h + "//"
    ensures |s| > |h| && s[..|h|] == h && forall i :: |h| <= i < |s| ==> s[i] == '/'
    ensures s[..|s| - 1] == if s == h + "/" then h else h + "/"
  {
  }

  /** Normalising `h` followed by slashes drops one slash. */
  lemma DropsOneSlash(h: string, s: string)
    requires IsCanonical(h) && h != [] && ':' !in h
    requires |s| > |h| && s[..|h|] == h && forall i :: |h| <= i < |s| ==> s[i] == '/'
    ensures NormalizeUrl(s) == s[..|s| - 1]
  {
    assert !IsSpace(h[0]);
    assert s[0] == h[0];
    assert IsLowerCase(s) by {
      forall i | 0 <= i < |s| ensures Lower(s[i]) == s[i] {
        if i < |h| { assert s[i] == h[i]; }
      }
    }
    if |h| >= 8 {
      assert s[..8] == h[..8] && s[..7] == h[..7] && s[..4] == h[..4];
    } else {
      assert s[|h|] == '/';
      if |h| >= 7 {
        assert s[..7] == h[..7] && s[..4] == h[..4];
        PrefixMismatch(s, "https://", 5);
      } else if |h| >= 5 {
        assert s[..4] == h[..4];
        if |h| == 6 { assert s[5] == h[5] && h[5] in h; }
        PrefixMismatch(s, "https://", 5);
        PrefixMismatch(s, "http://", 4);
      } else {
        PrefixMismatch(s, "https://", |h|);
        PrefixMismatch(s, "http://", |h|);
        if |h| == 4 { assert s[..4] == h[..4]; } else { PrefixMismatch(s, "www.", |h|); }
      }
    }
    NormalizeUnchangedPrefix(s);
    StripOneSlash(s);
  }

  lemma PrefixMismatch(s: string, p: string, k: nat)
    requires k < |p| && k < |s| && s[k] != p[k]
    ensures !StartsWith(s, p)
  {
  }

  lemma StripOneSlash(s: string)
    requires s != [] && s[|s| - 1] == '/'
    ensures StripTrailingSlash(s) == s[..|s| - 1]
  {
    assert s[|s| - 1..] == "/";
  }

  /** The `.pdf`-like extensions the pipeline classifies as document types. */
  const DocumentTypes: seq<string> := ["pdf", "doc", "docx", "ppt", "pptx", "xls", "xlsx"]

  /** The lowercased text after the last `.` of a path. */
  function PathExtension(pathname: string): string
  {
    ToLower(AfterLast(pathname, '.'))
  }

  /**
   * extractFileType: a document type named by the path's extension, else
   * `html`; `unknown` when the URL does not parse.
   */
  function ExtractFileType(url: string, parse: UrlParser): (r: string)
    ensures r in DocumentTypes || r == "html" || r == "unknown"
    ensures r == "unknown" <==> parse(url).None?
    ensures parse(url).Some? ==>
      (r == "html" <==> PathExtension(parse(url).value.pathname) !in DocumentTypes)
    ensures parse(url).Some? && r != "html" ==> r == PathExtension(parse(url).value.pathname)
  {
    match parse(url)
    case None => "unknown"
    case Some(u) =>
      var extension := PathExtension(u.pathname);
      if extension in DocumentTypes then extension else "html"
  }

  /** extractDomain: the host name, or the empty string when the URL does not parse. */
  function ExtractDomain(url: string, parse: UrlParser): (r: string)
    ensures parse(url).None? ==> r == ""
    ensures parse(url).Some? ==> r == parse(url).value.hostname
  {
    match parse(url)
    case None => ""
    case Some(u) => u.hostname
  }
}
