/** One entry of an @font-face `src` descriptor (CSSFontFaceSrcValue.cpp):
    a url() or local() source with an optional format() hint, whether it is
    worth loading, how it serializes, and the one-time fetch of its font. */
module CssFontFaceSrc {
  import opened Common

  /** ASCII lower-casing of one character; other characters are kept. */
  function AsciiLower(c: char): (r: char)
    ensures 'A' <= c <= 'Z' ==> r as int == c as int + 32
    ensures !('A' <= c <= 'Z') ==> r == c
  {
    if 'A' <= c <= 'Z' then (c as int + 32) as char else c
  }

  /** TextCaseASCIIInsensitive comparison of two strings. */
  predicate EqualIgnoringAsciiCase(a: string, b: string)
  {
    |a| == |b| && forall i :: 0 <= i < |a| ==> AsciiLower(a[i]) == AsciiLower(b[i])
  }

  predicate StartsWithIgnoringAsciiCase(s: string, prefix: string)
  {
    |prefix| <= |s| && EqualIgnoringAsciiCase(s[..|prefix|], prefix)
  }

  predicate EndsWithIgnoringAsciiCase(s: string, suffix: string)
  {
    |suffix| <= |s| && EqualIgnoringAsciiCase(s[|s| - |suffix|..], suffix)
  }

  /** isSupportedFormat: without a format() hint, anything but a non-data
      URL ending in ".eot" (an old WinIE-style source) is loaded; with one,
      the platform's list of font formats (`platformSupports`) decides. */
  function IsSupportedFormat(format: string, absoluteResource: string, platformSupports: string -> bool): (r: bool)
    ensures format != "" ==> r == platformSupports(format)
    ensures format == "" && StartsWithIgnoringAsciiCase(absoluteResource, "data:") ==> r
    ensures format == "" && !StartsWithIgnoringAsciiCase(absoluteResource, "data:") ==>
              (r <==> !EndsWithIgnoringAsciiCase(absoluteResource, ".eot"))
  {
    if format == "" then
      StartsWithIgnoringAsciiCase(absoluteResource, "data:") || !EndsWithIgnoringAsciiCase(absoluteResource, ".eot")
    else platformSupports(format)
  }

  /** The comparison ignores case: ".EOT" files are refused like ".eot"
      ones, and "DATA:" URLs are accepted like "data:" ones. */
  lemma SupportedFormatIgnoresCase(platformSupports: string -> bool)
    ensures !IsSupportedFormat("", "font.EOT", platformSupports)
    ensures IsSupportedFormat("", "DATA:font/x.eot", platformSupports)
    ensures IsSupportedFormat("", "font.woff", platformSupports)
  {
    assert "font.EOT"[..5][0] == 'f' && AsciiLower('f') != AsciiLower('d');
    assert "font.EOT"[4..] == ".EOT";
    assert EqualIgnoringAsciiCase(".EOT", ".eot") by {
      assert AsciiLower('E') == 'e' && AsciiLower('O') == 'o' && AsciiLower('T') == 't';
    }
    assert "DATA:font/x.eot"[..5] == "DATA:";
    assert EqualIgnoringAsciiCase("DATA:", "data:") by {
      assert AsciiLower('D') == 'd' && AsciiLower('A') == 'a' && AsciiLower('T') == 't';
    }
    assert "font.woff"[..5][0] == 'f';
    assert "font.woff"[5..][0] == 'w' && AsciiLower('w') != AsciiLower('.');
  }

  /** Slices of strings equal up to ASCII case are equal up to ASCII case. */
  lemma EqualIgnoringAsciiCaseSlice(u: string, v: string, lo: nat, hi: nat)
    requires EqualIgnoringAsciiCase(u, v) && lo <= hi <= |u|
    ensures EqualIgnoringAsciiCase(u[lo..hi], v[lo..hi])
  {
    assert forall i :: 0 <= i < hi - lo ==> u[lo..hi][i] == u[lo + i] && v[lo..hi][i] == v[lo + i];
  }

  /** Two strings equal up to ASCII case compare alike with any third. */
  lemma EqualIgnoringAsciiCaseAlike(a: string, b: string, c: string)
    requires EqualIgnoringAsciiCase(a, b)
    ensures EqualIgnoringAsciiCase(a, c) <==> EqualIgnoringAsciiCase(b, c)
  {
  }

  /** Without a format() hint the verdict depends on the URL only up to ASCII
      case: two URLs that agree once lower-cased are treated alike. */
  lemma SupportedFormatDependsOnlyOnLowerCase(u: string, v: string, platformSupports: string -> bool)
    requires EqualIgnoringAsciiCase(u, v)
    ensures IsSupportedFormat("", u, platformSupports) == IsSupportedFormat("", v, platformSupports)
  {
    if 5 <= |u| {
      EqualIgnoringAsciiCaseSlice(u, v, 0, 5);
      assert u[0..5] == u[..5] && v[0..5] == v[..5];
      EqualIgnoringAsciiCaseAlike(u[..5], v[..5], "data:");
    }
    if 4 <= |u| {
      EqualIgnoringAsciiCaseSlice(u, v, |u| - 4, |u|);
      assert u[|u| - 4..|u|] == u[|u| - 4..] && v[|v| - 4..|v|] == v[|v| - 4..];
      EqualIgnoringAsciiCaseAlike(u[|u| - 4..], v[|v| - 4..], ".eot");
    }
  }

  /** A source entry's own data. */
  datatype SrcValue = SrcValue(specifiedResource: string, absoluteResource: string, format: string, isLocal: bool)

  /** serializeURI, given serializeString: url("…"). */
  function SerializeUri(s: string, serializeString: string -> string): string
  {
    "url(" + serializeString(s) + ")"
  }

  /** customCSSText: local(…) naming the font, or the url() as specified,
      then " format(…)" exactly when there is a format hint. */
  function CustomCssText(v: SrcValue, serializeString: string -> string): (r: string)
    ensures v.isLocal ==> |r| >= 6 && r[..6] == "local("
    ensures !v.isLocal ==> |r| >= 4 && r[..4] == "url("
    ensures v.format == "" ==>
              r == (if v.isLocal then "local(" + serializeString(v.absoluteResource) + ")"
                    else SerializeUri(v.specifiedResource, serializeString))
    ensures v.format != "" ==>
              r == (if v.isLocal then "local(" + serializeString(v.absoluteResource) + ")"
                    else SerializeUri(v.specifiedResource, serializeString))
                   + " format(" + serializeString(v.format) + ")"
  {
    var source := if v.isLocal then "local(" + serializeString(v.absoluteResource) + ")"
                  else SerializeUri(v.specifiedResource, serializeString);
    if v.format == "" then source else source + " format(" + serializeString(v.format) + ")"
  }

  /** equals: all four parts agree. */
  predicate SrcValueEquals(a: SrcValue, b: SrcValue)
  {
    a.isLocal == b.isLocal && a.format == b.format
    && a.specifiedResource == b.specifiedResource && a.absoluteResource == b.absoluteResource
  }

  /** Equal entries serialize alike; equality is that of the whole entry. */
  lemma EqualSourcesSerializeAlike(a: SrcValue, b: SrcValue, serializeString: string -> string)
    ensures SrcValueEquals(a, b) <==> a == b
    ensures SrcValueEquals(a, b) ==> CustomCssText(a, serializeString) == CustomCssText(b, serializeString)
  {
  }

  /** A URL is a local file when its scheme is "file". */
  predicate IsLocalFile(url: string)
  {
    StartsWithIgnoringAsciiCase(url, "file:")
  }

  /** The font request fetch builds. Cross-origin access control, when set,
      is CORS in anonymous mode on behalf of `crossOrigin`. */
  datatype FetchRequest = FetchRequest(
    url: string,
    cacheAwareLoading: bool,
    contentSecurityCheck: bool,
    crossOrigin: Option<nat>)

  /** setCrossOriginAccessControl applied to a fresh request: local files
      are left without access control. */
  function WithCrossOriginAccessControl(request: FetchRequest, securityOrigin: nat): (r: FetchRequest)
    ensures IsLocalFile(request.url) ==> r == request
    ensures !IsLocalFile(request.url) ==> r.crossOrigin == Some(securityOrigin)
    ensures r.(crossOrigin := request.crossOrigin) == request
  {
    if IsLocalFile(request.url) then request else request.(crossOrigin := Some(securityOrigin))
  }

  class CssFontFaceSrcValue {
    const value: SrcValue
    const shouldCheckContentSecurityPolicy: bool
    /** m_fetched: the font resource, once fetched. */
    var fetched: Option<nat>
    /** The requests handed to the resource fetcher, oldest first. */
    var requests: seq<FetchRequest>
    /** The cached resources replayed to the inspector, oldest first. */
    var restored: seq<nat>

    constructor(value: SrcValue, shouldCheckContentSecurityPolicy: bool)
      ensures this.value == value && this.shouldCheckContentSecurityPolicy == shouldCheckContentSecurityPolicy
      ensures fetched.None? && requests == [] && restored == []
    {
      this.value := value;
      this.shouldCheckContentSecurityPolicy := shouldCheckContentSecurityPolicy;
      fetched, requests, restored := None, [], [];
    }

    /** fetch: the first call issues one request and remembers the resource
        the fetcher returns (`fetcherResult`; none when it returns null);
        once a resource is remembered, later calls return it again and only
        replay its load to the inspector. */
    method Fetch(securityOrigin: nat, cacheAwareTimeoutEnabled: bool, fetcherResult: Option<nat>)
      returns (resource: Option<nat>)
      modifies this
      ensures old(fetched).Some? ==>
                resource == old(fetched) && fetched == old(fetched) && requests == old(requests)
                && restored == old(restored) + [old(fetched).value]
      ensures old(fetched).None? ==>
                resource == fetcherResult && fetched == fetcherResult && restored == old(restored)
                && requests == old(requests) + [WithCrossOriginAccessControl(
                     FetchRequest(value.absoluteResource, cacheAwareTimeoutEnabled, shouldCheckContentSecurityPolicy, None),
                     securityOrigin)]
    {
      if fetched.None? {
        var request := FetchRequest(value.absoluteResource, false, false, None);
        if cacheAwareTimeoutEnabled {
          request := request.(cacheAwareLoading := true);
        }
        request := request.(contentSecurityCheck := shouldCheckContentSecurityPolicy);
        request := WithCrossOriginAccessControl(request, securityOrigin);
        requests := requests + [request];
        if fetcherResult.None? {
          return None;
        }
        fetched := fetcherResult;
      } else {
        restored := restored + [fetched.value];
      }
      return fetched;
    }

    /** hasFailedOrCanceledSubresources: a fetched resource whose load
        failed or was canceled (`loadFailedOrCanceled`). */
    predicate HasFailedOrCanceledSubresources(loadFailedOrCanceled: nat -> bool)
      reads this
    {
      fetched.Some? && loadFailedOrCanceled(fetched.value)
    }
  }
}
