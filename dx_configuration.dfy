/**
 * The plugin's global configuration: the DX base URL that switches the
 * listener on, the repository denylist, and the form check of the URL.
 */
module DxConfiguration {
  import opened Wrappers
  import opened JavaText

  const EmptyUrlMessage := "DX API base URL is empty."
  const HttpsMessage := "DX base URL should start with https://"
  const HttpsScheme := "https://"

  /** The outcome of a form check: FormValidation.ok() or .warning(message). */
  datatype Validation = Ok | Warning(message: string)

  /** `dxBaseUrl != null && !dxBaseUrl.trim().isEmpty()`. */
  predicate UrlIsSet(url: Option<string>)
  {
    url.Some? && !IsBlank(url.value)
  }

  /** The URL counts as set exactly when it holds a char above U+0020. */
  lemma {:induction false} UrlIsSetIff(url: Option<string>)
    ensures UrlIsSet(url) <==> url.Some? && exists i :: 0 <= i < |url.value| && url.value[i] > ' '
  {
    if url.Some? {
      BlankIff(url.value);
    }
  }

  /** doCheckDxBaseUrl: blank first, then the literal https:// prefix of the untrimmed value. */
  function CheckDxBaseUrl(value: Option<string>): (v: Validation)
    ensures v == Warning(EmptyUrlMessage) <==> value.None? || IsBlank(value.value)
    ensures v == Warning(HttpsMessage) <==>
      value.Some? && !IsBlank(value.value) && !StartsWith(value.value, HttpsScheme)
    ensures v == Ok <==> value.Some? && StartsWith(value.value, HttpsScheme)
  {
    if value.None? || IsBlank(value.value) then Warning(EmptyUrlMessage)
    else if !StartsWith(value.value, HttpsScheme) then Warning(HttpsMessage)
    else Ok
  }

  /** Whatever the form check accepts switches the plugin on once stored. */
  lemma {:induction false} AcceptedUrlIsSet(value: Option<string>)
    ensures CheckDxBaseUrl(value) == Ok ==> UrlIsSet(value)
  {
    if CheckDxBaseUrl(value) == Ok {
      var s := value.value;
      assert s[..|HttpsScheme|] == HttpsScheme;
      assert s[0] == s[..|HttpsScheme|][0] == 'h';
      assert Trim(s) != [];
    }
  }

  /** A leading blank before the scheme is warned about, not trimmed away. */
  lemma {:induction false} LeadingSpaceWarns(rest: string)
    ensures CheckDxBaseUrl(Some(" " + HttpsScheme + rest)) == Warning(HttpsMessage)
  {
    var s := " " + HttpsScheme + rest;
    assert s[1] == 'h';
    assert s[..|HttpsScheme|][0] == ' ';
  }

  class DxGlobalConfiguration {
    var dxBaseUrl: Option<string>
    /** The value of getRepositoryDenylist(): comma/newline separated short names. */
    var repositoryDenylist: Option<string>

    /** The configuration as load() restores it from its persisted form. */
    constructor (persistedUrl: Option<string>, persistedDenylist: Option<string>)
      ensures dxBaseUrl == persistedUrl && repositoryDenylist == persistedDenylist
    {
      dxBaseUrl := persistedUrl;
      repositoryDenylist := persistedDenylist;
    }

    function GetDxBaseUrl(): Option<string>
      reads this
    {
      dxBaseUrl
    }

    function GetRepositoryDenylist(): Option<string>
      reads this
    {
      repositoryDenylist
    }

    /** Stores the URL; persisting it (save()) is not modelled. */
    method SetDxBaseUrl(url: Option<string>)
      modifies this`dxBaseUrl
      ensures GetDxBaseUrl() == url
      ensures GetRepositoryDenylist() == old(GetRepositoryDenylist())
      ensures IsConfigured() <==> UrlIsSet(url)
    {
      dxBaseUrl := url;
    }

    predicate IsConfigured()
      reads this
    {
      UrlIsSet(dxBaseUrl)
    }
  }
}
