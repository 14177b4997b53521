/**
 * PraatURLProvider: resolves the download URL of the Praat disk image for
 * one architecture edition from the vendor's download page.
 *
 * The page fetch (`urlopen(base_url).read()`) is the parameter `fetch`. The
 * compiled pattern's `search` is modelled by a recogniser written by hand for
 * the one shape the pattern accepts, `a href=` then an optional quote then
 * `praat<digits>_mac<arch>.dmg`, scanned from the start of the page.
 */
module Praat {
  import opened Wrappers
  import opened Text
  import opened Environment
  import opened StrFormat

  const PraatBaseUrl: string := "http://www.fon.hum.uva.nl/praat/download_mac.html"
  /** Named in the description of `arch_edition` only; the lookup itself writes "32" out. */
  const PraatDefaultArch: string := "32"
  const PraatDmgTemplate: string := "a href=\"?(?P<url>praat\\d+_mac{0}\\.dmg)\"?"

  /** The directory every resolved URL lies in: `PRAAT_BASE_URL` up to its last `/`. */
  const PraatDownloadDir: string := "http://www.fon.hum.uva.nl/praat/"

  datatype Error =
    | CantDownload(baseUrl: string, cause: string)   // "Can't download {base_url}: {err}"
    | NotFound(baseUrl: string)                      // "Couldn't find Praat download URL in {base_url}"

  /** `self.env.get("arch_edition", "32")`. */
  function ArchEdition(env: Env): (arch: string)
    ensures "arch_edition" in env ==> arch == env["arch_edition"]
    ensures "arch_edition" !in env ==> arch == PraatDefaultArch
  {
    GetOr(env, "arch_edition", "32")
  }

  /** `self.env.get("base_url", PRAAT_BASE_URL)`. */
  function BaseUrlOf(env: Env): (url: string)
    ensures "base_url" in env ==> url == env["base_url"]
    ensures "base_url" !in env ==> url == PraatBaseUrl
  {
    GetOr(env, "base_url", PraatBaseUrl)
  }

  /** `PRAAT_DMG_RE.format(arch)`: the architecture is interpolated verbatim. */
  function DmgPattern(arch: string): (p: string)
    ensures p == "a href=\"?(?P<url>praat\\d+_mac" + arch + "\\.dmg)\"?"
  {
    assert PraatDmgTemplate == "a href=\"?(?P<url>praat\\d+_mac" + "{0}" + "\\.dmg)\"?";
    FormatOneIndexed("a href=\"?(?P<url>praat\\d+_mac", "\\.dmg)\"?", arch);
    Format(PraatDmgTemplate, [arch]).value
  }

  /** Without `arch_edition` the pattern asks for the 32-bit edition. */
  lemma DefaultArchIs32(env: Env)
    requires "arch_edition" !in env
    ensures DmgPattern(ArchEdition(env)) == "a href=\"?(?P<url>praat\\d+_mac32\\.dmg)\"?"
  {
  }

  // ---------------------------------------------------------------------------
  // The recogniser

  function DmgSuffix(arch: string): string {
    "_mac" + arch + ".dmg"
  }

  /** `name` has the shape `praat<one or more digits>_mac<arch>.dmg`. */
  predicate IsDmgName(name: string, arch: string) {
    var n := |name| - |DmgSuffix(arch)|;
    && n > 5
    && name[..5] == "praat"
    && name[n..] == DmgSuffix(arch)
    && AllDigits(name[5..n])
  }

  /**
   * The file name the pattern captures when its match starts at `r` (after
   * `a href=` and the optional quote): the digit run is maximal, because the
   * character after it must be the `_` of the suffix.
   */
  function DmgNamePrefix(r: string, arch: string): (m: Option<string>)
    ensures m.Some? ==> |m.value| <= |r| && m.value == r[..|m.value|] && IsDmgName(m.value, arch)
  {
    if |r| >= 5 && r[..5] == "praat" then
      var n := LeadingDigits(r[5..]);
      var end := 5 + n + |DmgSuffix(arch)|;
      if n >= 1 && end <= |r| && r[5 + n..end] == DmgSuffix(arch) then
        assert r[..end][5..5 + n] == r[5..][..n];
        Some(r[..end])
      else None
    else None
  }

  /** The recogniser finds every file name of the right shape that starts `r`, and no other. */
  lemma DmgNamePrefixComplete(r: string, arch: string, len: nat)
    requires len <= |r| && IsDmgName(r[..len], arch)
    ensures DmgNamePrefix(r, arch) == Some(r[..len])
  {
    var name := r[..len];
    var d := len - |DmgSuffix(arch)| - 5;
    assert r[..5] == name[..5];
    var s := r[5..];
    assert s[..d] == name[5..5 + d];
    assert s[d] == name[5 + d] == DmgSuffix(arch)[0] == '_';
    var n := LeadingDigits(s);
    assert n == d;
    assert r[5 + n..5 + n + |DmgSuffix(arch)|] == name[5 + d..] == DmgSuffix(arch);
  }

  /** The group `url` of a match of the pattern that starts at position `p` of the page. */
  function MatchAt(html: string, p: nat, arch: string): (m: Option<string>)
    requires p <= |html|
    ensures m.Some? ==> p + 7 <= |html| && html[p..p + 7] == "a href=" && IsDmgName(m.value, arch)
    ensures m.Some? ==>
      var start := if p + 7 < |html| && html[p + 7] == '"' then p + 8 else p + 7;
      start + |m.value| <= |html| && html[start..start + |m.value|] == m.value
  {
    if p + 7 <= |html| && html[p..p + 7] == "a href=" then
      var rest := html[p + 7..];
      // with the quote stripped or not: a name cannot start with a quote
      DmgNamePrefix(if rest != [] && rest[0] == '"' then rest[1..] else rest, arch)
    else None
  }

  /** The position of the leftmost match at or after `p`. */
  function SearchFrom(html: string, arch: string, p: nat): (r: Option<nat>)
    requires p <= |html|
    decreases |html| - p
    ensures r.Some? ==> p <= r.value <= |html| && MatchAt(html, r.value, arch).Some?
    ensures r.Some? ==> forall q :: p <= q < r.value ==> MatchAt(html, q, arch).None?
    ensures r.None? ==> forall q :: p <= q <= |html| ==> MatchAt(html, q, arch).None?
  {
    if MatchAt(html, p, arch).Some? then Some(p)
    else if p == |html| then None
    else SearchFrom(html, arch, p + 1)
  }

  /** `re_praat_dmg.search(html).group("url")`, or None when there is no match. */
  function FirstDmgName(html: string, arch: string): (m: Option<string>)
    ensures m.Some? ==> IsDmgName(m.value, arch)
  {
    match SearchFrom(html, arch, 0)
    case None => None
    case Some(p) => MatchAt(html, p, arch)
  }

  /** The match that wins is the first in the page; later ones, whatever their version, are ignored. */
  lemma FirstMatchWins(html: string, arch: string, p: nat)
    requires p <= |html| && MatchAt(html, p, arch).Some?
    requires forall q :: 0 <= q < p ==> MatchAt(html, q, arch).None?
    ensures FirstDmgName(html, arch) == MatchAt(html, p, arch)
  {
  }

  /** No name is found exactly when no position of the page starts a match. */
  lemma NoMatchMeansNone(html: string, arch: string)
    ensures FirstDmgName(html, arch).None? <==> forall q :: 0 <= q <= |html| ==> MatchAt(html, q, arch).None?
  {
    var r := SearchFrom(html, arch, 0);
    if r.Some? {
      assert MatchAt(html, r.value, arch).Some?;
    }
  }

  /** A quoted link at the very start of the page wins, whatever follows it. */
  lemma LeadingLinkWins(digits: string, arch: string, rest: string)
    requires digits != [] && AllDigits(digits)
    ensures FirstDmgName("a href=\"" + ("praat" + digits + DmgSuffix(arch)) + rest, arch)
         == Some("praat" + digits + DmgSuffix(arch))
  {
    var name := "praat" + digits + DmgSuffix(arch);
    var html := "a href=\"" + name + rest;
    assert html[..7] == "a href=";
    var after := html[7..];
    assert after == "\"" + name + rest;
    assert after[1..] == name + rest;
    assert (name + rest)[..|name|] == name;
    assert name[..5] == "praat";
    assert name[|name| - |DmgSuffix(arch)|..] == DmgSuffix(arch);
    assert name[5..|name| - |DmgSuffix(arch)|] == digits;
    DmgNamePrefixComplete(name + rest, arch, |name|);
    FirstMatchWins(html, arch, 0);
  }

  // ---------------------------------------------------------------------------
  // The processor

  /** The URL directory is computed from the constant by `rsplit("/", 1)`. */
  lemma DownloadDirFromBaseUrl()
    ensures RSplitHead(PraatBaseUrl, '/') + "/" == PraatDownloadDir
  {
    assert PraatBaseUrl == "http://www.fon.hum.uva.nl/praat" + ['/'] + "download_mac.html";
    RSplitHeadOf("http://www.fon.hum.uva.nl/praat", '/', "download_mac.html");
  }

  /**
   * `get_praat_dmg_url`: fetch the page at `baseUrl`, take the first match of
   * `DmgPattern` for the environment's architecture (recognised by
   * `FirstDmgName`) and put it under the
   * directory of `PRAAT_BASE_URL` (not of `baseUrl`).
   */
  function GetPraatDmgUrl(env: Env, baseUrl: string, fetch: string -> Result<string, string>): (r: Result<string, Error>)
    ensures match fetch(baseUrl)
      case Failure(cause) => r == Failure(CantDownload(baseUrl, cause))
      case Success(html) =>
        match FirstDmgName(html, ArchEdition(env))
        case None => r == Failure(NotFound(baseUrl))
        case Some(name) => r == Success(PraatDownloadDir + name)
  {
    var arch := ArchEdition(env);
    match fetch(baseUrl)
    case Failure(cause) => Failure(CantDownload(baseUrl, cause))
    case Success(html) =>
      match FirstDmgName(html, arch)
      case None => Failure(NotFound(baseUrl))
      case Some(name) =>
        DownloadDirFromBaseUrl();
        Success(RSplitHead(PraatBaseUrl, '/') + "/" + name)
  }

  /** Every resolved URL is a Praat disk image of the requested edition in the fixed directory. */
  lemma ResolvedUrlShape(env: Env, baseUrl: string, fetch: string -> Result<string, string>)
    requires GetPraatDmgUrl(env, baseUrl, fetch).Success?
    ensures var url := GetPraatDmgUrl(env, baseUrl, fetch).value;
      && |url| > |PraatDownloadDir|
      && url[..|PraatDownloadDir|] == PraatDownloadDir
      && IsDmgName(url[|PraatDownloadDir|..], ArchEdition(env))
  {
    var html := fetch(baseUrl).value;
    var name := FirstDmgName(html, ArchEdition(env)).value;
    var p := SearchFrom(html, ArchEdition(env), 0).value;
    assert MatchAt(html, p, ArchEdition(env)) == Some(name);
    assert (PraatDownloadDir + name)[|PraatDownloadDir|..] == name;
  }

  /** Two base URLs serving the same page give the same URL: the prefix never comes from `baseUrl`. */
  lemma UrlIgnoresBaseUrl(env: Env, baseUrl1: string, baseUrl2: string, fetch: string -> Result<string, string>)
    requires fetch(baseUrl1) == fetch(baseUrl2)
    requires GetPraatDmgUrl(env, baseUrl1, fetch).Success?
    ensures GetPraatDmgUrl(env, baseUrl2, fetch) == GetPraatDmgUrl(env, baseUrl1, fetch)
  {
  }

  /** `main`: the page comes from `base_url`, by default `PRAAT_BASE_URL`. */
  function Resolve(env: Env, fetch: string -> Result<string, string>): (r: Result<string, Error>)
    ensures "base_url" !in env ==> r == GetPraatDmgUrl(env, PraatBaseUrl, fetch)
    ensures "base_url" in env ==> r == GetPraatDmgUrl(env, env["base_url"], fetch)
  {
    GetPraatDmgUrl(env, BaseUrlOf(env), fetch)
  }

  /** A page that opens with a quoted link to an image of the requested edition resolves to it. */
  lemma LeadingLinkResolves(env: Env, fetch: string -> Result<string, string>, digits: string, rest: string)
    requires digits != [] && AllDigits(digits) && "base_url" !in env
    requires fetch(PraatBaseUrl) == Success("a href=\"" + ("praat" + digits + DmgSuffix(ArchEdition(env))) + rest)
    ensures Resolve(env, fetch) == Success(PraatDownloadDir + ("praat" + digits + DmgSuffix(ArchEdition(env))))
  {
    LeadingLinkWins(digits, ArchEdition(env), rest);
  }

  /**
   * A page linking `praat6123_mac64.dmg`, asked for the 64-bit edition,
   * resolves into the Praat directory.
   */
  lemma Resolves64BitImage(env: Env, fetch: string -> Result<string, string>, html: string)
    requires "arch_edition" in env && env["arch_edition"] == "64" && "base_url" !in env
    requires html == "a href=\"praat6123_mac64.dmg\">" && fetch(PraatBaseUrl) == Success(html)
    ensures Resolve(env, fetch) == Success("http://www.fon.hum.uva.nl/praat/praat6123_mac64.dmg")
  {
    ScenarioPage();
    LeadingLinkResolves(env, fetch, "6123", "\">");
    ScenarioUrl();
  }

  lemma ScenarioPage()
    ensures AllDigits("6123")
    ensures "a href=\"praat6123_mac64.dmg\">" == "a href=\"" + ("praat" + "6123" + DmgSuffix("64")) + "\">"
  {
  }

  lemma ScenarioUrl()
    ensures PraatDownloadDir + ("praat" + "6123" + DmgSuffix("64")) == "http://www.fon.hum.uva.nl/praat/praat6123_mac64.dmg"
  {
  }
}
