/**
 * PuppetlabsProductsURLProvider: resolves the download URL and version of a
 * Puppet Labs product from the vendor's download index.
 *
 * The index fetch (`urlopen(...).read().decode()`) and the regular-expression
 * scan (`re.findall`) are parameters of `Run`: `fetch` maps a URL to the page
 * or to the transport error, `findAll` maps a pattern and a page to the
 * matches in document order, each keeping its file-name and version groups.
 */
module Puppetlabs {
  import opened Wrappers
  import opened Text
  import opened Environment
  import opened StrFormat
  import opened LooseVersion

  const DlIndex: string := "https://downloads.puppetlabs.com/mac"
  const DefaultVersion: string := "latest"
  const OsVersion: string := "10.10"

  /** Version sub-pattern of the agent branch: three dotted numbers. */
  const AgentVersionRe: string := "\\d+\\.\\d+\\.\\d+"
  /** Version sub-pattern of the other products when no version is asked for. */
  const PermissiveVersionRe: string := "\\d+[\\.\\d]+"

  const AgentTemplate: string := "href=\"(puppet-agent-({})-1.osx({}).dmg)\""
  const ProductTemplate: string := "href=\"({}-({})+.dmg)\""
  const UrlTemplate: string := "{}/{}"

  /** One match of the download pattern: the file name and the version token it captured. */
  datatype Candidate = Candidate(link: string, version: string)

  /** The index to fetch and the pattern to scan it with. */
  datatype Query = Query(downloadUrl: string, pattern: string)

  datatype Error =
    | RetrievalError(cause: string)   // "Unexpected error retrieving download index: ..."
    | NoProducts                      // "Unable to parse any products from download index."

  // ---------------------------------------------------------------------------
  // Pattern and download-URL construction

  /**
   * The version sub-pattern outside the agent branch: an unset, empty or
   * "latest" `get_version` gives the permissive pattern, anything else is
   * used verbatim.
   */
  function VersionPattern(getVersion: Option<string>): (r: string)
    ensures getVersion.None? ==> r == PermissiveVersionRe
    ensures getVersion == Some("") || getVersion == Some(DefaultVersion) ==> r == PermissiveVersionRe
    ensures getVersion.Some? && getVersion.value != "" && getVersion.value != DefaultVersion ==> r == getVersion.value
  {
    if getVersion.None? || getVersion.value == "" || getVersion.value == DefaultVersion then
      PermissiveVersionRe
    else
      getVersion.value
  }

  /** The OS version of the agent branch, "10.10" unless `get_os_version` is given. */
  function OsVersionOf(env: Env): (osVersion: string)
    ensures "get_os_version" in env ==> osVersion == env["get_os_version"]
    ensures "get_os_version" !in env ==> osVersion == OsVersion
  {
    GetOr(env, "get_os_version", OsVersion)
  }

  /** The agent pattern: the fixed version sub-pattern and the OS version, formatted in. */
  function AgentPattern(osVersion: string): (p: string)
    ensures p == "href=\"(puppet-agent-(" + AgentVersionRe + ")-1.osx(" + osVersion + ").dmg)\""
  {
    assert AgentTemplate == "href=\"(puppet-agent-(" + "{}" + ")-1.osx(" + "{}" + ").dmg)\"";
    FormatTwoAuto("href=\"(puppet-agent-(", ")-1.osx(", ").dmg)\"", AgentVersionRe, osVersion);
    Format(AgentTemplate, [AgentVersionRe, osVersion]).value
  }

  /** The pattern of any other product: its lower-cased name and the version sub-pattern. */
  function ProductPattern(productName: string, versionRe: string): (p: string)
    ensures p == "href=\"(" + Lower(productName) + "-(" + versionRe + ")+.dmg)\""
  {
    assert ProductTemplate == "href=\"(" + "{}" + "-(" + "{}" + ")+.dmg)\"";
    FormatTwoAuto("href=\"(", "-(", ")+.dmg)\"", Lower(productName), versionRe);
    Format(ProductTemplate, [Lower(productName), versionRe]).value
  }

  /**
   * The first half of `main`: "agent" selects the OS-specific directory and
   * the agent pattern, every other product name the index root and the
   * product pattern.
   */
  function BuildQuery(env: Env): (q: Query)
    requires "product_name" in env
    ensures env["product_name"] == "agent" ==>
      q.downloadUrl == DlIndex + "/" + OsVersionOf(env) + "/PC1/x86_64"
      && q.pattern == "href=\"(puppet-agent-(" + AgentVersionRe + ")-1.osx(" + OsVersionOf(env) + ").dmg)\""
    ensures env["product_name"] != "agent" ==>
      q.downloadUrl == DlIndex
      && q.pattern == "href=\"(" + Lower(env["product_name"]) + "-(" + VersionPattern(Get(env, "get_version")) + ")+.dmg)\""
  {
    if env["product_name"] == "agent" then
      var osVersion := OsVersionOf(env);
      Query(DlIndex + "/" + osVersion + "/PC1/x86_64", AgentPattern(osVersion))
    else
      Query(DlIndex, ProductPattern(env["product_name"], VersionPattern(Get(env, "get_version"))))
  }

  /** Without `get_os_version` the agent comes from the 10.10 directory. */
  lemma AgentDefaultDirectory(env: Env)
    requires "product_name" in env && env["product_name"] == "agent"
    requires "get_os_version" !in env
    ensures BuildQuery(env).downloadUrl == "https://downloads.puppetlabs.com/mac/10.10/PC1/x86_64"
    ensures BuildQuery(env).pattern == "href=\"(puppet-agent-(" + AgentVersionRe + ")-1.osx(" + "10.10" + ").dmg)\""
  {
    assert DlIndex + "/" + OsVersion + "/PC1/x86_64" == "https://downloads.puppetlabs.com/mac/10.10/PC1/x86_64";
  }

  /** A product name that differs only in letter case gives the same query. */
  lemma ProductNameCaseIgnored(env: Env, name: string)
    requires "product_name" in env && env["product_name"] != "agent"
    requires Lower(name) == Lower(env["product_name"]) && name != "agent"
    ensures BuildQuery(env[ "product_name" := name]) == BuildQuery(env)
  {
    var env' := env["product_name" := name];
    assert Get(env', "get_version") == Get(env, "get_version");
  }

  // ---------------------------------------------------------------------------
  // URL composition

  /** `"{}/{}".format(download_url, filename)`. */
  function ComposeUrl(downloadUrl: string, link: string): (url: string)
    ensures url == downloadUrl + "/" + link
  {
    assert UrlTemplate == "" + "{}" + "/" + "{}" + "";
    FormatTwoAuto("", "/", "", downloadUrl, link);
    assert "" + downloadUrl + "/" + link + "" == downloadUrl + "/" + link;
    Format(UrlTemplate, [downloadUrl, link]).value
  }

  // ---------------------------------------------------------------------------
  // Highest-version selection

  /**
   * `c` is the candidate the scan must pick: no candidate's version is
   * greater than its version, and every candidate before it in document
   * order has a strictly smaller version (so ties keep the earliest).
   */
  ghost predicate IsHighest(candidates: seq<Candidate>, c: Candidate) {
    && (forall j :: 0 <= j < |candidates| ==> !VersionGreater(candidates[j].version, c.version))
    && exists k :: 0 <= k < |candidates| && candidates[k] == c
         && forall j :: 0 <= j < k ==> VersionGreater(c.version, candidates[j].version)
  }

  /** The selection is determined by the candidates: at most one candidate is the highest. */
  lemma HighestIsUnique(candidates: seq<Candidate>, c1: Candidate, c2: Candidate)
    requires IsHighest(candidates, c1) && IsHighest(candidates, c2)
    ensures c1 == c2
  {
    var k1 :| 0 <= k1 < |candidates| && candidates[k1] == c1
      && forall j :: 0 <= j < k1 ==> VersionGreater(c1.version, candidates[j].version);
    var k2 :| 0 <= k2 < |candidates| && candidates[k2] == c2
      && forall j :: 0 <= j < k2 ==> VersionGreater(c2.version, candidates[j].version);
  }

  /**
   * The scan of `main`: start with the first candidate and replace it by
   * every later one whose LooseVersion is strictly greater. A single
   * candidate is returned without any comparison.
   */
  method SelectHighest(candidates: seq<Candidate>) returns (highest: Candidate)
    requires candidates != []
    ensures highest in candidates
    ensures IsHighest(candidates, highest)
    ensures |candidates| == 1 ==> highest == candidates[0]
  {
    highest := candidates[0];
    ghost var k := 0;
    VersionLessIrreflexive(highest.version);
    if |candidates| > 1 {
      for i := 0 to |candidates|
        invariant 0 <= k < |candidates| && highest == candidates[k]
        invariant forall j :: 0 <= j < i ==> !VersionGreater(candidates[j].version, highest.version)
        invariant forall j :: 0 <= j < k ==> VersionGreater(highest.version, candidates[j].version)
      {
        if VersionGreater(candidates[i].version, highest.version) {
          forall j | 0 <= j < i
            ensures VersionGreater(candidates[i].version, candidates[j].version)
          {
            NotGreaterThenLess(candidates[j].version, highest.version, candidates[i].version);
          }
          forall j | 0 <= j < i
            ensures !VersionGreater(candidates[j].version, candidates[i].version)
          {
            VersionLessAsymmetric(candidates[j].version, candidates[i].version);
          }
          VersionLessIrreflexive(candidates[i].version);
          highest := candidates[i];
          k := i;
        }
      }
    }
  }

  /** Of two candidates, a later one with a greater version is the highest. */
  lemma LaterGreaterWins(first: Candidate, second: Candidate)
    requires VersionGreater(second.version, first.version)
    ensures IsHighest([first, second], second)
  {
    VersionLessAsymmetric(first.version, second.version);
    VersionLessIrreflexive(second.version);
    assert [first, second][1] == second;
  }

  /** Of two candidates with equal versions, the earlier one is the highest. */
  lemma TieKeepsFirst(first: Candidate, second: Candidate)
    requires Components(first.version) == Components(second.version)
    ensures IsHighest([first, second], first)
    ensures !IsHighest([first, second], second) || first == second
  {
    VersionLessIrreflexive(first.version);
    assert [first, second][0] == first;
    if IsHighest([first, second], second) {
      HighestIsUnique([first, second], first, second);
    }
  }

  /** With no version asked for, facter 3.2.0 beats facter 3.1.0 listed before it. */
  lemma HigherReleaseWins()
    ensures IsHighest([Candidate("facter-3.1.0.dmg", "3.1.0"), Candidate("facter-3.2.0.dmg", "3.2.0")],
                      Candidate("facter-3.2.0.dmg", "3.2.0"))
  {
    assert "3.1.0" == ['3', '.', '1', '.', '0'] && "3.2.0" == ['3', '.', '2', '.', '0'];
    ComponentsOfThreeDigits('3', '1', '0');
    ComponentsOfThreeDigits('3', '2', '0');
    assert LexLess([3, 1, 0], [3, 2, 0]);
    LaterGreaterWins(Candidate("facter-3.1.0.dmg", "3.1.0"), Candidate("facter-3.2.0.dmg", "3.2.0"));
  }

  // ---------------------------------------------------------------------------
  // The processor

  class PuppetlabsProductsUrlProvider {
    /** The framework environment: inputs are read from it, `version` and `url` written to it. */
    var env: Env

    constructor (env: Env)
      ensures this.env == env
    {
      this.env := env;
    }

    /**
     * `main`: build the query, fetch the index, collect the candidates, fail
     * when there are none, pick the highest and write `version` and `url`.
     * On an error nothing is written.
     */
    method Run(fetch: string -> Result<string, string>, findAll: (string, string) -> seq<Candidate>)
      returns (status: Option<Error>)
      requires "product_name" in env
      modifies this
      ensures var q := BuildQuery(old(env));
        match fetch(q.downloadUrl)
        case Failure(cause) => status == Some(RetrievalError(cause)) && env == old(env)
        case Success(page) =>
          var candidates := findAll(q.pattern, page);
          if candidates == [] then status == Some(NoProducts) && env == old(env)
          else
            status == None
            && exists c :: IsHighest(candidates, c)
                 && env == old(env)["version" := c.version]["url" := q.downloadUrl + "/" + c.link]
    {
      var q := BuildQuery(env);
      var fetched := fetch(q.downloadUrl);
      if fetched.Failure? {
        return Some(RetrievalError(fetched.error));
      }
      var candidates := findAll(q.pattern, fetched.value);
      if candidates == [] {
        return Some(NoProducts);
      }
      var highest := SelectHighest(candidates);
      var ver, url := highest.version, ComposeUrl(q.downloadUrl, highest.link);
      env := env["version" := ver];
      env := env["url" := url];
      status := None;
    }
  }
}
