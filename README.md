# Puppet Labs and Praat URL providers, modelled in Dafny

Two packaging-pipeline processors each turn a vendor's download index into
one download URL.

- **PuppetlabsProductsURLProvider** builds a download directory and a link
  pattern from `product_name`, `get_version` and `get_os_version`. It then
  fetches the directory's index and collects every `(file name, version)`
  match. Of these it keeps the first one whose `LooseVersion` no later match
  beats. It writes `version` and `url = download_url + "/" + file name`.
  An empty match list is an error.
- **PraatURLProvider** puts `arch_edition` (by default `"32"`) into its
  link pattern and fetches `base_url` (by default `PRAAT_BASE_URL`). It then
  takes the first `praat<digits>_mac<arch>.dmg` link on the page. The URL is
  that file name under the directory of the constant `PRAAT_BASE_URL`. The
  `base_url` that was fetched plays no part in it.

Modules:

- `Wrappers`: `Option` and `Result`.
- `Environment`: the processor environment as a `map<string, string>`, and
  `env.get`.
- `Text`: ASCII digits, `str.lower` on ASCII, and `rsplit(sep, 1)[0]`.
- `StrFormat`: `str.format` for templates whose only fields are `{}` and
  `{d}`.
- `LooseVersion`: `LooseVersion` ordering on digit-and-dot tokens. The digit
  runs become numbers, and the lists of numbers compare as Python compares
  lists.
- `Puppetlabs`: query construction, the highest-version scan (a method with
  a loop), URL composition, and a class whose `env` field `Run` updates.
- `Praat`: pattern construction, a hand-written recogniser for the one link
  shape the pattern accepts, leftmost search, and URL composition.

Behaviour of the code worth stating explicitly:

- The permissive version sub-pattern is `\d+[\.\d]+`.
- Versions of different lengths are not padded with zeros. A proper prefix
  is smaller, so `"1.2" < "1.2.0"`.
- The Puppet Labs retrieval error carries only the cause, not the URL.
- `product_name` is not validated. Anything other than exactly `"agent"`
  takes the generic branch.
- The Praat URL prefix comes from the constant, not from the fetched base
  URL.

Network access and regular-expression matching are parameters:

- In `Run`, `fetch` maps a URL to the page text or to an error.
- In `Run`, `findAll` maps a pattern and a page to the matches in document
  order. Each match keeps its first two groups: the file name and the
  version.
- In the Praat functions, `fetch` maps `base_url` to the page text or to an
  error.

## Model

| member | source | states |
|---|---|---|
| `Environment.Get` | Puppetlabs/PuppetlabsProductsURLProvider.py:82 | `env.get(key)` is the stored value exactly when the key is present, and None otherwise |
| `Environment.GetOr` | Praat/PraatURLProvider.py:74 | `env.get(key, default)` is the stored value when the key is present, and the default otherwise |
| `Text.LeadingDigits` | Praat/PraatURLProvider.py:29 | the length of the maximal leading run of digits: every character before it is a digit, and the character at it is not |
| `Text.Lower` | Puppetlabs/PuppetlabsProductsURLProvider.py:86 | the product name lower-cased character by character: same length, and no upper-case letter is left |
| `Text.LastIndexOf` | Praat/PraatURLProvider.py:69 | the position of the last separator: None exactly when there is none, else a separator with none after it |
| `Text.RSplitHead` | Praat/PraatURLProvider.py:69 | `rsplit(sep, 1)[0]` is the prefix before the last separator, or the whole string when there is no separator |
| `Text.RSplitHeadOf` | Praat/PraatURLProvider.py:69 | splitting `head + sep + tail`, where `tail` has no separator, gives back `head` |
| `StrFormat.FormatFrom` | Puppetlabs/PuppetlabsProductsURLProvider.py:76-78 | `str.format` from a given automatic-field index: `{}` takes the next argument, `{d}` argument `d`, any other brace or a missing argument fails; no contract of its own, characterised by `FormatLiteral`, `FormatAutoField` and `FormatIndexedField` |
| `StrFormat.Format` | Puppetlabs/PuppetlabsProductsURLProvider.py:85-87 | `template.format(*args)`; no contract of its own, characterised by `FormatTwoAuto` (the templates of :76, :85 and :106) and `FormatOneIndexed` (the template of Praat :54) |
| `StrFormat.FormatLiteral` | Puppetlabs/PuppetlabsProductsURLProvider.py:76-78 | template text without braces is copied through unchanged |
| `StrFormat.FormatTwoAuto` | Puppetlabs/PuppetlabsProductsURLProvider.py:85-87 | two `{}` fields take the two arguments in order, and formatting succeeds |
| `StrFormat.FormatOneIndexed` | Praat/PraatURLProvider.py:54 | a `{0}` field takes the first argument, and formatting succeeds |
| `LooseVersion.DecimalValue` | Puppetlabs/PuppetlabsProductsURLProvider.py:103 | `int()` of a digit string, as `LooseVersion` applies it to each digit run; no contract of its own, characterised by `ComponentsOfDigits` and `LeadingZeroIgnored` |
| `LooseVersion.Components` | Puppetlabs/PuppetlabsProductsURLProvider.py:103 | the parse of a version token into its numbers; no contract of its own, characterised by `ComponentsSplit`, `ComponentsDot`, `ComponentsOfDigits`, `ComponentsOfTwo` and `ComponentsOfThree` |
| `LooseVersion.LexLess` | Puppetlabs/PuppetlabsProductsURLProvider.py:103 | Python's `<` on two lists of numbers; no contract of its own, characterised both ways by `LexLessMeansSpec` and ordered by `LexLessIrreflexive`, `LexLessTransitive`, `LexLessTotal` and `LexLessAsymmetric` |
| `LooseVersion.VersionLess` | Puppetlabs/PuppetlabsProductsURLProvider.py:103 | `LooseVersion(a) < LooseVersion(b)`; no contract of its own, characterised by `VersionLessIrreflexive`, `VersionLessAsymmetric`, `NotGreaterThenLess` and `NumericNotTextual` |
| `LooseVersion.VersionGreater` | Puppetlabs/PuppetlabsProductsURLProvider.py:103 | `LooseVersion(prod[1]) > LooseVersion(highest[1])`, the test the scan makes, as `VersionLess` with the operands swapped |
| `LooseVersion.LexLessMeansSpec` | Puppetlabs/PuppetlabsProductsURLProvider.py:103 | both directions: a list is smaller exactly when it is a proper prefix of the other, or when it is smaller at the first position where they differ |
| `LooseVersion.LexLessIrreflexive` | Puppetlabs/PuppetlabsProductsURLProvider.py:103 | no version list is smaller than itself |
| `LooseVersion.LexLessTransitive` | Puppetlabs/PuppetlabsProductsURLProvider.py:103 | the list ordering is transitive |
| `LooseVersion.LexLessTotal` | Puppetlabs/PuppetlabsProductsURLProvider.py:103 | any two lists are equal or ordered one way |
| `LooseVersion.LexLessAsymmetric` | Puppetlabs/PuppetlabsProductsURLProvider.py:103 | at most one of `a < b` and `b < a` holds |
| `LooseVersion.ProperPrefixIsLess` | Puppetlabs/PuppetlabsProductsURLProvider.py:103 | a proper prefix is smaller, as in Python list comparison |
| `LooseVersion.VersionLessIrreflexive` | Puppetlabs/PuppetlabsProductsURLProvider.py:103 | no token is greater than itself, so comparing the winner with itself never replaces it |
| `LooseVersion.VersionLessAsymmetric` | Puppetlabs/PuppetlabsProductsURLProvider.py:103 | of two tokens, at most one is greater than the other |
| `LooseVersion.NotGreaterThenLess` | Puppetlabs/PuppetlabsProductsURLProvider.py:103 | `a <= b < c` gives `a < c` on tokens |
| `LooseVersion.ComponentsSplit` | Puppetlabs/PuppetlabsProductsURLProvider.py:21 | a character that is not a digit splits a token into two independent lists of components |
| `LooseVersion.ComponentsDot` | Puppetlabs/PuppetlabsProductsURLProvider.py:21 | the components of `a + "." + b` are those of `a` followed by those of `b` |
| `LooseVersion.ComponentsOfDigits` | Puppetlabs/PuppetlabsProductsURLProvider.py:21 | a run of digits is the single number `int()` gives it |
| `LooseVersion.ComponentsOfTwo` | Puppetlabs/PuppetlabsProductsURLProvider.py:21 | a token `a.b` of two digit runs has exactly the two numbers `int(a)`, `int(b)` |
| `LooseVersion.ComponentsOfThree` | Puppetlabs/PuppetlabsProductsURLProvider.py:21 | a token `a.b.c` of three digit runs has exactly the three numbers `int(a)`, `int(b)`, `int(c)` |
| `LooseVersion.ComponentsOfThreeDigits` | Puppetlabs/PuppetlabsProductsURLProvider.py:21 | `x.y.z` of single digits has components `[x, y, z]` |
| `LooseVersion.LeadingZeroIgnored` | Puppetlabs/PuppetlabsProductsURLProvider.py:21 | a leading zero does not change a component's value, so `"1.02"` and `"1.2"` are the same version |
| `LooseVersion.NumericNotTextual` | Puppetlabs/PuppetlabsProductsURLProvider.py:103 | `"1.10.0" > "1.2.0"` and not the reverse; `"1.2" < "1.2.0"` and not the reverse |
| `Puppetlabs.VersionPattern` | Puppetlabs/PuppetlabsProductsURLProvider.py:82-84 | an unset, empty or `"latest"` `get_version` gives the permissive sub-pattern; any other value is used verbatim |
| `Puppetlabs.OsVersionOf` | Puppetlabs/PuppetlabsProductsURLProvider.py:71 | the `get_os_version` value when it is set, and `"10.10"` otherwise |
| `Puppetlabs.AgentPattern` | Puppetlabs/PuppetlabsProductsURLProvider.py:72-78 | the agent pattern holds the fixed three-number version sub-pattern and the OS version at their two places |
| `Puppetlabs.ProductPattern` | Puppetlabs/PuppetlabsProductsURLProvider.py:85-87 | the product pattern holds the lower-cased product name and the version sub-pattern at their two places |
| `Puppetlabs.BuildQuery` | Puppetlabs/PuppetlabsProductsURLProvider.py:68-87 | `"agent"` gives `DL_INDEX + "/" + os_version + "/PC1/x86_64"` and the agent pattern; any other name gives `DL_INDEX` and the product pattern |
| `Puppetlabs.AgentDefaultDirectory` | Puppetlabs/PuppetlabsProductsURLProvider.py:70-78 | without `get_os_version` the agent is looked up in the 10.10 directory, with `osx(10.10)` in its pattern |
| `Puppetlabs.ProductNameCaseIgnored` | Puppetlabs/PuppetlabsProductsURLProvider.py:85-87 | outside the agent branch, product names that differ only in letter case give the same query |
| `Puppetlabs.ComposeUrl` | Puppetlabs/PuppetlabsProductsURLProvider.py:106 | the URL is the download directory, then `/`, then the matched file name |
| `Puppetlabs.HighestIsUnique` | Puppetlabs/PuppetlabsProductsURLProvider.py:99-104 | at most one candidate satisfies the selection rule, so the selection is determined by the candidate list |
| `Puppetlabs.SelectHighest` | Puppetlabs/PuppetlabsProductsURLProvider.py:99-104 | the result is a candidate, no candidate's version is greater, every earlier candidate's version is strictly smaller (ties keep the first), and a single candidate is returned as it is |
| `Puppetlabs.LaterGreaterWins` | Puppetlabs/PuppetlabsProductsURLProvider.py:102-104 | a later candidate with a greater version replaces the first |
| `Puppetlabs.TieKeepsFirst` | Puppetlabs/PuppetlabsProductsURLProvider.py:103 | of two candidates with equal versions the earlier is selected, and the later is not unless the two are identical |
| `Puppetlabs.HigherReleaseWins` | Puppetlabs/PuppetlabsProductsURLProvider.py:99-104 | facter 3.2.0 listed after facter 3.1.0 is selected |
| `Puppetlabs.PuppetlabsProductsUrlProvider.Run` | Puppetlabs/PuppetlabsProductsURLProvider.py:66-109 | a fetch failure or an empty match list is an error that leaves the environment unchanged; otherwise `version` and `url` of the highest candidate are written and nothing else changes |
| `Praat.ArchEdition` | Praat/PraatURLProvider.py:53 | the `arch_edition` value when it is set, and `"32"` otherwise |
| `Praat.BaseUrlOf` | Praat/PraatURLProvider.py:74 | the `base_url` value when it is set, and `PRAAT_BASE_URL` otherwise |
| `Praat.DmgPattern` | Praat/PraatURLProvider.py:53-54 | the pattern is the template with the architecture written in at its one field |
| `Praat.DefaultArchIs32` | Praat/PraatURLProvider.py:53 | without `arch_edition` the pattern asks for `_mac32.dmg` |
| `Praat.DmgNamePrefix` | Praat/PraatURLProvider.py:29 | a recognised name is a prefix of the text after the link opener, and it has the shape `praat<digits>_mac<arch>.dmg` |
| `Praat.DmgNamePrefixComplete` | Praat/PraatURLProvider.py:29 | every prefix of that shape is recognised, and it is the only such prefix |
| `Praat.MatchAt` | Praat/PraatURLProvider.py:29 | a match at a position starts with `a href=`, and its `url` group, a name of the shape `praat<digits>_mac<arch>.dmg`, follows right after the optional quote |
| `Praat.SearchFrom` | Praat/PraatURLProvider.py:64 | the leftmost position holding a match, with no match before it; or no match at any position |
| `Praat.FirstDmgName` | Praat/PraatURLProvider.py:64 | `re_praat_dmg.search(html).group("url")`: any name found has the disk-image shape of the requested edition; `FirstMatchWins` and `NoMatchMeansNone` say which one is found and when none is |
| `Praat.FirstMatchWins` | Praat/PraatURLProvider.py:64 | of several matching links the first in the page is taken, with no version ranking |
| `Praat.NoMatchMeansNone` | Praat/PraatURLProvider.py:64-66 | the search finds nothing exactly when no position of the page holds a match |
| `Praat.LeadingLinkWins` | Praat/PraatURLProvider.py:64 | a matching link at the start of the page is taken, whatever links follow it |
| `Praat.DownloadDirFromBaseUrl` | Praat/PraatURLProvider.py:69 | `PRAAT_BASE_URL.rsplit("/", 1)[0] + "/"` is `http://www.fon.hum.uva.nl/praat/` |
| `Praat.GetPraatDmgUrl` | Praat/PraatURLProvider.py:51-70 | a fetch failure gives the download error for `base_url`; a page without a match gives the not-found error; otherwise the result is the Praat directory followed by the first matching name |
| `Praat.ResolvedUrlShape` | Praat/PraatURLProvider.py:64-69 | every resolved URL is a disk image of the requested edition inside `http://www.fon.hum.uva.nl/praat/` |
| `Praat.UrlIgnoresBaseUrl` | Praat/PraatURLProvider.py:69 | two base URLs serving the same page resolve to the same URL |
| `Praat.Resolve` | Praat/PraatURLProvider.py:72-76 | the page is fetched from `base_url` when it is given, and from `PRAAT_BASE_URL` otherwise |
| `Praat.LeadingLinkResolves` | Praat/PraatURLProvider.py:64-74 | with the default base URL, a page opening with a matching quoted link resolves to that image in the Praat directory |
| `Praat.Resolves64BitImage` | Praat/PraatURLProvider.py:64-69 | a page linking `praat6123_mac64.dmg`, asked for the 64-bit edition, resolves to `http://www.fon.hum.uva.nl/praat/praat6123_mac64.dmg` |

## Left out

- HTTP retrieval (`urlopen`, `read`, `decode`, `close`) is network I/O. It is the `fetch` parameter, and its failure is an error cause passed through as a string.
- `re.findall` in the Puppet Labs processor is the `findAll` parameter. Its matching is not modelled: unescaped dots in the patterns, a verbatim `get_version` taken as a regular expression, and the last-repetition capture of `(...)+` are not modelled.
- The Praat search is a recogniser written for the one pattern. It treats the architecture as literal text, even where it holds characters special to regular expressions.
- `\d` and `int()` are modelled on ASCII digits only. Python's `re` on text also accepts other Unicode digits.
- `Text.Lower`: lower-cases ASCII letters only. Python's `str.lower` also maps other Unicode letters.
- `StrFormat.FormatFrom`: supports only `{}` and single-digit `{d}` fields. It does not reject templates that mix automatic and manual numbering, which Python does. The templates here use no `{{`, `}}`, named fields or format specifications.
- `LooseVersion.Components`: skips every character that is not a digit. The real `LooseVersion` splits with `component_re` and keeps every non-dot piece that is not a digit run as a string component: runs of letters of either case, and separators such as `-` and `_` (`"1-2"` parses to `[1, '-', 2]`). Python 3 raises when it compares such a component with a number. On tokens of digits and dots the model agrees with the real parse. The version patterns only capture digits and dots, except for a verbatim `get_version`.
- The framework is not modelled: the `Processor` base class, `self.output` logging, the input and output variable metadata, and the `execute_shell` entry points. Praat's `self.env["url"]` write is not modelled either. `Praat.Resolve` returns the URL instead.
- Two runtime defects of the Praat file are not modelled. It imports `urlopen` from `urllib.parse`, and it searches the raw bytes of the page with a text pattern. The model searches the page as text, as intended.
- A missing `product_name` is not modelled. `Run` requires the key, as the framework checks declared required inputs before `main` runs.
