# HackerRank adapter of online-judge-tools, modelled in Dafny

The adapter lets a generic command-line driver work with the HackerRank
judge. It recognises the judge's URLs (`HackerRankService.from_url`,
`HackerRankProblem.from_url`), rebuilds the canonical URL of a problem
(`get_url`), harvests sample test cases through the judge's "run code"
feature (`download_with_running_code`), lists the languages of a challenge
(`get_language_dict`), builds the result page of a submission (`submit`),
and decides login state from the URLs the server answers with (`login`,
`is_logged_in`).

The model keeps the deterministic rules and takes everything the network,
the clock or an unseen helper would supply as inputs:

- `wrappers.dfy`, module `Wrappers`: `Option` for "no match" and `Result` for the error returns.
- `text.dfy`, module `Text`: the Python string operations the adapter uses: `t in s`, `rstrip('/')` and `'{}'.format(n)`.
  Each comes with its partner lemma: `Contains` against an occurrence index, and formatting against parsing.
  The module also holds `Split` and `Join` on one separator, with their round-trip lemmas. The source does not call them; they implement the model's matcher for the two regular expressions.
- `urlparse.dfy`, module `UrlParse`: `urllib.parse.urlparse` reduced to scheme, netloc and path.
  It is proved to read back any URL written from well-formed parts.
- `hackerrank.dfy`, module `HackerRank`: the service and problem values, URL recognition and reconstruction, login decisions, and submission handles.
- `download.dfy`, module `HackerRankDownload`: the compile-then-poll sample retrieval.
  It is a method that returns the samples and the trace of requests it issues; the zip is a loop with invariants, as in the source.
- `languages.dfy`, module `HackerRankLanguages`: the display-name table and the loop that builds the language dictionary.

`utils.normpath` and `utils.textfile` are not part of this model. They are
passed in as function parameters (`normpath`, `textfile`), so no property
depends on what they do, with three exceptions: `ProblemUrlRoundTrip`,
`CanonicalUrlIsStable` and `MasterContestAlias` require `normpath` to leave
the canonical paths they read unchanged.

The regular expressions of `from_url` are modelled as Python's `re.match`
with `^…$`, so a path that ends in one extra newline still matches
(`FullMatch`, `AnchoredBody`). The matcher splits the path on `/`. The
lemmas `MatchContestChallengeIff` and `MatchChallengeIff` prove that it
accepts exactly the strings the patterns describe.

`login` and `is_logged_in` do not use the same test. `login` treats any
redirect away from the login page as signed in, while `is_logged_in` looks
for `/auth` in the final URL. The model follows the code.
`LoggedInSkipsCredentials` proves one direction of the relation between
the two. `RedirectToAuthPageCountsAsSignedIn` shows the other direction
fails.

`get_name` (`ServiceName`), `HackerRankService.get_url` (`ServiceUrl`) and
`get_service` (`GetService`) are constants. The problem's constructor is
the datatype constructor `Problem`.

## Model

| member | source | states |
|---|---|---|
| `UrlParse.SplitUnsplit` | onlinejudge/service/hackerrank.py:153 | `urlparse` gives back the scheme, netloc and path of a URL written from well-formed parts |
| `HackerRank.ServiceFromUrlIff` | onlinejudge/service/hackerrank.py:63-76 | for a URL written from well-formed parts, `HackerRankService.from_url` answers the service exactly when the scheme is `http`/`https` and the host is `hackerrank.com`/`www.hackerrank.com`, and "no match" otherwise |
| `HackerRank.ServiceUrlRecognised` | onlinejudge/service/hackerrank.py:63-76 | `HackerRankService.from_url` recognises the service's own base URL |
| `HackerRank.ForeignUrlNotRecognised` | onlinejudge/service/hackerrank.py:150-162 | a scheme other than `''`/`http`/`https`, or a host other than `hackerrank.com`/`www.hackerrank.com`, gives "no match" from both `from_url` |
| `HackerRank.ProblemFromParts` | onlinejudge/service/hackerrank.py:150-162 | a recognised problem implies the service recognises the same URL; both of its slugs match `[0-9A-Za-z-]+` |
| `HackerRank.MatchContestChallengeIff` | onlinejudge/service/hackerrank.py:156-158 | the first pattern matches exactly `/contests/C/challenges/X` with slugs C and X (optionally followed by one newline) and captures (C, X) |
| `HackerRank.MatchChallengeIff` | onlinejudge/service/hackerrank.py:159-161 | the second pattern matches exactly `/challenges/X` with slug X (optionally followed by one newline) and captures X |
| `HackerRank.ChallengePathIsNotContestPath` | onlinejudge/service/hackerrank.py:156-161 | a `/challenges/X` path never matches the contest pattern, so the order of the two tries does not matter |
| `HackerRank.ProblemFromPartsIff` | onlinejudge/service/hackerrank.py:153-162 | `from_url` yields `p` if and only if the scheme and host are accepted and the normalised path has the contest shape naming `p`, or the challenge shape with contest `master`; otherwise no match |
| `HackerRank.MasterContestAlias` | onlinejudge/service/hackerrank.py:156-161 | `/contests/master/challenges/X` and `/challenges/X` both name `Problem("master", X)` |
| `HackerRank.ProblemUrlPath` | onlinejudge/service/hackerrank.py:140-144 | for valid slugs, `get_url` reads back with scheme `https` and host `www.hackerrank.com`, and its path starts with `/contests/` exactly when the contest is not `master` |
| `HackerRank.ProblemUrlRoundTrip` | onlinejudge/service/hackerrank.py:140-162 | for valid slugs, recognising `get_url(p)` gives back `p`, contest `master` included |
| `HackerRank.CanonicalUrlIsStable` | onlinejudge/service/hackerrank.py:140-162 | recognising the canonical URL of any recognised problem gives the same problem again |
| `HackerRank.IsLoggedIn` | onlinejudge/service/hackerrank.py:56-61 | `is_logged_in` holds exactly when `/auth` occurs nowhere in the URL the login page request ended at |
| `HackerRank.Login` | onlinejudge/service/hackerrank.py:22-54 | when the landing URL differs from the login URL, success without asking for credentials; otherwise credentials are requested, and success means `/auth` occurs nowhere in the URL the form post ends at |
| `HackerRank.LoginPageIsNotSignedIn` | onlinejudge/service/hackerrank.py:58-61 | the login URL itself contains `/auth`, so landing on it is never signed in |
| `HackerRank.LoggedInSkipsCredentials` | onlinejudge/service/hackerrank.py:22-61 | whenever `is_logged_in` holds, `login` succeeds without calling the credential provider |
| `HackerRank.RedirectToAuthPageCountsAsSignedIn` | onlinejudge/service/hackerrank.py:26-30 | a redirect to another `/auth` page makes `login` report success although `is_logged_in` is false |
| `HackerRank.Submit` | onlinejudge/service/hackerrank.py:204-212 | a reply with `status` false is a submission error; otherwise the handle names the problem and the result page built from the job id |
| `HackerRank.SubmissionUrlExtendsProblemUrl` | onlinejudge/service/hackerrank.py:210 | with a challenge slug matching `[0-9A-Za-z-]+` the strip removes nothing: the result page is `get_url()` + `/submissions/code/<id>` |
| `HackerRank.SubmissionUrlIdentifiesJob` | onlinejudge/service/hackerrank.py:209-210 | distinct job ids give distinct result pages |
| `HackerRankDownload.ZipSamples` | onlinejudge/service/hackerrank.py:125-133 | the result has `min(len(stdin), len(expected_output))` entries; entry i pairs `stdin[i]` with `expected_output[i]` labelled `Testcase i Input` / `Testcase i Expected Output` |
| `HackerRankDownload.DownloadWithRunningCode` | onlinejudge/service/hackerrank.py:92-133 | a failed compile gives `[]` after only the page fetch and the compile post, with no poll; a failed poll gives `[]`; otherwise the zipped samples; the poll URL carries the job id and the clock reading |
| `HackerRankDownload.Download` | onlinejudge/service/hackerrank.py:84-90 | `run_code` runs the compile-and-poll retrieval; `parse_html` fails as not implemented; any other method name is an error; neither error issues a request |
| `HackerRankDownload.InputLabelIdentifiesIndex` | onlinejudge/service/hackerrank.py:127 | distinct indices get distinct input labels |
| `HackerRankDownload.OutputLabelIdentifiesIndex` | onlinejudge/service/hackerrank.py:128 | distinct indices get distinct expected-output labels |
| `HackerRankLanguages.GetLanguageDict` | onlinejudge/service/hackerrank.py:177-189 | a failed model fetch is a submission error; otherwise the keys are exactly the listed codes and each maps to `{'description': d}` with d the table entry, or the code itself when the table has none |
| `Text.ContainsIff` | onlinejudge/service/hackerrank.py:49 | Python's `'/auth' in url` holds exactly when `/auth` occurs at some position of the URL |
| `Text.RStrip` | onlinejudge/service/hackerrank.py:210 | `rstrip('/')` returns the longest prefix without a trailing `/`; only `/` is removed |
| `Text.ParseNatToString` | onlinejudge/service/hackerrank.py:127-128 | formatting an index with `'{}'` and reading it back gives the index |
| `Text.NatToStringInjective` | onlinejudge/service/hackerrank.py:127-128 | distinct indices are formatted differently |

## Left out

- HTTP requests, sessions and `raise_for_status`: network I/O. The decoded replies are inputs: `CompileReply`, `PollReply`, `ModelReply` and `SubmitReply`. For login, the inputs are the landing URL and a form-submission function.
- HTML scraping is not modelled: the CSRF meta lookup and the walk from the username input up to its form. It depends on external markup and an HTML library.
- `FormSender`, the form fields and the `X-CSRF-Token` headers are left out; the login model's `submitForm` parameter stands for the whole form post.
- `time.sleep(3)` is not modelled. The millisecond timestamp is the parameter `unixtimeMs`.
- JSON decoding and all logging are left out. Job ids are taken as non-negative integers; a non-integer `model.id` is not modelled.
- `utils.normpath` and `utils.textfile` are not part of this model; they are function parameters.
- `urllib.parse.urlparse` is modelled for scheme, netloc, path, query, fragment and `;` parameters only. Its `ValueError` paths are not modelled, so the model answers "no match" where `from_url` would raise:
  - the check of bracketed IPv6 hosts;
  - the check that a non-ASCII host, after NFKC normalisation, gains none of `/?#@:` (for example `https://a\u2100b/`).
- `SplitUrl` follows one Python version. It does not model the removal of tab, CR and LF, nor the stripping of leading spaces and control characters, both done by newer versions. Nor does it model the scheme rules of older versions: they accept a scheme that starts with a digit, and they have a port-number rule.
- Registration into `onlinejudge.dispatch.services` and `problems` is left out: the dispatcher is not part of this model. So are the `@utils.singleton` mechanics; the service is a one-value datatype.
- `submit` is modelled from its decoded reply. The GET of the problem page and the POST to the challenge's REST `/submissions` resource are not returned as a request trace.
- `download_with_parsing_html` is modelled only as the not-implemented failure in `Download`; it issues no request.
- `GetLanguageDict` returns a `map`, so the insertion order of the Python dict is not modelled; nothing in the adapter reads that order.
- `Download` takes the method name as a required argument; the default `method='run_code'` of the source is not modelled.
