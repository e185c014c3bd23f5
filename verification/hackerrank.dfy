/**
 * The HackerRank adapter: which URLs belong to the judge, the problem a URL
 * names and the canonical URL of a problem, the decisions `login` and
 * `is_logged_in` take on the URLs the server answers with, and the
 * submission handle built from a successful submission.
 */
module HackerRank {
  import opened Wrappers
  import opened Text
  import opened UrlParse

  /** The judge; the adapter keeps a single, stateless instance. */
  datatype Service = HackerRankService

  /**
   * A challenge, keyed by its contest slug and its challenge slug. The contest
   * slug `master` stands for the challenges that belong to no contest.
   */
  datatype Problem = Problem(contestSlug: string, challengeSlug: string)

  const MasterContest := "master"
  const Host := "www.hackerrank.com"
  /** `https://www.hackerrank.com`, the start of every URL the adapter builds. */
  const Origin := "https://" + Host

  function ServiceUrl(): string { Origin + "/" }

  function ServiceName(): string { "hackerrank" }

  function GetService(p: Problem): Service { HackerRankService }

  // ---------------------------------------------------------------------
  // URL recognition

  predicate AcceptedScheme(scheme: string)
  {
    scheme == "" || scheme == "http" || scheme == "https"
  }

  predicate AcceptedHost(netloc: string)
  {
    netloc == "hackerrank.com" || netloc == "www.hackerrank.com"
  }

  /** `HackerRankService.from_url` on the parts `urlparse` gives. */
  function ServiceFromParts(u: ParsedUrl): Option<Service>
  {
    if AcceptedScheme(u.scheme) && AcceptedHost(u.netloc) then Some(HackerRankService) else None
  }

  function ServiceFromUrl(s: string): Option<Service>
  {
    ServiceFromParts(SplitUrl(s))
  }

  /** The judge recognises its own base URL. */
  lemma ServiceUrlRecognised()
    ensures ServiceFromUrl(ServiceUrl()) == Some(HackerRankService)
  {
    var u := ParsedUrl("https", Host, "/");
    ServiceUrlParts();
    HostPathWellFormed("/");
    SplitUnsplit(u);
    assert SplitUrl(ServiceUrl()) == u;
  }

  /**
   * For a URL written from well-formed parts, `HackerRankService.from_url`
   * answers the service exactly when the scheme and the host are accepted.
   */
  lemma ServiceFromUrlIff(u: ParsedUrl)
    requires WellFormed(u)
    ensures ServiceFromUrl(Unsplit(u)) == Some(HackerRankService) <==> AcceptedScheme(u.scheme) && AcceptedHost(u.netloc)
    ensures ServiceFromUrl(Unsplit(u)) == None <==> !(AcceptedScheme(u.scheme) && AcceptedHost(u.netloc))
  {
    SplitUnsplit(u);
  }

  lemma ServiceUrlParts()
    ensures ServiceUrl() == Unsplit(ParsedUrl("https", Host, "/"))
  {
    assert "https" + "://" == "https://";
  }

  /** The characters of `[0-9A-Za-z-]`. */
  predicate IsSlugChar(ch: char)
  {
    '0' <= ch <= '9' || 'A' <= ch <= 'Z' || 'a' <= ch <= 'z' || ch == '-'
  }

  /** A match of `[0-9A-Za-z-]+`. */
  predicate IsSlug(s: string)
  {
    |s| > 0 && forall i :: 0 <= i < |s| ==> IsSlugChar(s[i])
  }

  function ContestChallengePath(contest: string, challenge: string): string
  {
    "/contests/" + contest + "/challenges/" + challenge
  }

  function ChallengePath(challenge: string): string
  {
    "/challenges/" + challenge
  }

  /**
   * `re.match('^' + body + '$', path)` for a fixed `body`: Python's `$` also
   * matches just before a final newline.
   */
  predicate FullMatch(path: string, body: string)
  {
    path == body || path == body + "\n"
  }

  /** The text that the parts of an anchored pattern must cover. */
  function AnchoredBody(path: string): string
  {
    if |path| > 0 && path[|path| - 1] == '\n' then path[..|path| - 1] else path
  }

  /** `^/contests/([0-9A-Za-z-]+)/challenges/([0-9A-Za-z-]+)$` */
  function MatchContestChallenge(path: string): Option<(string, string)>
  {
    var segments := Split(AnchoredBody(path), '/');
    if |segments| == 5 && segments[0] == "" && segments[1] == "contests" && IsSlug(segments[2])
       && segments[3] == "challenges" && IsSlug(segments[4])
    then Some((segments[2], segments[4]))
    else None
  }

  /** `^/challenges/([0-9A-Za-z-]+)$` */
  function MatchChallenge(path: string): Option<string>
  {
    var segments := Split(AnchoredBody(path), '/');
    if |segments| == 3 && segments[0] == "" && segments[1] == "challenges" && IsSlug(segments[2])
    then Some(segments[2])
    else None
  }

  /**
   * `HackerRankProblem.from_url` on the parts `urlparse` gives; `normpath`
   * is the path normalisation the adapter applies before matching.
   */
  function ProblemFromParts(u: ParsedUrl, normpath: string -> string): (r: Option<Problem>)
    ensures r.Some? ==> ServiceFromParts(u) == Some(HackerRankService)
    ensures r.Some? ==> IsSlug(r.value.contestSlug) && IsSlug(r.value.challengeSlug)
  {
    if AcceptedScheme(u.scheme) && AcceptedHost(u.netloc) then
      match MatchContestChallenge(normpath(u.path))
      case Some((contest, challenge)) => Some(Problem(contest, challenge))
      case None =>
        match MatchChallenge(normpath(u.path))
        case Some(challenge) => Some(Problem(MasterContest, challenge))
        case None => None
    else None
  }

  function ProblemFromUrl(s: string, normpath: string -> string): Option<Problem>
  {
    ProblemFromParts(SplitUrl(s), normpath)
  }

  /** `path` (already normalised) is one of the two shapes that name `p`. */
  predicate Denotes(path: string, p: Problem)
  {
    || (IsSlug(p.contestSlug) && IsSlug(p.challengeSlug)
        && FullMatch(path, ContestChallengePath(p.contestSlug, p.challengeSlug)))
    || (p.contestSlug == MasterContest && IsSlug(p.challengeSlug)
        && FullMatch(path, ChallengePath(p.challengeSlug)))
  }

  lemma SlugHasNoSlash(s: string)
    requires IsSlug(s)
    ensures '/' !in s && '?' !in s && '#' !in s && ';' !in s && s[|s| - 1] != '\n'
  {
    forall i | 0 <= i < |s| ensures IsSlugChar(s[i]) {
    }
  }

  lemma ContestChallengeSegments(contest: string, challenge: string)
    ensures ContestChallengePath(contest, challenge) == Join(["", "contests", contest, "challenges", challenge], '/')
  {
    var parts := ["", "contests", contest, "challenges", challenge];
    assert Join(parts[4..], '/') == challenge;
    assert Join(parts[3..], '/') == "challenges" + "/" + challenge;
    assert Join(parts[2..], '/') == contest + "/" + "challenges" + "/" + challenge;
    assert Join(parts[1..], '/') == "contests" + "/" + contest + "/" + "challenges" + "/" + challenge;
  }

  lemma ChallengeSegments(challenge: string)
    ensures ChallengePath(challenge) == Join(["", "challenges", challenge], '/')
  {
    var parts := ["", "challenges", challenge];
    assert Join(parts[2..], '/') == challenge;
    assert Join(parts[1..], '/') == "challenges" + "/" + challenge;
  }

  /** A body ending in a slug character is what an anchored match covers. */
  lemma AnchoredBodyOf(path: string, body: string)
    requires |body| > 0 && body[|body| - 1] != '\n'
    ensures FullMatch(path, body) <==> AnchoredBody(path) == body
  {
    if path == body + "\n" {
      assert path[..|path| - 1] == body;
    }
  }

  /** The first pattern matches exactly the two-slug paths, capturing both slugs. */
  lemma MatchContestChallengeIff(path: string, contest: string, challenge: string)
    ensures MatchContestChallenge(path) == Some((contest, challenge))
            <==> IsSlug(contest) && IsSlug(challenge) && FullMatch(path, ContestChallengePath(contest, challenge))
  {
    var body := AnchoredBody(path);
    var parts := ["", "contests", contest, "challenges", challenge];
    ContestChallengeSegments(contest, challenge);
    if MatchContestChallenge(path) == Some((contest, challenge)) {
      var segments := Split(body, '/');
      JoinSplit(body, '/');
      assert segments == parts;
      SlugHasNoSlash(challenge);
      AnchoredBodyOf(path, ContestChallengePath(contest, challenge));
    }
    if IsSlug(contest) && IsSlug(challenge) && FullMatch(path, ContestChallengePath(contest, challenge)) {
      SlugHasNoSlash(contest);
      SlugHasNoSlash(challenge);
      AnchoredBodyOf(path, ContestChallengePath(contest, challenge));
      SplitJoin(parts, '/');
    }
  }

  /** The second pattern matches exactly the one-slug paths, capturing the slug. */
  lemma MatchChallengeIff(path: string, challenge: string)
    ensures MatchChallenge(path) == Some(challenge)
            <==> IsSlug(challenge) && FullMatch(path, ChallengePath(challenge))
  {
    var body := AnchoredBody(path);
    var parts := ["", "challenges", challenge];
    ChallengeSegments(challenge);
    if MatchChallenge(path) == Some(challenge) {
      var segments := Split(body, '/');
      JoinSplit(body, '/');
      assert segments == parts;
      SlugHasNoSlash(challenge);
      AnchoredBodyOf(path, ChallengePath(challenge));
    }
    if IsSlug(challenge) && FullMatch(path, ChallengePath(challenge)) {
      SlugHasNoSlash(challenge);
      AnchoredBodyOf(path, ChallengePath(challenge));
      SplitJoin(parts, '/');
    }
  }

  /** A one-slug path never matches the two-slug pattern. */
  lemma ChallengePathIsNotContestPath(path: string, challenge: string)
    requires IsSlug(challenge) && FullMatch(path, ChallengePath(challenge))
    ensures MatchContestChallenge(path) == None
  {
    var parts := ["", "challenges", challenge];
    SlugHasNoSlash(challenge);
    AnchoredBodyOf(path, ChallengePath(challenge));
    ChallengeSegments(challenge);
    SplitJoin(parts, '/');
  }

  /**
   * `from_url` yields `p` exactly when the scheme and host are the judge's and
   * the normalised path has one of the two shapes naming `p`; in every other
   * case it yields no match.
   */
  lemma ProblemFromPartsIff(u: ParsedUrl, normpath: string -> string, p: Problem)
    ensures ProblemFromParts(u, normpath) == Some(p)
            <==> AcceptedScheme(u.scheme) && AcceptedHost(u.netloc) && Denotes(normpath(u.path), p)
  {
    var path := normpath(u.path);
    MatchContestChallengeIff(path, p.contestSlug, p.challengeSlug);
    MatchChallengeIff(path, p.challengeSlug);
    if AcceptedScheme(u.scheme) && AcceptedHost(u.netloc) {
      match MatchContestChallenge(path)
      case Some((contest, challenge)) =>
        MatchContestChallengeIff(path, contest, challenge);
        if p.contestSlug == MasterContest && IsSlug(p.challengeSlug) && FullMatch(path, ChallengePath(p.challengeSlug)) {
          ChallengePathIsNotContestPath(path, p.challengeSlug);
        }
      case None =>
        match MatchChallenge(path)
        case Some(challenge) =>
          MatchChallengeIff(path, challenge);
        case None =>
    }
  }

  /** Both `from_url` answer "no match" for a foreign scheme or host. */
  lemma ForeignUrlNotRecognised(u: ParsedUrl, normpath: string -> string)
    requires !AcceptedScheme(u.scheme) || !AcceptedHost(u.netloc)
    ensures ServiceFromParts(u) == None && ProblemFromParts(u, normpath) == None
  {
  }

  // ---------------------------------------------------------------------
  // Canonical URL

  /** The path of the canonical URL: contest `master` has no `/contests/...` part. */
  function CanonicalPath(p: Problem): string
  {
    if p.contestSlug == MasterContest then ChallengePath(p.challengeSlug)
    else ContestChallengePath(p.contestSlug, p.challengeSlug)
  }

  /** `HackerRankProblem.get_url`. */
  function ProblemUrl(p: Problem): string
  {
    if p.contestSlug == MasterContest then
      Origin + "/challenges/" + p.challengeSlug
    else
      Origin + "/contests/" + p.contestSlug + "/challenges/" + p.challengeSlug
  }

  lemma ProblemUrlParts(p: Problem)
    ensures ProblemUrl(p) == Unsplit(ParsedUrl("https", Host, CanonicalPath(p)))
  {
    assert "https" + "://" == "https://";
  }

  /** The judge's host under `https`, with a path that holds no query, fragment or parameters. */
  lemma HostPathWellFormed(path: string)
    requires path == [] || path[0] == '/'
    requires '?' !in path && '#' !in path && ';' !in path
    ensures WellFormed(ParsedUrl("https", Host, path))
  {
    assert IsNormalScheme("https");
    assert '/' !in Host && '?' !in Host && '#' !in Host;
  }

  lemma SlugPathWellFormed(p: Problem)
    requires IsSlug(p.challengeSlug)
    requires p.contestSlug == MasterContest || IsSlug(p.contestSlug)
    ensures WellFormed(ParsedUrl("https", Host, CanonicalPath(p)))
  {
    var c, x := p.contestSlug, p.challengeSlug;
    SlugHasNoSlash(x);
    if c == MasterContest {
      assert CanonicalPath(p) == "/challenges/" + x;
    } else {
      SlugHasNoSlash(c);
      assert CanonicalPath(p) == "/contests/" + c + "/challenges/" + x;
    }
    HostPathWellFormed(CanonicalPath(p));
  }

  /**
   * The canonical URL of a problem with valid slugs reads back as the judge's
   * host under `https`; its path starts with `/contests/` exactly when the
   * contest is not `master`.
   */
  lemma ProblemUrlPath(p: Problem)
    requires IsSlug(p.contestSlug) && IsSlug(p.challengeSlug)
    ensures SplitUrl(ProblemUrl(p)).scheme == "https" && SplitUrl(ProblemUrl(p)).netloc == Host
    ensures var path := SplitUrl(ProblemUrl(p)).path;
            (|path| >= 10 && path[..10] == "/contests/") <==> p.contestSlug != MasterContest
  {
    var u := ParsedUrl("https", Host, CanonicalPath(p));
    ProblemUrlParts(p);
    SlugPathWellFormed(p);
    SplitUnsplit(u);
    assert SplitUrl(ProblemUrl(p)) == u;
    CanonicalPathNamesContest(p);
  }

  lemma CanonicalPathNamesContest(p: Problem)
    ensures var path := CanonicalPath(p);
            (|path| >= 10 && path[..10] == "/contests/") <==> p.contestSlug != MasterContest
  {
    if p.contestSlug == MasterContest {
      assert CanonicalPath(p)[2] == 'h';
    } else {
      assert CanonicalPath(p)[..10] == "/contests/";
    }
  }

  /**
   * Round trip: recognising the canonical URL of a problem with valid slugs
   * gives back the same problem, `master` included, provided the
   * normalisation leaves the canonical path alone.
   */
  lemma ProblemUrlRoundTrip(p: Problem, normpath: string -> string)
    requires IsSlug(p.contestSlug) && IsSlug(p.challengeSlug)
    requires normpath(CanonicalPath(p)) == CanonicalPath(p)
    ensures ProblemFromUrl(ProblemUrl(p), normpath) == Some(p)
  {
    var u := ParsedUrl("https", Host, CanonicalPath(p));
    ProblemUrlParts(p);
    SlugPathWellFormed(p);
    SplitUnsplit(u);
    assert Denotes(CanonicalPath(p), p);
    ProblemFromPartsIff(u, normpath, p);
  }

  /** Re-recognising the canonical URL of a recognised problem gives the same problem. */
  lemma CanonicalUrlIsStable(s: string, normpath: string -> string)
    requires ProblemFromUrl(s, normpath).Some?
    requires normpath(CanonicalPath(ProblemFromUrl(s, normpath).value))
             == CanonicalPath(ProblemFromUrl(s, normpath).value)
    ensures ProblemFromUrl(ProblemUrl(ProblemFromUrl(s, normpath).value), normpath) == ProblemFromUrl(s, normpath)
  {
    ProblemUrlRoundTrip(ProblemFromUrl(s, normpath).value, normpath);
  }

  /** `/contests/master/challenges/X` and `/challenges/X` name the same problem. */
  lemma MasterContestAlias(challenge: string, normpath: string -> string)
    requires IsSlug(challenge)
    requires normpath(ContestChallengePath(MasterContest, challenge)) == ContestChallengePath(MasterContest, challenge)
    requires normpath(ChallengePath(challenge)) == ChallengePath(challenge)
    ensures ProblemFromParts(ParsedUrl("https", Host, ContestChallengePath(MasterContest, challenge)), normpath)
            == Some(Problem(MasterContest, challenge))
    ensures ProblemFromParts(ParsedUrl("https", Host, ChallengePath(challenge)), normpath)
            == Some(Problem(MasterContest, challenge))
  {
    var p := Problem(MasterContest, challenge);
    assert IsSlug(MasterContest);
    assert Denotes(ContestChallengePath(MasterContest, challenge), p);
    assert Denotes(ChallengePath(challenge), p);
    ProblemFromPartsIff(ParsedUrl("https", Host, ContestChallengePath(MasterContest, challenge)), normpath, p);
    ProblemFromPartsIff(ParsedUrl("https", Host, ChallengePath(challenge)), normpath, p);
  }

  // ---------------------------------------------------------------------
  // Login state

  const LoginUrl := Origin + "/auth/login"

  datatype Credentials = Credentials(username: string, password: string)

  /** Whether the login succeeded, and whether the credential provider was consulted. */
  datatype LoginOutcome = LoginOutcome(signedIn: bool, askedForCredentials: bool)

  /** `is_logged_in`, given the URL the login page request ended at. */
  function IsLoggedIn(landingUrl: string): (b: bool)
    ensures b <==> !exists i :: OccursAt(landingUrl, "/auth", i)
  {
    ContainsIff(landingUrl, "/auth");
    !Contains(landingUrl, "/auth")
  }

  /**
   * `login`, given the URL the login page request ended at, the credential
   * provider, and the URL the form submission ends at for given credentials.
   */
  function Login(landingUrl: string, getCredentials: () -> Credentials, submitForm: Credentials -> string): (o: LoginOutcome)
    ensures landingUrl != LoginUrl ==> o == LoginOutcome(true, false)
    ensures landingUrl == LoginUrl ==>
              o.askedForCredentials
              && (o.signedIn <==> !exists i :: OccursAt(submitForm(getCredentials()), "/auth", i))
  {
    if landingUrl != LoginUrl then LoginOutcome(true, false)
    else
      var finalUrl := submitForm(getCredentials());
      ContainsIff(finalUrl, "/auth");
      LoginOutcome(!Contains(finalUrl, "/auth"), true)
  }

  /** The login page itself is never a signed-in landing. */
  lemma LoginPageIsNotSignedIn()
    ensures !IsLoggedIn(LoginUrl)
  {
    assert LoginUrl[|Origin|..|Origin| + 5] == "/auth";
    assert OccursAt(LoginUrl, "/auth", |Origin|);
  }

  /** When `is_logged_in` holds, `login` succeeds without asking for credentials. */
  lemma LoggedInSkipsCredentials(landingUrl: string, getCredentials: () -> Credentials, submitForm: Credentials -> string)
    requires IsLoggedIn(landingUrl)
    ensures Login(landingUrl, getCredentials, submitForm) == LoginOutcome(true, false)
  {
    LoginPageIsNotSignedIn();
  }

  /**
   * The converse fails: `login` counts any redirect away from the login page
   * as signed in, also one to another `/auth` page that `is_logged_in` rejects.
   */
  lemma RedirectToAuthPageCountsAsSignedIn(getCredentials: () -> Credentials, submitForm: Credentials -> string)
    ensures var landing := Origin + "/auth/signup";
            Login(landing, getCredentials, submitForm) == LoginOutcome(true, false) && !IsLoggedIn(landing)
  {
    var landing := Origin + "/auth/signup";
    assert |landing| != |LoginUrl|;
    assert landing[|Origin|..|Origin| + 5] == "/auth";
    assert OccursAt(landing, "/auth", |Origin|);
  }

  // ---------------------------------------------------------------------
  // Submission

  datatype SubmissionError = SubmissionError

  /** The decoded answer to a submission: `status` and `model.id`. */
  datatype SubmitReply = SubmitReply(status: bool, modelId: nat)

  /** A handle on a submitted solution: the page that shows its result. */
  datatype Submission = Submission(url: string, problem: Problem)

  /** The REST resource of a challenge; it names the contest even for `master`. */
  function RestChallengeUrl(p: Problem): string
  {
    Origin + "/rest/contests/" + p.contestSlug + "/challenges/" + p.challengeSlug
  }

  /** `get_url().rstrip('/') + '/submissions/code/{}'.format(id)` */
  function SubmissionUrl(p: Problem, id: nat): string
  {
    RStrip(ProblemUrl(p), '/') + "/submissions/code/" + NatToString(id)
  }

  /** The outcome of `submit` once the reply is decoded. */
  function Submit(p: Problem, reply: SubmitReply): (r: Result<Submission, SubmissionError>)
    ensures r.Success? <==> reply.status
    ensures r.Success? ==> r.value.problem == p && r.value.url == SubmissionUrl(p, reply.modelId)
  {
    if !reply.status then Failure(SubmissionError)
    else Success(Submission(SubmissionUrl(p, reply.modelId), p))
  }

  /** For a problem with a challenge slug, the result page extends the problem's URL. */
  lemma SubmissionUrlExtendsProblemUrl(p: Problem, id: nat)
    requires IsSlug(p.challengeSlug)
    ensures SubmissionUrl(p, id) == ProblemUrl(p) + "/submissions/code/" + NatToString(id)
  {
    var url := ProblemUrl(p);
    var x := p.challengeSlug;
    SlugHasNoSlash(x);
    assert url[|url| - 1] == x[|x| - 1];
    assert x[|x| - 1] in x;
  }

  /** Different submissions of one problem get different result pages. */
  lemma SubmissionUrlIdentifiesJob(p: Problem, a: nat, b: nat)
    requires SubmissionUrl(p, a) == SubmissionUrl(p, b)
    ensures a == b
  {
    var prefix := RStrip(ProblemUrl(p), '/') + "/submissions/code/";
    var ua, ub := SubmissionUrl(p, a), SubmissionUrl(p, b);
    assert ua[|prefix|..] == NatToString(a);
    assert ub[|prefix|..] == NatToString(b);
    NatToStringInjective(a, b);
  }
}
