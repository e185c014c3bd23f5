/**
 * Sample retrieval through the judge's "run code" feature: post a trivial
 * program, poll the compile job once, and turn the inputs and expected
 * outputs the job reports into labelled test cases.  The two decoded JSON
 * replies, the clock reading and the text normalisation are inputs; the
 * requests the procedure issues are returned as a trace.
 */
module HackerRankDownload {
  import opened Wrappers
  import opened Text
  import opened HackerRank

  datatype LabeledString = LabeledString(name: string, data: string)

  datatype TestCase = TestCase(input: LabeledString, output: LabeledString)

  datatype Request = Get(url: string) | Post(url: string)

  /** The decoded answer to the compile request: `status` and `model.id`. */
  datatype CompileReply = CompileReply(status: bool, modelId: nat)

  /** The decoded answer to the poll: `status`, `model.stdin` and `model.expected_output`. */
  datatype PollReply = PollReply(status: bool, stdin: seq<string>, expectedOutput: seq<string>)

  datatype DownloadError = NotImplemented | UnknownMethod

  function CompileTestsUrl(p: Problem): string
  {
    RestChallengeUrl(p) + "/compile_tests"
  }

  /** The poll endpoint of job `id`, with the millisecond clock reading that defeats caches. */
  function PollUrl(p: Problem, id: nat, unixtimeMs: nat): string
  {
    CompileTestsUrl(p) + "/" + NatToString(id) + "?_=" + NatToString(unixtimeMs)
  }

  function InputLabel(i: nat): string
  {
    "Testcase " + NatToString(i) + " Input"
  }

  function OutputLabel(i: nat): string
  {
    "Testcase " + NatToString(i) + " Expected Output"
  }

  /** The `i`-th test case built from an input and an expected output. */
  function Sample(i: nat, input: string, output: string, textfile: string -> string): TestCase
  {
    TestCase(LabeledString(InputLabel(i), textfile(input)),
             LabeledString(OutputLabel(i), textfile(output)))
  }

  function Min(a: nat, b: nat): nat { if a < b then a else b }

  /** `zip(stdin, expected_output)`, each pair labelled with its index. */
  function ZippedSamples(stdin: seq<string>, expectedOutput: seq<string>, textfile: string -> string): seq<TestCase>
  {
    seq(Min(|stdin|, |expectedOutput|), i requires 0 <= i < Min(|stdin|, |expectedOutput|) =>
      Sample(i, stdin[i], expectedOutput[i], textfile))
  }

  /** The samples the run-code retrieval returns for the two replies. */
  function RunCodeSamples(compile: CompileReply, poll: PollReply, textfile: string -> string): seq<TestCase>
  {
    if compile.status && poll.status then ZippedSamples(poll.stdin, poll.expectedOutput, textfile) else []
  }

  /** The requests of the run-code retrieval: the poll only follows a successful compile. */
  function RunCodeRequests(p: Problem, compile: CompileReply, unixtimeMs: nat): seq<Request>
  {
    [Get(ProblemUrl(p)), Post(CompileTestsUrl(p))]
    + (if compile.status then [Get(PollUrl(p, compile.modelId, unixtimeMs))] else [])
  }

  /** `stdin` and `expectedOutput` zipped into labelled test cases, in index order. */
  method ZipSamples(stdin: seq<string>, expectedOutput: seq<string>, textfile: string -> string)
    returns (samples: seq<TestCase>)
    ensures |samples| == Min(|stdin|, |expectedOutput|)
    ensures forall i :: 0 <= i < |samples| ==> samples[i] == Sample(i, stdin[i], expectedOutput[i], textfile)
  {
    samples := [];
    var n := Min(|stdin|, |expectedOutput|);
    for i := 0 to n
      invariant |samples| == i
      invariant forall k :: 0 <= k < i ==> samples[k] == Sample(k, stdin[k], expectedOutput[k], textfile)
    {
      samples := samples + [Sample(i, stdin[i], expectedOutput[i], textfile)];
    }
  }

  /**
   * `download_with_running_code`: fetch the problem page, post the compile
   * request, and, only when that succeeded, poll the job once.
   */
  method DownloadWithRunningCode(p: Problem, compile: CompileReply, poll: PollReply,
                                 unixtimeMs: nat, textfile: string -> string)
    returns (samples: seq<TestCase>, requests: seq<Request>)
    ensures |requests| >= 2 && requests[..2] == [Get(ProblemUrl(p)), Post(CompileTestsUrl(p))]
    ensures !compile.status ==> samples == [] && |requests| == 2
    ensures compile.status ==> requests[2..] == [Get(PollUrl(p, compile.modelId, unixtimeMs))]
    ensures compile.status && !poll.status ==> samples == []
    ensures compile.status && poll.status ==>
              |samples| == Min(|poll.stdin|, |poll.expectedOutput|)
              && forall i :: 0 <= i < |samples| ==>
                   samples[i] == Sample(i, poll.stdin[i], poll.expectedOutput[i], textfile)
    ensures samples == RunCodeSamples(compile, poll, textfile)
    ensures requests == RunCodeRequests(p, compile, unixtimeMs)
  {
    requests := [Get(ProblemUrl(p)), Post(CompileTestsUrl(p))];
    if !compile.status {
      return [], requests;
    }
    requests := requests + [Get(PollUrl(p, compile.modelId, unixtimeMs))];
    if !poll.status {
      return [], requests;
    }
    samples := ZipSamples(poll.stdin, poll.expectedOutput, textfile);
  }

  /** `download`: pick the retrieval method by name. */
  method Download(p: Problem, methodName: string, compile: CompileReply, poll: PollReply,
                  unixtimeMs: nat, textfile: string -> string)
    returns (r: Result<seq<TestCase>, DownloadError>, requests: seq<Request>)
    ensures methodName == "run_code" ==>
              r == Success(RunCodeSamples(compile, poll, textfile))
              && requests == RunCodeRequests(p, compile, unixtimeMs)
    ensures methodName == "parse_html" ==> r == Failure(NotImplemented) && requests == []
    ensures methodName != "run_code" && methodName != "parse_html" ==>
              r == Failure(UnknownMethod) && requests == []
  {
    if methodName == "run_code" {
      var samples;
      samples, requests := DownloadWithRunningCode(p, compile, poll, unixtimeMs, textfile);
      r := Success(samples);
    } else if methodName == "parse_html" {
      r, requests := Failure(NotImplemented), [];
    } else {
      r, requests := Failure(UnknownMethod), [];
    }
  }

  /** Different indices get different input labels. */
  lemma InputLabelIdentifiesIndex(i: nat, j: nat)
    requires InputLabel(i) == InputLabel(j)
    ensures i == j
  {
    var a, b := NatToString(i), NatToString(j);
    assert |a| == |b|;
    assert InputLabel(i)[9..9 + |a|] == a;
    assert InputLabel(j)[9..9 + |b|] == b;
    NatToStringInjective(i, j);
  }

  /** Different indices get different expected-output labels. */
  lemma OutputLabelIdentifiesIndex(i: nat, j: nat)
    requires OutputLabel(i) == OutputLabel(j)
    ensures i == j
  {
    var a, b := NatToString(i), NatToString(j);
    assert |a| == |b|;
    assert OutputLabel(i)[9..9 + |a|] == a;
    assert OutputLabel(j)[9..9 + |b|] == b;
    NatToStringInjective(i, j);
  }
}
