/**
 * `scripts/generate-audio.ts`: the text-to-speech script. It refuses to
 * start without both credentials, creates the output directory when it is
 * missing, then walks the word list one word at a time: a word whose file
 * exists is skipped, any other is sent to the speech service and its file
 * written when the call works, with a pause after every call except one
 * for the last word.
 */
module GenerateAudio {
  import opened Wrappers
  import opened Vocabulary
  import opened Seqs
  import opened AudioJobs

  /** JavaScript truthiness of an environment variable: set and not empty. */
  predicate Truthy(v: Option<string>)
  {
    v.Some? && v.value != ""
  }

  /** The guard `!API_KEY || !VOICE_ID` fails exactly when both are truthy. */
  predicate EnvReady(apiKey: Option<string>, voiceId: Option<string>)
  {
    Truthy(apiKey) && Truthy(voiceId)
  }

  /**
   * The inputs of one run: the word list, the output directory, the files
   * already there, and whether the speech call for word `i` returns audio.
   */
  datatype Job = Job(words: seq<VocabularyItem>, outputDir: string, existing: set<string>,
                     succeeds: nat -> bool)

  /**
   * The script awaits each word before checking the next, so every
   * existence check sees all earlier writes: a batch of one. The speech
   * call is a single stage, so its success stands for both.
   */
  function RunOf(job: Job): (r: Run)
    ensures r.batchSize == 1 && |r.paths| == |job.words| && r.existing == job.existing
  {
    Run(PathsOf(job.outputDir, job.words), job.existing, 1, job.succeeds, job.succeeds)
  }

  /** One call of `generateAudio(text, outputPath)`. */
  datatype Request = Request(text: string, outputPath: string)

  /** The three counters, the speech calls in order, the indexes after which the script sleeps, and the files at the end. */
  datatype Summary = Summary(generated: nat, skipped: nat, failed: nat,
                             requests: seq<Request>, delays: seq<nat>, files: set<string>)

  /** The call made for word `j`: its Spanish text, to be written at its path. */
  function RequestOf(job: Job, j: nat): Request
    requires j < |job.words|
  {
    Request(job.words[j].spanish, PathAt(RunOf(job), j))
  }

  function RequestsFor(job: Job, idx: seq<nat>): (qs: seq<Request>)
    requires forall k :: 0 <= k < |idx| ==> idx[k] < |job.words|
    ensures |qs| == |idx|
  {
    seq(|idx|, k requires 0 <= k < |idx| => RequestOf(job, idx[k]))
  }

  /** `i < words.length - 1`: the word is not the last one. */
  function NotLast(n: nat): nat -> bool
  {
    j => j < n - 1
  }

  /** The counters, calls, pauses and files once the first `m` words are done. */
  function Partial(job: Job, m: nat): Summary
    requires m <= |job.words|
  {
    var r := RunOf(job);
    var os := Outcomes(r, m);
    var attempted := Attempted(os);
    Summary(Count(os, Generated), Count(os, Skipped), Count(os, Failed),
            RequestsFor(job, attempted), Filter(attempted, NotLast(|job.words|)), Files(r, m))
  }

  /** What a run of the loop produces, read off the outcomes of the words. */
  function Expected(job: Job): Summary
  {
    Partial(job, |job.words|)
  }

  /**
   * One turn of the loop: a word whose file is there bumps `skipped`; any
   * other adds its call, bumps `generated` and adds its file when the call
   * works, bumps `failed` otherwise, and pauses unless it is the last word.
   */
  lemma PartialStep(job: Job, i: nat)
    requires i < |job.words|
    ensures var p, path := Partial(job, i), PathAt(RunOf(job), i);
      Partial(job, i + 1) ==
        if path in p.files then p.(skipped := p.skipped + 1)
        else
          var called := p.(requests := p.requests + [RequestOf(job, i)],
                           delays := if i < |job.words| - 1 then p.delays + [i] else p.delays);
          if job.succeeds(i) then called.(generated := p.generated + 1, files := p.files + {path})
          else called.(failed := p.failed + 1)
  {
    var r := RunOf(job);
    assert BatchStart(r, i) == i;
    OutcomeAtSpec(r, i);
    StepCounts(job, i);
    StepCalls(job, i);
  }

  /** The outcome of word `i` gets appended, and its tally and the files follow it. */
  lemma StepCounts(job: Job, i: nat)
    requires i < |job.words|
    ensures var r := RunOf(job);
      var o, p, q := OutcomeAt(r, i), Partial(job, i), Partial(job, i + 1);
      Outcomes(r, i + 1) == Outcomes(r, i) + [o] &&
      q.generated == p.generated + (if o == Generated then 1 else 0) &&
      q.skipped == p.skipped + (if o == Skipped then 1 else 0) &&
      q.failed == p.failed + (if o == Failed then 1 else 0)
  {
    var r := RunOf(job);
    OutcomesStep(r, i);
    TallyStep(Outcomes(r, i), OutcomeAt(r, i));
  }

  /** Unless word `i` is skipped, its call is appended and, when it is not the last word, its pause. */
  lemma StepCalls(job: Job, i: nat)
    requires i < |job.words|
    ensures var r := RunOf(job);
      var o, p, q := OutcomeAt(r, i), Partial(job, i), Partial(job, i + 1);
      q.requests == p.requests + (if o != Skipped then [RequestOf(job, i)] else []) &&
      q.delays == p.delays + (if o != Skipped && i < |job.words| - 1 then [i] else [])
  {
    var r, n := RunOf(job), |job.words|;
    var before, o := Outcomes(r, i), OutcomeAt(r, i);
    OutcomesStep(r, i);
    TallyStep(before, o);
    var a := Attempted(before);
    var p, q := Partial(job, i), Partial(job, i + 1);
    if o == Skipped {
      assert Attempted(Outcomes(r, i + 1)) == a;
    } else {
      assert Attempted(Outcomes(r, i + 1)) == a + [i];
      FilterSnoc(a, i, NotLast(n));
      RequestsSnoc(job, a, i);
    }
  }

  lemma RequestsSnoc(job: Job, idx: seq<nat>, i: nat)
    requires forall k :: 0 <= k < |idx| ==> idx[k] < |job.words|
    requires i < |job.words|
    ensures RequestsFor(job, idx + [i]) == RequestsFor(job, idx) + [RequestOf(job, i)]
  {
    var xs, ys := RequestsFor(job, idx + [i]), RequestsFor(job, idx) + [RequestOf(job, i)];
    forall k | 0 <= k < |xs| ensures xs[k] == ys[k] {
      if k < |idx| {
        assert (idx + [i])[k] == idx[k];
      }
    }
  }

  /**
   * The loop of `main`, with `succeeds(i)` standing for whether the speech
   * call for word `i` returns audio.
   */
  method GenerateAll(words: seq<VocabularyItem>, outputDir: string, existing: set<string>,
                     succeeds: nat -> bool) returns (s: Summary)
    ensures s == Expected(Job(words, outputDir, existing, succeeds))
  {
    ghost var job := Job(words, outputDir, existing, succeeds);
    var n := |words|;
    var generated, skipped, failed := 0, 0, 0;
    var requests: seq<Request> := [];
    var delays: seq<nat> := [];
    var files := existing;
    for i := 0 to n
      invariant Summary(generated, skipped, failed, requests, delays, files) == Partial(job, i)
    {
      PartialStep(job, i);
      PathsOfAt(outputDir, words, i);
      var outputPath := OutputPath(outputDir, words[i].english);
      if outputPath in files {
        skipped := skipped + 1;
        continue;
      }
      requests := requests + [Request(words[i].spanish, outputPath)];
      if succeeds(i) {
        generated := generated + 1;
        files := files + {outputPath};
      } else {
        failed := failed + 1;
      }
      if i < n - 1 {
        delays := delays + [i];
      }
    }
    s := Summary(generated, skipped, failed, requests, delays, files);
  }

  /**
   * `main`: without both credentials it stops before touching the disk;
   * otherwise it creates the directory when missing and runs the loop.
   */
  method RunScript(apiKey: Option<string>, voiceId: Option<string>, dirExists: bool,
              words: seq<VocabularyItem>, outputDir: string, existing: set<string>,
              succeeds: nat -> bool) returns (summary: Option<Summary>, createsDir: bool)
    ensures summary.None? <==> !EnvReady(apiKey, voiceId)
    ensures createsDir <==> EnvReady(apiKey, voiceId) && !dirExists
    ensures summary.Some? ==> summary.value == Expected(Job(words, outputDir, existing, succeeds))
  {
    if !Truthy(apiKey) || !Truthy(voiceId) {
      return None, false;
    }
    createsDir := !dirExists;
    var s := GenerateAll(words, outputDir, existing, succeeds);
    summary := Some(s);
  }

  /** Each word lands in exactly one counter, and each generated or failed word made exactly one call. */
  lemma ExpectedTotals(job: Job)
    ensures var s := Expected(job);
      s.generated + s.skipped + s.failed == |job.words| &&
      |s.requests| == s.generated + s.failed
  {
    var os := Outcomes(RunOf(job), |job.words|);
    TallySum(os);
    AttemptedSpec(os);
  }

  /** A word is sent to the service exactly when its file is missing just before its turn. */
  lemma RequestedIffMissing(job: Job, j: nat)
    requires j < |job.words|
    ensures var r := RunOf(job);
      j in Attempted(Outcomes(r, |job.words|)) <==> PathAt(r, j) !in Files(r, j)
  {
    var r := RunOf(job);
    var os := Outcomes(r, |job.words|);
    AttemptedSpec(os);
    OutcomesAt(r, |job.words|, j);
    OutcomeAtSpec(r, j);
    assert BatchStart(r, j) == j;
  }

  /**
   * A word whose file exists at the start makes no call and causes no
   * pause, and no call of the run writes over a file that was there.
   */
  lemma ExistingUntouched(job: Job, j: nat)
    requires j < |job.words| && OutputPath(job.outputDir, job.words[j].english) in job.existing
    ensures j !in Attempted(Outcomes(RunOf(job), |job.words|)) && j !in Expected(job).delays
    ensures var s := Expected(job);
      forall k :: 0 <= k < |s.requests| ==> s.requests[k].outputPath !in job.existing
  {
    var r, n := RunOf(job), |job.words|;
    var os := Outcomes(r, n);
    var attempted := Attempted(os);
    var s := Expected(job);
    PathsOfAt(job.outputDir, job.words, j);
    ExistingSkipped(r, j);
    OutcomesAt(r, n, j);
    AttemptedSpec(os);
    FilterMembers(attempted, NotLast(n));
    forall k | 0 <= k < |s.requests| ensures s.requests[k].outputPath !in job.existing {
      var i := attempted[k];
      assert i in attempted;
      OutcomesAt(r, n, i);
      OutcomeAtSpec(r, i);
      assert BatchStart(r, i) == i;
      FilesGrow(r, 0, i);
    }
  }

  /** The script pauses after exactly the called words other than the last index, in order. */
  lemma DelaysSpec(job: Job)
    ensures var os := Outcomes(RunOf(job), |job.words|);
      forall j :: j in Expected(job).delays <==> j in Attempted(os) && j < |job.words| - 1
    ensures Increasing(Expected(job).delays)
  {
    var n := |job.words|;
    var os := Outcomes(RunOf(job), n);
    var attempted := Attempted(os);
    AttemptedSpec(os);
    FilterMembers(attempted, NotLast(n));
    FilterIncreasing(attempted, NotLast(n));
  }
}
