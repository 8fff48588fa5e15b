/**
 * `scripts/generate-audio-spanishdict.ts`: the dictionary-download script.
 * It builds one task per word, cuts the tasks into consecutive batches of
 * five, and handles each batch concurrently: a task whose file exists is
 * skipped without any network work, any other looks its word up, downloads
 * the audio when the lookup finds one, and writes the file when the
 * download works. The batch's results are then tallied, and the script
 * pauses before every batch but the first.
 */
module GenerateAudioSpanishDict {
  import opened Vocabulary
  import opened Seqs
  import opened Filename
  import opened AudioJobs

  /** `CONCURRENT_REQUESTS`: the tasks of one batch. */
  const ConcurrentRequests: nat := 5

  datatype WordTask = WordTask(index: nat, spanish: string, english: string, outputPath: string)

  /** `words.map((word, index) => ...)`: one task per word, in list order. */
  function Tasks(words: seq<VocabularyItem>, outputDir: string): (ts: seq<WordTask>)
    ensures |ts| == |words|
  {
    seq(|words|, i requires 0 <= i < |words| =>
      WordTask(i, words[i].spanish, words[i].english, OutputPath(outputDir, words[i].english)))
  }

  /**
   * Task `i` carries word `i`'s texts and its index, and its file lies
   * directly in the output directory under a name fixed by the English
   * text alone: two tasks share a file exactly when their English texts
   * sanitize alike, whatever their indexes.
   */
  lemma TasksSpec(words: seq<VocabularyItem>, outputDir: string, i: nat, j: nat)
    requires i < |words| && j < |words|
    ensures var ts := Tasks(words, outputDir);
      ts[i].index == i && ts[i].spanish == words[i].spanish && ts[i].english == words[i].english
    ensures var p := Tasks(words, outputDir)[i].outputPath;
      p[..|outputDir| + 1] == outputDir + "/" && '/' !in p[|outputDir| + 1..]
    ensures var ts := Tasks(words, outputDir);
      ts[i].outputPath == ts[j].outputPath <==> Sanitize(words[i].english) == Sanitize(words[j].english)
  {
    OutputPathSpec(outputDir, words[i].english, words[j].english);
  }

  /** The number of batches: `ceil(n / 5)`. */
  function BatchCount(n: nat): nat
  {
    (n + ConcurrentRequests - 1) / ConcurrentRequests
  }

  /** `tasks.slice(i, i + 5)` for `i = 0, 5, 10, ...` while `i < tasks.length`. */
  function Batches<T>(ts: seq<T>): seq<seq<T>>
    decreases |ts|
  {
    if ts == [] then []
    else if |ts| <= ConcurrentRequests then [ts]
    else [ts[..ConcurrentRequests]] + Batches(ts[ConcurrentRequests..])
  }

  function Flatten<T>(bs: seq<seq<T>>): seq<T>
  {
    if bs == [] then [] else bs[0] + Flatten(bs[1..])
  }

  /**
   * The batches cover every task exactly once and in order; there are
   * `ceil(n / 5)` of them, every one holds one to five tasks, and all but
   * the last hold exactly five.
   */
  lemma {:induction false} BatchesSpec<T>(ts: seq<T>)
    ensures Flatten(Batches(ts)) == ts
    ensures |Batches(ts)| == BatchCount(|ts|)
    ensures forall b :: 0 <= b < |Batches(ts)| ==> 1 <= |Batches(ts)[b]| <= ConcurrentRequests
    ensures forall b :: 0 <= b < |Batches(ts)| - 1 ==> |Batches(ts)[b]| == ConcurrentRequests
    decreases |ts|
  {
    if ts != [] && |ts| > ConcurrentRequests {
      var rest := ts[ConcurrentRequests..];
      BatchesSpec(rest);
      var bs := Batches(ts);
      assert bs == [ts[..ConcurrentRequests]] + Batches(rest);
      assert bs[1..] == Batches(rest);
      assert ts == ts[..ConcurrentRequests] + rest;
      forall b | 1 <= b < |bs| ensures bs[b] == Batches(rest)[b - 1] {
      }
    }
  }

  /** Batch `b` is the slice starting at task `5 * b`. */
  lemma {:induction false} BatchAt<T>(ts: seq<T>, b: nat)
    requires b < BatchCount(|ts|)
    ensures |Batches(ts)| == BatchCount(|ts|) && Batches(ts)[b] == ts[ConcurrentRequests * b..Min(ConcurrentRequests * b + ConcurrentRequests, |ts|)]
    decreases |ts|
  {
    BatchesSpec(ts);
    if b > 0 {
      BatchAt(ts[ConcurrentRequests..], b - 1);
      assert Batches(ts)[b] == Batches(ts[ConcurrentRequests..])[b - 1];
    }
  }

  function Min(a: int, b: int): int
  {
    if a <= b then a else b
  }

  /** `processWord`'s answer. */
  datatype WordResult = WordResult(success: bool, skipped: bool)

  /**
   * `processWord`: an existing file is a skipped success, a failed lookup a
   * failure, otherwise the download decides.
   */
  function ProcessWord(fileExists: bool, found: bool, downloaded: bool): WordResult
  {
    if fileExists then WordResult(true, true)
    else if !found then WordResult(false, false)
    else WordResult(downloaded, false)
  }

  /** The tally loop: `skipped` first, then `success`, else `failed`. */
  function Classify(res: WordResult): Outcome
  {
    if res.skipped then Skipped else if res.success then Generated else Failed
  }

  /**
   * Tallying what `processWord` answers is deciding the word against the
   * snapshot, with a fetch that works exactly when the lookup finds audio
   * and the download succeeds; an existing file is answered
   * `{success: true, skipped: true}`.
   */
  lemma ProcessWordSpec(snapshot: set<string>, path: string, found: bool, downloaded: bool)
    ensures Classify(ProcessWord(path in snapshot, found, downloaded)) == Decide(snapshot, path, found && downloaded)
    ensures path in snapshot ==> ProcessWord(path in snapshot, found, downloaded) == WordResult(true, true)
    ensures ProcessWord(path in snapshot, found, downloaded).skipped <==> path in snapshot
    ensures ProcessWord(path in snapshot, found, downloaded) == Answer(Decide(snapshot, path, found && downloaded))
  {
  }

  /**
   * The inputs of one run: the word list, the output directory, the files
   * already there, whether the lookup of word `i` finds an audio URL, and
   * whether downloading it works.
   */
  datatype Job = Job(words: seq<VocabularyItem>, outputDir: string, existing: set<string>,
                     found: nat -> bool, downloaded: nat -> bool)

  /**
   * Within a batch every existence check runs before any write of that
   * batch (each `processWord` checks before its first `await`), so one
   * snapshot serves the batch; a word is written when both its lookup and
   * its download work.
   */
  function RunOf(job: Job): (r: Run)
    ensures r.batchSize == ConcurrentRequests && |r.paths| == |job.words| && r.existing == job.existing
  {
    Run(PathsOf(job.outputDir, job.words), job.existing, ConcurrentRequests, job.found, job.downloaded)
  }

  /** The answer that goes with each outcome: the inverse of `Classify`. */
  function Answer(o: Outcome): (res: WordResult)
    ensures Classify(res) == o
  {
    match o
    case Skipped => WordResult(true, true)
    case Generated => WordResult(true, false)
    case Failed => WordResult(false, false)
  }

  /** What `processWord` answers for word `j`, read off its outcome. */
  function ResultOf(job: Job, j: nat): WordResult
    requires j < |job.words|
  {
    Answer(OutcomeAt(RunOf(job), j))
  }

  /**
   * Word `j`'s answer is `processWord` run against the files present when
   * its batch began, with its own lookup and download.
   */
  lemma ResultOfSpec(job: Job, j: nat)
    requires j < |job.words|
    ensures var r := RunOf(job);
      ResultOf(job, j) == ProcessWord(PathAt(r, j) in Files(r, BatchStart(r, j)), job.found(j), job.downloaded(j))
  {
    var r := RunOf(job);
    OutcomeAtSpec(r, j);
    ProcessWordSpec(Files(r, BatchStart(r, j)), PathAt(r, j), job.found(j), job.downloaded(j));
  }

  datatype Counters = Counters(generated: nat, skipped: nat, failed: nat)

  /** The lookups and downloads made, by word index in list order, and the files on disk. */
  datatype Effects = Effects(lookups: seq<nat>, downloads: seq<nat>, files: set<string>)

  /** The counters, the lookups, downloads and files, and the pauses (by batch start) of a run. */
  datatype Summary = Summary(counters: Counters, effects: Effects, delays: seq<nat>)

  /** The counters once the first `m` results are tallied. */
  /** The three counters read off a list of outcomes. */
  function CountsOf(os: seq<Outcome>): Counters
  {
    Counters(Count(os, Generated), Count(os, Skipped), Count(os, Failed))
  }

  function CountersAt(r: Run, m: nat): Counters
    requires r.batchSize > 0 && m <= |r.paths|
  {
    CountsOf(Outcomes(r, m))
  }

  /** The lookups, downloads and files once the first `m` words are processed. */
  function EffectsAt(r: Run, m: nat): Effects
    requires r.batchSize > 0 && m <= |r.paths|
  {
    var os := Outcomes(r, m);
    Effects(Attempted(os), Filter(Attempted(os), r.located), Files(r, m))
  }

  /** The first task index of each of the first `c` batches. */
  function Starts(c: nat): (ss: seq<nat>)
    ensures |ss| == c
  {
    seq(c, b requires 0 <= b < c => ConcurrentRequests * b)
  }

  /**
   * The pauses after the first `c` batches of `n` tasks: the start of each
   * batch after which `i + CONCURRENT_REQUESTS < tasks.length` holds.
   */
  function Pauses(n: nat, c: nat): seq<nat>
  {
    if c == 0 then []
    else Pauses(n, c - 1) + (if ConcurrentRequests * (c - 1) + ConcurrentRequests < n then [ConcurrentRequests * (c - 1)] else [])
  }

  /** One more batch start, kept when another batch follows it. */
  lemma PausesStep(n: nat, b: nat, i: nat)
    requires i == ConcurrentRequests * b
    ensures Pauses(n, b + 1) == Pauses(n, b) + (if i + ConcurrentRequests < n then [i] else [])
  {
  }

  lemma StartsSnoc(c: nat)
    ensures Starts(c + 1) == Starts(c) + [ConcurrentRequests * c]
  {
    var xs, ys := Starts(c + 1), Starts(c) + [ConcurrentRequests * c];
    forall k | 0 <= k < |xs| ensures xs[k] == ys[k] {
    }
  }

  /** While more tasks follow the `c`-th batch start, every batch so far paused. */
  lemma {:induction false} PausesBelow(n: nat, c: nat)
    requires ConcurrentRequests * c < n
    ensures Pauses(n, c) == Starts(c)
  {
    if c > 0 {
      PausesBelow(n, c - 1);
      StartsSnoc(c - 1);
    }
  }

  /** What a run of `main` produces, read off the outcomes of the words. */
  function Expected(job: Job): Summary
  {
    var n := |job.words|;
    Summary(CountersAt(RunOf(job), n), EffectsAt(RunOf(job), n), Pauses(n, BatchCount(n)))
  }

  /** `tasks` are the tasks of run `r`: task `j` is word `j`, written at word `j`'s path. */
  ghost predicate TasksOf(r: Run, tasks: seq<WordTask>)
  {
    |tasks| == |r.paths| && forall j :: 0 <= j < |tasks| ==> tasks[j].index == j && tasks[j].outputPath == r.paths[j]
  }

  /** The tasks `main` builds are those of the job's run. */
  lemma TasksOfJob(job: Job)
    ensures TasksOf(RunOf(job), Tasks(job.words, job.outputDir))
  {
    forall j | 0 <= j < |job.words| ensures Tasks(job.words, job.outputDir)[j].outputPath == RunOf(job).paths[j] {
      PathsOfAt(job.outputDir, job.words, j);
    }
  }

  /**
   * Word `j` of the batch starting at `i` is handled against the files
   * present when the batch began.
   */
  lemma EffectsStep(r: Run, tasks: seq<WordTask>, i: nat, j: nat, next: nat)
    requires r.batchSize == ConcurrentRequests && TasksOf(r, tasks)
    requires i % ConcurrentRequests == 0 && i <= j < i + ConcurrentRequests && next == j + 1 <= |tasks|
    ensures var task, snapshot := tasks[j], Files(r, i);
      Answer(OutcomeAt(r, j)) == ProcessWord(task.outputPath in snapshot, r.located(task.index), r.delivered(task.index)) &&
      EffectsAt(r, next) == Handle(task, snapshot, r.located(task.index), r.delivered(task.index), EffectsAt(r, j))
  {
    SameBlock(ConcurrentRequests, i, j);
    assert BatchStart(r, j) == i;
    OutcomeAtSpec(r, j);
    OutcomesStep(r, j);
    var before, o := Outcomes(r, j), OutcomeAt(r, j);
    TallyStep(before, o);
    var a := Attempted(before);
    if o == Skipped {
      assert Attempted(Outcomes(r, next)) == a;
    } else {
      assert Attempted(Outcomes(r, next)) == a + [j];
      FilterSnoc(a, j, r.located);
    }
  }

  /** One pass of the tally loop: `skipped` first, then `success`, else `failed`. */
  function Bump(c: Counters, res: WordResult): (d: Counters)
    ensures d.generated + d.skipped + d.failed == c.generated + c.skipped + c.failed + 1
  {
    if res.skipped then c.(skipped := c.skipped + 1)
    else if res.success then c.(generated := c.generated + 1)
    else c.(failed := c.failed + 1)
  }


  /** The tally loop over `results`, from counters `c`. */
  function TallyOf(c: Counters, results: seq<WordResult>): (d: Counters)
    ensures d.generated + d.skipped + d.failed == c.generated + c.skipped + c.failed + |results|
  {
    if results == [] then c else Bump(TallyOf(c, results[..|results| - 1]), results[|results| - 1])
  }

  /**
   * `processWord` for one task against the files `snapshot` its existence
   * check saw: nothing when its file was there; else a lookup, and when
   * that finds audio a download, whose success writes the file.
   */
  function Handle(task: WordTask, snapshot: set<string>, found: bool, downloaded: bool, e: Effects): Effects
  {
    if task.outputPath in snapshot then e
    else if !found then e.(lookups := e.lookups + [task.index])
    else e.(lookups := e.lookups + [task.index], downloads := e.downloads + [task.index],
            files := if downloaded then e.files + {task.outputPath} else e.files)
  }

  /** A batch's answers and effects, every task checked against `snapshot`. */
  function ProcessAll(batch: seq<WordTask>, snapshot: set<string>, found: nat -> bool, downloaded: nat -> bool,
                      e: Effects): (out: (seq<WordResult>, Effects))
    ensures |out.0| == |batch|
  {
    if batch == [] then ([], e)
    else
      var prev := ProcessAll(batch[..|batch| - 1], snapshot, found, downloaded, e);
      var task := batch[|batch| - 1];
      (prev.0 + [ProcessWord(task.outputPath in snapshot, found(task.index), downloaded(task.index))],
       Handle(task, snapshot, found(task.index), downloaded(task.index), prev.1))
  }

  lemma ProcessSnoc(batch: seq<WordTask>, task: WordTask, snapshot: set<string>, found: nat -> bool,
                    downloaded: nat -> bool, e: Effects)
    ensures var prev := ProcessAll(batch, snapshot, found, downloaded, e);
      ProcessAll(batch + [task], snapshot, found, downloaded, e) ==
        (prev.0 + [ProcessWord(task.outputPath in snapshot, found(task.index), downloaded(task.index))],
         Handle(task, snapshot, found(task.index), downloaded(task.index), prev.1))
  {
    assert (batch + [task])[..|batch|] == batch;
  }

  /** The answers that go with a list of outcomes, in order. */
  function Answers(os: seq<Outcome>): (rs: seq<WordResult>)
    ensures |rs| == |os|
  {
    seq(|os|, t requires 0 <= t < |os| => Answer(os[t]))
  }

  lemma AnswersSnoc(os: seq<Outcome>, o: Outcome)
    ensures Answers(os + [o]) == Answers(os) + [Answer(o)]
  {
    var xs, ys := Answers(os + [o]), Answers(os) + [Answer(o)];
    forall t | 0 <= t < |xs| ensures xs[t] == ys[t] {
      if t < |os| {
        assert (os + [o])[t] == os[t];
      }
    }
  }

  /** Tallying the answers of `more` after those of `os` counts the outcomes of both. */
  lemma {:induction false} TallyAnswers(os: seq<Outcome>, more: seq<Outcome>)
    ensures TallyOf(CountsOf(os), Answers(more)) == CountsOf(os + more)
  {
    if more != [] {
      var init, last := more[..|more| - 1], more[|more| - 1];
      TallyAnswers(os, init);
      var rs := Answers(more);
      assert rs[..|rs| - 1] == Answers(init);
      assert rs[|rs| - 1] == Answer(last);
      assert os + more == (os + init) + [last];
      TallyStep(os + init, last);
    } else {
      assert os + more == os;
    }
  }

  /** One more word appends its own answer to those of words `i` on. */
  lemma AnswersStep(r: Run, i: nat, p: nat, m: nat)
    requires r.batchSize > 0 && i <= p && m == p + 1 && m <= |r.paths|
    ensures Answers(Outcomes(r, m)[i..]) == Answers(Outcomes(r, p)[i..]) + [Answer(OutcomeAt(r, p))]
  {
    var later, before := Outcomes(r, m), Outcomes(r, p);
    OutcomesPrefix(r, m, p);
    OutcomesAt(r, m, p);
    assert later[i..] == before[i..] + [later[p]];
    AnswersSnoc(before[i..], later[p]);
  }

  /** Tallying the result of word `j` bumps exactly the counter it names. */
  lemma CountersStep(job: Job, j: nat)
    requires j < |job.words|
    ensures CountersAt(RunOf(job), j + 1) == Bump(CountersAt(RunOf(job), j), ResultOf(job, j))
  {
    var r := RunOf(job);
    OutcomesStep(r, j);
    TallyStep(Outcomes(r, j), OutcomeAt(r, j));
  }

  /** Tallying the answers of words `i` to `m - 1` of a run moves its counts from word `i` to word `m`. */
  lemma OutcomeTally(r: Run, i: nat, m: nat)
    requires r.batchSize > 0 && i <= m <= |r.paths|
    ensures TallyOf(CountsOf(Outcomes(r, i)), Answers(Outcomes(r, m)[i..])) == CountsOf(Outcomes(r, m))
  {
    var all := Outcomes(r, m);
    OutcomesPrefix(r, m, i);
    assert all == all[..i] + all[i..];
    TallyAnswers(all[..i], all[i..]);
  }

  /**
   * Handling tasks `i` to `m - 1` of the batch starting at `i` against the
   * files present when it began answers as the outcomes of those words say
   * and moves the effects from word `i` to word `m`.
   */
  lemma {:induction false} BatchLink(r: Run, tasks: seq<WordTask>, i: nat, m: nat)
    requires r.batchSize == ConcurrentRequests && TasksOf(r, tasks)
    requires i % ConcurrentRequests == 0 && i <= m <= i + ConcurrentRequests && m <= |tasks|
    ensures ProcessAll(tasks[i..m], Files(r, i), r.located, r.delivered, EffectsAt(r, i)) ==
      (Answers(Outcomes(r, m)[i..]), EffectsAt(r, m))
    decreases m - i
  {
    if m == i {
      assert tasks[i..m] == [];
    } else {
      var p: nat :| p + 1 == m;
      assert tasks[i..m] == tasks[i..p] + [tasks[p]];
      BatchLink(r, tasks, i, p);
      ProcessSnoc(tasks[i..p], tasks[p], Files(r, i), r.located, r.delivered, EffectsAt(r, i));
      EffectsStep(r, tasks, i, p, m);
      AnswersStep(r, i, p, m);
    }
  }

  /**
   * One round of `main`'s loop, as the pure functions compute it: handling
   * the batch from task `i` up to `next` and tallying its answers moves the
   * counters and effects from word `i` to word `next`.
   */
  lemma RoundLink(job: Job, i: nat, next: nat)
    requires i % ConcurrentRequests == 0 && i < |job.words| && next == Min(i + ConcurrentRequests, |job.words|)
    ensures var batch := Tasks(job.words, job.outputDir)[i..next];
      var out := ProcessAll(batch, EffectsAt(RunOf(job), i).files, job.found, job.downloaded, EffectsAt(RunOf(job), i));
      out.1 == EffectsAt(RunOf(job), next) && TallyOf(CountersAt(RunOf(job), i), out.0) == CountersAt(RunOf(job), next)
  {
    var r := RunOf(job);
    TasksOfJob(job);
    BatchLink(r, Tasks(job.words, job.outputDir), i, next);
    OutcomeTally(r, i, next);
  }

  /**
   * `Promise.all(batch.map(processWord))`: every existence check of the
   * batch sees the files present when it began. The tasks are handled in
   * list order.
   */
  method ProcessBatch(job: Job, batch: seq<WordTask>, effects: Effects)
    returns (results: seq<WordResult>, after: Effects)
    ensures (results, after) == ProcessAll(batch, effects.files, job.found, job.downloaded, effects)
  {
    var snapshot := effects.files;
    var lookups, downloads, files := effects.lookups, effects.downloads, effects.files;
    results := [];
    for k := 0 to |batch|
      invariant (results, Effects(lookups, downloads, files)) ==
        ProcessAll(batch[..k], snapshot, job.found, job.downloaded, effects)
    {
      var task := batch[k];
      assert batch[..k + 1][..k] == batch[..k];
      var res;
      if task.outputPath in snapshot {
        res := WordResult(true, true);
      } else {
        lookups := lookups + [task.index];
        if !job.found(task.index) {
          res := WordResult(false, false);
        } else {
          downloads := downloads + [task.index];
          if job.downloaded(task.index) {
            files := files + {task.outputPath};
          }
          res := WordResult(job.downloaded(task.index), false);
        }
      }
      results := results + [res];
    }
    assert batch[..|batch|] == batch;
    after := Effects(lookups, downloads, files);
  }

  /** The loop over a batch's results. */
  method TallyResults(results: seq<WordResult>, counters: Counters) returns (after: Counters)
    ensures after == TallyOf(counters, results)
  {
    var generated, skipped, failed := counters.generated, counters.skipped, counters.failed;
    for k := 0 to |results|
      invariant Counters(generated, skipped, failed) == TallyOf(counters, results[..k])
    {
      assert results[..k + 1][..k] == results[..k];
      if results[k].skipped {
        skipped := skipped + 1;
      } else if results[k].success {
        generated := generated + 1;
      } else {
        failed := failed + 1;
      }
    }
    assert results[..|results|] == results;
    after := Counters(generated, skipped, failed);
  }

  /**
   * The counters, effects and pauses after the first `b` turns of `main`'s
   * loop: each turn hands the batch from task `ConcurrentRequests * (b - 1)`
   * to `processWord` against the files present when it began, tallies its
   * answers, and pauses when another batch follows.
   */
  function Rounds(job: Job, tasks: seq<WordTask>, b: nat): (s: Summary)
    ensures |s.delays| <= b
  {
    var n := |tasks|;
    if b == 0 then Summary(Counters(0, 0, 0), Effects([], [], job.existing), [])
    else
      var prev, i := Rounds(job, tasks, b - 1), ConcurrentRequests * (b - 1);
      if n <= i then prev
      else
        var batch := tasks[i..Min(i + ConcurrentRequests, n)];
        var out := ProcessAll(batch, prev.effects.files, job.found, job.downloaded, prev.effects);
        Summary(TallyOf(prev.counters, out.0), out.1,
                if i + ConcurrentRequests < n then prev.delays + [i] else prev.delays)
  }

  /**
   * While batches remain, the first `b` turns leave the counters and
   * effects of the words they covered and one pause per turn that another
   * batch followed; so once the loop ends they are what `Expected` reads
   * off the run.
   */
  lemma {:induction false} RoundsSpec(job: Job, b: nat)
    requires b == 0 || ConcurrentRequests * (b - 1) < |job.words|
    ensures var n, r := |job.words|, RunOf(job);
      var done := Min(ConcurrentRequests * b, n);
      Rounds(job, Tasks(job.words, job.outputDir), b) == Summary(CountersAt(r, done), EffectsAt(r, done), Pauses(n, b))
  {
    if b > 0 {
      var n, r := |job.words|, RunOf(job);
      var p: nat :| p + 1 == b;
      var i := ConcurrentRequests * p;
      var next := Min(i + ConcurrentRequests, n);
      assert Min(ConcurrentRequests * p, n) == i;
      assert Min(ConcurrentRequests * b, n) == next;
      RoundsSpec(job, p);
      StartAligned(p);
      RoundLink(job, i, next);
      PausesStep(n, p, i);
      RoundsStep(job, Tasks(job.words, job.outputDir), p, b, i, next);
    } else {
      var r := RunOf(job);
      assert Outcomes(r, 0) == [];
      assert Files(r, 0) == job.existing;
    }
  }

  /** Every batch starts at a multiple of the batch size. */
  lemma {:induction false} StartAligned(b: nat)
    ensures (ConcurrentRequests * b) % ConcurrentRequests == 0
  {
    if b > 0 {
      StartAligned(b - 1);
      assert ConcurrentRequests * b == ConcurrentRequests * (b - 1) + ConcurrentRequests;
    }
  }

  /** Turn `b` of the loop, for a batch starting at `i` before the end of the tasks. */
  lemma RoundsStep(job: Job, tasks: seq<WordTask>, p: nat, b: nat, i: nat, next: nat)
    requires b == p + 1 && i == ConcurrentRequests * p && i < |tasks| && next == Min(i + ConcurrentRequests, |tasks|)
    ensures var prev := Rounds(job, tasks, p);
      var out := ProcessAll(tasks[i..next], prev.effects.files, job.found, job.downloaded, prev.effects);
      Rounds(job, tasks, b) == Summary(TallyOf(prev.counters, out.0), out.1,
                                       if i + ConcurrentRequests < |tasks| then prev.delays + [i] else prev.delays)
  {
  }

  /** One turn of the loop of `main`: the batch of tasks from `i`, its tally, and the pause when more follow. */
  method RunBatch(job: Job, tasks: seq<WordTask>, ghost b: nat, i: nat, s: Summary) returns (s': Summary)
    requires i == ConcurrentRequests * b && i < |tasks| && s == Rounds(job, tasks, b)
    ensures s' == Rounds(job, tasks, b + 1)
  {
    var n := |tasks|;
    var batch := tasks[i..Min(i + ConcurrentRequests, n)];
    var results, effects := ProcessBatch(job, batch, s.effects);
    var counters := TallyResults(results, s.counters);
    var delays := s.delays;
    if i + ConcurrentRequests < n {
      delays := delays + [i];
    }
    s' := Summary(counters, effects, delays);
  }

  /** The loop stops after `BatchCount(n)` turns: the first turn whose start reaches `n`. */
  lemma LastBatch(n: nat, b: nat)
    requires n <= ConcurrentRequests * b && (b == 0 || ConcurrentRequests * (b - 1) < n)
    ensures b == BatchCount(n)
  {
  }

  /** The batch loop of `main`: one turn per batch, as `Rounds` computes them. */
  method RunAll(job: Job, tasks: seq<WordTask>) returns (s: Summary)
    ensures s == Rounds(job, tasks, BatchCount(|tasks|))
  {
    s := Summary(Counters(0, 0, 0), Effects([], [], job.existing), []);
    var i: nat := 0;
    ghost var b: nat := 0;
    while i < |tasks|
      invariant i == ConcurrentRequests * b && (b == 0 || i - ConcurrentRequests < |tasks|)
      invariant s == Rounds(job, tasks, b)
    {
      s := RunBatch(job, tasks, b, i, s);
      i := i + ConcurrentRequests;
      b := b + 1;
    }
    LastBatch(|tasks|, b);
  }

  /** `main`, with the directory created when missing. */
  method RunScript(job: Job, dirExists: bool) returns (s: Summary, createsDir: bool)
    ensures createsDir <==> !dirExists
    ensures s == Expected(job)
  {
    createsDir := !dirExists;
    var tasks := Tasks(job.words, job.outputDir);
    s := RunAll(job, tasks);
    RoundsSpec(job, BatchCount(|job.words|));
  }

  /**
   * Each word lands in exactly one counter; a lookup happens for every
   * generated or failed word, and a download for a subset of those.
   */
  lemma ExpectedTotals(job: Job)
    ensures var c, e := Expected(job).counters, Expected(job).effects;
      c.generated + c.skipped + c.failed == |job.words| &&
      |e.lookups| == c.generated + c.failed && |e.downloads| <= |e.lookups|
  {
    var os := Outcomes(RunOf(job), |job.words|);
    TallySum(os);
    AttemptedSpec(os);
  }

  /** A word whose file exists at the start is answered as a skipped success with no lookup and no download. */
  lemma ExistingNoNetwork(job: Job, j: nat)
    requires j < |job.words| && OutputPath(job.outputDir, job.words[j].english) in job.existing
    ensures ResultOf(job, j) == WordResult(true, true)
    ensures j !in Expected(job).effects.lookups && j !in Expected(job).effects.downloads
  {
    var r, n := RunOf(job), |job.words|;
    var os := Outcomes(r, n);
    FilesGrow(r, 0, BatchStart(r, j));
    ExistingSkipped(r, j);
    OutcomesAt(r, n, j);
    AttemptedSpec(os);
    FilterMembers(Attempted(os), job.found);
  }

  /**
   * The script pauses after every batch but the last: the pauses are the
   * starts of all batches except the final one.
   */
  lemma DelaysSpec(job: Job)
    ensures var n := |job.words|;
      Expected(job).delays == if n == 0 then [] else Starts(BatchCount(n) - 1)
  {
    var n := |job.words|;
    if n > 0 {
      var c := BatchCount(n);
      assert ConcurrentRequests * c >= n && ConcurrentRequests * (c - 1) < n;
      PausesBelow(n, c - 1);
    }
  }

  /**
   * Two words of one batch with the same file, missing at the batch's
   * start, are both looked up: the concurrent checks cannot see each
   * other's writes.
   */
  lemma SameBatchBothFetched(job: Job, i: nat, j: nat)
    requires i < j < |job.words| && j - j % ConcurrentRequests <= i
    requires var r := RunOf(job);
      PathAt(r, i) == PathAt(r, j) && PathAt(r, j) !in Files(r, BatchStart(r, j))
    ensures i in Expected(job).effects.lookups && j in Expected(job).effects.lookups
  {
    var r, n := RunOf(job), |job.words|;
    var os := Outcomes(r, n);
    SameBlock(ConcurrentRequests, i, j);
    assert BatchStart(r, i) == BatchStart(r, j);
    OutcomeAtSpec(r, i);
    OutcomeAtSpec(r, j);
    OutcomesAt(r, n, i);
    OutcomesAt(r, n, j);
    AttemptedSpec(os);
  }
}
