/**
 * What the two audio scripts `scripts/generate-audio.ts` and
 * `scripts/generate-audio-spanishdict.ts` have in common: one output file
 * per word, named by its English text, skipped when it already exists,
 * otherwise fetched and written when the fetch works. The scripts differ in
 * how many words share one existence snapshot: one in the sequential script,
 * a batch of five in the concurrent one.
 */
module AudioJobs {
  import opened Vocabulary
  import opened Filename
  import opened Seqs

  /** `path.join(OUTPUT_DIR, `${sanitizeFilename(word.english)}.mp3`)`. */
  function OutputPath(outputDir: string, english: string): string
  {
    outputDir + "/" + FileName(english)
  }

  /**
   * The file sits directly inside the output directory, and two words share
   * a file exactly when their English texts sanitize alike.
   */
  lemma OutputPathSpec(outputDir: string, a: string, b: string)
    ensures var p := OutputPath(outputDir, a);
      p[..|outputDir| + 1] == outputDir + "/" && '/' !in p[|outputDir| + 1..]
    ensures OutputPath(outputDir, a) == OutputPath(outputDir, b) <==> Sanitize(a) == Sanitize(b)
  {
    var pa, pb := OutputPath(outputDir, a), OutputPath(outputDir, b);
    assert pa[|outputDir| + 1..] == FileName(a);
    if pa == pb {
      assert pb[|outputDir| + 1..] == FileName(b);
      assert FileName(a)[..|FileName(a)| - 4] == Sanitize(a);
      assert FileName(b)[..|FileName(b)| - 4] == Sanitize(b);
    }
  }

  datatype Outcome = Skipped | Generated | Failed

  /**
   * One run of a script: the output path of each word in list order, the
   * files present when it starts, how many words share one existence
   * snapshot, and the two stages of fetching word `i`'s audio: whether the
   * source has it, and whether it arrives.
   */
  datatype Run = Run(paths: seq<string>, existing: set<string>, batchSize: nat,
                     located: nat -> bool, delivered: nat -> bool)

  /** The fetch of word `j` works when both stages do. */
  predicate Works(r: Run, j: nat)
  {
    r.located(j) && r.delivered(j)
  }

  /** The output path of every word of the list, in order: the `outputPath` of each task. */
  function PathsOf(outputDir: string, words: seq<VocabularyItem>): (ps: seq<string>)
    ensures |ps| == |words|
  {
    seq(|words|, j requires 0 <= j < |words| => OutputPath(outputDir, words[j].english))
  }

  lemma PathsOfAt(outputDir: string, words: seq<VocabularyItem>, j: nat)
    requires j < |words|
    ensures PathsOf(outputDir, words)[j] == OutputPath(outputDir, words[j].english)
  {
  }

  function PathAt(r: Run, j: nat): string
    requires j < |r.paths|
  {
    r.paths[j]
  }

  /** The first word of `j`'s batch: its existence check runs before any write of that batch. */
  function BatchStart(r: Run, j: nat): (s: nat)
    requires r.batchSize > 0
    ensures s <= j
  {
    j - j % r.batchSize
  }

  /**
   * Where a run stands once its first `m` words are done: the files on
   * disk, the files the current batch's existence checks saw, and the
   * outcome of each word so far.
   */
  datatype Progress = Progress(files: set<string>, snapshot: set<string>, outcomes: seq<Outcome>)

  /** A word is skipped when its check saw its file, otherwise generated exactly when the fetch works. */
  function Decide(snapshot: set<string>, path: string, works: bool): (o: Outcome)
    ensures o == Skipped <==> path in snapshot
    ensures o == Generated <==> path !in snapshot && works
  {
    if path in snapshot then Skipped else if works then Generated else Failed
  }

  /**
   * The run word by word: the first word of each batch takes a fresh
   * snapshot of the files, the others of that batch reuse it.
   */
  function After(r: Run, m: nat): (p: Progress)
    requires r.batchSize > 0 && m <= |r.paths|
    ensures |p.outcomes| == m
  {
    if m == 0 then Progress(r.existing, r.existing, [])
    else
      var prev := After(r, m - 1);
      var j := m - 1;
      var snapshot := if j % r.batchSize == 0 then prev.files else prev.snapshot;
      var o := Decide(snapshot, PathAt(r, j), Works(r, j));
      Progress(prev.files + (if o == Generated then {PathAt(r, j)} else {}), snapshot, prev.outcomes + [o])
  }

  /** The files present once the first `m` words are done. */
  function Files(r: Run, m: nat): set<string>
    requires r.batchSize > 0 && m <= |r.paths|
  {
    After(r, m).files
  }

  /** The outcomes of the first `m` words, in order. */
  function Outcomes(r: Run, m: nat): (os: seq<Outcome>)
    requires r.batchSize > 0 && m <= |r.paths|
    ensures |os| == m
  {
    After(r, m).outcomes
  }

  /** What happens to word `j`. */
  function OutcomeAt(r: Run, j: nat): Outcome
    requires r.batchSize > 0 && j < |r.paths|
  {
    Outcomes(r, j + 1)[j]
  }

  /** Later words never change the outcome of an earlier one. */
  lemma {:induction false} OutcomesAt(r: Run, m: nat, i: nat)
    requires r.batchSize > 0 && i < m <= |r.paths|
    ensures Outcomes(r, m)[i] == OutcomeAt(r, i)
  {
    if i < m - 1 {
      OutcomesAt(r, m - 1, i);
      assert Outcomes(r, m)[i] == Outcomes(r, m - 1)[i];
    }
  }

  /** The outcomes of the first `i` words do not change as later words are handled. */
  lemma OutcomesPrefix(r: Run, m: nat, i: nat)
    requires r.batchSize > 0 && i <= m <= |r.paths|
    ensures Outcomes(r, m)[..i] == Outcomes(r, i)
  {
    forall j | 0 <= j < i
      ensures Outcomes(r, m)[j] == Outcomes(r, i)[j]
    {
      OutcomesAt(r, m, j);
      OutcomesAt(r, i, j);
    }
  }

  lemma OutcomesStep(r: Run, m: nat)
    requires r.batchSize > 0 && m < |r.paths|
    ensures Outcomes(r, m + 1) == Outcomes(r, m) + [OutcomeAt(r, m)]
  {
  }

  /** The snapshot word `m - 1` checks against is the files present when its batch began. */
  lemma {:induction false} SnapshotIsBatchStart(r: Run, m: nat)
    requires r.batchSize > 0 && 0 < m <= |r.paths|
    ensures After(r, m).snapshot == Files(r, BatchStart(r, m - 1))
  {
    var j := m - 1;
    if j % r.batchSize != 0 {
      ModStep(j, r.batchSize);
      SnapshotIsBatchStart(r, m - 1);
    }
  }

  /**
   * Each word is decided against the files present when its batch began,
   * and only a generated word adds a file.
   */
  lemma OutcomeAtSpec(r: Run, j: nat)
    requires r.batchSize > 0 && j < |r.paths|
    ensures OutcomeAt(r, j) == Decide(Files(r, BatchStart(r, j)), PathAt(r, j), Works(r, j))
    ensures Files(r, j + 1) == Files(r, j) + (if OutcomeAt(r, j) == Generated then {PathAt(r, j)} else {})
  {
    SnapshotIsBatchStart(r, j + 1);
  }

  /** `(j - 1) % b` steps down with `j % b` inside a block of `b`. */
  lemma ModStep(j: nat, b: nat)
    requires b > 0 && j > 0 && j % b != 0
    ensures (j - 1) - (j - 1) % b == j - j % b
  {
    var q, rest := j / b, j % b;
    assert j == q * b + rest;
    ModUnique(j - 1, b, q, rest - 1);
  }

  /** Two positions between a block start and a later position of that block share the block. */
  lemma SameBlock(b: nat, i: nat, j: nat)
    requires b > 0 && j - j % b <= i <= j
    ensures i - i % b == j - j % b
  {
    var q := j / b;
    assert j == q * b + j % b;
    ModUnique(i, b, q, i - q * b);
  }

  lemma ModUnique(x: int, b: int, q: int, rest: int)
    requires b > 0 && x == q * b + rest && 0 <= rest < b
    ensures x % b == rest
  {
    var q' := x / b;
    assert x == q' * b + x % b;
    MulGap(q, q', b);
    MulGap(q', q, b);
  }

  lemma MulGap(p: int, q: int, b: int)
    requires b > 0
    ensures p < q ==> p * b + b <= q * b
  {
    if p < q {
      var d := q - p;
      assert q * b == p * b + d * b;
      MulAtLeast(d, b);
    }
  }

  lemma {:induction false} MulAtLeast(d: nat, b: int)
    requires d >= 1 && b > 0
    ensures d * b >= b
  {
    if d > 1 {
      MulAtLeast(d - 1, b);
      assert d * b == (d - 1) * b + b;
    }
  }

  /** How many outcomes are `o`. */
  function Count(os: seq<Outcome>, o: Outcome): nat
  {
    if os == [] then 0 else Count(os[..|os| - 1], o) + (if os[|os| - 1] == o then 1 else 0)
  }

  /** The positions of the outcomes that are not `Skipped`: the words that were fetched, in order. */
  function Attempted(os: seq<Outcome>): (a: seq<nat>)
    ensures forall i :: 0 <= i < |a| ==> a[i] < |os|
  {
    if os == [] then [] else Attempted(os[..|os| - 1]) + (if os[|os| - 1] != Skipped then [|os| - 1] else [])
  }

  /** One more outcome bumps exactly its own tally and, unless skipped, lists its position. */
  lemma TallyStep(os: seq<Outcome>, o: Outcome)
    ensures forall x :: Count(os + [o], x) == Count(os, x) + (if o == x then 1 else 0)
    ensures Attempted(os + [o]) == Attempted(os) + (if o != Skipped then [|os|] else [])
  {
    assert (os + [o])[..|os|] == os;
  }

  /** Each word counts in exactly one of the three tallies. */
  lemma {:induction false} TallySum(os: seq<Outcome>)
    ensures Count(os, Skipped) + Count(os, Generated) + Count(os, Failed) == |os|
  {
    if os != [] {
      TallySum(os[..|os| - 1]);
    }
  }

  /**
   * The fetched words are exactly the words not skipped, in increasing
   * order, one per generated or failed word.
   */
  lemma {:induction false} AttemptedSpec(os: seq<Outcome>)
    ensures forall i :: i in Attempted(os) <==> 0 <= i < |os| && os[i] != Skipped
    ensures Increasing(Attempted(os))
    ensures |Attempted(os)| == Count(os, Generated) + Count(os, Failed)
  {
    if os != [] {
      var init := os[..|os| - 1];
      AttemptedSpec(init);
      var prev := Attempted(init);
      var a := Attempted(os);
      assert a == prev + (if os[|os| - 1] != Skipped then [|os| - 1] else []);
      forall i ensures i in a <==> 0 <= i < |os| && os[i] != Skipped {
        if 0 <= i < |os| - 1 {
          assert os[i] == init[i];
        }
      }
      forall x, y | 0 <= x < y < |a| ensures a[x] < a[y] {
        if y >= |prev| {
          assert a[x] == prev[x];
        }
      }
    }
  }

  lemma FilesStep(r: Run, m: nat)
    requires r.batchSize > 0 && 0 < m <= |r.paths|
    ensures Files(r, m - 1) <= Files(r, m)
  {
    var prev := After(r, m - 1);
    assert After(r, m).files >= prev.files;
  }

  /** Files are only ever added. */
  lemma {:induction false} FilesGrow(r: Run, a: nat, b: nat)
    requires r.batchSize > 0 && a <= b <= |r.paths|
    ensures Files(r, a) <= Files(r, b)
    decreases b - a
  {
    if a < b {
      FilesGrow(r, a, b - 1);
      FilesStep(r, b);
    }
  }

  /** The files at any point are the ones present at the start plus those of the words generated so far. */
  lemma {:induction false} FilesSpec(r: Run, m: nat, p: string)
    requires r.batchSize > 0 && m <= |r.paths|
    ensures p in Files(r, m) <==>
      p in r.existing || exists j :: 0 <= j < m && Outcomes(r, m)[j] == Generated && PathAt(r, j) == p
  {
    if m > 0 {
      FilesSpec(r, m - 1, p);
      OutcomeAtSpec(r, m - 1);
      OutcomesStep(r, m - 1);
      var os, prev := Outcomes(r, m), Outcomes(r, m - 1);
      if exists j :: 0 <= j < m - 1 && prev[j] == Generated && PathAt(r, j) == p {
        var j :| 0 <= j < m - 1 && prev[j] == Generated && PathAt(r, j) == p;
        assert os[j] == prev[j];
      }
      if exists j :: 0 <= j < m && os[j] == Generated && PathAt(r, j) == p {
        var j :| 0 <= j < m && os[j] == Generated && PathAt(r, j) == p;
        if j < m - 1 {
          assert prev[j] == os[j];
        }
      }
    }
  }

  /** A file present at the start is never fetched again. */
  lemma ExistingSkipped(r: Run, j: nat)
    requires r.batchSize > 0 && j < |r.paths| && PathAt(r, j) in r.existing
    ensures OutcomeAt(r, j) == Skipped
  {
    FilesGrow(r, 0, BatchStart(r, j));
    OutcomeAtSpec(r, j);
  }

  /** A generated file is there at the end of the run. */
  lemma GeneratedStays(r: Run, j: nat)
    requires r.batchSize > 0 && j < |r.paths| && OutcomeAt(r, j) == Generated
    ensures PathAt(r, j) in Files(r, |r.paths|)
  {
    FilesGrow(r, j + 1, |r.paths|);
    OutcomeAtSpec(r, j);
  }

  /**
   * A later word whose file was generated by a word of an earlier batch (two
   * English texts that sanitize alike) is skipped.
   */
  lemma LaterDuplicateSkipped(r: Run, i: nat, j: nat)
    requires r.batchSize > 0 && i < j < |r.paths| && i < BatchStart(r, j)
    requires PathAt(r, i) == PathAt(r, j) && OutcomeAt(r, i) == Generated
    ensures OutcomeAt(r, j) == Skipped
  {
    FilesGrow(r, i + 1, BatchStart(r, j));
    OutcomeAtSpec(r, i);
    OutcomeAtSpec(r, j);
  }
}
