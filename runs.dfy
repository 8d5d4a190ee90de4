/**
 * `ProcessFiles` as a function of the walk: each path's verdict updates the
 * result list and the three counters, until `os.stat` raises, which ends the
 * run. The lemmas state what the run keeps: conservation of the counts, the
 * sum of the sizes, no partial record, append-only results in walk order.
 */
module Runs {
  import opened Common
  import opened Hashing
  import opened Files
  import opened Streaming
  import opened Verdicts

  /** `resultList`, `processCount`, `processSize` and `errorCount`. */
  datatype Summary = Summary(resultList: seq<Record>, processCount: nat, processSize: nat, errorCount: nat)

  /** The state after a run, and whether it ended with an uncaught exception. */
  datatype RunResult = RunResult(summary: Summary, raised: bool)

  /**
   * The verdict of `HashFile` on each path, for a fixed filesystem and
   * configuration (see `Judge`).
   */
  type Judge = Path -> Verdict

  /** The verdicts of the given filesystem under the given configuration. */
  function JudgeOf(fs: FileSystem, hashType: string, hex: HexFn, size: ChunkSize): Judge
  {
    p => HashFileSpec(p, Lookup(fs, p), hashType, hex, size)
  }

  /** The sum of the size field (SIZ_NDX) over the rows. */
  function SumSizes(rs: seq<Record>): nat
  {
    if rs == [] then 0 else SumSizes(rs[..|rs| - 1]) + rs[|rs| - 1].fileSize
  }

  /** One row per processed file, and `processSize` the sum of their sizes. */
  predicate Consistent(s: Summary)
  {
    |s.resultList| == s.processCount && s.processSize == SumSizes(s.resultList)
  }

  /** One iteration of the inner loop: `HashFile`, then the counter it selects. */
  function Step(s: Summary, v: Verdict): (r: RunResult)
    ensures r.raised <==> v.StatRaised?
    ensures r.summary.processCount + r.summary.errorCount
            == s.processCount + s.errorCount + (if v.StatRaised? then 0 else 1)
    ensures s.resultList <= r.summary.resultList
  {
    match v
    case Hashed(r) =>
      RunResult(Summary(s.resultList + [r], s.processCount + 1, s.processSize + r.fileSize, s.errorCount), false)
    case Refused(_) => RunResult(s.(errorCount := s.errorCount + 1), false)
    case StatRaised => RunResult(s, true)
  }

  function Run(s0: Summary, paths: seq<Path>, judge: Judge): RunResult
  {
    if paths == [] then RunResult(s0, false)
    else
      var prev := Run(s0, paths[..|paths| - 1], judge);
      if prev.raised then prev else Step(prev.summary, judge(paths[|paths| - 1]))
  }

  /** The rows of the paths that hash, in the order of the paths. */
  function Records(paths: seq<Path>, judge: Judge): (rs: seq<Record>)
    ensures |rs| <= |paths|
  {
    if paths == [] then []
    else
      var v := judge(paths[|paths| - 1]);
      Records(paths[..|paths| - 1], judge) + (if v.Hashed? then [v.record] else [])
  }

  /** The index of the first path whose `os.stat` raises, or the number of paths. */
  function FirstRaise(paths: seq<Path>, judge: Judge): (k: nat)
    ensures k <= |paths|
    ensures forall i :: 0 <= i < k ==> !judge(paths[i]).StatRaised?
    ensures k < |paths| ==> judge(paths[k]).StatRaised?
  {
    if paths == [] then 0
    else if judge(paths[0]).StatRaised? then 0
    else 1 + FirstRaise(paths[1..], judge)
  }

  /**
   * Over paths where `os.stat` never raises, the run completes; it appends
   * exactly the rows of the paths that hash, in order; it adds one to
   * `processCount` per row and one to `errorCount` per other path, and adds
   * the rows' sizes to `processSize`.
   */
  lemma {:induction false} RunWithoutRaise(s0: Summary, paths: seq<Path>, judge: Judge)
    requires forall i :: 0 <= i < |paths| ==> !judge(paths[i]).StatRaised?
    ensures var rs := Records(paths, judge);
            Run(s0, paths, judge)
            == RunResult(Summary(s0.resultList + rs,
                                 s0.processCount + |rs|,
                                 s0.processSize + SumSizes(rs),
                                 s0.errorCount + (|paths| - |rs|)), false)
  {
    if paths != [] {
      var init := paths[..|paths| - 1];
      RunWithoutRaise(s0, init, judge);
      var rs := Records(init, judge);
      var v := judge(paths[|paths| - 1]);
      if v.Hashed? {
        assert (rs + [v.record])[..|rs|] == rs;
        assert (s0.resultList + rs) + [v.record] == s0.resultList + (rs + [v.record]);
      } else {
        assert rs + [] == rs;
      }
    }
  }

  /**
   * A run over two parts is the run over the first, then, unless it raised,
   * the run over the second from where the first stopped.
   */
  lemma {:induction false} RunAppend(s0: Summary, a: seq<Path>, b: seq<Path>, judge: Judge)
    ensures var first := Run(s0, a, judge);
            Run(s0, a + b, judge) == if first.raised then first else Run(first.summary, b, judge)
    decreases |b|
  {
    if b == [] {
      assert a + b == a;
    } else {
      var binit := b[..|b| - 1];
      assert (a + b)[..|a + b| - 1] == a + binit;
      assert (a + b)[|a + b| - 1] == b[|b| - 1];
      RunAppend(s0, a, binit, judge);
    }
  }

  /** Once the run has raised, later paths change nothing. */
  lemma {:induction false} RunStaysRaised(s0: Summary, a: seq<Path>, b: seq<Path>, judge: Judge)
    requires a <= b && Run(s0, a, judge).raised
    ensures Run(s0, b, judge) == Run(s0, a, judge)
    decreases |b|
  {
    if |b| > |a| {
      var init := b[..|b| - 1];
      assert a <= init;
      RunStaysRaised(s0, a, init, judge);
    } else {
      assert a == b;
    }
  }

  /**
   * The run raises exactly when some path's `os.stat` raises, and then stops
   * at the first such path in the state the earlier paths left.
   */
  lemma {:induction false} RunStopsAtFirstRaise(s0: Summary, paths: seq<Path>, judge: Judge)
    ensures var k := FirstRaise(paths, judge);
            Run(s0, paths, judge) == RunResult(Run(s0, paths[..k], judge).summary, k < |paths|)
    ensures !Run(s0, paths[..FirstRaise(paths, judge)], judge).raised
  {
    if paths == [] {
      assert paths[..0] == paths;
    } else {
      var n := |paths|;
      var init := paths[..n - 1];
      var k := FirstRaise(paths, judge);
      var ki := FirstRaise(init, judge);
      RunStopsAtFirstRaise(s0, init, judge);
      forall i | 0 <= i < ki
        ensures !judge(paths[i]).StatRaised?
      {
        assert paths[i] == init[i];
      }
      if ki < n - 1 {
        assert paths[ki] == init[ki];
        assert k == ki;
        assert init[..ki] == paths[..k];
      } else {
        assert init[..ki] == init;
        if judge(paths[n - 1]).StatRaised? {
          assert k == n - 1;
        } else {
          assert k == n;
          assert paths[..k] == paths;
        }
      }
    }
  }

  /**
   * Conservation: each path handled before the first `os.stat` exception
   * adds one to exactly one of the two counters, so their sum grows by the
   * number of paths on a complete run.
   */
  lemma Conservation(s0: Summary, paths: seq<Path>, judge: Judge)
    ensures var r := Run(s0, paths, judge);
            && r.summary.processCount + r.summary.errorCount
               == s0.processCount + s0.errorCount + FirstRaise(paths, judge)
            && (!r.raised <==> FirstRaise(paths, judge) == |paths|)
  {
    var k := FirstRaise(paths, judge);
    RunStopsAtFirstRaise(s0, paths, judge);
    RunWithoutRaise(s0, paths[..k], judge);
  }

  /**
   * The results are append-only: the rows already present stay, and the
   * rows added are those of the handled paths that hash, in walk order.
   */
  lemma AppendOnly(s0: Summary, paths: seq<Path>, judge: Judge)
    ensures var rl := Run(s0, paths, judge).summary.resultList;
            rl == s0.resultList + Records(paths[..FirstRaise(paths, judge)], judge)
  {
    var k := FirstRaise(paths, judge);
    RunStopsAtFirstRaise(s0, paths, judge);
    RunWithoutRaise(s0, paths[..k], judge);
  }

  /** `len(resultList) == processCount` and the sum invariant survive every run. */
  lemma {:induction false} RunKeepsConsistent(s0: Summary, paths: seq<Path>, judge: Judge)
    requires Consistent(s0)
    ensures Consistent(Run(s0, paths, judge).summary)
  {
    if paths != [] {
      var init := paths[..|paths| - 1];
      RunKeepsConsistent(s0, init, judge);
      var prev := Run(s0, init, judge);
      var v := judge(paths[|paths| - 1]);
      if !prev.raised && v.Hashed? {
        var rl := prev.summary.resultList;
        assert (rl + [v.record])[..|rl|] == rl;
      }
    }
  }

  /** The rows of a longer run extend those of a shorter one: walk order is kept. */
  lemma {:induction false} RecordsAppend(a: seq<Path>, b: seq<Path>, judge: Judge)
    ensures Records(a + b, judge) == Records(a, judge) + Records(b, judge)
    decreases |b|
  {
    if b == [] {
      assert a + b == a;
    } else {
      var binit := b[..|b| - 1];
      assert (a + b)[..|a + b| - 1] == a + binit;
      RecordsAppend(a, binit, judge);
    }
  }

  /**
   * No partial records: every row comes from a path of the run whose verdict
   * is exactly that row, and every such path's row is present.
   */
  lemma {:induction false} RecordsComplete(paths: seq<Path>, judge: Judge)
    ensures forall r :: r in Records(paths, judge) ==>
              exists i :: 0 <= i < |paths| && judge(paths[i]) == Hashed(r)
    ensures forall i :: 0 <= i < |paths| && judge(paths[i]).Hashed? ==>
              judge(paths[i]).record in Records(paths, judge)
  {
    if paths != [] {
      var n := |paths|;
      var init := paths[..n - 1];
      RecordsComplete(init, judge);
      forall r | r in Records(paths, judge)
        ensures exists i :: 0 <= i < n && judge(paths[i]) == Hashed(r)
      {
        if r in Records(init, judge) {
          var i :| 0 <= i < |init| && judge(init[i]) == Hashed(r);
          assert paths[i] == init[i];
        } else {
          assert judge(paths[n - 1]) == Hashed(r);
        }
      }
      forall i | 0 <= i < n && judge(paths[i]).Hashed?
        ensures judge(paths[i]).record in Records(paths, judge)
      {
        if i < n - 1 {
          assert paths[i] == init[i];
        }
      }
    }
  }
}
