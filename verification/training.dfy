/** Bookkeeping of the task-embedding training script: the status counters, the log and
    save interval gates, the success indicator, the "best checkpoint" selection rule and
    the CSV header and data rows. PPO updates, evaluation runs, clocks and all file I/O are
    outside the model: their results arrive as inputs. */
module Training {
  import opened Results

  /** Python's `a % b` on ints: the remainder has the sign of the divisor. */
  function PyMod(a: int, b: int): (r: int)
    requires b != 0
    ensures b > 0 ==> 0 <= r < b
    ensures b < 0 ==> b < r <= 0
    ensures r == 0 <==> a % b == 0
    ensures exists q :: a == q * b + r
  {
    if b > 0 || a % b == 0 then
      assert a == (a / b) * b + a % b;
      a % b
    else
      assert a == (a / b - 1) * b + (a % b + b);
      a % b + b
  }

  /** Whether update `i` is logged: `i % log_interval == 0`, which raises for a zero interval. */
  function ShouldLog(i: int, logInterval: int): (r: Result<bool>)
    ensures r.Err? <==> logInterval == 0
    ensures r.Err? ==> r.error == ZeroDivision
    ensures r.Ok? ==> (r.value <==> i % logInterval == 0)
  {
    if logInterval == 0 then Err(ZeroDivision) else Ok(PyMod(i, logInterval) == 0)
  }

  /** Whether update `i` saves and evaluates: a non-positive interval disables saving, and the
      short-circuit keeps it from ever dividing by zero. */
  function ShouldSave(i: int, saveInterval: int): (r: bool)
    ensures r <==> saveInterval > 0 && i % saveInterval == 0
  {
    saveInterval > 0 && PyMod(i, saveInterval) == 0
  }

  /** `1 if r > 0 else 0`: an episode succeeds when its return is positive. */
  function SuccessIndicator(ret: real): (n: nat)
    ensures n <= 1
    ensures n == 1 <==> ret > 0.0
  {
    if ret > 0.0 then 1 else 0
  }

  /** Number of successful episodes. */
  function CountSuccesses(rets: seq<real>): (n: nat)
    ensures n <= |rets|
  {
    if |rets| == 0 then 0
    else CountSuccesses(rets[..|rets| - 1]) + SuccessIndicator(rets[|rets| - 1])
  }

  function SumReturns(rets: seq<real>): real {
    if |rets| == 0 then 0.0 else SumReturns(rets[..|rets| - 1]) + rets[|rets| - 1]
  }

  /** Indices of the episodes with a positive return. */
  function PositiveEpisodes(rets: seq<real>): set<int> {
    set k | 0 <= k < |rets| && rets[k] > 0.0
  }

  /** The running count of success indicators is the number of successful episodes. */
  lemma {:induction false} CountSuccessesCounts(rets: seq<real>)
    ensures CountSuccesses(rets) == |PositiveEpisodes(rets)|
  {
    if |rets| == 0 {
      assert PositiveEpisodes(rets) == {};
    } else {
      var last := |rets| - 1;
      var init := rets[..last];
      CountSuccessesCounts(init);
      var before, after := PositiveEpisodes(init), PositiveEpisodes(rets);
      assert before <= after by {
        forall k | k in before ensures k in after {
          assert init[k] == rets[k];
        }
      }
      assert after - before <= {last} by {
        forall k | k in after && k != last ensures k in before {
          assert init[k] == rets[k];
        }
      }
      if rets[last] > 0.0 {
        assert last in after && last !in before;
        assert after == before + {last};
      } else {
        assert last !in after;
        assert after == before;
      }
    }
  }

  lemma {:induction false} CountSuccessesAll(rets: seq<real>)
    ensures CountSuccesses(rets) == |rets| <==> forall k :: 0 <= k < |rets| ==> rets[k] > 0.0
  {
    if |rets| > 0 {
      var init := rets[..|rets| - 1];
      CountSuccessesAll(init);
      assert forall k :: 0 <= k < |init| ==> init[k] == rets[k];
    }
  }

  lemma {:induction false} CountSuccessesNone(rets: seq<real>)
    ensures CountSuccesses(rets) == 0 <==> forall k :: 0 <= k < |rets| ==> rets[k] <= 0.0
  {
    if |rets| > 0 {
      var init := rets[..|rets| - 1];
      CountSuccessesNone(init);
      assert forall k :: 0 <= k < |init| ==> init[k] == rets[k];
    }
  }

  lemma {:induction false} SumOfNonPositive(rets: seq<real>)
    requires forall k :: 0 <= k < |rets| ==> rets[k] <= 0.0
    ensures SumReturns(rets) <= 0.0
  {
    if |rets| > 0 {
      var init := rets[..|rets| - 1];
      assert forall k :: 0 <= k < |init| ==> init[k] == rets[k];
      SumOfNonPositive(init);
    }
  }

  lemma RatioBounds(count: real, n: real)
    requires 0.0 <= count <= n && n > 0.0
    ensures 0.0 <= count / n <= 1.0
    ensures count / n == 1.0 <==> count == n
    ensures count / n == 0.0 <==> count == 0.0
    ensures (count / n) * n == count
  {
  }

  /** A mean times the number of items is the total, and a non-positive total has a
      non-positive mean. */
  lemma MeanScales(total: real, n: real)
    requires n > 0.0
    ensures (total / n) * n == total
    ensures total <= 0.0 ==> total / n <= 0.0
  {
  }

  /** Scores of one evaluation run: its success rate and mean return. */
  datatype Evaluation = Evaluation(successRate: real, meanReturn: real)

  /** `np.mean` of the success indicators and of the returns. Both are NaN for an empty list,
      which `None` stands for. */
  function Summarise(rets: seq<real>): (r: Option<Evaluation>)
    ensures r.Some? <==> |rets| > 0
    ensures r.Some? ==> 0.0 <= r.value.successRate <= 1.0
    ensures r.Some? ==> (r.value.successRate == 1.0 <==> forall k :: 0 <= k < |rets| ==> rets[k] > 0.0)
    ensures r.Some? ==> (r.value.successRate == 0.0 <==> forall k :: 0 <= k < |rets| ==> rets[k] <= 0.0)
    ensures r.Some? && r.value.successRate == 0.0 ==> r.value.meanReturn <= 0.0
    ensures r.Some? ==> r.value.successRate * (|rets| as real) == |PositiveEpisodes(rets)| as real
    ensures r.Some? ==> r.value.meanReturn * (|rets| as real) == SumReturns(rets)
  {
    if |rets| == 0 then None
    else
      var n := |rets| as real;
      var count := CountSuccesses(rets) as real;
      CountSuccessesAll(rets);
      CountSuccessesNone(rets);
      RatioBounds(count, n);
      CountSuccessesCounts(rets);
      MeanScales(SumReturns(rets), n);
      assert count == 0.0 ==> SumReturns(rets) <= 0.0 by {
        if count == 0.0 {
          SumOfNonPositive(rets);
        }
      }
      Some(Evaluation(count / n, SumReturns(rets) / n))
  }

  /** The best scores seen so far (`best_success_rate`, `best_mean_return`). */
  datatype Tracker = Tracker(bestSuccessRate: real, bestMeanReturn: real)

  /** Both best scores start at 0. */
  const InitialTracker: Tracker := Tracker(0.0, 0.0)

  /** New tracker and whether the checkpoint is written as the best model. */
  datatype Selection = Selection(tracker: Tracker, save: bool)

  /** Strict lexicographic order on (success rate, mean return). */
  predicate Beats(a: Evaluation, b: Evaluation) {
    a.successRate > b.successRate || (a.successRate == b.successRate && a.meanReturn > b.meanReturn)
  }

  function Scores(t: Tracker): Evaluation {
    Evaluation(t.bestSuccessRate, t.bestMeanReturn)
  }

  /** The selection rule as the script writes it: a strictly better success rate saves and
      records the rate but leaves the best mean return as it was; a tie on the rate with a
      better mean return saves and records that return. */
  function SelectAsWritten(t: Tracker, e: Evaluation): (r: Selection)
    ensures r.save <==> Beats(e, Scores(t))
    ensures r.tracker.bestSuccessRate >= t.bestSuccessRate
    ensures e.successRate > t.bestSuccessRate ==> r.tracker.bestSuccessRate == e.successRate
    ensures r.tracker.bestMeanReturn != t.bestMeanReturn ==>
      e.successRate == t.bestSuccessRate && r.tracker.bestMeanReturn == e.meanReturn
    ensures e.successRate > t.bestSuccessRate ==> r.tracker.bestMeanReturn == t.bestMeanReturn
    ensures r.save && e.successRate == t.bestSuccessRate ==> r.tracker == Tracker(t.bestSuccessRate, e.meanReturn)
    ensures !r.save ==> r.tracker == t
  {
    if e.successRate > t.bestSuccessRate then
      Selection(Tracker(e.successRate, t.bestMeanReturn), true)
    else if e.successRate == t.bestSuccessRate && e.meanReturn > t.bestMeanReturn then
      Selection(Tracker(t.bestSuccessRate, e.meanReturn), true)
    else
      Selection(t, false)
  }

  /** The rule as intended: the tracker always holds both scores of the checkpoint last saved
      as best, so a save happens exactly when the new scores beat that checkpoint's. */
  function SelectLexicographic(t: Tracker, e: Evaluation): (r: Selection)
    ensures r.save <==> Beats(e, Scores(t))
    ensures r.save ==> Scores(r.tracker) == e
    ensures !r.save ==> r.tracker == t
    ensures !Beats(e, Scores(r.tracker)) && !Beats(Scores(t), Scores(r.tracker))
  {
    if Beats(e, Scores(t)) then Selection(Tracker(e.successRate, e.meanReturn), true)
    else Selection(t, false)
  }

  datatype Rule = AsWritten | Lexicographic

  function Select(rule: Rule, t: Tracker, e: Evaluation): Selection {
    match rule
    case AsWritten => SelectAsWritten(t, e)
    case Lexicographic => SelectLexicographic(t, e)
  }

  /** The tracker after a series of evaluations, and the scores of the last one saved as best. */
  function SelectionRun(rule: Rule, t: Tracker, evals: seq<Evaluation>): (Tracker, Option<Evaluation>) {
    if |evals| == 0 then (t, None)
    else
      var (before, saved) := SelectionRun(rule, t, evals[..|evals| - 1]);
      var e := evals[|evals| - 1];
      var sel := Select(rule, before, e);
      (sel.tracker, if sel.save then Some(e) else saved)
  }

  /** Under the intended rule the best checkpoint on disk is never beaten by any evaluation
      made so far, and the tracker holds exactly its scores. */
  lemma {:induction false} LexicographicKeepsBest(t: Tracker, evals: seq<Evaluation>)
    ensures var (final, saved) := SelectionRun(Lexicographic, t, evals);
      && (forall k :: 0 <= k < |evals| ==> !Beats(evals[k], Scores(final)))
      && !Beats(Scores(t), Scores(final))
      && (saved.Some? ==> Scores(final) == saved.value)
      && (saved.None? ==> final == t)
  {
    if |evals| > 0 {
      var init := evals[..|evals| - 1];
      LexicographicKeepsBest(t, init);
      var (before, saved) := SelectionRun(Lexicographic, t, init);
      var e := evals[|evals| - 1];
      var sel := SelectLexicographic(before, e);
      assert SelectionRun(Lexicographic, t, evals) == (sel.tracker, if sel.save then Some(e) else saved);
      forall k | 0 <= k < |evals|
        ensures !Beats(evals[k], Scores(sel.tracker))
      {
        if k < |init| {
          assert evals[k] == init[k];
        }
      }
    }
  }

  /** As written, a strictly better success rate leaves the best mean return stale, so a
      later evaluation with the same rate and a lower return than the saved checkpoint's
      still overwrites it. */
  lemma AsWrittenOverwritesBetterCheckpoint()
    ensures var first := Evaluation(0.5, 0.9);
            var second := Evaluation(0.5, 0.3);
            var (final, saved) := SelectionRun(AsWritten, InitialTracker, [first, second]);
      && saved == Some(second)
      && Beats(first, second)
      && final == Tracker(0.5, 0.3)
  {
    var first, second := Evaluation(0.5, 0.9), Evaluation(0.5, 0.3);
    var one: seq<Evaluation> := [first];
    assert [first, second][..1] == one && one[..0] == [];
    assert SelectionRun(AsWritten, InitialTracker, []) == (InitialTracker, None);
    assert SelectionRun(AsWritten, InitialTracker, one) == (Tracker(0.5, 0.0), Some(first));
  }

  /** The same defect for any scores: after a strict improvement `a`, any evaluation `b` with
      the same success rate whose return lies between the stale best return and `a`'s
      triggers a save although `a` beats it. */
  lemma AsWrittenStaleReturn(t: Tracker, a: Evaluation, b: Evaluation)
    requires a.successRate > t.bestSuccessRate
    requires b.successRate == a.successRate && t.bestMeanReturn < b.meanReturn < a.meanReturn
    ensures var s1 := SelectAsWritten(t, a);
            var s2 := SelectAsWritten(s1.tracker, b);
      s1.save && s2.save && Beats(a, b)
  {
  }

  /** The counters kept in `status.json`. */
  datatype Status = Status(i: int, numEpisodes: int, numFrames: int)

  const InitialStatus: Status := Status(0, 0, 0)

  /** `utils.synthesize` of a list: mean, std, min and max in that order. */
  datatype Summary = Summary(mean: real, std: real, min: real, max: real)

  /** What `algo.update_parameters()` reports for one update. */
  datatype UpdateLogs = UpdateLogs(numFrames: nat, episodesDone: nat, returnPerEpisode: seq<real>,
                                   returnStats: Summary, framesStats: Summary,
                                   entropy: real, value: real, policyLoss: real, valueLoss: real,
                                   loss: real, gradNorm: real)

  /** Counter update after one PPO update. */
  function Advance(s: Status, logs: UpdateLogs): (r: Status)
    ensures r.i == s.i + 1
    ensures r.numFrames - s.numFrames == logs.numFrames && r.numEpisodes - s.numEpisodes == logs.episodesDone
  {
    Status(s.i + 1, s.numEpisodes + logs.episodesDone, s.numFrames + logs.numFrames)
  }

  datatype Cell = IntCell(n: int) | RealCell(x: real)

  const StatNames: seq<string> := ["mean", "std", "min", "max"]

  function Prefixed(prefix: string, names: seq<string>): (r: seq<string>)
    ensures |r| == |names|
    ensures forall k :: 0 <= k < |r| ==> r[k] == prefix + names[k]
  {
    seq(|names|, k requires 0 <= k < |names| => prefix + names[k])
  }

  /** Number of CSV columns. */
  const HeaderWidth: nat := 20

  /** Column names of the CSV log. */
  function Header(): (h: seq<string>)
    ensures |h| == HeaderWidth
    ensures h[0] == "update" && h[1] == "episodes" && h[2] == "frames" && h[3] == "FPS" && h[4] == "duration"
    ensures h[5] == "return_mean" && h[8] == "return_max" && h[9] == "success_rate"
    ensures h[10] == "num_frames_mean" && h[13] == "num_frames_max" && h[14] == "entropy" && h[19] == "grad_norm"
  {
    ["update", "episodes", "frames", "FPS", "duration"]
    + Prefixed("return_", StatNames)
    + ["success_rate"]
    + Prefixed("num_frames_", StatNames)
    + ["entropy", "value", "policy_loss", "value_loss", "loss", "grad_norm"]
  }

  function SummaryCells(s: Summary): seq<Cell> {
    [RealCell(s.mean), RealCell(s.std), RealCell(s.min), RealCell(s.max)]
  }

  /** One CSV data row, as long as the header; cell `k` holds the value that `Header()[k]`
      names (update, episodes, frames, FPS, ..., success rate at 9, ..., grad norm at 19). */
  function DataRow(s: Status, fps: real, elapsedSeconds: int, successRate: real, logs: UpdateLogs): (row: seq<Cell>)
    ensures |row| == HeaderWidth
    ensures row[0] == IntCell(s.i) && row[1] == IntCell(s.numEpisodes) && row[2] == IntCell(s.numFrames)
    ensures row[3] == RealCell(fps) && row[4] == IntCell(elapsedSeconds)
    ensures row[5] == RealCell(logs.returnStats.mean) && row[8] == RealCell(logs.returnStats.max)
    ensures row[9] == RealCell(successRate)
    ensures row[10] == RealCell(logs.framesStats.mean) && row[13] == RealCell(logs.framesStats.max)
    ensures row[14] == RealCell(logs.entropy) && row[19] == RealCell(logs.gradNorm)
  {
    [IntCell(s.i), IntCell(s.numEpisodes), IntCell(s.numFrames), RealCell(fps), IntCell(elapsedSeconds)]
    + SummaryCells(logs.returnStats)
    + [RealCell(successRate)]
    + SummaryCells(logs.framesStats)
    + [RealCell(logs.entropy), RealCell(logs.value), RealCell(logs.policyLoss), RealCell(logs.valueLoss),
       RealCell(logs.loss), RealCell(logs.gradNorm)]
  }

  datatype Config = Config(frames: int, logInterval: int, saveInterval: int)

  /** Everything one loop iteration consumes from outside: the update's logs, the wall-clock
      duration of the update and since the start, and the returns of the evaluation run
      (read only when the iteration saves). */
  datatype UpdateInput = UpdateInput(logs: UpdateLogs, updateSeconds: real, elapsedSeconds: int,
                                     evalReturns: seq<real>)

  datatype LoopState = LoopState(status: Status, tracker: Tracker)

  /** State at the top of the training loop: the counters restored from `status.json` when
      that file exists, zero counters otherwise; the best scores start at 0 in both cases,
      so a resumed run forgets the scores of the checkpoints it saved before. */
  function StartState(restored: Option<Status>): (st: LoopState)
    ensures st.tracker == InitialTracker
    ensures restored.Some? ==> st.status == restored.value
    ensures restored.None? ==> st.status.i == 0 && st.status.numEpisodes == 0 && st.status.numFrames == 0
  {
    LoopState(if restored.Some? then restored.value else InitialStatus, InitialTracker)
  }

  datatype StepOutcome = StepOutcome(state: LoopState, row: Option<seq<Cell>>, saved: bool, savedBest: bool)

  /** The CSV row of a logged update. FPS divides the frame count by the update's duration,
      which raises when the clock did not advance; the statistics of the episode returns
      then raise when the update finished no episode (the minimum of an empty list). */
  function LoggedRow(s: Status, u: UpdateInput): (r: Result<seq<Cell>>)
    ensures r.Err? <==> u.updateSeconds == 0.0 || |u.logs.returnPerEpisode| == 0
    ensures r.Err? ==> (r.error == ZeroDivision <==> u.updateSeconds == 0.0)
    ensures r.Err? ==> r.error == ZeroDivision || r.error == EmptyStatistics
    ensures r.Ok? ==> |r.value| == HeaderWidth && r.value[0] == IntCell(s.i)
    ensures r.Ok? ==> r.value[3] == RealCell(u.logs.numFrames as real / u.updateSeconds)
    ensures r.Ok? ==> r.value[9].RealCell?
    ensures r.Ok? ==>
      r.value[9].x * (|u.logs.returnPerEpisode| as real) == |PositiveEpisodes(u.logs.returnPerEpisode)| as real
  {
    if u.updateSeconds == 0.0 then Err(ZeroDivision)
    else
      match Summarise(u.logs.returnPerEpisode)
      case None => Err(EmptyStatistics)
      case Some(e) =>
        Ok(DataRow(s, u.logs.numFrames as real / u.updateSeconds, u.elapsedSeconds, e.successRate, u.logs))
  }

  /** One iteration of the training loop body. */
  method Step(cfg: Config, rule: Rule, st: LoopState, u: UpdateInput) returns (r: Result<StepOutcome>)
    ensures r.Err? <==>
      || cfg.logInterval == 0
      || ((st.status.i + 1) % cfg.logInterval == 0 && (u.updateSeconds == 0.0 || |u.logs.returnPerEpisode| == 0))
    ensures r.Err? ==> (r.error == EmptyStatistics <==> cfg.logInterval != 0 && u.updateSeconds != 0.0)
    ensures r.Err? ==> r.error == ZeroDivision || r.error == EmptyStatistics
    ensures r.Ok? ==> r.value.state.status == Advance(st.status, u.logs)
    ensures r.Ok? ==> (r.value.row.Some? <==> (st.status.i + 1) % cfg.logInterval == 0)
    ensures r.Ok? && r.value.row.Some? ==> |r.value.row.value| == HeaderWidth
    ensures r.Ok? && r.value.row.Some? ==> LoggedRow(Advance(st.status, u.logs), u) == Ok(r.value.row.value)
    ensures r.Ok? ==> (r.value.saved <==> ShouldSave(st.status.i + 1, cfg.saveInterval))
    ensures r.Ok? ==> (r.value.savedBest ==>
      r.value.saved && |u.evalReturns| > 0 && Beats(Summarise(u.evalReturns).value, Scores(st.tracker)))
    ensures r.Ok? && r.value.saved && |u.evalReturns| > 0 ==>
      (r.value.savedBest <==> Beats(Summarise(u.evalReturns).value, Scores(st.tracker)))
    ensures r.Ok? && r.value.saved && |u.evalReturns| > 0 ==>
      var sel := Select(rule, st.tracker, Summarise(u.evalReturns).value);
      r.value.state.tracker == sel.tracker && r.value.savedBest == sel.save
    ensures r.Ok? && !r.value.savedBest ==> r.value.state.tracker == st.tracker
    ensures r.Ok? ==> r.value.state.tracker.bestSuccessRate >= st.tracker.bestSuccessRate
  {
    var status := Advance(st.status, u.logs);
    var log :- ShouldLog(status.i, cfg.logInterval);
    var row: Option<seq<Cell>> := None;
    if log {
      var cells :- LoggedRow(status, u);
      row := Some(cells);
    }
    if !ShouldSave(status.i, cfg.saveInterval) {
      return Ok(StepOutcome(LoopState(status, st.tracker), row, false, false));
    }
    match Summarise(u.evalReturns)
    case None =>
      // NaN scores compare false against the best ones: nothing is saved as best
      return Ok(StepOutcome(LoopState(status, st.tracker), row, true, false));
    case Some(e) =>
      var sel := Select(rule, st.tracker, e);
      return Ok(StepOutcome(LoopState(status, sel.tracker), row, true, sel.save));
  }

  /** Frames reported by a series of updates. */
  function FramesOf(updates: seq<UpdateInput>): nat {
    if |updates| == 0 then 0 else FramesOf(updates[..|updates| - 1]) + updates[|updates| - 1].logs.numFrames
  }

  /** Episodes reported by a series of updates. */
  function EpisodesOf(updates: seq<UpdateInput>): nat {
    if |updates| == 0 then 0 else EpisodesOf(updates[..|updates| - 1]) + updates[|updates| - 1].logs.episodesDone
  }

  /** Scores of the evaluations the selection rule sees when `updates` run from update
      counter `i0`: one per update that saves and whose evaluation has episodes, in order. */
  function SavedScores(cfg: Config, i0: int, updates: seq<UpdateInput>): (evals: seq<Evaluation>)
    ensures |evals| <= |updates|
  {
    if |updates| == 0 then []
    else
      var before := SavedScores(cfg, i0, updates[..|updates| - 1]);
      var u := updates[|updates| - 1];
      if ShouldSave(i0 + |updates|, cfg.saveInterval) && |u.evalReturns| > 0 then
        before + [Summarise(u.evalReturns).value]
      else before
  }

  /** Whether the logging block of update `i`, fed `u`, raises: the `%` of a zero log
      interval, or, on a logged update, FPS over a zero duration or the statistics of an
      empty return list. */
  predicate Raises(cfg: Config, i: int, u: UpdateInput) {
    || cfg.logInterval == 0
    || (i % cfg.logInterval == 0 && (u.updateSeconds == 0.0 || |u.logs.returnPerEpisode| == 0))
  }

  /** The CSV rows that `updates` write when run from status `s0`: one per logged update
      whose row can be built, computed from the counters after that update. */
  function LoggedRows(cfg: Config, s0: Status, updates: seq<UpdateInput>): (rows: seq<seq<Cell>>)
    ensures |rows| <= |updates|
  {
    if |updates| == 0 then []
    else
      var n := |updates|;
      var before := LoggedRows(cfg, s0, updates[..n - 1]);
      var s := Status(s0.i + n, s0.numEpisodes + EpisodesOf(updates), s0.numFrames + FramesOf(updates));
      if cfg.logInterval != 0 && s.i % cfg.logInterval == 0 then
        match LoggedRow(s, updates[n - 1])
        case Ok(row) => before + [row]
        case Err(_) => before
      else before
  }

  /** Every logged row is as wide as the header. */
  lemma {:induction false} LoggedRowsWidth(cfg: Config, s0: Status, updates: seq<UpdateInput>)
    ensures forall row :: row in LoggedRows(cfg, s0, updates) ==> |row| == HeaderWidth
  {
    if |updates| > 0 {
      LoggedRowsWidth(cfg, s0, updates[..|updates| - 1]);
    }
  }

  /** No update of `updates`, run from update counter `i0`, raises in its logging block. */
  predicate NoneRaise(cfg: Config, i0: int, updates: seq<UpdateInput>) {
    || |updates| == 0
    || (NoneRaise(cfg, i0, updates[..|updates| - 1]) && !Raises(cfg, i0 + |updates|, updates[|updates| - 1]))
  }

  /** `NoneRaise` of the first `k` updates says, update by update, that none raises. */
  lemma {:induction false} NoneRaiseAll(cfg: Config, i0: int, updates: seq<UpdateInput>, k: nat)
    requires k <= |updates|
    ensures NoneRaise(cfg, i0, updates[..k]) <==> forall j :: 0 <= j < k ==> !Raises(cfg, i0 + j + 1, updates[j])
  {
    if k > 0 {
      NoneRaiseAll(cfg, i0, updates, k - 1);
      assert updates[..k][..k - 1] == updates[..k - 1];
    }
  }

  /** Every update of `updates` starts while the frame count, `f0` plus the frames of the
      updates before it, is below the target. */
  predicate BelowTarget(cfg: Config, f0: int, updates: seq<UpdateInput>) {
    || |updates| == 0
    || (BelowTarget(cfg, f0, updates[..|updates| - 1]) && f0 + FramesOf(updates[..|updates| - 1]) < cfg.frames)
  }

  /** `BelowTarget` of the first `k` updates says, update by update, that each started below
      the target. */
  lemma {:induction false} BelowTargetAll(cfg: Config, f0: int, updates: seq<UpdateInput>, k: nat)
    requires k <= |updates|
    ensures BelowTarget(cfg, f0, updates[..k]) <==> forall j :: 0 <= j < k ==> f0 + FramesOf(updates[..j]) < cfg.frames
  {
    if k > 0 {
      BelowTargetAll(cfg, f0, updates, k - 1);
      assert updates[..k][..k - 1] == updates[..k - 1];
    }
  }

  /** One more update extends the logged rows by the row it wrote, if any. */
  lemma LoggedRowsStep(cfg: Config, s0: Status, updates: seq<UpdateInput>, k: nat, st: Status, row: Option<seq<Cell>>)
    requires k < |updates| && cfg.logInterval != 0
    requires st.i == s0.i + k
    requires st.numFrames == s0.numFrames + FramesOf(updates[..k])
    requires st.numEpisodes == s0.numEpisodes + EpisodesOf(updates[..k])
    requires row.Some? <==> (st.i + 1) % cfg.logInterval == 0
    requires row.Some? ==> LoggedRow(Advance(st, updates[k].logs), updates[k]) == Ok(row.value)
    ensures LoggedRows(cfg, s0, updates[..k + 1])
      == LoggedRows(cfg, s0, updates[..k]) + (if row.Some? then [row.value] else [])
  {
    var prefix := updates[..k + 1];
    assert prefix[..k] == updates[..k] && prefix[k] == updates[k];
    assert FramesOf(prefix) == FramesOf(updates[..k]) + updates[k].logs.numFrames;
    assert EpisodesOf(prefix) == EpisodesOf(updates[..k]) + updates[k].logs.episodesDone;
    assert Advance(st, updates[k].logs)
      == Status(s0.i + |prefix|, s0.numEpisodes + EpisodesOf(prefix), s0.numFrames + FramesOf(prefix));
    if row.None? {
      assert [] + LoggedRows(cfg, s0, updates[..k]) == LoggedRows(cfg, s0, updates[..k]);
    }
  }

  /** One more update extends the selection run by the evaluation it saves, if any. */
  lemma SelectionRunStep(cfg: Config, rule: Rule, start: LoopState, updates: seq<UpdateInput>, k: nat,
                         t: Tracker, out: StepOutcome)
    requires k < |updates|
    requires t == SelectionRun(rule, start.tracker, SavedScores(cfg, start.status.i, updates[..k])).0
    requires out.saved <==> ShouldSave(start.status.i + k + 1, cfg.saveInterval)
    requires out.saved && |updates[k].evalReturns| > 0 ==>
      out.state.tracker == Select(rule, t, Summarise(updates[k].evalReturns).value).tracker
    requires !(out.saved && |updates[k].evalReturns| > 0) ==> out.state.tracker == t
    ensures out.state.tracker == SelectionRun(rule, start.tracker, SavedScores(cfg, start.status.i, updates[..k + 1])).0
  {
    var prefix := updates[..k + 1];
    assert prefix[..k] == updates[..k] && prefix[k] == updates[k];
    var before := SavedScores(cfg, start.status.i, updates[..k]);
    if out.saved && |updates[k].evalReturns| > 0 {
      var evals := before + [Summarise(updates[k].evalReturns).value];
      assert SavedScores(cfg, start.status.i, prefix) == evals;
      assert evals[..|before|] == before;
    } else {
      assert SavedScores(cfg, start.status.i, prefix) == before;
    }
  }

  /** What the first `k` updates leave behind: the counters grown by their totals, and the
      tracker the selection rule produces from the evaluations they saved. */
  predicate Progress(cfg: Config, rule: Rule, start: LoopState, updates: seq<UpdateInput>, k: nat, st: LoopState)
    requires k <= |updates|
  {
    && st.status.i == start.status.i + k
    && st.status.numFrames == start.status.numFrames + FramesOf(updates[..k])
    && st.status.numEpisodes == start.status.numEpisodes + EpisodesOf(updates[..k])
    && st.tracker == SelectionRun(rule, start.tracker, SavedScores(cfg, start.status.i, updates[..k])).0
    && st.tracker.bestSuccessRate >= start.tracker.bestSuccessRate
  }

  /** What the loop has done after `k` iterations: `Progress`, no update so far raised, each
      ran while the frame count was below the target, and `rows` are the rows those updates
      logged. */
  predicate Ran(cfg: Config, rule: Rule, start: LoopState, updates: seq<UpdateInput>, k: nat, st: LoopState,
                rows: seq<seq<Cell>>)
    requires k <= |updates|
  {
    && Progress(cfg, rule, start, updates, k, st)
    && rows == LoggedRows(cfg, start.status, updates[..k])
    && NoneRaise(cfg, start.status.i, updates[..k])
    && BelowTarget(cfg, start.status.numFrames, updates[..k])
  }

  /** The rows and the per-iteration facts of `Ran` after one more update that does not raise. */
  lemma RanRowsStep(cfg: Config, start: LoopState, updates: seq<UpdateInput>, k: nat, st: LoopState,
                    rows: seq<seq<Cell>>, row: Option<seq<Cell>>)
    requires k < |updates| && st.status.numFrames < cfg.frames
    requires cfg.logInterval != 0 && !Raises(cfg, start.status.i + k + 1, updates[k])
    requires st.status.i == start.status.i + k
    requires st.status.numFrames == start.status.numFrames + FramesOf(updates[..k])
    requires st.status.numEpisodes == start.status.numEpisodes + EpisodesOf(updates[..k])
    requires rows == LoggedRows(cfg, start.status, updates[..k])
    requires NoneRaise(cfg, start.status.i, updates[..k])
    requires BelowTarget(cfg, start.status.numFrames, updates[..k])
    requires row.Some? <==> (st.status.i + 1) % cfg.logInterval == 0
    requires row.Some? ==> LoggedRow(Advance(st.status, updates[k].logs), updates[k]) == Ok(row.value)
    ensures rows + (if row.Some? then [row.value] else []) == LoggedRows(cfg, start.status, updates[..k + 1])
    ensures NoneRaise(cfg, start.status.i, updates[..k + 1])
    ensures BelowTarget(cfg, start.status.numFrames, updates[..k + 1])
  {
    LoggedRowsStep(cfg, start.status, updates, k, st.status, row);
    assert updates[..k + 1][..k] == updates[..k] && updates[..k + 1][k] == updates[k];
  }

  /** One more update moves `Progress` from `k` to `k + 1`. */
  lemma ProgressStep(cfg: Config, rule: Rule, start: LoopState, updates: seq<UpdateInput>, k: nat, st: LoopState,
                     out: StepOutcome)
    requires k < |updates| && Progress(cfg, rule, start, updates, k, st)
    requires out.state.status == Advance(st.status, updates[k].logs)
    requires out.saved <==> ShouldSave(start.status.i + k + 1, cfg.saveInterval)
    requires out.saved && |updates[k].evalReturns| > 0 ==>
      out.state.tracker == Select(rule, st.tracker, Summarise(updates[k].evalReturns).value).tracker
    requires !(out.saved && |updates[k].evalReturns| > 0) ==> out.state.tracker == st.tracker
    requires out.state.tracker.bestSuccessRate >= st.tracker.bestSuccessRate
    ensures Progress(cfg, rule, start, updates, k + 1, out.state)
  {
    var prefix := updates[..k + 1];
    assert prefix[..k] == updates[..k] && prefix[k] == updates[k];
    assert FramesOf(prefix) == FramesOf(updates[..k]) + updates[k].logs.numFrames;
    assert EpisodesOf(prefix) == EpisodesOf(updates[..k]) + updates[k].logs.episodesDone;
    SelectionRunStep(cfg, rule, start, updates, k, st.tracker, out);
  }

  /** `Ran` spelled out update by update: none raised, each started below the target, every
      row is as wide as the header, and under the lexicographic rule no saved evaluation
      beats the tracked best. */
  lemma RanSpelledOut(cfg: Config, rule: Rule, start: LoopState, updates: seq<UpdateInput>, k: nat, st: LoopState,
                      rows: seq<seq<Cell>>)
    requires k <= |updates| && Ran(cfg, rule, start, updates, k, st, rows)
    ensures forall j :: 0 <= j < k ==> !Raises(cfg, start.status.i + j + 1, updates[j])
    ensures forall j :: 0 <= j < k ==> start.status.numFrames + FramesOf(updates[..j]) < cfg.frames
    ensures forall row :: row in rows ==> |row| == HeaderWidth
    ensures rule == Lexicographic ==>
      forall e :: e in SavedScores(cfg, start.status.i, updates[..k]) ==> !Beats(e, Scores(st.tracker))
  {
    NoneRaiseAll(cfg, start.status.i, updates, k);
    BelowTargetAll(cfg, start.status.numFrames, updates, k);
    LoggedRowsWidth(cfg, start.status, updates[..k]);
    LexicographicKeepsBest(start.tracker, SavedScores(cfg, start.status.i, updates[..k]));
  }

  /** When update `k` raises after `k` updates that did not, and it started below the
      target, some update is the first to raise. */
  lemma FirstRaise(cfg: Config, start: LoopState, updates: seq<UpdateInput>, k: nat, frames: int)
    requires k < |updates| && frames < cfg.frames
    requires frames == start.status.numFrames + FramesOf(updates[..k])
    requires NoneRaise(cfg, start.status.i, updates[..k])
    requires Raises(cfg, start.status.i + k + 1, updates[k])
    ensures exists j ::
      && 0 <= j < |updates|
      && Raises(cfg, start.status.i + j + 1, updates[j])
      && start.status.numFrames + FramesOf(updates[..j]) < cfg.frames
      && (forall i :: 0 <= i < j ==> !Raises(cfg, start.status.i + i + 1, updates[i]))
  {
    NoneRaiseAll(cfg, start.status.i, updates, k);
  }

  /** Runs update `k` on the state the first `k` updates left, appending its row if it logs. */
  method Iterate(cfg: Config, rule: Rule, start: LoopState, updates: seq<UpdateInput>, k: nat, st: LoopState,
                 rows: seq<seq<Cell>>)
    returns (r: Result<(LoopState, seq<seq<Cell>>)>)
    requires k < |updates| && st.status.numFrames < cfg.frames && Ran(cfg, rule, start, updates, k, st, rows)
    ensures r.Err? ==> r.error == ZeroDivision || r.error == EmptyStatistics
    ensures r.Err? <==> Raises(cfg, start.status.i + k + 1, updates[k])
    ensures r.Ok? ==> Ran(cfg, rule, start, updates, k + 1, r.value.0, r.value.1)
  {
    var out :- Step(cfg, rule, st, updates[k]);
    ProgressStep(cfg, rule, start, updates, k, st, out);
    RanRowsStep(cfg, start, updates, k, st, rows, out.row);
    return Ok((out.state, rows + (if out.row.Some? then [out.row.value] else [])));
  }

  datatype TrainOutcome = TrainOutcome(state: LoopState, iterations: nat, rows: seq<seq<Cell>>)

  /** The training loop `while num_frames < frames`, fed by `updates` until they run out.
      It fails only when an update's logging block raises. Each iteration runs only while the
      frame count is below the target, adds one to the update counter and the update's frames
      and episodes to their totals; the tracker is what the selection rule makes of the
      evaluations of the iterations that saved; the rows are the logged updates' rows; the
      best success rate never decreases. */
  method Train(cfg: Config, rule: Rule, start: LoopState, updates: seq<UpdateInput>) returns (r: Result<TrainOutcome>)
    ensures r.Err? ==> r.error == ZeroDivision || r.error == EmptyStatistics
    ensures cfg.logInterval == 0 && |updates| > 0 && start.status.numFrames < cfg.frames ==> r.Err?
    ensures r.Err? ==>
      exists j ::
        && 0 <= j < |updates|
        && Raises(cfg, start.status.i + j + 1, updates[j])
        && start.status.numFrames + FramesOf(updates[..j]) < cfg.frames
        && (forall i :: 0 <= i < j ==> !Raises(cfg, start.status.i + i + 1, updates[i]))
    ensures r.Ok? ==>
      var k := r.value.iterations;
      var final := r.value.state;
      && k <= |updates|
      && (forall j :: 0 <= j < k ==> !Raises(cfg, start.status.i + j + 1, updates[j]))
      && r.value.rows == LoggedRows(cfg, start.status, updates[..k])
      && final.status.i == start.status.i + k
      && final.status.numFrames == start.status.numFrames + FramesOf(updates[..k])
      && final.status.numEpisodes == start.status.numEpisodes + EpisodesOf(updates[..k])
      && (forall j :: 0 <= j < k ==> start.status.numFrames + FramesOf(updates[..j]) < cfg.frames)
      && (k < |updates| ==> final.status.numFrames >= cfg.frames)
      && final.tracker.bestSuccessRate >= start.tracker.bestSuccessRate
      && final.tracker == SelectionRun(rule, start.tracker, SavedScores(cfg, start.status.i, updates[..k])).0
      && (rule == Lexicographic ==>
            forall e :: e in SavedScores(cfg, start.status.i, updates[..k]) ==> !Beats(e, Scores(final.tracker)))
      && (forall row :: row in r.value.rows ==> |row| == HeaderWidth)
  {
    var st := start;
    var k := 0;
    var rows: seq<seq<Cell>> := [];
    assert updates[..0] == [];
    while k < |updates| && st.status.numFrames < cfg.frames
      invariant 0 <= k <= |updates|
      invariant Ran(cfg, rule, start, updates, k, st, rows)
    {
      var out := Iterate(cfg, rule, start, updates, k, st, rows);
      if out.Err? {
        FirstRaise(cfg, start, updates, k, st.status.numFrames);
        return Err(out.error);
      }
      st, rows := out.value.0, out.value.1;
      k := k + 1;
    }
    RanSpelledOut(cfg, rule, start, updates, k, st, rows);
    return Ok(TrainOutcome(st, k, rows));
  }
}
