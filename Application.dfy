/** The per-model evaluation loop of the application
    (src/App/Application.cpp): a state machine that walks the sampled views
    once per phase (PSNR, then silhouette, then normal), measures every
    rendered frame, accumulates the per-view error, saves each view once per
    phase and reports the phase average when the views wrap around. */
module App {
  import opened MathLib
  import opened Assets
  import opened AppBuffers
  import Evaluator
  import ImageUtils
  import SceneCamera
  import SceneModel
  import Resources

  // ---------------------------------------------------------------------
  // Phases and the maps keyed by them
  // ---------------------------------------------------------------------

  datatype Phase = IblPsnr | Silhouette | Normal | Finished

  /** The enumerator value of a phase (0 to 3). */
  function Ordinal(p: Phase): nat
  {
    match p
    case IblPsnr => 0
    case Silhouette => 1
    case Normal => 2
    case Finished => 3
  }

  /** The phase that follows a full round of views; FINISHED stays. */
  function NextPhase(p: Phase): (q: Phase)
    ensures p != Finished ==> Ordinal(q) == Ordinal(p) + 1
    ensures p == Finished ==> q == Finished
  {
    match p
    case IblPsnr => Silhouette
    case Silhouette => Normal
    case Normal => Finished
    case Finished => Finished
  }

  /** The output sub-directory of a measuring phase. */
  function PhaseDir(p: Phase): string
    requires p != Finished
  {
    match p
    case IblPsnr => "psnr"
    case Silhouette => "silhouette"
    case Normal => "normal"
  }

  /** The heatmap mode of a phase: PSNR 0, NORMAL 1, SILHOUETTE 2. */
  function HeatmapMode(p: Phase): int
  {
    if p == IblPsnr then 0 else if p == Normal then 1 else if p == Silhouette then 2 else 0
  }

  /** The metric type a phase writes its CSV rows under. */
  function CsvLabel(p: Phase): string
  {
    if p == IblPsnr then "PSNR" else if p == Silhouette then "Silhouette" else "Normal"
  }

  /** `AppendToGlobalCSV`'s file for a metric type; no file for any other. */
  function CsvFile(metric: string): Option<string>
  {
    if metric == "PSNR" then Some("metrics_psnr.csv")
    else if metric == "Normal" then Some("metrics_normal.csv")
    else if metric == "Silhouette" then Some("metrics_silhouette.csv")
    else None
  }

  /** Each measuring phase has its own heatmap mode, its own CSV file and
      its own output directory, and only the three labels have a file. */
  lemma PhaseMapsAreDistinct(p: Phase, q: Phase, metric: string)
    requires p != Finished && q != Finished
    ensures CsvFile(CsvLabel(p)).Some?
    ensures p != q ==> && HeatmapMode(p) != HeatmapMode(q)
                       && CsvFile(CsvLabel(p)) != CsvFile(CsvLabel(q))
                       && PhaseDir(p) != PhaseDir(q)
    ensures CsvFile(metric).Some? <==> metric == "PSNR" || metric == "Normal" || metric == "Silhouette"
  {
  }

  /** `fs::path(dir) / name` for a path with `/` separators. */
  function JoinPath(dir: string, name: string): string { dir + "/" + name }

  /** `<root>/<model>/<phase directory>`. */
  function OutputDir(root: string, model: string, p: Phase): string
    requires p != Finished
  {
    JoinPath(JoinPath(root, model), PhaseDir(p))
  }

  // ---------------------------------------------------------------------
  // The evaluation state and one tick of the clock (UpdateState)
  // ---------------------------------------------------------------------

  /** The fields the loop updates: `currentViewIdx`, `currentPhase`,
      `accumulatorError`, `currentViewError`, `lastSavedView` and
      `currentOutputDir`. */
  datatype Progress = Progress(viewIdx: int, phase: Phase, accumulator: Float, viewError: Float,
                               lastSavedView: int, outputDir: string)

  /** What the loop of one model sees but does not change: the number of
      views, the output root, the model name, the render target size and
      the window size. */
  datatype Context = Context(viewCount: nat, outputRoot: string, modelName: string,
                             width: nat, height: nat, windowWidth: nat, windowHeight: nat)

  /** `a + b` in double arithmetic: infinite or NaN stays non-finite. */
  function AddError(a: Float, b: Float): Float
  {
    if a.Finite? && b.Finite? then Finite(a.value + b.value) else NonFinite
  }

  /** `accumulatorError / (double)views.size()`: non-finite without views. */
  function Average(acc: Float, n: nat): Float
  {
    if n == 0 || acc.NonFinite? then NonFinite else Finite(acc.value / n as real)
  }

  /** The view index stays a valid index into the views (0 when there are
      none). */
  predicate IndexInRange(s: Progress, n: nat)
  {
    0 <= s.viewIdx && (s.viewIdx < n || s.viewIdx == 0)
  }

  /** A tick wraps when the dwell time elapsed on the last view of a
      measuring phase. */
  predicate Wraps(s: Progress, n: nat, elapsed: bool)
  {
    s.phase != Finished && elapsed && s.viewIdx + 1 >= n
  }

  /** `UpdateState`: nothing once FINISHED or while the dwell time has not
      elapsed; otherwise the next view, and on wrapping view 0, the next
      phase and a zero accumulator, with a new output directory and no
      saved view unless the new phase is FINISHED. */
  function Tick(s: Progress, ctx: Context, elapsed: bool): Progress
  {
    if s.phase == Finished || !elapsed then s
    else if !Wraps(s, ctx.viewCount, elapsed) then s.(viewIdx := s.viewIdx + 1)
    else
      var next := s.(viewIdx := 0, accumulator := Finite(0.0), phase := NextPhase(s.phase));
      if s.phase == Normal then next
      else next.(lastSavedView := -1, outputDir := OutputDir(ctx.outputRoot, ctx.modelName, NextPhase(s.phase)))
  }

  /** The phase result printed on wrapping: the phase just finished and
      its average error. */
  datatype PhaseResult = PhaseResult(phase: Phase, average: Float)

  function Report(s: Progress, n: nat, elapsed: bool): Option<PhaseResult>
  {
    if Wraps(s, n, elapsed) then Some(PhaseResult(s.phase, Average(s.accumulator, n))) else None
  }

  /** A tick that wraps moves the phase exactly one step, resets the
      accumulator and the view, and (unless FINISHED is reached) the save
      gate and the output directory; any other tick changes at most the
      view index, by one, and a tick without elapsed time or after
      FINISHED changes nothing. The index stays in range. */
  lemma TickSteps(s: Progress, ctx: Context, elapsed: bool)
    requires IndexInRange(s, ctx.viewCount)
    ensures var t := Tick(s, ctx, elapsed);
            && IndexInRange(t, ctx.viewCount)
            && (s.phase == Finished || !elapsed ==> t == s)
            && (Wraps(s, ctx.viewCount, elapsed) ==>
                  && t.phase == NextPhase(s.phase) && t.viewIdx == 0 && t.accumulator == Finite(0.0)
                  && t.viewError == s.viewError
                  && (t.phase != Finished ==> t.lastSavedView == -1
                                              && t.outputDir == OutputDir(ctx.outputRoot, ctx.modelName, t.phase))
                  && (t.phase == Finished ==> t.lastSavedView == s.lastSavedView && t.outputDir == s.outputDir))
            && (s.phase != Finished && elapsed && !Wraps(s, ctx.viewCount, elapsed) ==>
                  t == s.(viewIdx := s.viewIdx + 1))
  {
  }

  // ---------------------------------------------------------------------
  // One frame (RenderPasses)
  // ---------------------------------------------------------------------

  /** The edge thresholds the silhouette phase passes to the extractor. */
  const DepthThreshold: real := 0.01
  const NormalThreshold: real := 0.1

  /** What the renderer hands back for the current view: colour bytes and
      colour floats of both render targets, depth and normal buffers of
      both models, and the window contents. */
  datatype Frame = Frame(refBytes: seq<Byte>, optBytes: seq<Byte>,
                         refFloats: seq<real>, optFloats: seq<real>,
                         refDepth: seq<real>, refNormals: seq<real>,
                         optDepth: seq<real>, optNormals: seq<real>,
                         window: seq<Byte>)

  /** The read-back sizes: three channels per pixel, one depth per pixel,
      three bytes per window pixel. */
  predicate FrameFits(f: Frame, ctx: Context)
  {
    var count := ctx.width * ctx.height;
    && |f.refBytes| == count * 3 && |f.optBytes| == count * 3
    && |f.refFloats| == count * 3 && |f.optFloats| == count * 3
    && |f.refDepth| == count && |f.optDepth| == count
    && |f.refNormals| == count * 3 && |f.optNormals| == count * 3
    && |f.window| == RowStart(ctx.windowHeight, ctx.windowWidth * 3)
  }

  function RefSilhouette(f: Frame, ctx: Context, m: Math): (s: seq<Byte>)
    requires FrameFits(f, ctx)
    ensures |s| == ctx.width * ctx.height
  {
    ImageUtils.Silhouette(f.refDepth, f.refNormals, ctx.width, ctx.height, DepthThreshold, NormalThreshold, m)
  }

  function OptSilhouette(f: Frame, ctx: Context, m: Math): (s: seq<Byte>)
    requires FrameFits(f, ctx)
    ensures |s| == ctx.width * ctx.height
  {
    ImageUtils.Silhouette(f.optDepth, f.optNormals, ctx.width, ctx.height, DepthThreshold, NormalThreshold, m)
  }

  /** `currentViewError`: the normal MSE in the NORMAL phase, the mask
      mismatch in the SILHOUETTE phase and otherwise the PSNR in dB (not the
      MSE). */
  function ViewError(p: Phase, f: Frame, ctx: Context, m: Math): Float
    requires FrameFits(f, ctx)
  {
    if p == Normal then Evaluator.NormalError(f.refFloats, f.optFloats)
    else if p == Silhouette then Evaluator.SilhouetteError(RefSilhouette(f, ctx, m), OptSilhouette(f, ctx, m))
    else Evaluator.Psnr(f.refBytes, f.optBytes, m).1
  }

  /** The heatmap uploaded for the frame: over the colour floats in the
      NORMAL phase, over the RGB expansions of the two masks in the
      SILHOUETTE phase and over the colour bytes otherwise. */
  function HeatmapOf(p: Phase, f: Frame, ctx: Context, m: Math): seq<Byte>
    requires FrameFits(f, ctx)
  {
    if p == Normal then
      Evaluator.Heatmap([], f.refFloats, [], f.optFloats, ctx.width, ctx.height, HeatmapMode(p), m)
    else if p == Silhouette then
      var refSil := RefSilhouette(f, ctx, m);
      var optSil := OptSilhouette(f, ctx, m);
      Evaluator.Heatmap(GreyRgb(refSil, |refSil|), [], GreyRgb(optSil, |optSil|), [],
                        ctx.width, ctx.height, HeatmapMode(p), m)
    else
      Evaluator.Heatmap(f.refBytes, [], f.optBytes, [], ctx.width, ctx.height, HeatmapMode(p), m)
  }

  /** Nothing is drawn without views or after FINISHED. */
  predicate Draws(s: Progress, n: nat)
  {
    n != 0 && s.phase != Finished
  }

  /** `RenderPasses`' bookkeeping: the view error is measured and added to
      the accumulator on every frame; the save gate then records the view. */
  function Render(s: Progress, ctx: Context, f: Frame, m: Math): Progress
    requires FrameFits(f, ctx)
  {
    if !Draws(s, ctx.viewCount) then s
    else
      var e := ViewError(s.phase, f, ctx, m);
      var measured := s.(viewError := e, accumulator := AddError(s.accumulator, e));
      if s.viewIdx != s.lastSavedView then measured.(lastSavedView := s.viewIdx) else measured
  }

  /** A saved screenshot: its directory, its view and the flipped window. */
  datatype Screenshot = Screenshot(dir: string, view: int, image: seq<Byte>)

  /** A CSV row: the file it is appended to, the model, the view and the
      error. */
  datatype CsvRow = CsvRow(file: string, model: string, view: int, error: Float)

  datatype Saved = Saved(shot: Screenshot, row: Option<CsvRow>)

  /** The row `AppendToGlobalCSV` appends, if the metric has a file. */
  function CsvRowOf(root: string, model: string, metric: string, view: int, error: Float): Option<CsvRow>
  {
    match CsvFile(metric)
    case None => None
    case Some(file) => Some(CsvRow(JoinPath(root, file), model, view, error))
  }

  /** What a frame saves: the screenshot and the CSV row of the view, only
      when the view differs from the last saved one. */
  function SavedOf(s: Progress, ctx: Context, f: Frame, m: Math): Option<Saved>
    requires FrameFits(f, ctx)
  {
    if !Draws(s, ctx.viewCount) || s.viewIdx == s.lastSavedView then None
    else
      Some(Saved(Screenshot(s.outputDir, s.viewIdx, FlipRows(f.window, ctx.windowWidth * 3, ctx.windowHeight)),
                 CsvRowOf(ctx.outputRoot, ctx.modelName, CsvLabel(s.phase), s.viewIdx,
                          ViewError(s.phase, f, ctx, m))))
  }

  /** A frame never moves the view or the phase and keeps the index in
      range; a saved frame writes the phase's CSV file. */
  lemma RenderKeepsClock(s: Progress, ctx: Context, f: Frame, m: Math)
    requires FrameFits(f, ctx) && IndexInRange(s, ctx.viewCount)
    ensures Render(s, ctx, f, m).viewIdx == s.viewIdx && Render(s, ctx, f, m).phase == s.phase
    ensures Render(s, ctx, f, m).outputDir == s.outputDir
    ensures IndexInRange(Render(s, ctx, f, m), ctx.viewCount)
    ensures SavedOf(s, ctx, f, m).Some? ==>
              SavedOf(s, ctx, f, m).value.row
              == Some(CsvRow(JoinPath(ctx.outputRoot, CsvFile(CsvLabel(s.phase)).value), ctx.modelName,
                             s.viewIdx, Render(s, ctx, f, m).viewError))
  {
  }

  /** Two frames on the same view: both add their error to the
      accumulator, but only the first can save. */
  lemma RepeatedFrameSavesOnce(s: Progress, ctx: Context, f1: Frame, f2: Frame, m: Math)
    requires FrameFits(f1, ctx) && FrameFits(f2, ctx) && Draws(s, ctx.viewCount)
    ensures var s1 := Render(s, ctx, f1, m);
            && (SavedOf(s, ctx, f1, m).Some? <==> s.viewIdx != s.lastSavedView)
            && SavedOf(s1, ctx, f2, m) == None
            && Render(s1, ctx, f2, m).accumulator
               == AddError(AddError(s.accumulator, ViewError(s.phase, f1, ctx, m)), ViewError(s.phase, f2, ctx, m))
  {
  }

  /** In the PSNR phase identical non-empty colour read-backs add the
      "identical" PSNR of 99.99 dB to the accumulator, not an MSE of 0. */
  lemma PsnrPhaseAccumulatesDecibels(s: Progress, ctx: Context, f: Frame, m: Math)
    requires FrameFits(f, ctx) && Draws(s, ctx.viewCount) && s.phase == IblPsnr
    requires f.refBytes == f.optBytes && |f.refBytes| > 0
    ensures Render(s, ctx, f, m).viewError == Finite(Evaluator.IdenticalPsnr)
    ensures Render(s, ctx, f, m).accumulator == AddError(s.accumulator, Finite(Evaluator.IdenticalPsnr))
  {
    Evaluator.PsnrOfIdentical(f.refBytes, m);
  }

  // ---------------------------------------------------------------------
  // The loop of one model (ProcessSingleModel)
  // ---------------------------------------------------------------------

  /** What one pass of the loop receives: whether the dwell time elapsed,
      and the frame the renderer produced. */
  datatype Input = Input(elapsed: bool, frame: Frame)

  predicate InputsFit(inputs: seq<Input>, ctx: Context)
  {
    forall i :: 0 <= i < |inputs| ==> FrameFits(inputs[i].frame, ctx)
  }

  /** The state, the printed phase results and the saved views so far. */
  datatype Trace = Trace(state: Progress, reports: seq<PhaseResult>, saves: seq<Saved>)

  function OptSeq<T>(o: Option<T>): seq<T>
  {
    if o.Some? then [o.value] else []
  }

  /** One pass of the loop: `UpdateState`, then `RenderPasses`. */
  function Step(t: Trace, ctx: Context, input: Input, m: Math): Trace
    requires FrameFits(input.frame, ctx)
  {
    var ticked := Tick(t.state, ctx, input.elapsed);
    Trace(Render(ticked, ctx, input.frame, m),
          t.reports + OptSeq(Report(t.state, ctx.viewCount, input.elapsed)),
          t.saves + OptSeq(SavedOf(ticked, ctx, input.frame, m)))
  }

  /** The loop run over `inputs` from state `s`. */
  function Run(s: Progress, ctx: Context, inputs: seq<Input>, m: Math): Trace
    requires InputsFit(inputs, ctx)
  {
    if inputs == [] then Trace(s, [], [])
    else Step(Run(s, ctx, inputs[..|inputs| - 1], m), ctx, inputs[|inputs| - 1], m)
  }

  /** The run over one more input is one more step. */
  lemma RunSnoc(s: Progress, ctx: Context, inputs: seq<Input>, i: nat, m: Math)
    requires InputsFit(inputs, ctx) && i < |inputs|
    ensures InputsFit(inputs[..i], ctx) && InputsFit(inputs[..i + 1], ctx)
    ensures Run(s, ctx, inputs[..i + 1], m) == Step(Run(s, ctx, inputs[..i], m), ctx, inputs[i], m)
  {
    assert inputs[..i + 1][..i] == inputs[..i];
  }

  /** Once FINISHED, further passes change nothing and emit nothing, so
      stopping the loop there loses nothing. */
  lemma {:induction false} RunAfterFinished(s: Progress, ctx: Context, done: seq<Input>, rest: seq<Input>, m: Math)
    requires InputsFit(done + rest, ctx)
    requires InputsFit(done, ctx) && Run(s, ctx, done, m).state.phase == Finished
    ensures Run(s, ctx, done + rest, m) == Run(s, ctx, done, m)
    decreases |rest|
  {
    if rest == [] {
      assert done + rest == done;
    } else {
      var front := rest[..|rest| - 1];
      assert (done + rest)[..|done + rest| - 1] == done + front;
      assert InputsFit(done + front, ctx) by {
        forall i | 0 <= i < |done + front| ensures FrameFits((done + front)[i].frame, ctx) {
          assert (done + front)[i] == (done + rest)[i];
        }
      }
      RunAfterFinished(s, ctx, done, front, m);
    }
  }

  /** The state `ProcessSingleModel` starts a model from: view 0, zero
      accumulator, the PSNR phase, no saved view and the `psnr` output
      directory; the last view error is kept. */
  function Start(s: Progress, root: string, model: string): Progress
  {
    Progress(0, IblPsnr, Finite(0.0), s.viewError, -1, OutputDir(root, model, IblPsnr))
  }

  /** `k` ticks with the dwell time elapsed every time. */
  function Ticks(s: Progress, ctx: Context, k: nat): Progress
  {
    if k == 0 then s else Tick(Ticks(s, ctx, k - 1), ctx, true)
  }

  /** The number of elapsed ticks a phase lasts: one per view, and one when
      there are no views. */
  function Period(n: nat): nat { if n == 0 then 1 else n }

  lemma {:induction false} TicksAdd(s: Progress, ctx: Context, a: nat, b: nat)
    ensures Ticks(s, ctx, a + b) == Ticks(Ticks(s, ctx, a), ctx, b)
    decreases b
  {
    if b > 0 {
      TicksAdd(s, ctx, a, b - 1);
    }
  }

  /** Starting a measuring phase at view 0, the phase shows views 0, 1, ...
      for one period of ticks and then moves one step on. */
  lemma {:induction false} RoundOfTicks(s: Progress, ctx: Context, j: nat)
    requires s.viewIdx == 0 && s.phase != Finished && j <= Period(ctx.viewCount)
    ensures j < Period(ctx.viewCount) ==> Ticks(s, ctx, j).phase == s.phase && Ticks(s, ctx, j).viewIdx == j
    ensures j == Period(ctx.viewCount) ==>
              Ticks(s, ctx, j).phase == NextPhase(s.phase) && Ticks(s, ctx, j).viewIdx == 0
    decreases j
  {
    if j > 0 {
      RoundOfTicks(s, ctx, j - 1);
    }
  }

  /** A whole round from view 0 of a measuring phase, `a` ticks in. */
  lemma FullRound(s: Progress, ctx: Context, a: nat)
    requires Ticks(s, ctx, a).viewIdx == 0 && Ticks(s, ctx, a).phase != Finished
    ensures Ticks(s, ctx, a + Period(ctx.viewCount)).viewIdx == 0
    ensures Ticks(s, ctx, a + Period(ctx.viewCount)).phase == NextPhase(Ticks(s, ctx, a).phase)
  {
    RoundOfTicks(Ticks(s, ctx, a), ctx, Period(ctx.viewCount));
    TicksAdd(s, ctx, a, Period(ctx.viewCount));
  }

  /** Part of a round from view 0 of a measuring phase, `a` ticks in. */
  lemma PartRound(s: Progress, ctx: Context, a: nat, j: nat)
    requires Ticks(s, ctx, a).viewIdx == 0 && Ticks(s, ctx, a).phase != Finished
    requires j < Period(ctx.viewCount)
    ensures Ticks(s, ctx, a + j).phase == Ticks(s, ctx, a).phase
  {
    RoundOfTicks(Ticks(s, ctx, a), ctx, j);
    TicksAdd(s, ctx, a, j);
  }

  /** From the start state, the loop reaches FINISHED after exactly three
      periods of elapsed ticks, and not before. */
  lemma FinishesAfterThreeRounds(s: Progress, ctx: Context, k: nat)
    requires s.viewIdx == 0 && s.phase == IblPsnr
    ensures Ticks(s, ctx, 3 * Period(ctx.viewCount)).phase == Finished
    ensures k < 3 * Period(ctx.viewCount) ==> Ticks(s, ctx, k).phase != Finished
  {
    var p := Period(ctx.viewCount);
    assert Ticks(s, ctx, 0) == s;
    FullRound(s, ctx, 0);
    FullRound(s, ctx, p);
    FullRound(s, ctx, p + p);
    assert p + p + p == 3 * p;
    if k < p {
      PartRound(s, ctx, 0, k);
    } else if k < p + p {
      PartRound(s, ctx, p, k - p);
    } else if k < 3 * p {
      PartRound(s, ctx, p + p, k - (p + p));
    }
  }

  /** Frames do not move the clock: with the dwell time elapsed on every
      pass, the loop's view and phase after `k` passes are those of `k`
      ticks. */
  lemma {:induction false} RunFollowsTicks(s: Progress, ctx: Context, inputs: seq<Input>, m: Math)
    requires InputsFit(inputs, ctx)
    requires forall i :: 0 <= i < |inputs| ==> inputs[i].elapsed
    ensures Run(s, ctx, inputs, m).state.viewIdx == Ticks(s, ctx, |inputs|).viewIdx
    ensures Run(s, ctx, inputs, m).state.phase == Ticks(s, ctx, |inputs|).phase
    decreases |inputs|
  {
    if inputs != [] {
      var front := inputs[..|inputs| - 1];
      RunFollowsTicks(s, ctx, front, m);
      var r := Run(s, ctx, front, m).state;
      var t := Tick(r, ctx, true);
      assert Tick(Ticks(s, ctx, |front|), ctx, true).viewIdx == t.viewIdx;
      assert Tick(Ticks(s, ctx, |front|), ctx, true).phase == t.phase;
      assert Render(t, ctx, inputs[|inputs| - 1].frame, m).viewIdx == t.viewIdx;
    }
  }

  /** Ticks after FINISHED stay FINISHED. */
  lemma {:induction false} TicksStayFinished(s: Progress, ctx: Context, k: nat)
    requires s.phase == Finished
    ensures Ticks(s, ctx, k) == s
    decreases k
  {
    if k > 0 {
      TicksStayFinished(s, ctx, k - 1);
    }
  }

  /** With the dwell time elapsed on every pass, the loop of a model ends
      in FINISHED exactly when it ran for at least three periods: one
      period per measuring phase. */
  lemma LoopFinishesAfterThreeRounds(s: Progress, ctx: Context, inputs: seq<Input>, m: Math)
    requires InputsFit(inputs, ctx)
    requires forall i :: 0 <= i < |inputs| ==> inputs[i].elapsed
    ensures Run(Start(s, ctx.outputRoot, ctx.modelName), ctx, inputs, m).state.phase == Finished
            <==> |inputs| >= 3 * Period(ctx.viewCount)
  {
    var start := Start(s, ctx.outputRoot, ctx.modelName);
    var total := 3 * Period(ctx.viewCount);
    RunFollowsTicks(start, ctx, inputs, m);
    FinishesAfterThreeRounds(start, ctx, |inputs|);
    if |inputs| >= total {
      TicksAdd(start, ctx, total, |inputs| - total);
      TicksStayFinished(Ticks(start, ctx, total), ctx, |inputs| - total);
    }
  }

  /** With the dwell time elapsed on every pass and at least two views, the
      first pass already moves to view 1, so view 0 is never measured in
      the PSNR phase. */
  lemma FirstPassSkipsViewZero(s: Progress, ctx: Context, f: Frame, m: Math)
    requires ctx.viewCount >= 2 && FrameFits(f, ctx)
    ensures var t := Tick(Start(s, ctx.outputRoot, ctx.modelName), ctx, true);
            && t.viewIdx == 1 && t.phase == IblPsnr
            && SavedOf(t, ctx, f, m).Some? && SavedOf(t, ctx, f, m).value.shot.view == 1
  {
  }

  // ---------------------------------------------------------------------
  // Frame measurement
  // ---------------------------------------------------------------------

  /** The measuring part of `RenderPasses`: the view error and the
      heatmap of the frame. */
  method MeasureView(p: Phase, f: Frame, ctx: Context, m: Math) returns (err: Float, heatmap: seq<Byte>)
    requires FrameFits(f, ctx)
    ensures err == ViewError(p, f, ctx, m)
    ensures heatmap == HeatmapOf(p, f, ctx, m)
  {
    var w, h := ctx.width, ctx.height;
    var modeIdx := HeatmapMode(p);
    if p == Normal {
      err := Evaluator.ComputeNormalError(f.refFloats, f.optFloats, w, h);
      heatmap := Evaluator.GenerateHeatmap([], f.refFloats, [], f.optFloats, w, h, modeIdx, m);
    } else if p == Silhouette {
      var refSil := ImageUtils.GenerateSilhouetteCPU(f.refDepth, f.refNormals, w, h, DepthThreshold, NormalThreshold, m);
      var optSil := ImageUtils.GenerateSilhouetteCPU(f.optDepth, f.optNormals, w, h, DepthThreshold, NormalThreshold, m);
      err := Evaluator.ComputeSilhouetteError(refSil, optSil, w, h);
      var refBytes := ExpandToRgb(refSil);
      var optBytes := ExpandToRgb(optSil);
      heatmap := Evaluator.GenerateHeatmap(refBytes, [], optBytes, [], w, h, modeIdx, m);
    } else {
      var mse, psnr := Evaluator.ComputePSNR(f.refBytes, f.optBytes, w, h, m);
      err := psnr;
      heatmap := Evaluator.GenerateHeatmap(f.refBytes, [], f.optBytes, [], w, h, modeIdx, m);
    }
  }

  /** `AppendToGlobalCSV`: the row appended to the metric's file under the
      output root, or nothing for an unknown metric. */
  method AppendToGlobalCSV(root: string, model: string, metricType: string, viewIdx: int, error: Float)
    returns (row: Option<CsvRow>)
    ensures row.Some? <==> CsvFile(metricType).Some?
    ensures row.Some? ==> row.value == CsvRow(JoinPath(root, CsvFile(metricType).value), model, viewIdx, error)
  {
    var filename: string;
    if metricType == "PSNR" {
      filename := "metrics_psnr.csv";
    } else if metricType == "Normal" {
      filename := "metrics_normal.csv";
    } else if metricType == "Silhouette" {
      filename := "metrics_silhouette.csv";
    } else {
      return None;
    }
    row := Some(CsvRow(JoinPath(root, filename), model, viewIdx, error));
  }

  /** The configuration the application is built with. */
  datatype AppConfig = AppConfig(outputRoot: string, renderWidth: nat, renderHeight: nat,
                                 windowWidth: nat, windowHeight: nat, viewCount: nat, radius: real)

  class Application {
    const outputRoot: string
    /** The render targets' size (`targets.width`, `targets.height`). */
    const targetWidth: nat
    const targetHeight: nat
    const windowWidth: nat
    const windowHeight: nat
    const viewCount: nat
    const radius: real

    var currentModelName: string
    var currentOutputDir: string
    var views: seq<SceneCamera.Sample>
    var currentViewIdx: int
    var currentPhase: Phase
    var accumulatorError: Float
    var currentViewError: Float
    var lastSavedView: int
    /** `scene.refModel` / `scene.optModel`; None while never loaded. */
    var refModel: Option<SceneModel.Model>
    var optModel: Option<SceneModel.Model>

    function State(): Progress
      reads this
    {
      Progress(currentViewIdx, currentPhase, accumulatorError, currentViewError, lastSavedView, currentOutputDir)
    }

    function Ctx(): Context
      reads this
    {
      Context(|views|, outputRoot, currentModelName, targetWidth, targetHeight, windowWidth, windowHeight)
    }

    /** `Application(config)` with the render targets sized from it; every
        state field has its declared initial value. */
    constructor(config: AppConfig)
      ensures outputRoot == config.outputRoot && viewCount == config.viewCount && radius == config.radius
      ensures targetWidth == config.renderWidth && targetHeight == config.renderHeight
      ensures windowWidth == config.windowWidth && windowHeight == config.windowHeight
      ensures State() == Progress(0, IblPsnr, Finite(0.0), Finite(0.0), -1, [])
      ensures currentModelName == [] && views == [] && refModel == None && optModel == None
    {
      outputRoot := config.outputRoot;
      targetWidth := config.renderWidth;
      targetHeight := config.renderHeight;
      windowWidth := config.windowWidth;
      windowHeight := config.windowHeight;
      viewCount := config.viewCount;
      radius := config.radius;
      currentModelName := [];
      currentOutputDir := [];
      views := [];
      currentViewIdx := 0;
      currentPhase := IblPsnr;
      accumulatorError := Finite(0.0);
      currentViewError := Finite(0.0);
      lastSavedView := -1;
      refModel := None;
      optModel := None;
    }

    /** `UpdateState`, with `elapsed` saying whether the dwell time has
        passed since the last step; returns the phase result it prints. */
    method UpdateState(elapsed: bool) returns (report: Option<PhaseResult>)
      modifies this
      ensures State() == Tick(old(State()), old(Ctx()), elapsed)
      ensures report == Report(old(State()), |views|, elapsed)
      ensures Ctx() == old(Ctx()) && refModel == old(refModel) && optModel == old(optModel)
    {
      report := None;
      if currentPhase == Finished {
        return;
      }
      if elapsed {
        currentViewIdx := currentViewIdx + 1;
        if currentViewIdx >= |views| {
          currentViewIdx := 0;
          report := Some(PhaseResult(currentPhase, Average(accumulatorError, |views|)));
          accumulatorError := Finite(0.0);
          if currentPhase == IblPsnr {
            currentPhase := Silhouette;
            currentOutputDir := OutputDir(outputRoot, currentModelName, Silhouette);
            lastSavedView := -1;
          } else if currentPhase == Silhouette {
            currentPhase := Normal;
            currentOutputDir := OutputDir(outputRoot, currentModelName, Normal);
            lastSavedView := -1;
          } else if currentPhase == Normal {
            currentPhase := Finished;
          }
        }
      }
    }

    /** `SaveScreenshot`: the window contents flipped vertically, saved
        under the current output directory. */
    method SaveScreenshot(viewIdx: int, pixels: seq<Byte>) returns (shot: Screenshot)
      requires |pixels| == RowStart(windowHeight, windowWidth * 3)
      ensures shot == Screenshot(currentOutputDir, viewIdx, FlipRows(pixels, windowWidth * 3, windowHeight))
    {
      var flipped := FlipVertical(pixels, windowWidth, windowHeight);
      shot := Screenshot(currentOutputDir, viewIdx, flipped);
    }

    /** `RenderPasses`: nothing without views or after FINISHED; otherwise
        the frame is measured, its error accumulated, its heatmap returned
        for upload and, the first time the view is shown in this phase,
        its screenshot and CSV row returned. */
    method RenderPasses(frame: Frame, m: Math) returns (heatmap: Option<seq<Byte>>, saved: Option<Saved>)
      requires FrameFits(frame, Ctx()) && IndexInRange(State(), |views|)
      modifies this
      ensures State() == Render(old(State()), Ctx(), frame, m)
      ensures saved == SavedOf(old(State()), Ctx(), frame, m)
      ensures heatmap == if Draws(old(State()), |views|) then Some(HeatmapOf(old(currentPhase), frame, Ctx(), m)) else None
      ensures Ctx() == old(Ctx()) && refModel == old(refModel) && optModel == old(optModel)
    {
      if |views| == 0 || currentPhase == Finished {
        return None, None;
      }
      var err, hm := MeasureView(currentPhase, frame, Ctx(), m);
      currentViewError := err;
      accumulatorError := AddError(accumulatorError, currentViewError);
      heatmap := Some(hm);
      saved := None;
      if currentViewIdx != lastSavedView {
        var shot := SaveScreenshot(currentViewIdx, frame.window);
        var row := AppendToGlobalCSV(outputRoot, currentModelName, CsvLabel(currentPhase), currentViewIdx,
                                     currentViewError);
        saved := Some(Saved(shot, row));
        lastSavedView := currentViewIdx;
      }
    }

    /** The state reset of `ProcessSingleModel` for a model named
        `modelName`, with the views sampled without jitter. */
    method ResetForModel(modelName: string, draw: nat -> real, m: Math)
      requires targetHeight > 0
      modifies this
      ensures currentModelName == modelName
      ensures views == SceneCamera.Samples(viewCount, radius, targetWidth as real / targetHeight as real, 0.0, draw, m)
      ensures State() == Start(old(State()), outputRoot, modelName)
      ensures refModel == old(refModel) && optModel == old(optModel)
    {
      currentModelName := modelName;
      var aspect := targetWidth as real / targetHeight as real;
      views := SceneCamera.GenerateSamples(viewCount, radius, aspect, 0.0, draw, m);
      currentViewIdx := 0;
      accumulatorError := Finite(0.0);
      currentPhase := IblPsnr;
      lastSavedView := -1;
      currentOutputDir := OutputDir(outputRoot, modelName, IblPsnr);
    }

    /** `ProcessSingleModel`: load both models through the cache, reset the
        state, then run passes until FINISHED or until the window closes
        (the inputs run out). The result is the run of the loop over all
        inputs, since passes after FINISHED change nothing. */
    method ProcessSingleModel(rm: Resources.ResourceManager, refPath: string, optPath: string, modelName: string,
                              importer: string -> Option<AiScene>, loader: (string, string) -> nat,
                              draw: nat -> real, m: Math, inputs: seq<Input>)
      returns (reports: seq<PhaseResult>, saves: seq<Saved>)
      requires targetHeight > 0
      requires importer(refPath).Some? ==> SceneWellFormed(importer(refPath).value)
      requires importer(optPath).Some? ==> SceneWellFormed(importer(optPath).value)
      requires InputsFit(inputs, Context(viewCount, outputRoot, modelName, targetWidth, targetHeight,
                                         windowWidth, windowHeight))
      modifies this, rm
      ensures refPath in rm.modelCache && optPath in rm.modelCache
      ensures optModel == Some(rm.modelCache[optPath])
      ensures optPath != refPath ==> refModel == Some(rm.modelCache[refPath])
      ensures currentModelName == modelName && |views| == viewCount
      ensures Trace(State(), reports, saves) == Run(Start(old(State()), outputRoot, modelName), Ctx(), inputs, m)
    {
      var r := rm.LoadModel(refPath, importer, loader);
      refModel := Some(r);
      var o := rm.LoadModel(optPath, importer, loader);
      optModel := Some(o);
      ResetForModel(modelName, draw, m);
      reports, saves := RunPasses(inputs, m);
    }

    /** One pass of the loop: `UpdateState`, then `RenderPasses` (the
        heatmap goes to the display). */
    method Pass(input: Input, m: Math, ghost rs: seq<PhaseResult>, ghost ss: seq<Saved>)
      returns (report: Option<PhaseResult>, saved: Option<Saved>)
      requires FrameFits(input.frame, Ctx()) && IndexInRange(State(), |views|)
      modifies this
      ensures Trace(State(), rs + OptSeq(report), ss + OptSeq(saved)) == Step(Trace(old(State()), rs, ss), old(Ctx()), input, m)
      ensures Ctx() == old(Ctx()) && IndexInRange(State(), |views|)
      ensures refModel == old(refModel) && optModel == old(optModel)
    {
      TickSteps(State(), Ctx(), input.elapsed);
      report := UpdateState(input.elapsed);
      RenderKeepsClock(State(), Ctx(), input.frame, m);
      var heatmap;
      heatmap, saved := RenderPasses(input.frame, m);
    }

    /** The `while (!shouldClose && currentPhase != FINISHED)` loop, with
        the window closing when the inputs run out. */
    method RunPasses(inputs: seq<Input>, m: Math) returns (reports: seq<PhaseResult>, saves: seq<Saved>)
      requires InputsFit(inputs, Ctx()) && IndexInRange(State(), |views|)
      modifies this
      ensures Trace(State(), reports, saves) == Run(old(State()), old(Ctx()), inputs, m)
      ensures Ctx() == old(Ctx()) && refModel == old(refModel) && optModel == old(optModel)
    {
      ghost var ctx := Ctx();
      ghost var start := State();
      reports, saves := [], [];
      var i := 0;
      while i < |inputs| && currentPhase != Finished
        invariant 0 <= i <= |inputs|
        invariant Ctx() == ctx && IndexInRange(State(), |views|)
        invariant refModel == old(refModel) && optModel == old(optModel)
        invariant InputsFit(inputs[..i], ctx)
        invariant Trace(State(), reports, saves) == Run(start, ctx, inputs[..i], m)
        decreases |inputs| - i
      {
        var report, saved := Pass(inputs[i], m, reports, saves);
        reports := reports + OptSeq(report);
        saves := saves + OptSeq(saved);
        RunSnoc(start, ctx, inputs, i, m);
        i := i + 1;
      }
      if i < |inputs| {
        assert inputs[..i] + inputs[i..] == inputs;
        RunAfterFinished(start, ctx, inputs[..i], inputs[i..], m);
      } else {
        assert inputs[..i] == inputs;
      }
    }
  }
}
