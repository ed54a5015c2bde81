/**
 * The report builder `DataToPPT` of nanonis_reader/util.py: one slide per
 * file (`add_slide`) and the batch loop over a file-number range
 * (`generate_ppt`). The plotting and presentation libraries are reduced to
 * what reaches the deck: each slide's title, how many pictures it holds and
 * its caption, and whether drawing or captioning raised.
 */
module Report {
  import opened Wrappers
  import opened Text
  import opened Records
  import opened Resolver
  import opened Parameters

  /** The lock-in channel whose presence adds a third image to an .sxm slide. */
  const DemodChannel := "LI_Demod_1_X"

  /** Images `process_sxm_file` returns and `add_slide` places for an .sxm file. */
  function SxmImageCount(file: LoadedFile): nat
  {
    if DemodChannel in file.signals then 3 else 2
  }

  /** Images `process_dat_file` returns and `add_slide` places for a .dat file. */
  function DatImageCount(params: map<string, Value>): nat
  {
    if "sweep_z" in params then 2 else 3
  }

  /**
   * A .dat slide gets two images (linear and logarithmic I(z)) exactly
   * when the file has a `Z rel (m)` channel, and three (dI/dV, normalised
   * dI/dV, I(V)) otherwise.
   */
  lemma DatImageCountBySignal(file: LoadedFile)
    requires DatParameters(file).Ok?
    ensures DatImageCount(DatParameters(file).value) == if ZRel in file.signals then 2 else 3
  {
    if ZRel in file.signals {
      DatZBranch(file);
    } else {
      DatBiasBranch(file);
    }
  }

  /** The text box of a slide: built from the parameters, or a fixed text. */
  datatype Caption = InfoText(params: map<string, Value>) | FixedText(text: string)

  /** A slide as it ends up in the deck. */
  datatype Slide = Slide(title: string, pictures: nat, caption: Option<Caption>)

  /**
   * What the plotting collaborators and the caption's number formatting do
   * for one file: nothing wrong, an exception while drawing, or an
   * exception while formatting the caption (after the pictures are placed).
   */
  datatype RenderFault = NoFault | PlotFault(error: Exception) | CaptionFault(error: Exception)

  /** The slide `add_slide` leaves in the deck and what it raised, if anything. */
  datatype SlideOutcome = SlideOutcome(slide: Slide, raised: Option<Exception>)

  /** Drawing, placing `pictures` images, then writing the caption. */
  function Placed(title: string, params: map<string, Value>, pictures: nat, fault: RenderFault): SlideOutcome
  {
    match fault
    case NoFault => SlideOutcome(Slide(title, pictures, Some(InfoText(params))), None)
    case PlotFault(e) => SlideOutcome(Slide(title, 0, None), Some(e))
    case CaptionFault(e) => SlideOutcome(Slide(title, pictures, None), Some(e))
  }

  /**
   * `add_slide`: the slide, titled with the file name, is added first; the
   * rest depends on the suffix of the name. A name with none of the three
   * suffixes reaches the text box with no position computed and raises
   * UnboundLocalError.
   */
  function SlideFor(file: LoadedFile, fault: RenderFault): (r: SlideOutcome)
    ensures r.slide.title == "File: " + file.fname
    ensures r.raised.None? <==> r.slide.caption.Some?
  {
    var title := "File: " + file.fname;
    if EndsWith(file.fname, ".sxm") then
      match ScanParameters(file)
      case Err(e) => SlideOutcome(Slide(title, 0, None), Some(e))
      case Ok(params) => Placed(title, params, SxmImageCount(file), fault)
    else if EndsWith(file.fname, ".dat") then
      match DatParameters(file)
      case Err(e) => SlideOutcome(Slide(title, 0, None), Some(e))
      case Ok(params) => Placed(title, params, DatImageCount(params), fault)
    else if EndsWith(file.fname, ".3ds") then
      if fault.PlotFault? then SlideOutcome(Slide(title, 0, None), Some(fault.error))
      else SlideOutcome(Slide(title, 0, Some(FixedText("3DS file parameters"))), None)
    else SlideOutcome(Slide(title, 0, None), Some(OtherError("UnboundLocalError")))
  }

  /**
   * A completed .sxm slide holds three images exactly when the lock-in
   * channel is present, and two otherwise.
   */
  lemma SxmSlideImages(file: LoadedFile, fault: RenderFault)
    requires EndsWith(file.fname, ".sxm")
    ensures var r := SlideFor(file, fault);
      r.raised.None? ==> r.slide.pictures == (if DemodChannel in file.signals then 3 else 2)
  {
    assert ScanParameters(file) == SxmParameters(file.header);
  }

  /**
   * A completed .dat slide holds two images exactly for a Z sweep (a
   * `Z rel (m)` channel) and three otherwise.
   */
  lemma DatSlideImages(file: LoadedFile, fault: RenderFault)
    requires EndsWith(file.fname, ".dat")
    ensures var r := SlideFor(file, fault);
      r.raised.None? ==> r.slide.pictures == (if ZRel in file.signals then 2 else 3)
  {
    SuffixesExclusive(file.fname);
    if DatParameters(file).Ok? {
      DatImageCountBySignal(file);
    }
  }

  /**
   * The rest of an .sxm slide. When the parameters cannot be read, the
   * slide stays bare and their KeyError is what `add_slide` raises. When
   * drawing raises, no picture is placed; when the caption raises, the
   * pictures are placed but no caption. A completed slide's caption is
   * made from the file's sxm parameters.
   */
  lemma SxmSlideCaption(file: LoadedFile, fault: RenderFault)
    requires EndsWith(file.fname, ".sxm")
    ensures var r := SlideFor(file, fault);
      var p := SxmParameters(file.header);
      && (p.Err? ==> p.error.KeyError? && r == SlideOutcome(Slide("File: " + file.fname, 0, None), Some(p.error)))
      && (p.Ok? && fault.PlotFault? ==> r.slide.pictures == 0 && r.slide.caption.None? && r.raised == Some(fault.error))
      && (p.Ok? && fault.CaptionFault? ==>
            r.slide.pictures == SxmImageCount(file) && r.slide.caption.None? && r.raised == Some(fault.error))
      && (r.raised.None? <==> p.Ok? && fault.NoFault?)
      && (r.raised.None? ==> r.slide.caption == Some(InfoText(p.value)))
  {
    assert ScanParameters(file) == SxmParameters(file.header);
  }

  /** The same for a .dat slide, whose parameters come from `get_dat_parameters`. */
  lemma DatSlideCaption(file: LoadedFile, fault: RenderFault)
    requires EndsWith(file.fname, ".dat")
    ensures var r := SlideFor(file, fault);
      var p := DatParameters(file);
      && (p.Err? ==> p.error.KeyError? && r == SlideOutcome(Slide("File: " + file.fname, 0, None), Some(p.error)))
      && (p.Ok? && fault.PlotFault? ==> r.slide.pictures == 0 && r.slide.caption.None? && r.raised == Some(fault.error))
      && (p.Ok? && fault.CaptionFault? ==>
            r.slide.pictures == DatImageCount(p.value) && r.slide.caption.None? && r.raised == Some(fault.error))
      && (r.raised.None? <==> p.Ok? && fault.NoFault?)
      && (r.raised.None? ==> r.slide.caption == Some(InfoText(p.value)))
  {
    SuffixesExclusive(file.fname);
  }

  /**
   * A .3ds slide never holds an image, its placeholder is never placed;
   * unless drawing raised it carries the fixed caption.
   */
  lemma GridSlide(file: LoadedFile, fault: RenderFault)
    requires EndsWith(file.fname, ".3ds")
    ensures var r := SlideFor(file, fault);
      && r.slide.pictures == 0
      && (r.raised.None? <==> !fault.PlotFault?)
      && (r.raised.None? ==> r.slide.caption == Some(FixedText("3DS file parameters")))
  {
    SuffixesExclusive(file.fname);
  }

  /** A name with none of the three suffixes always fails, and not with a ValueError. */
  lemma UnknownSuffixSlide(file: LoadedFile, fault: RenderFault)
    requires !EndsWith(file.fname, ".sxm") && !EndsWith(file.fname, ".dat") && !EndsWith(file.fname, ".3ds")
    ensures var r := SlideFor(file, fault);
      && r.raised == Some(OtherError("UnboundLocalError"))
      && r.slide == Slide("File: " + file.fname, 0, None)
  {
  }

  // ---------------------------------------------------------------------
  // The batch
  // ---------------------------------------------------------------------

  /** The outside world: the filesystem's glob, the parsers, the plotting. */
  datatype Env = Env(glob: string -> seq<string>, load: Loader, render: LoadedFile -> RenderFault)

  /** What one batch run reads: where, which keyword, and the world. */
  datatype Job = Job(basePath: string, keyword: Keyword, env: Env)

  /** The slides one index adds to the deck and what it raised. */
  datatype StepResult = StepResult(appended: seq<Slide>, raised: Option<Exception>)

  /**
   * One pass of the loop body: load file number `i`; if that succeeds, add
   * its slide. A slide is added exactly when the file was loaded; it is
   * the slide `add_slide` builds, and what `add_slide` raises is raised.
   */
  function BatchStep(job: Job, i: int): (r: StepResult)
    ensures |r.appended| <= 1
    ensures var loaded := Resolve(job.basePath, IntNumber(i), job.keyword, job.env.glob, job.env.load);
      && (r.appended == [] <==> loaded.Err?)
      && (loaded.Err? ==> r.raised == Some(loaded.error))
      && (loaded.Ok? ==> var o := SlideFor(loaded.value, job.env.render(loaded.value));
            r == StepResult([o.slide], o.raised))
  {
    match Resolve(job.basePath, IntNumber(i), job.keyword, job.env.glob, job.env.load)
    case Err(e) => StepResult([], Some(e))
    case Ok(file) =>
      var outcome := SlideFor(file, job.env.render(file));
      StepResult([outcome.slide], outcome.raised)
  }

  /** Raised something the loop does not catch: anything but a ValueError. */
  predicate Aborts(raised: Option<Exception>)
  {
    raised.Some? && !raised.value.ValueError?
  }

  /** The deck built so far and the exception that ended the run, if one did. */
  datatype Run = Run(slides: seq<Slide>, abort: Option<Exception>)

  /** The outcome of each file number. */
  type StepFn = int -> StepResult

  /** The loop body of a job, as a function of the file number. */
  function StepOf(job: Job): (step: StepFn)
    ensures forall i :: |step(i).appended| <= 1
  {
    i => BatchStep(job, i)
  }

  /**
   * The loop over the numbers `lo..hi` in ascending order: a ValueError
   * goes on to the next number, any other exception ends the run, and
   * whatever a number appended stays in the deck.
   */
  function RunTo(step: StepFn, lo: int, hi: int): (r: Run)
    ensures r.abort.Some? ==> !r.abort.value.ValueError?
    decreases hi - lo
  {
    if hi < lo then Run([], None)
    else
      var prev := RunTo(step, lo, hi - 1);
      if prev.abort.Some? then prev
      else
        var last := step(hi);
        Run(prev.slides + last.appended, if Aborts(last.raised) then last.raised else None)
  }

  lemma AppendAssoc<T>(a: seq<T>, b: seq<T>, c: seq<T>)
    ensures a + (b + c) == (a + b) + c
  {
  }

  /** An empty range of numbers gives an empty deck and no exception. */
  lemma RunEmpty(step: StepFn, lo: int, hi: int)
    requires hi < lo
    ensures RunTo(step, lo, hi) == Run([], None)
  {
  }

  /** A run still going takes in the next number's outcome. */
  lemma RunNext(step: StepFn, lo: int, hi: int)
    requires lo <= hi
    requires RunTo(step, lo, hi - 1).abort.None?
    ensures RunTo(step, lo, hi).slides == RunTo(step, lo, hi - 1).slides + step(hi).appended
    ensures RunTo(step, lo, hi).abort == if Aborts(step(hi).raised) then step(hi).raised else None
  {
  }

  /** Once a run has ended, later numbers change nothing. */
  lemma {:induction false} RunAbortSticks(step: StepFn, lo: int, k: int, hi: int)
    requires k <= hi
    requires RunTo(step, lo, k).abort.Some?
    ensures RunTo(step, lo, hi) == RunTo(step, lo, k)
    decreases hi - k
  {
    if k < hi {
      RunAbortSticks(step, lo, k, hi - 1);
    }
  }

  /** Numbers that raise nothing but ValueErrors leave the run going. */
  lemma {:induction false} RunNoAbort(step: StepFn, lo: int, hi: int)
    requires forall i | lo <= i <= hi :: !Aborts(step(i).raised)
    ensures RunTo(step, lo, hi).abort.None?
    decreases hi - lo
  {
    if lo <= hi {
      RunNoAbort(step, lo, hi - 1);
    }
  }

  /** The file numbers in `lo..hi` that added a slide, in ascending order. */
  function SuccessfulIndices(step: StepFn, lo: int, hi: int): (r: seq<int>)
    decreases hi - lo
  {
    if hi < lo then []
    else
      var prev := SuccessfulIndices(step, lo, hi - 1);
      if step(hi).appended == [] then prev else prev + [hi]
  }

  /**
   * The numbers kept are exactly those in `lo..hi` whose step appended a
   * slide, in ascending order.
   */
  lemma {:induction false} SuccessfulIndicesSpec(step: StepFn, lo: int, hi: int)
    ensures var r := SuccessfulIndices(step, lo, hi);
      && (forall k | 0 <= k < |r| :: lo <= r[k] <= hi && step(r[k]).appended != [])
      && (forall i | lo <= i <= hi && step(i).appended != [] :: i in r)
      && (forall a, b | 0 <= a < b < |r| :: r[a] < r[b])
    decreases hi - lo
  {
    if lo <= hi {
      SuccessfulIndicesSpec(step, lo, hi - 1);
      var prev := SuccessfulIndices(step, lo, hi - 1);
      if step(hi).appended != [] {
        var r := prev + [hi];
        assert forall k | 0 <= k < |prev| :: r[k] == prev[k];
        assert r[|prev|] == hi;
      }
    }
  }

  /**
   * When each number in `lo..hi` adds at most one slide and raises nothing
   * but a ValueError, the run completes and its deck holds exactly one
   * slide per number that added one, in ascending order of the numbers.
   * An empty range gives an empty deck.
   */
  lemma {:induction false} RunSlides(step: StepFn, lo: int, hi: int)
    requires forall i | lo <= i <= hi :: |step(i).appended| <= 1 && !Aborts(step(i).raised)
    ensures var r := RunTo(step, lo, hi);
      var s := SuccessfulIndices(step, lo, hi);
      && r.abort.None?
      && |r.slides| == |s|
      && forall k | 0 <= k < |s| :: step(s[k]).appended == [r.slides[k]]
    decreases hi - lo
  {
    if lo <= hi {
      RunSlides(step, lo, hi - 1);
      var prev := RunTo(step, lo, hi - 1);
      var s := SuccessfulIndices(step, lo, hi - 1);
      var last := step(hi);
      RunNext(step, lo, hi);
      var r := RunTo(step, lo, hi);
      assert r.slides == prev.slides + last.appended;
      if last.appended == [] {
        assert SuccessfulIndices(step, lo, hi) == s;
        assert r.slides == prev.slides;
      } else {
        var s' := SuccessfulIndices(step, lo, hi);
        assert s' == s + [hi];
        assert last.appended == [last.appended[0]];
        forall k | 0 <= k < |s'| ensures step(s'[k]).appended == [r.slides[k]] {
          if k < |s| {
            assert s'[k] == s[k] && r.slides[k] == prev.slides[k];
          }
        }
      }
    }
  }

  /**
   * The first number in `lo..hi` that raises something other than a
   * ValueError ends the run with that exception; the deck then holds the
   * slides of the numbers before it and the slide that number had added.
   */
  lemma RunFirstAbort(step: StepFn, lo: int, k: int, hi: int)
    requires lo <= k <= hi
    requires Aborts(step(k).raised)
    requires forall i | lo <= i < k :: !Aborts(step(i).raised)
    ensures RunTo(step, lo, hi) == Run(RunTo(step, lo, k - 1).slides + step(k).appended, step(k).raised)
  {
    RunNoAbort(step, lo, k - 1);
    RunAbortSticks(step, lo, k, hi);
  }

  /**
   * A job whose numbers raise nothing but ValueErrors builds one slide per
   * file number that was loaded, in ascending order of the numbers, each
   * the slide `add_slide` makes for that file.
   */
  lemma JobSlides(job: Job, lo: int, hi: int)
    requires forall i | lo <= i <= hi :: !Aborts(BatchStep(job, i).raised)
    ensures var r := RunTo(StepOf(job), lo, hi);
      var s := SuccessfulIndices(StepOf(job), lo, hi);
      && r.abort.None?
      && |r.slides| == |s|
      && forall k | 0 <= k < |s| ::
           var loaded := Resolve(job.basePath, IntNumber(s[k]), job.keyword, job.env.glob, job.env.load);
           loaded.Ok? && r.slides[k] == SlideFor(loaded.value, job.env.render(loaded.value)).slide
  {
    RunSlides(StepOf(job), lo, hi);
    SuccessfulIndicesSpec(StepOf(job), lo, hi);
  }

  /** A number with no matching file is skipped with a ValueError. */
  lemma MissingFileSkipped(job: Job, i: int)
    requires job.env.glob(Pattern(job.basePath, job.keyword, NumberStr(IntNumber(i)))) == []
    ensures BatchStep(job, i).appended == []
    ensures BatchStep(job, i).raised == Some(ValueError(NotFoundMessage(NumberStr(IntNumber(i)), job.keyword)))
    ensures !Aborts(BatchStep(job, i).raised)
  {
  }

  /**
   * Numbers 10 to 12 where 11 has no matching file and the other two load
   * and raise nothing the loop does not catch: the run completes with two
   * slides, titled with the names of files 10 and 12, in that order.
   */
  lemma MiddleFileMissing(job: Job)
    requires job.env.glob(Pattern(job.basePath, job.keyword, NumberStr(IntNumber(11)))) == []
    requires Resolve(job.basePath, IntNumber(10), job.keyword, job.env.glob, job.env.load).Ok?
    requires Resolve(job.basePath, IntNumber(12), job.keyword, job.env.glob, job.env.load).Ok?
    requires !Aborts(BatchStep(job, 10).raised) && !Aborts(BatchStep(job, 12).raised)
    ensures var run := RunTo(StepOf(job), 10, 12);
      && run.abort.None? && |run.slides| == 2
      && run.slides[0].title == "File: " + Resolve(job.basePath, IntNumber(10), job.keyword, job.env.glob, job.env.load).value.fname
      && run.slides[1].title == "File: " + Resolve(job.basePath, IntNumber(12), job.keyword, job.env.glob, job.env.load).value.fname
  {
    MissingFileSkipped(job, 11);
    ThreeNumbers(StepOf(job), 10);
  }

  /** A run over three consecutive numbers none of which aborts. */
  lemma ThreeNumbers(step: StepFn, lo: int)
    requires !Aborts(step(lo).raised) && !Aborts(step(lo + 1).raised) && !Aborts(step(lo + 2).raised)
    ensures RunTo(step, lo, lo + 2) == Run(step(lo).appended + step(lo + 1).appended + step(lo + 2).appended, None)
  {
    RunEmpty(step, lo, lo - 1);
    RunNext(step, lo, lo);
    RunNext(step, lo, lo + 1);
    RunNext(step, lo, lo + 2);
    assert [] + step(lo).appended == step(lo).appended;
  }

  /**
   * A loaded .sxm file at number `k` whose header lacks one of the sxm keys
   * ends the run there: its bare slide is the last one added, and the
   * KeyError is what `generate_ppt` raises, provided no earlier number
   * raised anything but a ValueError.
   */
  lemma SxmMissingKeyEndsRun(job: Job, lo: int, k: int, hi: int)
    requires lo <= k <= hi
    requires forall i | lo <= i < k :: !Aborts(BatchStep(job, i).raised)
    requires var loaded := Resolve(job.basePath, IntNumber(k), job.keyword, job.env.glob, job.env.load);
      && loaded.Ok? && EndsWith(loaded.value.fname, ".sxm")
      && exists j | 0 <= j < |SxmFields| :: SxmFields[j].key !in loaded.value.header
    ensures var file := Resolve(job.basePath, IntNumber(k), job.keyword, job.env.glob, job.env.load).value;
      var run := RunTo(StepOf(job), lo, hi);
      && SxmParameters(file.header).Err?
      && run.abort == Some(SxmParameters(file.header).error)
      && run.abort.value.KeyError?
      && run.slides == RunTo(StepOf(job), lo, k - 1).slides + [Slide("File: " + file.fname, 0, None)]
  {
    var step := StepOf(job);
    var file := Resolve(job.basePath, IntNumber(k), job.keyword, job.env.glob, job.env.load).value;
    SxmSlideCaption(file, job.env.render(file));
    assert step(k) == BatchStep(job, k);
    assert forall i | lo <= i < k :: step(i) == BatchStep(job, i);
    RunFirstAbort(step, lo, k, hi);
  }

  /** What `generate_ppt` ends with: the saved deck, or the exception. */
  datatype RunResult = Saved(path: string, deck: seq<Slide>) | Aborted(error: Exception)

  class DataToPPT {
    const basePath: string
    const startNum: int
    const endNum: int
    const keyword: Keyword
    const outputFilename: string
    /** The presentation built in memory. */
    var prs: seq<Slide>

    constructor (basePath: string, startNum: int, endNum: int, keyword: Keyword, outputFilename: string)
      ensures this.basePath == basePath && this.startNum == startNum && this.endNum == endNum
      ensures this.keyword == keyword && this.outputFilename == outputFilename
      ensures prs == []
    {
      this.basePath := basePath;
      this.startNum := startNum;
      this.endNum := endNum;
      this.keyword := keyword;
      this.outputFilename := outputFilename;
      prs := [];
    }

    /** `add_slide`: the slide is appended even when filling it raises. */
    method AddSlide(file: LoadedFile, fault: RenderFault) returns (raised: Option<Exception>)
      modifies this
      ensures prs == old(prs) + [SlideFor(file, fault).slide]
      ensures raised == SlideFor(file, fault).raised
    {
      var outcome := SlideFor(file, fault);
      prs := prs + [outcome.slide];
      raised := outcome.raised;
    }

    /**
     * One pass of the loop body of `generate_ppt`: load file number `i` and,
     * when that succeeds, add its slide.
     */
    method LoadAndAdd(job: Job, i: int) returns (raised: Option<Exception>)
      modifies this
      ensures prs == old(prs) + BatchStep(job, i).appended
      ensures raised == BatchStep(job, i).raised
    {
      var loaded := Resolve(job.basePath, IntNumber(i), job.keyword, job.env.glob, job.env.load);
      if loaded.Err? {
        raised := Some(loaded.error);
      } else {
        raised := AddSlide(loaded.value, job.env.render(loaded.value));
      }
    }

    /**
     * The loop of `generate_ppt` over `startNum..endNum`: a number whose
     * loading or slide raises a ValueError is skipped, any other exception
     * ends the loop and is returned.
     */
    method ProcessRange(env: Env) returns (abort: Option<Exception>)
      modifies this
      ensures var run := RunTo(StepOf(Job(basePath, keyword, env)), startNum, endNum);
        prs == old(prs) + run.slides && abort == run.abort
    {
      var job := Job(basePath, keyword, env);
      var step := StepOf(job);
      var i := startNum;
      abort := None;
      while i <= endNum && abort.None?
        invariant startNum <= i && (i <= endNum + 1 || i == startNum)
        invariant prs == old(prs) + RunTo(step, startNum, i - 1).slides
        invariant abort == RunTo(step, startNum, i - 1).abort
        invariant abort.Some? ==> startNum < i <= endNum + 1
        decreases endNum - i
      {
        var raised := LoadAndAdd(job, i);
        RunNext(step, startNum, i);
        assert prs == old(prs) + RunTo(step, startNum, i).slides by {
          assert step(i) == BatchStep(job, i);
          AppendAssoc(old(prs), RunTo(step, startNum, i - 1).slides, step(i).appended);
        }
        abort := if Aborts(raised) then raised else None;
        i := i + 1;
      }
      if abort.Some? {
        RunAbortSticks(step, startNum, i - 1, endNum);
      } else if i - 1 != endNum {
        RunEmpty(step, startNum, i - 1);
        RunEmpty(step, startNum, endNum);
      }
    }

    /**
     * `generate_ppt`: run the loop; when it completes, the deck is saved
     * under `basePath + "PPT/" + outputFilename`, a plain concatenation.
     */
    method GeneratePpt(env: Env) returns (result: RunResult)
      modifies this
      ensures var run := RunTo(StepOf(Job(basePath, keyword, env)), startNum, endNum);
        && prs == old(prs) + run.slides
        && result == if run.abort.Some? then Aborted(run.abort.value) else Saved(basePath + "PPT/" + outputFilename, prs)
    {
      var abort := ProcessRange(env);
      if abort.Some? {
        return Aborted(abort.value);
      }
      result := Saved(basePath + "PPT/" + outputFilename, prs);
    }
  }
}
