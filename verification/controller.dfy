/** `AnimationController` in util.js: the handle the sketches use to run, abort or finish
    an animation.

    The controller is a record; each method is a function from the old record to the new
    one. The callbacks the source receives (`work`, `reject`, `resolve`) are counted
    rather than called: `frames` counts the frames requested with `work`, `rejects` and
    `resolves` count the calls of the promise callbacks. */
module Controller {
  import opened Values

  datatype Status = Running | Aborted | Finished

  /** `beginTime` is `None` while it is `undefined`; `installed` says whether `setup` has
      given the controller its `abort` and `continue` methods. */
  datatype Controller = Controller(props: map<string, real>, beginTime: Option<real>,
                                   status: Status, progress: real, installed: bool,
                                   frames: nat, rejects: nat, resolves: nat)


  /** The result of a call: calling `abort` or `continue` before `setup` throws, since
      the methods do not exist yet. */
  datatype Outcome = Threw | Done(c: Controller)

  /** The constructor: the given properties are copied, the animation is running, no
      progress has been made and there is no begin time. */
  function New(props: map<string, real>): (c: Controller)
    ensures c.props == props && c.status == Running && c.progress == 0.0
    ensures c.beginTime == None && !c.installed
    ensures c.frames == 0 && c.rejects == 0 && c.resolves == 0
  {
    Controller(props, None, Running, 0.0, false, 0, 0, 0)
  }

  /** `setup(work, reject, beginTime)`: records the begin time and installs `abort` and
      `continue`; the status is not touched. */
  function Setup(c: Controller, beginTime: real): (c': Controller)
    ensures c'.beginTime == Some(beginTime) && c'.installed
    ensures c'.status == c.status && c'.rejects == c.rejects && c'.resolves == c.resolves
    ensures c'.frames == c.frames && c'.props == c.props && c'.progress == c.progress
  {
    c.(beginTime := Some(beginTime), installed := true)
  }

  /** `abort()`: a running animation becomes aborted and `reject` is called; otherwise
      nothing happens. */
  function Abort(c: Controller): (r: Outcome)
    ensures r.Threw? <==> !c.installed
    ensures r.Done? && c.status == Running ==> r.c == c.(status := Aborted, rejects := c.rejects + 1)
    ensures r.Done? && c.status != Running ==> r.c == c
  {
    if !c.installed then Threw
    else if c.status == Running then Done(c.(status := Aborted, rejects := c.rejects + 1))
    else Done(c)
  }

  /** `continue()`: a running animation requests its next frame; otherwise nothing
      happens. */
  function Continue(c: Controller): (r: Outcome)
    ensures r.Threw? <==> !c.installed
    ensures r.Done? && c.status == Running ==> r.c == c.(frames := c.frames + 1)
    ensures r.Done? && c.status != Running ==> r.c == c
  {
    if !c.installed then Threw
    else if c.status == Running then Done(c.(frames := c.frames + 1))
    else Done(c)
  }

  /** `finish(resolve)`: the animation is finished and `resolve` is called, whatever the
      status was. */
  function Finish(c: Controller): (c': Controller)
    ensures c'.status == Finished && c'.resolves == c.resolves + 1
    ensures c'.rejects == c.rejects && c'.frames == c.frames && c'.installed == c.installed
  {
    c.(status := Finished, resolves := c.resolves + 1)
  }

  /** The calls a sketch can make on its controller, including updates of `progress`. */
  datatype Call = CallSetup(beginTime: real) | CallAbort | CallContinue | CallFinish |
                  SetProgress(progress: real)

  /** One call. */
  function Step(c: Controller, call: Call): (r: Outcome)
    ensures call.CallSetup? || call.CallFinish? || call.SetProgress? ==> r.Done?
  {
    match call
    case CallSetup(t) => Done(Setup(c, t))
    case CallAbort => Abort(c)
    case CallContinue => Continue(c)
    case CallFinish => Done(Finish(c))
    case SetProgress(p) => Done(c.(progress := p))
  }

  /** A sequence of calls, stopping at the first that throws. */
  function Run(c: Controller, calls: seq<Call>): (r: Outcome)
    decreases |calls|
  {
    if |calls| == 0 then Done(c)
    else
      match Step(c, calls[0])
      case Threw => Threw
      case Done(c1) => Run(c1, calls[1..])
  }

  /** What every call keeps: `reject` has been called at most once, and not at all while
      the animation runs. */
  predicate Settled(c: Controller) {
    c.rejects <= 1 && (c.status == Running ==> c.rejects == 0)
  }

  lemma StepSettled(c: Controller, call: Call)
    requires Settled(c)
    ensures Step(c, call).Done? ==> Settled(Step(c, call).c)
    ensures Step(c, call).Done? && c.installed ==> Step(c, call).c.installed
  {
  }

  /** However a sketch drives its controller, `reject` is called at most once. */
  lemma {:induction false} RejectAtMostOnce(c: Controller, calls: seq<Call>)
    requires Settled(c)
    ensures Run(c, calls).Done? ==> Settled(Run(c, calls).c) && Run(c, calls).c.rejects <= 1
    decreases |calls|
  {
    if |calls| > 0 {
      StepSettled(c, calls[0]);
      if Step(c, calls[0]).Done? {
        RejectAtMostOnce(Step(c, calls[0]).c, calls[1..]);
      }
    }
  }

  /** Once set up, no call throws. */
  lemma {:induction false} SetupNeverThrows(c: Controller, calls: seq<Call>)
    requires c.installed
    ensures Run(c, calls).Done? && Run(c, calls).c.installed
    decreases |calls|
  {
    if |calls| > 0 {
      assert Step(c, calls[0]).Done? && Step(c, calls[0]).c.installed;
      SetupNeverThrows(Step(c, calls[0]).c, calls[1..]);
    }
  }

  /** Once an animation is no longer running, `abort` and `continue` change nothing. */
  lemma StoppedIgnoresAbortAndContinue(c: Controller)
    requires c.installed && c.status != Running
    ensures Abort(c) == Done(c) && Continue(c) == Done(c)
  {
  }

  /** After `finish`, `abort` has no effect: the animation stays finished and `reject` is
      not called. */
  lemma FinishedStaysFinished(c: Controller)
    requires c.installed
    ensures Abort(Finish(c)) == Done(Finish(c))
    ensures Finish(c).status == Finished
  {
  }

  /** A freshly set-up animation that is aborted calls `reject` exactly once, and a
      second `abort` does not call it again. */
  lemma AbortOnce(props: map<string, real>, t: real)
    ensures var c := Setup(New(props), t);
      Abort(c).Done? && Abort(c).c.rejects == 1 && Abort(c).c.status == Aborted &&
      Abort(Abort(c).c) == Abort(c)
  {
  }

  /** Frames are requested only while the animation runs. */
  lemma {:induction false} FramesOnlyWhileRunning(c: Controller, calls: seq<Call>)
    requires c.status != Running
    ensures Run(c, calls).Done? ==> Run(c, calls).c.frames == c.frames
    decreases |calls|
  {
    if |calls| > 0 && Step(c, calls[0]).Done? {
      FramesOnlyWhileRunning(Step(c, calls[0]).c, calls[1..]);
    }
  }
}
