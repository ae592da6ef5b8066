/** The single-flight analyzer. Its state is the `analyzing` flag, the id of
    the last accepted image and at most one pending completion. Timers are
    events: Submit (the effect sees an image), Complete (the analysis timeout
    fires) and Cleanup (the component goes away).

    The step functions below are the specification; the class ImageAnalyzer
    is the component with its fields, proved against them. */
module AnalyzerComponent {
  import opened Types
  import opened QualityAnalysis

  /** The floor on the analysis time, in ms. */
  const MinAnalysisDelay: int := 500

  /** The time between acceptance and completion. */
  function EffectiveDelay(config: AnalyzerConfig): (d: int)
    ensures d >= MinAnalysisDelay && d >= config.analysisDelay
    ensures d == MinAnalysisDelay || d == config.analysisDelay
  {
    if config.analysisDelay > MinAnalysisDelay then config.analysisDelay else MinAnalysisDelay
  }

  /** A scheduled completion: the image and configuration captured at acceptance. */
  datatype Pending = Pending(image: MockImage, config: AnalyzerConfig, delay: int)

  datatype AnalyzerState = AnalyzerState(
    analyzing: bool,
    lastImageId: Option<string>,
    pending: Option<Pending>)

  const Initial: AnalyzerState := AnalyzerState(false, None, None)

  /** A pending completion belongs to the image last accepted, while analyzing. */
  predicate Inv(s: AnalyzerState)
  {
    s.pending.Some? ==>
      s.analyzing
      && s.lastImageId == Some(s.pending.value.image.id)
      && s.pending.value.delay == EffectiveDelay(s.pending.value.config)
  }

  /** An image is taken when there is one, its id differs from the last
      accepted id, and no analysis is running. */
  predicate Accepts(s: AnalyzerState, image: Option<MockImage>)
  {
    image.Some?
    && (s.lastImageId.None? || s.lastImageId.value != image.value.id)
    && !s.analyzing
  }

  /** The effect body: accept the image, cancel any old timeout and schedule
      the completion. */
  function SubmitStep(s: AnalyzerState, image: Option<MockImage>, config: AnalyzerConfig): AnalyzerState
  {
    if Accepts(s, image) then
      AnalyzerState(true, Some(image.value.id), Some(Pending(image.value, config, EffectiveDelay(config))))
    else s
  }

  /** The analysis timeout fires: one feedback for the captured image and
      configuration, and the analyzer is free again. A cancelled timeout
      never fires, so without a pending completion nothing happens. */
  function CompleteStep(s: AnalyzerState, id: string, now: int): (AnalyzerState, Option<FeedbackMessage>)
  {
    match s.pending
    case None => (s, None)
    case Some(p) =>
      (AnalyzerState(false, s.lastImageId, None), Some(Feedback(p.image, p.config, id, now)))
  }

  /** The effect cleanup: cancel the pending completion; the flag and the
      last id stay as they are. */
  function CleanupStep(s: AnalyzerState): AnalyzerState
  {
    s.(pending := None)
  }

  datatype Event =
    | Submit(image: Option<MockImage>, config: AnalyzerConfig)
    | Complete(id: string, now: int)
    | Cleanup

  datatype RunResult = RunResult(state: AnalyzerState, emitted: seq<FeedbackMessage>, accepted: nat)

  function Step(s: AnalyzerState, e: Event): RunResult
  {
    match e
    case Submit(image, config) =>
      RunResult(SubmitStep(s, image, config), [], if Accepts(s, image) then 1 else 0)
    case Complete(id, now) =>
      var (t, out) := CompleteStep(s, id, now);
      RunResult(t, if out.Some? then [out.value] else [], 0)
    case Cleanup => RunResult(CleanupStep(s), [], 0)
  }

  /** Runs events in order, collecting the feedback emitted and counting acceptances. */
  function Run(s: AnalyzerState, events: seq<Event>): RunResult
    decreases |events|
  {
    if events == [] then RunResult(s, [], 0)
    else
      var first := Step(s, events[0]);
      var rest := Run(first.state, events[1..]);
      RunResult(rest.state, first.emitted + rest.emitted, first.accepted + rest.accepted)
  }

  // ---------------------------------------------------------------------------
  // Properties of the analyzer

  /** Every step keeps the invariant. */
  lemma StepKeepsInv(s: AnalyzerState, e: Event)
    requires Inv(s)
    ensures Inv(Step(s, e).state)
  {
  }

  /** On acceptance the previous timeout has always already fired or been
      cancelled, so at most one completion is ever pending. */
  lemma NothingPendingOnAccept(s: AnalyzerState, image: Option<MockImage>)
    requires Inv(s) && Accepts(s, image)
    ensures s.pending.None?
  {
  }

  /** While an analysis is in flight every submit is a no-op. */
  lemma SingleFlight(s: AnalyzerState, image: Option<MockImage>, config: AnalyzerConfig)
    requires Inv(s) && s.pending.Some?
    ensures SubmitStep(s, image, config) == s
  {
  }

  /** After a completion the same id is refused again, while a different id
      with the very same metrics is accepted: identity is the id alone. */
  lemma IdentityById(s: AnalyzerState, image: MockImage, config: AnalyzerConfig,
                     other: MockImage, id: string, now: int)
    requires Accepts(s, Some(image)) && other.id != image.id && other.quality == image.quality
    ensures var done := CompleteStep(SubmitStep(s, Some(image), config), id, now).0;
            !Accepts(done, Some(image)) && Accepts(done, Some(other))
  {
  }

  /** Cleanup cancels the pending completion: the completion emits nothing,
      and neither the flag nor the last id is reset. */
  lemma CleanupCancels(s: AnalyzerState, id: string, now: int)
    ensures CompleteStep(CleanupStep(s), id, now).1.None?
    ensures CleanupStep(s).analyzing == s.analyzing
    ensures CleanupStep(s).lastImageId == s.lastImageId
  {
  }

  /** The number of completions pending in a state (zero or one). */
  function PendingCount(s: AnalyzerState): nat
  {
    if s.pending.Some? then 1 else 0
  }

  /** At most one feedback per accepted image: over any run, the messages
      emitted plus the completion still pending never exceed the images
      accepted plus the completion pending at the start. */
  lemma {:induction false} AtMostOneFeedbackPerAcceptance(s: AnalyzerState, events: seq<Event>)
    requires Inv(s)
    ensures var r := Run(s, events);
            |r.emitted| + PendingCount(r.state) <= r.accepted + PendingCount(s)
    decreases |events|
  {
    if events != [] {
      var first := Step(s, events[0]);
      StepKeepsInv(s, events[0]);
      AtMostOneFeedbackPerAcceptance(first.state, events[1..]);
    }
  }

  /** Submits that arrive while an analysis is in flight change nothing and
      accept nothing. */
  lemma {:induction false} SubmitsWhileBusy(s: AnalyzerState, events: seq<Event>)
    requires Inv(s) && s.pending.Some?
    requires forall e :: e in events ==> e.Submit?
    ensures Run(s, events) == RunResult(s, [], 0)
    decreases |events|
  {
    if events != [] {
      assert events[0] in events;
      SingleFlight(s, events[0].image, events[0].config);
      assert forall e :: e in events[1..] ==> e in events;
      SubmitsWhileBusy(s, events[1..]);
    }
  }

  /** An accepted image yields exactly one feedback, computed from the image
      and configuration captured at acceptance, however many submits arrive
      before the timeout fires; then the analyzer is free again. */
  lemma AcceptedCompletesOnce(s: AnalyzerState, image: MockImage, config: AnalyzerConfig,
                              busy: seq<Event>, id: string, now: int)
    requires Inv(s) && Accepts(s, Some(image))
    requires forall e :: e in busy ==> e.Submit?
    ensures var r := Run(s, [Submit(Some(image), config)] + busy + [Complete(id, now)]);
            r.emitted == [Feedback(image, config, id, now)]
            && r.accepted == 1
            && !r.state.analyzing && r.state.pending.None?
            && r.state.lastImageId == Some(image.id)
  {
    var s1 := SubmitStep(s, Some(image), config);
    var events := [Submit(Some(image), config)] + busy + [Complete(id, now)];
    assert events[0] == Submit(Some(image), config);
    assert events[1..] == busy + [Complete(id, now)];
    var first := Step(s, events[0]);
    assert first == RunResult(s1, [], 1);
    SubmitsWhileBusy(s1, busy);
    RunAppend(s1, busy, [Complete(id, now)]);
    var done := AnalyzerState(false, Some(image.id), None);
    assert CompleteStep(s1, id, now) == (done, Some(Feedback(image, config, id, now)));
    assert [Complete(id, now)][1..] == [];
    var last := Run(s1, [Complete(id, now)]);
    assert last.state == done;
    assert last.emitted == [Feedback(image, config, id, now)] && last.accepted == 0;
    assert Run(s, events) == RunResult(last.state, [] + last.emitted, 1 + last.accepted);
  }

  /** Running two event lists one after the other. */
  lemma {:induction false} RunAppend(s: AnalyzerState, a: seq<Event>, b: seq<Event>)
    ensures var ra := Run(s, a);
            var rb := Run(ra.state, b);
            Run(s, a + b) == RunResult(rb.state, ra.emitted + rb.emitted, ra.accepted + rb.accepted)
    decreases |a|
  {
    if a == [] {
      assert a + b == b;
    } else {
      var first := Step(s, a[0]);
      assert (a + b)[0] == a[0];
      assert (a + b)[1..] == a[1..] + b;
      RunAppend(first.state, a[1..], b);
      var ra', ab := Run(first.state, a[1..]), Run(first.state, a[1..] + b);
      var rb := Run(ra'.state, b);
      assert ab.emitted == ra'.emitted + rb.emitted;
      EmittedAssoc(first.emitted, ra'.emitted, rb.emitted);
    }
  }

  lemma EmittedAssoc(x: seq<FeedbackMessage>, y: seq<FeedbackMessage>, z: seq<FeedbackMessage>)
    ensures x + (y + z) == x + y + z
  {
  }

  /** Submitting the same image twice in a row gives one feedback only. */
  lemma SameImageTwice(image: MockImage, config: AnalyzerConfig, id: string, now: int)
    ensures Run(Initial, [Submit(Some(image), config), Submit(Some(image), config), Complete(id, now)]).emitted
            == [Feedback(image, config, id, now)]
  {
    AcceptedCompletesOnce(Initial, image, config, [Submit(Some(image), config)], id, now);
    assert [Submit(Some(image), config)] + [Submit(Some(image), config)] + [Complete(id, now)]
        == [Submit(Some(image), config), Submit(Some(image), config), Complete(id, now)];
  }

  // ---------------------------------------------------------------------------
  // The effect as written: its dependency list includes `analyzing`, and a
  // change of any dependency runs the previous effect's cleanup before the
  // body runs again. Accepting an image sets `analyzing`, so the re-run
  // cancels the completion it has just scheduled.

  /** One render with the given props: the old cleanup, then the body; if the
      body changed `analyzing`, the component renders again and the same
      happens once more. */
  function EffectRunAsWritten(s: AnalyzerState, image: Option<MockImage>, config: AnalyzerConfig): AnalyzerState
  {
    var s1 := SubmitStep(CleanupStep(s), image, config);
    if s1.analyzing != s.analyzing then SubmitStep(CleanupStep(s1), image, config) else s1
  }

  datatype RenderEvent =
    | Render(image: Option<MockImage>, config: AnalyzerConfig)
    | Fire(id: string, now: int)

  /** The feedback emitted by the component as written over a list of renders and timer firings. */
  function RunAsWritten(s: AnalyzerState, events: seq<RenderEvent>): (AnalyzerState, seq<FeedbackMessage>)
    decreases |events|
  {
    if events == [] then (s, [])
    else
      match events[0]
      case Render(image, config) => RunAsWritten(EffectRunAsWritten(s, image, config), events[1..])
      case Fire(id, now) =>
        var (t, out) := CompleteStep(s, id, now);
        var (u, rest) := RunAsWritten(t, events[1..]);
        (u, (if out.Some? then [out.value] else []) + rest)
  }

  /** As written, accepting an image cancels its own completion: the flag is
      left set with nothing pending. */
  lemma AcceptCancelsItself(s: AnalyzerState, image: MockImage, config: AnalyzerConfig)
    requires Accepts(s, Some(image))
    ensures var t := EffectRunAsWritten(s, Some(image), config);
            t.analyzing && t.pending.None? && t.lastImageId == Some(image.id)
  {
  }

  /** Once the flag is set with nothing pending, the component as written
      never emits anything again and stays in that state. */
  lemma {:induction false} StuckForever(s: AnalyzerState, events: seq<RenderEvent>)
    requires s.analyzing && s.pending.None?
    ensures RunAsWritten(s, events).1 == []
    ensures RunAsWritten(s, events).0.analyzing && RunAsWritten(s, events).0.pending.None?
    decreases |events|
  {
    if events != [] {
      match events[0]
      case Render(image, config) =>
        StuckForever(EffectRunAsWritten(s, image, config), events[1..]);
      case Fire(id, now) =>
        StuckForever(s, events[1..]);
    }
  }

  /** As written, the first image ever shown is accepted and then no feedback
      is ever produced, whatever happens afterwards. */
  lemma NoFeedbackEverAsWritten(image: MockImage, config: AnalyzerConfig, later: seq<RenderEvent>)
    ensures RunAsWritten(Initial, [Render(Some(image), config)] + later).1 == []
  {
    var events := [Render(Some(image), config)] + later;
    assert events[1..] == later;
    AcceptCancelsItself(Initial, image, config);
    StuckForever(EffectRunAsWritten(Initial, Some(image), config), later);
  }

  // ---------------------------------------------------------------------------
  // The component with its fields (cleanup only when it is removed)

  class ImageAnalyzer {
    var analyzing: bool
    var lastImageId: Option<string>
    /** The handle of the last timeout set; it is not cleared when the timeout fires. */
    var timeoutRef: Option<nat>
    /** The completion the timer runtime will still run, if any. */
    var pending: Option<Pending>
    var nextTimer: nat
    /** The feedback handed to the completion callback so far. */
    var emitted: seq<FeedbackMessage>

    function State(): AnalyzerState
      reads this
    {
      AnalyzerState(analyzing, lastImageId, pending)
    }

    ghost predicate Valid()
      reads this
    {
      Inv(State())
      && (pending.Some? ==> timeoutRef.Some?)
      && (timeoutRef.Some? ==> timeoutRef.value < nextTimer)
    }

    constructor ()
      ensures Valid() && State() == Initial && emitted == []
    {
      analyzing := false;
      lastImageId := None;
      timeoutRef := None;
      pending := None;
      nextTimer := 0;
      emitted := [];
    }

    /** The effect body for the current image and configuration. */
    method Submit(image: Option<MockImage>, config: AnalyzerConfig) returns (accepted: bool)
      requires Valid()
      modifies this
      ensures Valid()
      ensures accepted == Accepts(old(State()), image)
      ensures State() == SubmitStep(old(State()), image, config)
      ensures accepted ==> analyzing && lastImageId == Some(image.value.id)
                           && pending.Some? && pending.value.delay >= MinAnalysisDelay
                           && timeoutRef == Some(old(nextTimer)) && nextTimer == old(nextTimer) + 1
      ensures !accepted ==> timeoutRef == old(timeoutRef) && nextTimer == old(nextTimer)
      ensures emitted == old(emitted)
    {
      accepted := false;
      if image.Some? && (lastImageId.None? || lastImageId.value != image.value.id) && !analyzing {
        lastImageId := Some(image.value.id);
        analyzing := true;
        if timeoutRef.Some? {
          pending := None;  // clearTimeout
        }
        pending := Some(Pending(image.value, config, EffectiveDelay(config)));
        timeoutRef := Some(nextTimer);
        nextTimer := nextTimer + 1;
        accepted := true;
      }
    }

    /** The analysis timeout fires. */
    method Complete(id: string, now: int) returns (feedback: Option<FeedbackMessage>)
      requires Valid()
      modifies this
      ensures Valid()
      ensures (State(), feedback) == CompleteStep(old(State()), id, now)
      ensures emitted == old(emitted) + (if feedback.Some? then [feedback.value] else [])
      ensures timeoutRef == old(timeoutRef) && nextTimer == old(nextTimer)
    {
      feedback := None;
      if pending.Some? {
        var p := pending.value;
        var message := AnalyzeImageQuality(p.image, p.config, id, now);
        emitted := emitted + [message];
        analyzing := false;
        pending := None;
        feedback := Some(message);
      }
    }

    /** The cleanup when the component is removed. */
    method Cleanup()
      requires Valid()
      modifies this
      ensures Valid()
      ensures State() == CleanupStep(old(State()))
      ensures emitted == old(emitted)
      ensures timeoutRef == old(timeoutRef) && nextTimer == old(nextTimer)
    {
      if timeoutRef.Some? {
        pending := None;  // clearTimeout
      }
    }
  }
}
