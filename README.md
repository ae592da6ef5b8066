# Image quality analyzer — a verified model of its core

The analyzer watches a simulated camera feed. A generator produces a mock image
right away and then on a fixed interval. The analyzer component is meant to
work as follows: a single-flight analyzer takes the newest image it has not
seen, waits at least 500 ms, and classifies five integer metrics against
thresholds, giving one feedback message with a sentence and a severity. A
display keeps the live messages, adds new ones by id, and removes each one when
its timer fires.

The analyzer component as written does not do this. Its effect cancels its own
timeout, so no feedback is ever produced (see "## Findings"). The model proves
this about the code as written, and models the intended behaviour separately.

The model has seven modules:

- `Types` (`types.dfy`): the records of `src/types/index.ts`. Every metric and
  threshold is an `int`.
- `MessageText` (`message_text.dfy`): the seven issue phrases, the way the
  sentence is joined, and a reader that recovers the phrase list from a
  sentence.
- `QualityAnalysis` (`quality_analysis.dfy`): `analyzeImageQuality` and the
  default configuration. The checks and the composition are written as
  methods that mirror the code: pushes onto a list, a message type that only
  changes while it is still `success`, and the pop-and-join. They are proved
  equal to a specification in which:
  - the issue list is the concatenation of the five checks' phrase lists;
  - the severity is the join of the five checks' levels in the lattice
    success < info < warning < error.
- `AnalyzerComponent` (`image_analyzer.dfy`): the accept/complete/cleanup
  state machine of the `ImageAnalyzer` component, as step functions and
  event runs. The class `ImageAnalyzer` has the component's fields. Its
  methods are proved against those step functions.
- `FeedbackDisplayComponent` (`feedback_display.dfy`): the merge loop, the
  expiry filter, the loop that builds the timer map, and the class
  `FeedbackDisplay` with `ReceiveMessages`, `Expire` and `Teardown`.
- `GeneratorComponent` (`image_generator.dfy`): the class `ImageGenerator`.
  It holds the interval handle and the set of intervals the timer runtime
  still fires.
- `PreviewColors` (`image_preview.dfy`): the two colour-banding helpers of the
  preview bars.

These are parameters of the model: the random message id, the clock
(`Date.now()`), and the images the generator draws at random. Timers are
explicit events: `Complete`, `Tick`, `Expire` and `Cleanup`/`Teardown`.

Three behaviours of the code that the model keeps:

- Configuration, intervals and metric ranges are never validated, so there are
  no rejection paths.
- The merge checks incoming ids against the visible list as it was before the
  merge. Two incoming messages with the same new id are therefore both
  admitted (`SameIdInOneBatch`). The live set keeps distinct ids only when
  each batch has distinct ids (`MergeKeepsIdsUnique`).
- The display's teardown cancels every timer but does not empty the list.
  The component is simply gone.

## Model

| member | source | states |
|---|---|---|
| `Types.Worst` | src/utils/imageAnalyzer.ts:30-54 | the result is one of its two arguments and at least as severe as both (the lattice join that "replace only while success" computes) |
| `MessageText.ComposeText` | src/utils/imageAnalyzer.ts:57-67 | the sentence is "Good image quality" exactly when there are no issues, and otherwise starts with "Image is " |
| `MessageText.MatchPhrase` | src/utils/imageAnalyzer.ts:23-53 | a phrase found at the start of a text is one of the seven issue phrases and a prefix of the text |
| `MessageText.DecodeComposeRoundTrip` | src/utils/imageAnalyzer.ts:57-67 | reading the composed sentence back yields exactly the issue list, so the ", " / " and " joining loses nothing |
| `MessageText.ComposeInjective` | src/utils/imageAnalyzer.ts:57-67 | two issue lists give the same sentence only if they are equal |
| `QualityAnalysis.Issues` | src/utils/imageAnalyzer.ts:21-55 | at most five issues, each one of the seven phrases |
| `QualityAnalysis.Severity` | src/utils/imageAnalyzer.ts:19-61 | error iff sharpness is below its threshold; warning iff not blurry but a brightness, noise or contrast issue; info iff the only issue is saturation; success iff no issue |
| `QualityAnalysis.CollectIssues` | src/utils/imageAnalyzer.ts:17-55 | the push/escalate code yields exactly the concatenated check phrases and the lattice-join severity |
| `QualityAnalysis.ComposeMessage` | src/utils/imageAnalyzer.ts:57-67 | the pop-then-join code yields the composed sentence |
| `QualityAnalysis.AnalyzeImageQuality` | src/utils/imageAnalyzer.ts:13-76 | the message carries the composed sentence, the join severity (success when there are no issues), the supplied id and time, and `feedbackDuration` |
| `QualityAnalysis.PhraseIffCheck` | src/utils/imageAnalyzer.ts:21-55 | each phrase appears iff its strict comparison holds; "too bright" and "over-saturated" only when the low-side check did not fire |
| `QualityAnalysis.ConcatInCheckOrder` | src/utils/imageAnalyzer.ts:21-55 | two ordered phrase lists whose ranks do not overlap concatenate into an ordered list |
| `QualityAnalysis.CheckRanks` | src/utils/imageAnalyzer.ts:21-55 | each check contributes phrases of its own rank band (blurry; dark/bright; noisy; low contrast; under/over-saturated) |
| `QualityAnalysis.IssuesOrdered` | src/utils/imageAnalyzer.ts:21-55 | phrases come out strictly in check order, so none repeats |
| `QualityAnalysis.OnePhrasePerBand` | src/utils/imageAnalyzer.ts:27-55 | never both "too dark" and "too bright", never both "under-saturated" and "over-saturated" |
| `QualityAnalysis.BlurryIsError` | src/utils/imageAnalyzer.ts:22-25 | a sharpness failure gives an error whatever else fails, and "too blurry" is the first phrase |
| `QualityAnalysis.ThresholdsAreStrict` | src/utils/imageAnalyzer.ts:22-61 | metrics sitting exactly on their thresholds or band edges give no issue, "Good image quality" and success |
| `QualityAnalysis.TextDeterminesIssues` | src/utils/imageAnalyzer.ts:21-67 | two samples with the same message text have the same issue list |
| `QualityAnalysis.DefaultBandsOrdered` | src/utils/imageAnalyzer.ts:81-91 | the default brightness and saturation bands have lower edge below upper edge (30 < 70) |
| `QualityAnalysis.BlurryAndNoisyExample` | src/utils/imageAnalyzer.ts:21-67 | a blurry, noisy sample reads "Image is too blurry and too noisy", severity error |
| `QualityAnalysis.ComposeTwo` | src/utils/imageAnalyzer.ts:62-67 | two issues are joined as a, " and ", b |
| `QualityAnalysis.ComposeFour` | src/utils/imageAnalyzer.ts:62-67 | four issues are joined as a, b, c with ", " and then " and " d |
| `QualityAnalysis.FourPhraseText` | src/utils/imageAnalyzer.ts:62-67 | dark, noisy, low contrast, over-saturated read "Image is too dark, too noisy, low contrast and over-saturated" |
| `QualityAnalysis.FourIssueExample` | src/utils/imageAnalyzer.ts:21-67 | a dark, noisy, flat, over-saturated sample gets that sentence and a warning, not info |
| `AnalyzerComponent.EffectiveDelay` | src/components/ImageAnalyzer.tsx:32 | the analysis delay is at least 500 and at least `analysisDelay`, and is one of the two |
| `AnalyzerComponent.StepKeepsInv` | src/components/ImageAnalyzer.tsx:17-40 | every submit, completion and cleanup keeps "a pending completion belongs to the last accepted id while analyzing" |
| `AnalyzerComponent.NothingPendingOnAccept` | src/components/ImageAnalyzer.tsx:22-25 | when an image is accepted no completion is pending, so at most one is ever pending |
| `AnalyzerComponent.SingleFlight` | src/components/ImageAnalyzer.tsx:17 | while an analysis is pending every submit leaves the state unchanged |
| `AnalyzerComponent.IdentityById` | src/components/ImageAnalyzer.tsx:17-31 | after completion the same id is refused, while another id with identical metrics is accepted |
| `AnalyzerComponent.CleanupCancels` | src/components/ImageAnalyzer.tsx:36-40 | after cleanup a completion emits nothing; `analyzing` and the last id are not reset |
| `AnalyzerComponent.AtMostOneFeedbackPerAcceptance` | src/components/ImageAnalyzer.tsx:17-32 | over any event run, feedback emitted plus completions still pending never exceed images accepted plus the one pending at the start |
| `AnalyzerComponent.SubmitsWhileBusy` | src/components/ImageAnalyzer.tsx:17 | any number of submits during an analysis accept nothing and emit nothing |
| `AnalyzerComponent.RunAppend` | src/components/ImageAnalyzer.tsx:15-41 | running two event lists in sequence concatenates their emissions and adds their acceptance counts |
| `AnalyzerComponent.AcceptedCompletesOnce` | src/components/ImageAnalyzer.tsx:17-32 | an accepted image, followed by any submits and then the timeout, emits exactly one feedback, equal to the analysis of the image and config captured at acceptance, and frees the analyzer |
| `AnalyzerComponent.SameImageTwice` | src/components/ImageAnalyzer.tsx:17-31 | submitting one image twice and completing yields exactly one feedback |
| `AnalyzerComponent.AcceptCancelsItself` | src/components/ImageAnalyzer.tsx:15-41 | with the dependency list as written, accepting an image leaves `analyzing` set with nothing pending |
| `AnalyzerComponent.StuckForever` | src/components/ImageAnalyzer.tsx:15-41 | from "analyzing, nothing pending", the component as written never emits and never leaves that state |
| `AnalyzerComponent.NoFeedbackEverAsWritten` | src/components/ImageAnalyzer.tsx:15-41 | as written, after the first image no feedback is ever produced, whatever renders and timer firings follow |
| `AnalyzerComponent.ImageAnalyzer.constructor` | src/components/ImageAnalyzer.tsx:10-12 | starts not analyzing, with no last image, nothing pending and nothing emitted |
| `AnalyzerComponent.ImageAnalyzer.Submit` | src/components/ImageAnalyzer.tsx:17-33 | accepts exactly when the step function does; on acceptance records the id, sets `analyzing` and schedules one completion with delay at least 500 under a new timeout handle; a rejected submit changes nothing, the handle included |
| `AnalyzerComponent.ImageAnalyzer.Complete` | src/components/ImageAnalyzer.tsx:28-31 | a pending completion emits the analysis of the captured image and config and clears `analyzing`; a cancelled one does nothing |
| `AnalyzerComponent.ImageAnalyzer.Cleanup` | src/components/ImageAnalyzer.tsx:36-40 | cancels the pending completion and changes nothing else |
| `FeedbackDisplayComponent.Admitted` | src/components/FeedbackDisplay.tsx:56-60 | a message is admitted iff it is incoming and its id is not in the pre-merge visible list |
| `FeedbackDisplayComponent.RemoveId` | src/components/FeedbackDisplay.tsx:75 | a message is kept iff its id differs from the expired id |
| `FeedbackDisplayComponent.FirstWithId` | src/components/FeedbackDisplay.tsx:72-73 | the message chosen for an id is a visible message carrying that id |
| `FeedbackDisplayComponent.MergeVisible` | src/components/FeedbackDisplay.tsx:53-60 | the loop's result is the old visible list, unchanged as a prefix, followed by the admitted messages |
| `FeedbackDisplayComponent.ArmTimers` | src/components/FeedbackDisplay.tsx:69-80 | the loop arms exactly one timer per distinct visible id, with the duration of the first message carrying it |
| `FeedbackDisplayComponent.IdsAppend` | src/components/FeedbackDisplay.tsx:72-80 | the ids of a concatenation are the union of the ids |
| `FeedbackDisplayComponent.FirstWithIdAppend` | src/components/FeedbackDisplay.tsx:72-80 | in a concatenation the first carrier of an id is found in the first part when present there |
| `FeedbackDisplayComponent.AdmittedAppend` | src/components/FeedbackDisplay.tsx:56-60 | merging a batch in pieces equals merging it at once, so admitted messages keep their incoming order |
| `FeedbackDisplayComponent.MergeEmpty` | src/components/FeedbackDisplay.tsx:52 | an empty batch leaves the visible list unchanged |
| `FeedbackDisplayComponent.MergeLength` | src/components/FeedbackDisplay.tsx:56-60 | the new length is the old length plus the number of incoming messages whose id is not visible |
| `FeedbackDisplayComponent.AdmittedAllKnown` | src/components/FeedbackDisplay.tsx:57 | a batch whose ids are all visible admits nothing |
| `FeedbackDisplayComponent.MergeIdempotent` | src/components/FeedbackDisplay.tsx:57 | merging the same batch a second time adds nothing |
| `FeedbackDisplayComponent.AdmittedUnique` | src/components/FeedbackDisplay.tsx:56-60 | a batch with distinct ids admits messages with distinct ids |
| `FeedbackDisplayComponent.MergeKeepsIdsUnique` | src/components/FeedbackDisplay.tsx:53-60 | distinct ids in the visible list and in the batch give distinct ids after the merge |
| `FeedbackDisplayComponent.SameIdInOneBatch` | src/components/FeedbackDisplay.tsx:57 | two incoming messages sharing a new id are both admitted, leaving a duplicate id |
| `FeedbackDisplayComponent.RemoveAbsentId` | src/components/FeedbackDisplay.tsx:75 | expiring an id that is not visible changes nothing |
| `FeedbackDisplayComponent.RemoveIdAppend` | src/components/FeedbackDisplay.tsx:75 | expiry filters each part separately, so kept messages stay in their original order |
| `FeedbackDisplayComponent.FeedbackDisplay.constructor` | src/components/FeedbackDisplay.tsx:47 | starts mounted with no visible messages and no timers |
| `FeedbackDisplayComponent.FeedbackDisplay.RestartTimers` | src/components/FeedbackDisplay.tsx:67-86 | after cleanup of the old map, the new map has one timer per visible id |
| `FeedbackDisplayComponent.FeedbackDisplay.ReceiveMessages` | src/components/FeedbackDisplay.tsx:50-64 | the visible list becomes the old list plus the admitted messages; an empty batch changes nothing, timers included |
| `FeedbackDisplayComponent.FeedbackDisplay.Expire` | src/components/FeedbackDisplay.tsx:74-76 | only an armed timer fires, and then every message with that id is removed and all others are kept in order |
| `FeedbackDisplayComponent.FeedbackDisplay.Teardown` | src/components/FeedbackDisplay.tsx:83-85 | every timer is cancelled, so no expiry can fire afterwards |
| `GeneratorComponent.ImageGenerator.ActiveIntervals` | src/components/ImageGenerator.tsx:14-30 | the number of live intervals is at most one, and one is live exactly when the ref holds a handle |
| `GeneratorComponent.ImageGenerator.constructor` | src/components/ImageGenerator.tsx:10 | starts with a null ref, no live interval and nothing emitted |
| `GeneratorComponent.ImageGenerator.RunEffect` | src/components/ImageGenerator.tsx:12-30 | the old interval is stopped first; when enabled one image is emitted at once and exactly one new interval is live; when disabled none is live, nothing is emitted and the period and handle counter stay as they were |
| `GeneratorComponent.ImageGenerator.Tick` | src/components/ImageGenerator.tsx:26-29 | a live interval's tick emits exactly one image; a stopped one emits nothing |
| `GeneratorComponent.ImageGenerator.Cleanup` | src/components/ImageGenerator.tsx:33-38 | clears the interval and nulls the ref, keeping the emitted images, the period and the handle counter; with no interval it changes nothing |
| `GeneratorComponent.RestartScenario` | src/components/ImageGenerator.tsx:12-39 | start, tick, restart: the images are emitted in order, and the stopped interval's tick emits nothing |
| `PreviewColors.ColorForMetric` | src/components/ImagePreview.tsx:94-107 | green iff value >= 70, yellow iff 40 <= value < 70, red otherwise; inverted: green iff <= 30, yellow iff 30 < value <= 60, red otherwise |
| `PreviewColors.ColorForOptimalRange` | src/components/ImagePreview.tsx:109-114 | green iff inside [minOptimal, maxOptimal]; yellow iff outside it but within 15 of it; red otherwise |
| `PreviewColors.MetricColorMonotone` | src/components/ImagePreview.tsx:94-107 | a higher value never gets a worse colour, and for the inverse scale a lower one never does |
| `PreviewColors.OptimalRangeTowardsBand` | src/components/ImagePreview.tsx:109-114 | moving a value towards the optimal range never worsens its colour |
| `PreviewColors.DefaultOptimalRange` | src/components/ImagePreview.tsx:109-114 | with the defaults 40 and 60: green on 40..60, yellow on 25..39 and 61..75 |

## Findings

| source | as written | input that shows it | evidently intended | confidence | as-written member | corrected member |
|---|---|---|---|---|---|---|
| src/components/ImageAnalyzer.tsx:36-41 | The effect lists `analyzing` among its dependencies, and its cleanup clears `timeoutRef.current`. Accepting an image calls `setAnalyzing(true)`, which re-runs the effect. The re-run's cleanup cancels the completion that was just scheduled, and `analyzing` stays true. | The first image ever shown, with any configuration. | The pending completion is cancelled only when the component unmounts. Each accepted image then yields one feedback. | high; not executed | `AnalyzerComponent.NoFeedbackEverAsWritten` | `AnalyzerComponent.AcceptedCompletesOnce` |

The class `AnalyzerComponent.ImageAnalyzer` follows the corrected behaviour:
`Cleanup` is the unmount.

## Left out

- Elapsed time is not modelled. The model does not cover the real `setTimeout`/`setInterval` durations or React's scheduling of effects. The analysis delay is computed and stored with the pending completion. Every timer firing is an explicit event.
- The display's timer effect rebuilds every timeout whenever the visible list changes. Each message's countdown therefore restarts when another message arrives or expires. The model keeps the set of armed ids and their durations but not the countdowns.
- `generateMessageId`, `Date.now()` and the mock image generator (`src/utils/mockImageGenerator.ts`, including the canvas drawing) are not part of this model. Their results are parameters.
- The styled components and JSX of every component are not modelled. `ImagePreview` is covered only through its two colour helpers, which return a `Color` value instead of a hex string.
- `src/components/ImageQualityAnalyzer.tsx` (config merge, appending feedback to the list), `src/demo.tsx` and `src/index.ts` are not part of this model.
- `FeedbackDisplayComponent.FeedbackDisplay.ReceiveMessages`: requires the component to be mounted, because an unmounted component receives no props.
- `visibleMessages.find(...)` in the merge is modelled as a membership test on the set of visible ids.
- The generator's interval length is recorded but never checked. The code accepts non-positive intervals too.
