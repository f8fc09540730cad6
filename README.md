# ValidatorForm, modelled in Dafny

This project models `ValidatorForm`, the form component of react-validator-form.
The component has three parts:

- **Locator.** It walks the children of the form element and builds two lists. One is the
  bound widgets (`seekInDom`). The other is the "submit buttons" (`seekButtons`).
- **Extraction.** On a submit-intent it folds the bound widgets into a map from name to value.
- **State machine.** It validates the extracted contents and stores the verdict. After each
  state change it reacts: when the guard holds, it disables the buttons and calls the host's
  `submit`. When `submit` settles it calls the host hooks, clears the validation and
  re-enables the buttons.

Modules:

- `Wrappers` holds `Option` and `Result`.
- `Dom` is an abstract snapshot of the rendered subtree. An `Element` has an id, a tag, a
  `type` (`kind`), a name, a value, a flag saying whether it is an HTMLElement, and children.
- `Locator` holds the two walks as imperative methods: `SeekInDom` (with its loop
  `ScanChildren`) and `SeekButtons`. Each is proved against a specification function
  (`WidgetsUpTo`, `ButtonsUpTo`). The widget list is also proved equal to an independent
  description: every descendant in pre-order, each with its chain of ancestors (`ChainsUpTo`),
  filtered to the widgets that have no collected or non-HTML node above them (`Eligible`).
- `Extraction` holds the `reduce` as the loop `Collect`, proved against the left fold
  `FoldValues` and the error path `Extract`.
- `FormState` holds the pure part. It has the `State` record, the writes, and a machine
  `StepOf`/`RunOf` over events: a submit-intent, a did-update reaction, the settling of an
  awaited `submit`, and the finally block that follows. Every step appends its effects to a log
  in the order they happen: hook calls, state writes, and the disabling or re-enabling of
  buttons. `Step` is the code as written. `StepFixed` is the corrected code described under
  "## Findings". The module also has `Render` and the lemmas about runs.
- `Form` holds the class `ValidatorForm`. Its fields are `nodes`, `submitButtons`, `state`,
  the set of button ids it has disabled, the reactions suspended at the `await` of `submit`,
  the reaction whose outcome code is running, and a ghost log of effects. `HandleSubmit`,
  `DidUpdate`, `ResumeAfterSubmit` and `FinishSubmit` state their new configuration as `Step`
  applied to the old one, so the class follows the code as written. `DidMount`,
  `WillUnmount`, `Scan` and `AttachRef` state the lists or the form element directly.

The `await` in `componentDidUpdate` splits that method in three. `DidUpdate` runs up to the
`submit` call. `ResumeAfterSubmit(index, outcome)` runs the success or apiError hook and its
write. `FinishSubmit` runs the finally block and then the `unfreeze` re-scan, which in the
source runs after the whole guarded block. Every write is immediate, and a did-update reaction
may run after any write, including between the outcome write and the finally block.

Two facts about the code that a reader might not expect:

- `seekButtons` runs `seekInDom` below a child that is not a submit button (form.tsx:128). So
  nested submit buttons are never collected, and nested input/select/textarea nodes land in
  the button list (`ButtonsArePreorderEligible`).
- `submitting` can hold while no validation is stored (`SubmittingWithoutValidation`). A
  submission that resolves with no `success` hook leaves `submitting` set, and the finally
  block clears the validation. What the code does keep is `Sound`: at most one `submit` is
  awaited, an awaited `submit` implies `submitting`, and a stored validation comes with stored
  values.

## Model

| member | source | states |
|---|---|---|
| Locator.SeekInDom | src/components/form.tsx:135-150 | An absent node returns the accumulator unchanged. A present node appends exactly `Widgets(node)`. So two scans of an unchanged tree give identical lists. |
| Locator.ScanChildren | src/components/form.tsx:139-149 | The loop over the children appends, in document order, each HTML child whose tag is in the list. It recurses into every other HTML child and skips non-HTML children. |
| Locator.WidgetsUpTo | src/components/form.tsx:139-149 | Every node the walk collects is an HTML element whose tag is `input`, `select` or `textarea`. |
| Locator.WidgetsArePreorderEligible | src/components/form.tsx:135-150 | The walk returns, in pre-order document order, exactly the descendants that are widgets and have no widget and no non-HTML node above them. The root is never included, and the walk never descends into a collected node. |
| Locator.ChainsArePaths | src/components/form.tsx:139-145 | Every entry of the pre-order enumeration is a path going down from the root through the children, so the walk only ever reports descendants. |
| Locator.SeekButtons | src/components/form.tsx:118-133 | An absent node returns the accumulator unchanged. Otherwise it appends each direct-child submit button, and for every other HTML child what `seekInDom` finds below it. |
| Locator.ButtonsUpTo | src/components/form.tsx:122-131 | Every entry of the button list is either a widget or a submit button that is a direct child of the form. A nested submit button is never collected. |
| Locator.DirectSubmitButtonsCollected | src/components/form.tsx:125-126 | Every direct child that is a submit button is in the button list. |
| Locator.ButtonsArePreorderEligible | src/components/form.tsx:118-133 | The button list is, in pre-order document order, exactly the direct children that are submit buttons plus what seekInDom takes below every other HTML direct child. So a direct-child widget is never in it, a nested submit button never is, and every widget below a non-button child is. |
| Extraction.Collect | src/components/form.tsx:98-108 | The reduce fails with "Unknown element bound!" exactly when some node is not a select, input or textarea. Otherwise it returns the left fold of the nodes into an empty object, where a node named `__proto__` adds no key. |
| Extraction.FoldKeys | src/components/form.tsx:98-108 | The keys of the extracted map are exactly the names of the nodes, except `__proto__`. |
| Extraction.FoldLastWins | src/components/form.tsx:104 | A name other than `__proto__` maps to the value of the last node in list order that carries it. |
| FormState.ValidationEffectsTally | src/components/form.tsx:109-115 | A validation pass calls `correct` exactly once when the verdict is valid and never otherwise. It never calls `submit`. |
| FormState.StartEffectsTally | src/components/form.tsx:46-49 | Starting a submission calls `submit` once and `correct` never. |
| FormState.OutcomeEffectsTally | src/components/form.tsx:50-58 | Handling the outcome of `submit` calls neither `submit` nor `correct`. |
| FormState.FinallyEffectsTally | src/components/form.tsx:59-65 | The finally block calls neither `submit` nor `correct`. |
| FormState.StepKeepsSound | src/components/form.tsx:43-65 | Every event, of the code as written and of the corrected code, keeps `Sound`: at most one `submit` awaited, an awaited `submit` implies `submitting`, a stored validation comes with values. |
| FormState.RunKeepsSound | src/components/form.tsx:43-65 | Every sequence of events keeps `Sound`. |
| FormState.OneSubmissionInFlight | src/components/form.tsx:45-49 | On any run of the code from the initial state, at most one `submit` is awaited, and a reaction that finds one awaited changes nothing. |
| FormState.DoubleSubmission | src/components/form.tsx:45-64 | With a `success` hook, a valid pass whose `submit` resolves, with a reaction to the success write, calls `submit` twice for one `correct`. The finally block then re-enables the buttons while the second `submit` is awaited. The corrected code calls `submit` once on the same events. |
| FormState.OutcomeWriteReopensGuard | src/components/form.tsx:45-63 | The success or apiError write leaves the guard of line 45 open again. The finally block's write closes it. The corrected outcome write closes it at once. |
| FormState.FixedStepKeepsInvariants | src/components/form.tsx:43-65 | Every event of the corrected code keeps `Sound` and the count: `submit` calls plus the open guard never exceed `correct` calls. |
| FormState.FixedRunKeepsInvariants | src/components/form.tsx:43-65 | Every sequence of events of the corrected code keeps both invariants. |
| FormState.SubmitsNeverExceedCorrects | src/components/form.tsx:45-63 | On any run of the corrected code from the initial state, `submit` is called no more often than `correct`, so each submission belongs to its own valid pass. |
| FormState.SettleResetsSubmittingIffHook | src/components/form.tsx:49-58 | When the awaited `submit` settles, `submitting` is reset exactly when the hook matching the outcome (`success` or `apiError`) is present. That hook is called before its write, and the reaction moves on to its finally block. |
| FormState.FinallyInOrder | src/components/form.tsx:59-64 | The finally block calls `complete` (when present) with the captured values, then writes the cleared validation, then re-enables the buttons, last. |
| FormState.FrozenRun | src/components/form.tsx:45 | While `submitting` is set and no `submit` is awaited, no sequence of events calls `submit` again or clears `submitting`. |
| FormState.StuckWithoutHook | src/components/form.tsx:49-65 | A submission that settles without its matching hook leaves `submitting` set for good, and `submit` is never called again. |
| FormState.ValidPassSubmitsOnce | src/components/form.tsx:45-49 | From a state that is not submitting, a valid pass then a reaction has these effects in order: validate, correct, the write, the buttons disabled, `submitting` written, `submit` with the extracted contents. A further reaction does nothing. |
| FormState.InvalidPassNeverSubmits | src/components/form.tsx:109-115 | An invalid pass calls validate then error before its write, and the reaction after it starts nothing. |
| FormState.SubmittingWithoutValidation | src/components/form.tsx:45-63 | A reachable state has `submitting` set and no validation stored: a valid pass whose submission resolves with no `success` hook. |
| FormState.RenderInOrder | src/components/form.tsx:78-91 | The views appear in the fixed order error, api-error, loading, correct, with the children last. |
| FormState.RenderShowsIff | src/components/form.tsx:80-89 | Each view is shown exactly when its guard and its hook hold: error (invalid validation), api-error (stored error), loading (submitting), correct (valid validation). Each receives the stored values, verdict or error. |
| FormState.OutcomeViewsGetValues | src/components/form.tsx:80-89 | In a sound configuration, the error and correct views never receive null values. |
| Form.ValidatorForm.constructor | src/components/form.tsx:28-38 | Both lists are empty, the state is the initial record, and nothing is disabled, awaited or logged. |
| Form.ValidatorForm.AttachRef | src/components/form.tsx:79 | The ref callback stores the form element. |
| Form.ValidatorForm.Scan | src/components/form.tsx:40-41 | Both lists are scanned afresh from the form element. Both are empty while it is absent. |
| Form.ValidatorForm.DidMount | src/components/form.tsx:39-42 | After mount the lists hold what the two walks find. |
| Form.ValidatorForm.WillUnmount | src/components/form.tsx:72-75 | Unmount empties both lists. |
| Form.ValidatorForm.HandleSubmit | src/components/form.tsx:95-116 | Extraction from the located nodes cannot throw. The handler calls validate, then correct or error, and stores validation and values in one write. |
| Form.ValidatorForm.DisableButtons | src/components/form.tsx:46 | Every known button is disabled. |
| Form.ValidatorForm.EnableButtons | src/components/form.tsx:64 | Every known button is re-enabled. |
| Form.ValidatorForm.DidUpdate | src/components/form.tsx:43-49 | It starts a submission exactly when the guard holds. Starting disables every known button, then writes `submitting`, then calls `submit` with the stored values. Otherwise only the `unfreeze` re-scan runs. |
| Form.ValidatorForm.ResumeAfterSubmit | src/components/form.tsx:49-58 | It calls the success or apiError hook and then makes its write, only when that hook is present, and moves the settled reaction to its finally block. |
| Form.ValidatorForm.FinishSubmit | src/components/form.tsx:59-70 | It calls complete with the captured values, then clears the validation, then re-enables every button known at that time, then does the `unfreeze` re-scan. |

## Findings

| source | as written | input that shows it | evidently intended | confidence | as-written member | corrected member |
|---|---|---|---|---|---|---|
| src/components/form.tsx:52 | The success write (and the apiError write at line 57) sets `submitting` to false while the stored validation stays valid until line 63. The reaction this write triggers finds the guard of line 45 open and calls `submit` again. Line 64 then re-enables the buttons while that second submission is awaited. | A valid pass with a `success` hook, and `submit` resolving, under a root where a write after an `await` re-renders at once, as with the legacy `ReactDOM.render` the demo uses (testproject/index.tsx:59). | One `submit` per valid pass. The corrected outcome write also clears the validation, so the guard stays closed. | not executed; depends on React re-rendering inside the write | FormState.DoubleSubmission | FormState.SubmitsNeverExceedCorrects |

## Left out

- React machinery is not modelled: rendering, JSX and the scheduling of lifecycle calls. Each lifecycle step is an explicit operation and each write is immediate.
- `e.preventDefault()` (form.tsx:96) and the `formProps` pass-through are not modelled. They have no effect on the state.
- DOM specifics are replaced by the `Element` snapshot. `instanceof HTMLElement` becomes the `html` flag. The other `instanceof` checks become the tag. `tagName` is compared exactly as written, so the upper-case tag names a real DOM reports are not modelled.
- The locator's shared accumulator array is a sequence passed in and returned. Its aliasing is not modelled; only its contents are.
- Host hooks (`validate`, `submit`, `success`, and the rest) are opaque. `validate` is a total function and `submit` is a supplied outcome. Calls are recorded in a ghost log. A hook that throws is not modelled. For example, a throwing `success` would be caught and routed to `apiError`, and a throwing `validate` would end the handler with no write.
- Overlapping submit-intents that race across an unresolved `validate` are not modelled. `HandleSubmit` is atomic.
- Props are fixed when the form is constructed. Props that change between renders are not modelled.
- Distinct DOM nodes are assumed to carry distinct `id`s; nothing in the model enforces it. The `disabled` set relies on it. The membership in `ButtonsUpTo`'s contract compares elements by value, so a nested submit button equal in every field to a direct child would count as direct there. `ButtonsArePreorderEligible` is stated on positions and does not depend on it.
- `disabled` records the ids of the buttons this form has disabled. Disabled flags set by anyone else are not modelled.
- Which events can follow which is over-approximated. Any event may come after any other, except that no awaited `submit` settles while another reaction's outcome code runs. JavaScript runs that code to completion, so only the reactions its writes trigger can run there. The lemmas about all runs hold for the orders that can really occur as well.
- Whether a write re-renders at once (a legacy root) or is batched with later writes (a concurrent root) is not decided. The machine allows a reaction after every write.
- Form.ValidatorForm.FinishSubmit: the reaction triggered by the write at form.tsx:63 runs before line 64. Its guard is closed because the validation is null, so it can only re-scan. If it re-scans, line 64 re-enables the freshly scanned buttons. The model re-enables the buttons known before that reaction.
- FormState.RenderShowsIff: a stored api error always counts as present. The source tests it for truthiness, so a falsy error value such as `""` or `0` would be stored but its view not shown.
- Render records which views are shown and with which arguments. What the view hooks return, and the children's markup, are not modelled.
