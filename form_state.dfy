/**
 * The validation/submission state machine of the form, on values: the state
 * record, the writes each lifecycle step makes, the effects it has (host hook
 * calls, state writes, button toggles) in the order it has them, and the
 * outcome views the render shows.
 */
module FormState {
  import opened Wrappers
  import opened Extraction

  /** What the host validator returns: the isValid flag and any host data. */
  datatype Verdict<K> = Verdict(isValid: bool, detail: K)

  /** The component state. */
  datatype State<T, E, K> = State(
    validation: Option<Verdict<K>>,
    submitting: bool,
    result: Option<T>,
    values: Option<Contents>,
    apiError: Option<E>)

  /** How the host submit function settles. */
  datatype Outcome<T, E> = Resolved(response: T) | Rejected(error: E)

  /** Which optional props the host supplied. */
  datatype Props = Props(
    hasSuccess: bool,
    hasApiError: bool,
    hasComplete: bool,
    hasLoadingView: bool,
    hasCorrectView: bool,
    hasErrorView: bool,
    hasApiErrorView: bool,
    unfreeze: bool)

  /**
   * One observable effect, as it happens: a call of a host hook with its
   * arguments, a state write with the state it leaves, or the disabling or
   * re-enabling of the buttons with the given ids.
   */
  datatype Effect<T, E, K> =
    | ValidateCall(contents: Contents)
    | CorrectCall(contents: Contents, verdict: Verdict<K>)
    | ErrorCall(contents: Contents, verdict: Verdict<K>)
    | SubmitCall(contents: Contents)
    | SuccessCall(response: T)
    | ApiErrorCall(error: E)
    | CompleteCall(contents: Contents)
    | Wrote(state: State<T, E, K>)
    | Disabled(ids: set<nat>)
    | Enabled(ids: set<nat>)

  function InitialState<T, E, K>(): State<T, E, K> {
    State(None, false, None, None, None)
  }

  /** The guard of componentDidUpdate: a valid validation and values are stored and no submission runs. */
  predicate ShouldSubmit<T, E, K>(s: State<T, E, K>) {
    s.validation.Some? && s.validation.value.isValid && s.values.Some? && !s.submitting
  }

  /** The single write that ends a validation pass. */
  function Validated<T, E, K>(s: State<T, E, K>, contents: Contents, verdict: Verdict<K>): State<T, E, K> {
    s.(validation := Some(verdict), values := Some(contents))
  }

  /** Whether the hook matching the outcome (success or apiError) is present. */
  predicate HookFor<T, E>(p: Props, o: Outcome<T, E>) {
    if o.Resolved? then p.hasSuccess else p.hasApiError
  }

  /** The call of the hook matching the outcome. */
  function HookCallFor<T, E, K>(o: Outcome<T, E>): Effect<T, E, K> {
    match o
    case Resolved(t) => SuccessCall(t)
    case Rejected(e) => ApiErrorCall(e)
  }

  /** The write made in the try or the catch block once submit settles: only when the matching hook is present. */
  function OutcomeWritten<T, E, K>(s: State<T, E, K>, p: Props, o: Outcome<T, E>): State<T, E, K> {
    match o
    case Resolved(t) =>
      if p.hasSuccess then s.(submitting := false, result := Some(t), apiError := None) else s
    case Rejected(e) =>
      if p.hasApiError then s.(submitting := false, result := None, apiError := Some(e)) else s
  }

  /**
   * The outcome write of the code as written (fixed false), or of the
   * corrected code (fixed true), whose outcome write also clears the
   * validation, as the finally block does right after.
   */
  function Written<T, E, K>(fixed: bool, s: State<T, E, K>, p: Props, o: Outcome<T, E>): State<T, E, K> {
    var w := OutcomeWritten(s, p, o);
    if fixed && HookFor(p, o) then w.(validation := None) else w
  }

  /** A validation pass: validate, exactly one of correct and error, then the write of verdict and values. */
  function ValidationEffects<T, E, K>(s: State<T, E, K>, contents: Contents, verdict: Verdict<K>): seq<Effect<T, E, K>> {
    [ValidateCall(contents),
     if verdict.isValid then CorrectCall(contents, verdict) else ErrorCall(contents, verdict),
     Wrote(Validated(s, contents, verdict))]
  }

  /** Starting a submission: the buttons are disabled, submitting is written, then submit is called. */
  function StartEffects<T, E, K>(s: State<T, E, K>, contents: Contents, buttons: set<nat>): seq<Effect<T, E, K>> {
    [Disabled(buttons), Wrote(s), SubmitCall(contents)]
  }

  /** Once submit settles: the matching hook, then its write, when that hook is present. */
  function OutcomeEffects<T, E, K>(fixed: bool, s: State<T, E, K>, p: Props, o: Outcome<T, E>): seq<Effect<T, E, K>> {
    if HookFor(p, o) then [HookCallFor(o), Wrote(Written(fixed, s, p, o))] else []
  }

  /** The finally block: complete when present, the write clearing validation, then the buttons re-enabled. */
  function FinallyEffects<T, E, K>(s: State<T, E, K>, p: Props, contents: Contents, buttons: set<nat>): seq<Effect<T, E, K>> {
    var cleared := s.(validation := None);
    if p.hasComplete then [CompleteCall(contents), Wrote(cleared), Enabled(buttons)]
    else [Wrote(cleared), Enabled(buttons)]
  }

  // ---------------------------------------------------------------------
  // The machine: a configuration and the events that drive it.
  // ---------------------------------------------------------------------

  /**
   * A submit-intent whose extraction gave contents and whose validator
   * answered verdict; a run of the did-update reaction while the buttons
   * with the given ids are known; the settling of the index-th submission
   * still awaited; the finally block of the submission whose outcome was
   * just handled, with the ids of the buttons then known.
   */
  datatype Event<T, E, K> =
    | Intent(contents: Contents, verdict: Verdict<K>)
    | Update(buttons: set<nat>)
    | Settle(index: nat, outcome: Outcome<T, E>)
    | Finish(buttons: set<nat>)

  /**
   * The state; the values captured by each reaction suspended at the await
   * of submit; the values of the reaction whose outcome code is running
   * (between its outcome write and its finally block, where only the
   * reactions those writes trigger can interleave); the effects so far.
   */
  datatype Config<T, E, K> = Config(
    state: State<T, E, K>,
    awaiting: seq<Contents>,
    finishing: Option<Contents>,
    log: seq<Effect<T, E, K>>)

  function Initial<T, E, K>(): Config<T, E, K> {
    Config(InitialState(), [], None, [])
  }

  /** One event, for the code as written (fixed false) or the corrected code (fixed true). */
  function StepOf<T, E, K>(fixed: bool, p: Props, c: Config<T, E, K>, ev: Event<T, E, K>): Config<T, E, K> {
    match ev
    case Intent(x, v) =>
      c.(state := Validated(c.state, x, v), log := c.log + ValidationEffects(c.state, x, v))
    case Update(b) =>
      if ShouldSubmit(c.state) then
        var s := c.state.(submitting := true);
        c.(state := s, awaiting := c.awaiting + [s.values.value],
           log := c.log + StartEffects(s, s.values.value, b))
      else c
    case Settle(i, o) =>
      if c.finishing.Some? || i >= |c.awaiting| then c
      else
        Config(Written(fixed, c.state, p, o), c.awaiting[..i] + c.awaiting[i + 1..], Some(c.awaiting[i]),
               c.log + OutcomeEffects(fixed, c.state, p, o))
    case Finish(b) =>
      if c.finishing.None? then c
      else
        c.(state := c.state.(validation := None), finishing := None,
           log := c.log + FinallyEffects(c.state, p, c.finishing.value, b))
  }

  /** The code as written. */
  function Step<T, E, K>(p: Props, c: Config<T, E, K>, ev: Event<T, E, K>): Config<T, E, K> {
    StepOf(false, p, c, ev)
  }

  /** The corrected code: the outcome write also clears the validation. */
  function StepFixed<T, E, K>(p: Props, c: Config<T, E, K>, ev: Event<T, E, K>): Config<T, E, K> {
    StepOf(true, p, c, ev)
  }

  function RunOf<T, E, K>(fixed: bool, p: Props, c: Config<T, E, K>, evs: seq<Event<T, E, K>>): Config<T, E, K>
    decreases |evs|
  {
    if evs == [] then c else RunOf(fixed, p, StepOf(fixed, p, c, evs[0]), evs[1..])
  }

  function Run<T, E, K>(p: Props, c: Config<T, E, K>, evs: seq<Event<T, E, K>>): Config<T, E, K> {
    RunOf(false, p, c, evs)
  }

  function RunFixed<T, E, K>(p: Props, c: Config<T, E, K>, evs: seq<Event<T, E, K>>): Config<T, E, K> {
    RunOf(true, p, c, evs)
  }

  /**
   * The invariant the code keeps: at most one submission is awaited, an
   * awaited submission implies submitting, and a stored validation comes
   * with stored values.
   */
  ghost predicate Sound<T, E, K>(c: Config<T, E, K>) {
    && |c.awaiting| <= 1
    && (c.awaiting != [] ==> c.state.submitting)
    && (c.state.validation.Some? ==> c.state.values.Some?)
  }

  predicate IsSubmit<T, E, K>(h: Effect<T, E, K>) { h.SubmitCall? }

  predicate IsCorrect<T, E, K>(h: Effect<T, E, K>) { h.CorrectCall? }

  /** How many of the effects satisfy f. */
  function Tally<T, E, K>(log: seq<Effect<T, E, K>>, f: Effect<T, E, K> -> bool): nat {
    if log == [] then 0
    else Tally(log[..|log| - 1], f) + (if f(log[|log| - 1]) then 1 else 0)
  }

  lemma {:induction false} TallyAppend<T, E, K>(a: seq<Effect<T, E, K>>, b: seq<Effect<T, E, K>>, f: Effect<T, E, K> -> bool)
    ensures Tally(a + b, f) == Tally(a, f) + Tally(b, f)
    decreases |b|
  {
    if b == [] {
      assert a + b == a;
    } else {
      assert (a + b)[..|a + b| - 1] == a + b[..|b| - 1];
      TallyAppend(a, b[..|b| - 1], f);
    }
  }

  lemma TallyTwo<T, E, K>(x: Effect<T, E, K>, y: Effect<T, E, K>, f: Effect<T, E, K> -> bool)
    ensures Tally([x, y], f) == (if f(x) then 1 else 0) + (if f(y) then 1 else 0)
  {
    assert [x, y][..1] == [x];
    assert [x][..0] == [];
    assert Tally([x], f) == (if f(x) then 1 else 0);
  }

  lemma TallyThree<T, E, K>(x: Effect<T, E, K>, y: Effect<T, E, K>, z: Effect<T, E, K>, f: Effect<T, E, K> -> bool)
    ensures Tally([x, y, z], f) == (if f(x) then 1 else 0) + (if f(y) then 1 else 0) + (if f(z) then 1 else 0)
  {
    assert [x, y, z][..2] == [x, y];
    TallyTwo(x, y, f);
  }

  /** A validation pass issues no submit call and one correct call exactly when the verdict is valid. */
  lemma ValidationEffectsTally<T, E, K>(s: State<T, E, K>, x: Contents, v: Verdict<K>)
    ensures Tally(ValidationEffects(s, x, v), IsSubmit) == 0
    ensures Tally(ValidationEffects(s, x, v), IsCorrect) == if v.isValid then 1 else 0
  {
    var ve := ValidationEffects(s, x, v);
    TallyThree(ve[0], ve[1], ve[2], IsSubmit);
    TallyThree(ve[0], ve[1], ve[2], IsCorrect);
  }

  /** Starting a submission issues one submit call and no correct call. */
  lemma StartEffectsTally<T, E, K>(s: State<T, E, K>, x: Contents, b: set<nat>)
    ensures Tally(StartEffects(s, x, b), IsSubmit) == 1
    ensures Tally(StartEffects(s, x, b), IsCorrect) == 0
  {
    var se := StartEffects(s, x, b);
    TallyThree(se[0], se[1], se[2], IsSubmit);
    TallyThree(se[0], se[1], se[2], IsCorrect);
  }

  /** Settling issues neither a submit nor a correct call. */
  lemma OutcomeEffectsTally<T, E, K>(fixed: bool, s: State<T, E, K>, p: Props, o: Outcome<T, E>)
    ensures Tally(OutcomeEffects(fixed, s, p, o), IsSubmit) == 0
    ensures Tally(OutcomeEffects(fixed, s, p, o), IsCorrect) == 0
  {
    var oe := OutcomeEffects(fixed, s, p, o);
    if oe != [] {
      TallyTwo(oe[0], oe[1], IsSubmit);
      TallyTwo(oe[0], oe[1], IsCorrect);
    }
  }

  /** The finally block issues neither a submit nor a correct call. */
  lemma FinallyEffectsTally<T, E, K>(s: State<T, E, K>, p: Props, x: Contents, b: set<nat>)
    ensures Tally(FinallyEffects(s, p, x, b), IsSubmit) == 0
    ensures Tally(FinallyEffects(s, p, x, b), IsCorrect) == 0
  {
    var fe := FinallyEffects(s, p, x, b);
    if p.hasComplete {
      TallyThree(fe[0], fe[1], fe[2], IsSubmit);
      TallyThree(fe[0], fe[1], fe[2], IsCorrect);
    } else {
      TallyTwo(fe[0], fe[1], IsSubmit);
      TallyTwo(fe[0], fe[1], IsCorrect);
    }
  }

  /** Both the code as written and the corrected code keep Sound. */
  lemma StepKeepsSound<T, E, K>(fixed: bool, p: Props, c: Config<T, E, K>, ev: Event<T, E, K>)
    requires Sound(c)
    ensures Sound(StepOf(fixed, p, c, ev))
  {
    if ev.Settle? && c.finishing.None? && ev.index < |c.awaiting| {
      assert |c.awaiting[..ev.index] + c.awaiting[ev.index + 1..]| == 0;
    }
  }

  lemma {:induction false} RunKeepsSound<T, E, K>(fixed: bool, p: Props, c: Config<T, E, K>, evs: seq<Event<T, E, K>>)
    requires Sound(c)
    ensures Sound(RunOf(fixed, p, c, evs))
    decreases |evs|
  {
    if evs != [] {
      StepKeepsSound(fixed, p, c, evs[0]);
      RunKeepsSound(fixed, p, StepOf(fixed, p, c, evs[0]), evs[1..]);
    }
  }

  /**
   * Along any run of the code as written, at most one submission is awaited,
   * and a did-update reaction that finds one awaited changes nothing.
   */
  lemma OneSubmissionInFlight<T, E, K>(p: Props, evs: seq<Event<T, E, K>>, b: set<nat>)
    ensures var c := Run(p, Initial(), evs);
      |c.awaiting| <= 1 && (c.awaiting != [] ==> Step(p, c, Update(b)) == c)
  {
    RunKeepsSound(false, p, Initial(), evs);
  }

  // ---------------------------------------------------------------------
  // The double submission of the code as written, and the corrected code.
  // ---------------------------------------------------------------------

  /**
   * With the success hook present, a valid pass whose submission resolves
   * calls submit twice: the success write reopens the guard, and the
   * reaction it triggers runs before the finally block clears the
   * validation. The finally block then re-enables the buttons while the
   * second submission is awaited. The corrected code submits once.
   */
  lemma DoubleSubmission<T, E, K>(p: Props, x: Contents, v: Verdict<K>, t: T, b: set<nat>)
    requires v.isValid && p.hasSuccess
    ensures var c := Run(p, Initial<T, E, K>(), [Intent(x, v), Update(b), Settle(0, Resolved(t)), Update(b), Finish(b)]);
      && Tally(c.log, IsSubmit) == 2 && Tally(c.log, IsCorrect) == 1
      && c.awaiting == [x] && c.log[|c.log| - 1] == Enabled(b)
    ensures var c := RunFixed(p, Initial<T, E, K>(), [Intent(x, v), Update(b), Settle(0, Resolved(t)), Update(b), Finish(b)]);
      Tally(c.log, IsSubmit) == 1 && c.awaiting == []
  {
    var evs: seq<Event<T, E, K>> := [Intent(x, v), Update(b), Settle(0, Resolved(t)), Update(b), Finish(b)];
    ResolvedPassRun<T, E, K>(false, p, x, v, t, b);
    ResolvedPassRun<T, E, K>(true, p, x, v, t, b);
    assert Run(p, Initial(), evs) == RunOf(false, p, Initial(), evs);
    assert RunFixed(p, Initial(), evs) == RunOf(true, p, Initial(), evs);
  }

  /** Five events in a row. */
  lemma RunFive<T, E, K>(fixed: bool, p: Props, c: Config<T, E, K>, evs: seq<Event<T, E, K>>)
    requires |evs| == 5
    ensures RunOf(fixed, p, c, evs) ==
      StepOf(fixed, p, StepOf(fixed, p, StepOf(fixed, p, StepOf(fixed, p, StepOf(fixed, p, c, evs[0]), evs[1]), evs[2]), evs[3]), evs[4])
  {
    var c1 := StepOf(fixed, p, c, evs[0]);
    var c2 := StepOf(fixed, p, c1, evs[1]);
    var c3 := StepOf(fixed, p, c2, evs[2]);
    var c4 := StepOf(fixed, p, c3, evs[3]);
    var c5 := StepOf(fixed, p, c4, evs[4]);
    assert RunOf(fixed, p, c, evs) == RunOf(fixed, p, c1, evs[1..]);
    assert RunOf(fixed, p, c1, evs[1..]) == RunOf(fixed, p, c2, evs[2..]);
    assert RunOf(fixed, p, c2, evs[2..]) == RunOf(fixed, p, c3, evs[3..]);
    assert RunOf(fixed, p, c3, evs[3..]) == RunOf(fixed, p, c4, evs[4..]);
    assert RunOf(fixed, p, c4, evs[4..]) == RunOf(fixed, p, c5, evs[5..]);
    assert evs[5..] == [];
  }

  /** The effects of the run of DoubleSubmission, step by step. */
  lemma ResolvedPassLog<T, E, K>(fixed: bool, p: Props, x: Contents, v: Verdict<K>, t: T, b: set<nat>)
    requires v.isValid && p.hasSuccess
    ensures var c := RunOf(fixed, p, Initial<T, E, K>(), [Intent(x, v), Update(b), Settle(0, Resolved(t)), Update(b), Finish(b)]);
      var s2 := Validated(InitialState<T, E, K>(), x, v).(submitting := true);
      var s3 := Written(fixed, s2, p, Resolved(t));
      var s4 := if fixed then s3 else s3.(submitting := true);
      && c.awaiting == (if fixed then [] else [x])
      && c.log == ValidationEffects(InitialState(), x, v) + StartEffects(s2, x, b) + OutcomeEffects(fixed, s2, p, Resolved(t))
                  + (if fixed then [] else StartEffects(s4, x, b)) + FinallyEffects(s4, p, x, b)
  {
    var evs: seq<Event<T, E, K>> := [Intent(x, v), Update(b), Settle(0, Resolved(t)), Update(b), Finish(b)];
    RunFive(fixed, p, Initial(), evs);
    var s0 := InitialState<T, E, K>();
    var s2 := Validated(s0, x, v).(submitting := true);
    var s3 := Written(fixed, s2, p, Resolved(t));
    var s4 := if fixed then s3 else s3.(submitting := true);
    var l1 := ValidationEffects(s0, x, v);
    var l2 := StartEffects(s2, x, b);
    var l3 := OutcomeEffects(fixed, s2, p, Resolved(t));
    var l4 := if fixed then [] else StartEffects(s4, x, b);
    var c1 := StepOf(fixed, p, Initial<T, E, K>(), Intent(x, v));
    assert c1 == Config(Validated(s0, x, v), [], None, l1);
    var c2 := StepOf(fixed, p, c1, Update(b));
    assert c2 == Config(s2, [x], None, l1 + l2);
    var c3 := StepOf(fixed, p, c2, Settle(0, Resolved(t)));
    assert [x][..0] + [x][1..] == [];
    assert c3 == Config(s3, [], Some(x), l1 + l2 + l3);
    var c4 := StepOf(fixed, p, c3, Update(b));
    assert ShouldSubmit(s3) == !fixed;
    assert c4 == Config(s4, if fixed then [] else [x], Some(x), l1 + l2 + l3 + l4);
  }

  /** The run of DoubleSubmission, for the code as written and for the corrected code. */
  lemma ResolvedPassRun<T, E, K>(fixed: bool, p: Props, x: Contents, v: Verdict<K>, t: T, b: set<nat>)
    requires v.isValid && p.hasSuccess
    ensures var c := RunOf(fixed, p, Initial<T, E, K>(), [Intent(x, v), Update(b), Settle(0, Resolved(t)), Update(b), Finish(b)]);
      && Tally(c.log, IsSubmit) == (if fixed then 1 else 2) && Tally(c.log, IsCorrect) == 1
      && c.awaiting == (if fixed then [] else [x]) && c.log[|c.log| - 1] == Enabled(b)
  {
    ResolvedPassLog<T, E, K>(fixed, p, x, v, t, b);
    var s0 := InitialState<T, E, K>();
    var s2 := Validated(s0, x, v).(submitting := true);
    var s3 := Written(fixed, s2, p, Resolved(t));
    var s4 := if fixed then s3 else s3.(submitting := true);
    var l1 := ValidationEffects(s0, x, v);
    var l2 := StartEffects(s2, x, b);
    var l3 := OutcomeEffects(fixed, s2, p, Resolved(t));
    var l4 := if fixed then [] else StartEffects(s4, x, b);
    var l5 := FinallyEffects(s4, p, x, b);
    ValidationEffectsTally(s0, x, v);
    StartEffectsTally(s2, x, b);
    StartEffectsTally(s4, x, b);
    OutcomeEffectsTally(fixed, s2, p, Resolved(t));
    FinallyEffectsTally(s4, p, x, b);
    TallyAppend(l1, l2, IsSubmit);
    TallyAppend(l1 + l2, l3, IsSubmit);
    TallyAppend(l1 + l2 + l3, l4, IsSubmit);
    TallyAppend(l1 + l2 + l3 + l4, l5, IsSubmit);
    TallyAppend(l1, l2, IsCorrect);
    TallyAppend(l1 + l2, l3, IsCorrect);
    TallyAppend(l1 + l2 + l3, l4, IsCorrect);
    TallyAppend(l1 + l2 + l3 + l4, l5, IsCorrect);
  }

  /** 1 when the guard is open: a submission owed to a pass that has not started yet. */
  function Armed<T, E, K>(s: State<T, E, K>): nat {
    if ShouldSubmit(s) then 1 else 0
  }

  /** Every submit call, and the one the open guard still owes, is matched by a distinct correct call. */
  ghost predicate Accounted<T, E, K>(c: Config<T, E, K>) {
    Tally(c.log, IsSubmit) + Armed(c.state) <= Tally(c.log, IsCorrect)
  }

  /** Every event of the corrected code keeps Sound and the count. */
  lemma FixedStepKeepsInvariants<T, E, K>(p: Props, c: Config<T, E, K>, ev: Event<T, E, K>)
    requires Sound(c) && Accounted(c)
    ensures Sound(StepFixed(p, c, ev)) && Accounted(StepFixed(p, c, ev))
  {
    StepKeepsSound(true, p, c, ev);
    match ev
    case Intent(x, v) =>
      var ve := ValidationEffects(c.state, x, v);
      TallyAppend(c.log, ve, IsSubmit);
      TallyAppend(c.log, ve, IsCorrect);
      ValidationEffectsTally(c.state, x, v);
    case Update(b) =>
      if ShouldSubmit(c.state) {
        var s := c.state.(submitting := true);
        TallyAppend(c.log, StartEffects(s, s.values.value, b), IsSubmit);
        TallyAppend(c.log, StartEffects(s, s.values.value, b), IsCorrect);
        StartEffectsTally(s, s.values.value, b);
      }
    case Settle(i, o) =>
      if c.finishing.None? && i < |c.awaiting| {
        var oe := OutcomeEffects(true, c.state, p, o);
        TallyAppend(c.log, oe, IsSubmit);
        TallyAppend(c.log, oe, IsCorrect);
        OutcomeEffectsTally(true, c.state, p, o);
      }
    case Finish(b) =>
      if c.finishing.Some? {
        var fe := FinallyEffects(c.state, p, c.finishing.value, b);
        TallyAppend(c.log, fe, IsSubmit);
        TallyAppend(c.log, fe, IsCorrect);
        FinallyEffectsTally(c.state, p, c.finishing.value, b);
      }
  }

  lemma {:induction false} FixedRunKeepsInvariants<T, E, K>(p: Props, c: Config<T, E, K>, evs: seq<Event<T, E, K>>)
    requires Sound(c) && Accounted(c)
    ensures Sound(RunFixed(p, c, evs)) && Accounted(RunFixed(p, c, evs))
    decreases |evs|
  {
    if evs != [] {
      FixedStepKeepsInvariants(p, c, evs[0]);
      FixedRunKeepsInvariants(p, StepFixed(p, c, evs[0]), evs[1..]);
    }
  }

  /**
   * Along any run of the corrected code from the initial configuration,
   * submit is called no more often than correct: every submission belongs
   * to its own valid pass.
   */
  lemma SubmitsNeverExceedCorrects<T, E, K>(p: Props, evs: seq<Event<T, E, K>>)
    ensures Tally(RunFixed(p, Initial(), evs).log, IsSubmit) <= Tally(RunFixed(p, Initial(), evs).log, IsCorrect)
  {
    FixedRunKeepsInvariants(p, Initial(), evs);
  }

  /**
   * The outcome write of the code as written leaves the guard open again
   * whenever the matching hook is present; only the finally block closes
   * it. The corrected outcome write closes it at once.
   */
  lemma OutcomeWriteReopensGuard<T, E, K>(p: Props, c: Config<T, E, K>, o: Outcome<T, E>, b: set<nat>)
    requires Sound(c) && c.finishing.None? && c.awaiting != []
    requires c.state.validation.Some? && c.state.validation.value.isValid && HookFor(p, o)
    ensures ShouldSubmit(Step(p, c, Settle(0, o)).state)
    ensures !ShouldSubmit(Step(p, Step(p, c, Settle(0, o)), Finish(b)).state)
    ensures !ShouldSubmit(StepFixed(p, c, Settle(0, o)).state)
  {
  }

  // ---------------------------------------------------------------------
  // Further properties of the code as written.
  // ---------------------------------------------------------------------

  /**
   * Settling the awaited submission resets submitting exactly when the hook
   * matching the outcome is present; that hook is called before its write.
   */
  lemma SettleResetsSubmittingIffHook<T, E, K>(p: Props, c: Config<T, E, K>, o: Outcome<T, E>)
    requires Sound(c) && c.finishing.None? && c.awaiting != []
    ensures var c1 := Step(p, c, Settle(0, o));
      && (c1.state.submitting <==> !HookFor(p, o))
      && c1.awaiting == [] && c1.finishing == Some(c.awaiting[0])
      && c1.log == c.log + (if HookFor(p, o) then [HookCallFor(o), Wrote(c1.state)] else [])
  {
  }

  /**
   * The finally block runs complete (when present) with the captured values,
   * then the write clearing the validation, and re-enables the buttons last.
   */
  lemma FinallyInOrder<T, E, K>(p: Props, c: Config<T, E, K>, b: set<nat>)
    requires c.finishing.Some?
    ensures var c1 := Step(p, c, Finish(b));
      && |c1.log| > |c.log| + 1 && c1.log[..|c.log|] == c.log
      && c1.log[|c1.log| - 1] == Enabled(b)
      && c1.log[|c1.log| - 2] == Wrote(c1.state) && c1.state.validation.None?
      && (p.hasComplete <==> |c1.log| == |c.log| + 3)
      && (p.hasComplete ==> c1.log[|c.log|] == CompleteCall(c.finishing.value))
      && c1.finishing.None? && c1.awaiting == c.awaiting
  {
    var fe := FinallyEffects(c.state, p, c.finishing.value, b);
    assert Step(p, c, Finish(b)).log == c.log + fe;
  }

  /** With submitting set and nothing awaited, no sequence of events calls submit again or clears submitting. */
  lemma {:induction false} FrozenRun<T, E, K>(p: Props, c: Config<T, E, K>, evs: seq<Event<T, E, K>>)
    requires c.state.submitting && c.awaiting == []
    ensures Run(p, c, evs).state.submitting && Run(p, c, evs).awaiting == []
    ensures Tally(Run(p, c, evs).log, IsSubmit) == Tally(c.log, IsSubmit)
    decreases |evs|
  {
    if evs != [] {
      var c' := Step(p, c, evs[0]);
      match evs[0] {
        case Intent(x, v) =>
          TallyAppend(c.log, ValidationEffects(c.state, x, v), IsSubmit);
          ValidationEffectsTally(c.state, x, v);
        case Update(_) =>
        case Settle(_, _) =>
        case Finish(b) =>
          if c.finishing.Some? {
            TallyAppend(c.log, FinallyEffects(c.state, p, c.finishing.value, b), IsSubmit);
            FinallyEffectsTally(c.state, p, c.finishing.value, b);
          }
      }
      assert Run(p, c, evs) == Run(p, c', evs[1..]);
      FrozenRun(p, c', evs[1..]);
    }
  }

  /**
   * A submission that settles without its matching hook (success on
   * resolve, apiError on reject) leaves submitting set for good: no later
   * run of events ever calls submit again.
   */
  lemma StuckWithoutHook<T, E, K>(p: Props, c: Config<T, E, K>, o: Outcome<T, E>, evs: seq<Event<T, E, K>>)
    requires Sound(c) && c.finishing.None? && c.awaiting != [] && !HookFor(p, o)
    ensures Run(p, Step(p, c, Settle(0, o)), evs).state.submitting
    ensures Tally(Run(p, Step(p, c, Settle(0, o)), evs).log, IsSubmit) == Tally(c.log, IsSubmit)
  {
    var c' := Step(p, c, Settle(0, o));
    assert c'.log == c.log;
    assert c'.awaiting == [] && c'.state.submitting;
    FrozenRun(p, c', evs);
  }

  /**
   * A valid pass followed by a did-update reaction, from a state that is not
   * submitting: validate, correct, the write, then the buttons disabled,
   * submitting written and submit called with the extracted contents, once.
   */
  lemma ValidPassSubmitsOnce<T, E, K>(p: Props, c: Config<T, E, K>, x: Contents, v: Verdict<K>, b: set<nat>, b': set<nat>)
    requires !c.state.submitting && v.isValid
    ensures var c1 := Step(p, c, Intent(x, v));
      var c2 := Step(p, c1, Update(b));
      && c2.log == c.log + [ValidateCall(x), CorrectCall(x, v), Wrote(c1.state), Disabled(b), Wrote(c2.state), SubmitCall(x)]
      && c2.awaiting == c.awaiting + [x] && c2.state.submitting
      && Step(p, c2, Update(b')) == c2
  {
  }

  /** An invalid pass calls validate and error before its write, and the reaction after it starts nothing. */
  lemma InvalidPassNeverSubmits<T, E, K>(p: Props, c: Config<T, E, K>, x: Contents, v: Verdict<K>, b: set<nat>)
    requires !v.isValid
    ensures var c1 := Step(p, c, Intent(x, v));
      && c1.log == c.log + [ValidateCall(x), ErrorCall(x, v), Wrote(c1.state)]
      && Step(p, c1, Update(b)) == c1
  {
  }

  /**
   * A reachable configuration in which submitting holds while no validation
   * is stored: a valid pass whose submission resolves without a success hook.
   */
  lemma SubmittingWithoutValidation<T, E, K>(p: Props, x: Contents, v: Verdict<K>, t: T, b: set<nat>)
    requires v.isValid && !p.hasSuccess
    ensures var c := Run(p, Initial<T, E, K>(), [Intent(x, v), Update(b), Settle(0, Resolved(t)), Finish(b)]);
      c.state.submitting && c.state.validation.None?
  {
    var evs: seq<Event<T, E, K>> := [Intent(x, v), Update(b), Settle(0, Resolved(t)), Finish(b)];
    var c1 := Step(p, Initial<T, E, K>(), evs[0]);
    var c2 := Step(p, c1, evs[1]);
    var c3 := Step(p, c2, evs[2]);
    var c4 := Step(p, c3, evs[3]);
    assert Run(p, Initial<T, E, K>(), evs) == Run(p, c1, evs[1..]);
    assert Run(p, c1, evs[1..]) == Run(p, c2, evs[2..]);
    assert Run(p, c2, evs[2..]) == Run(p, c3, evs[3..]);
    assert Run(p, c3, evs[3..]) == Run(p, c4, evs[4..]);
    assert evs[4..] == [];
  }

  // ---------------------------------------------------------------------
  // Render.
  // ---------------------------------------------------------------------

  /** What the form element shows. */
  datatype View<T, E, K> =
    | ErrorView(values: Option<Contents>, verdict: Verdict<K>)
    | ApiErrorView(error: E)
    | LoadingView
    | CorrectView(values: Option<Contents>, verdict: Verdict<K>)
    | ChildrenView

  /** The fixed position of each view. */
  function Rank<T, E, K>(v: View<T, E, K>): nat {
    match v
    case ErrorView(_, _) => 0
    case ApiErrorView(_) => 1
    case LoadingView => 2
    case CorrectView(_, _) => 3
    case ChildrenView => 4
  }

  predicate ShowsError<T, E, K>(s: State<T, E, K>, p: Props) {
    s.validation.Some? && !s.validation.value.isValid && p.hasErrorView
  }

  predicate ShowsApiError<T, E, K>(s: State<T, E, K>, p: Props) {
    s.apiError.Some? && p.hasApiErrorView
  }

  predicate ShowsLoading<T, E, K>(s: State<T, E, K>, p: Props) {
    s.submitting && p.hasLoadingView
  }

  predicate ShowsCorrect<T, E, K>(s: State<T, E, K>, p: Props) {
    s.validation.Some? && s.validation.value.isValid && p.hasCorrectView
  }

  /** The children of the form element, preceded by the outcome views whose guards hold. */
  function Render<T, E, K>(s: State<T, E, K>, p: Props): seq<View<T, E, K>> {
    (if ShowsError(s, p) then [ErrorView(s.values, s.validation.value)] else [])
    + (if ShowsApiError(s, p) then [ApiErrorView(s.apiError.value)] else [])
    + (if ShowsLoading(s, p) then [LoadingView] else [])
    + (if ShowsCorrect(s, p) then [CorrectView(s.values, s.validation.value)] else [])
    + [ChildrenView]
  }

  /** Where each optional piece of the render sits. */
  lemma RenderLayout<T, E, K>(s: State<T, E, K>, p: Props)
    ensures var r := Render(s, p);
      var na := if ShowsError(s, p) then 1 else 0;
      var nb := na + if ShowsApiError(s, p) then 1 else 0;
      var nc := nb + if ShowsLoading(s, p) then 1 else 0;
      var nd := nc + if ShowsCorrect(s, p) then 1 else 0;
      && |r| == nd + 1 && r[nd] == ChildrenView
      && (ShowsError(s, p) ==> r[0] == ErrorView(s.values, s.validation.value))
      && (ShowsApiError(s, p) ==> r[na] == ApiErrorView(s.apiError.value))
      && (ShowsLoading(s, p) ==> r[nb] == LoadingView)
      && (ShowsCorrect(s, p) ==> r[nc] == CorrectView(s.values, s.validation.value))
  {
  }

  /** Render lists the views in the fixed order error, api-error, loading, correct, with the children last. */
  lemma RenderInOrder<T, E, K>(s: State<T, E, K>, p: Props)
    ensures var r := Render(s, p);
      && |r| > 0 && r[|r| - 1].ChildrenView?
      && (forall i, j :: 0 <= i < j < |r| ==> Rank(r[i]) < Rank(r[j]))
  {
    RenderLayout(s, p);
    var r := Render(s, p);
    var na := if ShowsError(s, p) then 1 else 0;
    var nb := na + if ShowsApiError(s, p) then 1 else 0;
    var nc := nb + if ShowsLoading(s, p) then 1 else 0;
    forall i | 0 <= i < |r|
      ensures Rank(r[i]) == if i == |r| - 1 then 4 else if i < na then 0 else if i < nb then 1 else if i < nc then 2 else 3
    {
    }
    forall i, j | 0 <= i < j < |r|
      ensures Rank(r[i]) < Rank(r[j])
    {
    }
  }

  /** Render shows each outcome view exactly when its guard and its hook hold, with the stored arguments. */
  lemma RenderShowsIff<T, E, K>(s: State<T, E, K>, p: Props)
    ensures var r := Render(s, p);
      && ((exists i :: 0 <= i < |r| && r[i].ErrorView?) <==> ShowsError(s, p))
      && ((exists i :: 0 <= i < |r| && r[i].ApiErrorView?) <==> ShowsApiError(s, p))
      && ((exists i :: 0 <= i < |r| && r[i].LoadingView?) <==> ShowsLoading(s, p))
      && ((exists i :: 0 <= i < |r| && r[i].CorrectView?) <==> ShowsCorrect(s, p))
      && (forall i :: 0 <= i < |r| && (r[i].ErrorView? || r[i].CorrectView?) ==>
            r[i].values == s.values && Some(r[i].verdict) == s.validation)
      && (forall i :: 0 <= i < |r| && r[i].ApiErrorView? ==> Some(r[i].error) == s.apiError)
  {
    RenderLayout(s, p);
    RenderInOrder(s, p);
  }

  /** In a sound configuration the error and correct views receive stored values, never null. */
  lemma OutcomeViewsGetValues<T, E, K>(c: Config<T, E, K>, p: Props)
    requires Sound(c)
    ensures forall v :: v in Render(c.state, p) && (v.ErrorView? || v.CorrectView?) ==> v.values.Some?
  {
  }
}
