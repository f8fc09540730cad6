/**
 * The form component: its lists of located nodes, its state, the buttons it
 * disables, and the lifecycle operations that update them in place.
 */
module Form {
  import opened Wrappers
  import opened Dom
  import opened Locator
  import opened Extraction
  import opened FormState

  /** The ids of the given elements. */
  function Ids(es: seq<Element>): set<nat> {
    set k | 0 <= k < |es| :: es[k].id
  }

  class ValidatorForm<T, E, K> {
    /** The optional props the host supplied. */
    const props: Props
    /** The form element, once the ref callback has attached it. */
    var formRef: Option<Element>
    var state: State<T, E, K>
    /** The values captured by each did-update reaction suspended at the await of submit. */
    var awaiting: seq<Contents>
    /** The values of the reaction whose outcome code runs, between its outcome write and its finally block. */
    var finishing: Option<Contents>
    /** The hook calls, state writes and button toggles so far, in order. */
    ghost var log: seq<Effect<T, E, K>>
    /** The bound widgets found by the last scan. */
    var nodes: seq<Element>
    /** The "submit buttons" found by the last scan. */
    var submitButtons: seq<Element>
    /** The ids of the DOM nodes whose disabled flag this form has set. */
    var disabled: set<nat>

    ghost function Snapshot(): Config<T, E, K>
      reads this
    {
      Config(state, awaiting, finishing, log)
    }

    ghost predicate Valid()
      reads this
    {
      Sound(Snapshot()) && AllBindable(nodes)
    }

    /** The unfreeze re-scan: both lists found afresh when unfreeze is set, untouched otherwise. */
    ghost predicate Rescanned(oldNodes: seq<Element>, oldButtons: seq<Element>)
      reads this
    {
      if props.unfreeze then nodes == Located(formRef) && submitButtons == LocatedButtons(formRef)
      else nodes == oldNodes && submitButtons == oldButtons
    }

    constructor(props: Props)
      ensures Valid() && this.props == props
      ensures Snapshot() == Initial()
      ensures formRef.None? && nodes == [] && submitButtons == [] && disabled == {}
    {
      this.props := props;
      formRef := None;
      state := InitialState();
      awaiting := [];
      finishing := None;
      log := [];
      nodes := [];
      submitButtons := [];
      disabled := {};
    }

    /** The ref callback of the form element. */
    method AttachRef(node: Option<Element>)
      modifies this`formRef
      ensures formRef == node
    {
      formRef := node;
    }

    /** Scans both lists from the form element (both empty while it is absent). */
    method Scan()
      requires Valid()
      modifies this`nodes, this`submitButtons
      ensures Valid()
      ensures nodes == Located(formRef) && submitButtons == LocatedButtons(formRef)
    {
      nodes := SeekInDom([], formRef);
      submitButtons := SeekButtons([], formRef);
    }

    /** componentDidMount. */
    method DidMount()
      requires Valid()
      modifies this`nodes, this`submitButtons
      ensures Valid()
      ensures nodes == Located(formRef) && submitButtons == LocatedButtons(formRef)
    {
      Scan();
    }

    /** componentWillUnmount: both lists are dropped. */
    method WillUnmount()
      requires Valid()
      modifies this`nodes, this`submitButtons
      ensures Valid()
      ensures nodes == [] && submitButtons == []
    {
      nodes := [];
      submitButtons := [];
    }

    /**
     * The submit handler: extracts the contents from the bound nodes (which
     * cannot throw, as every located node is a widget), calls validate, then
     * correct or error, and stores validation and values in one write.
     */
    method HandleSubmit(validate: Contents -> Verdict<K>) returns (contents: Contents)
      requires Valid()
      modifies this`state, this`log
      ensures Valid()
      ensures Extract(nodes) == Success(contents)
      ensures Snapshot() == Step(props, old(Snapshot()), Intent(contents, validate(contents)))
    {
      var collected := Collect(nodes);
      contents := collected.value;
      var verdict := validate(contents);
      log := log + [ValidateCall(contents)];
      if verdict.isValid {
        log := log + [CorrectCall(contents, verdict)];
      } else {
        log := log + [ErrorCall(contents, verdict)];
      }
      state := state.(validation := Some(verdict), values := Some(contents));
      log := log + [Wrote(state)];
    }

    /** Sets the disabled flag of every known button. */
    method DisableButtons()
      modifies this`disabled
      ensures disabled == old(disabled) + Ids(submitButtons)
    {
      var i := 0;
      while i < |submitButtons|
        invariant 0 <= i <= |submitButtons|
        invariant disabled == old(disabled) + Ids(submitButtons[..i])
      {
        assert Ids(submitButtons[..i + 1]) == Ids(submitButtons[..i]) + {submitButtons[i].id} by {
          assert forall k :: 0 <= k < i ==> submitButtons[..i + 1][k] == submitButtons[..i][k];
          assert submitButtons[..i + 1][i] == submitButtons[i];
        }
        disabled := disabled + {submitButtons[i].id};
        i := i + 1;
      }
      assert submitButtons[..i] == submitButtons;
    }

    /** Clears the disabled flag of every known button. */
    method EnableButtons()
      modifies this`disabled
      ensures disabled == old(disabled) - Ids(submitButtons)
    {
      var i := 0;
      while i < |submitButtons|
        invariant 0 <= i <= |submitButtons|
        invariant disabled == old(disabled) - Ids(submitButtons[..i])
      {
        assert Ids(submitButtons[..i + 1]) == Ids(submitButtons[..i]) + {submitButtons[i].id} by {
          assert forall k :: 0 <= k < i ==> submitButtons[..i + 1][k] == submitButtons[..i][k];
          assert submitButtons[..i + 1][i] == submitButtons[i];
        }
        disabled := disabled - {submitButtons[i].id};
        i := i + 1;
      }
      assert submitButtons[..i] == submitButtons;
    }

    /**
     * componentDidUpdate up to the await: when the guard holds, disables
     * every known button, writes submitting and calls submit with the stored
     * values, then suspends (ResumeAfterSubmit and FinishSubmit run the
     * rest). When the guard does not hold, only the unfreeze re-scan runs.
     */
    method DidUpdate() returns (started: bool)
      requires Valid()
      modifies this`state, this`awaiting, this`log, this`disabled, this`nodes, this`submitButtons
      ensures Valid()
      ensures started == ShouldSubmit(old(state))
      ensures Snapshot() == Step(props, old(Snapshot()), Update(Ids(old(submitButtons))))
      ensures started ==> disabled == old(disabled) + Ids(submitButtons)
      ensures started ==> nodes == old(nodes) && submitButtons == old(submitButtons)
      ensures !started ==> disabled == old(disabled) && Rescanned(old(nodes), old(submitButtons))
    {
      started := state.validation.Some? && state.validation.value.isValid && state.values.Some? && !state.submitting;
      if started {
        DisableButtons();
        log := log + [Disabled(Ids(submitButtons))];
        state := state.(submitting := true);
        log := log + [Wrote(state)];
        awaiting := awaiting + [state.values.value];
        log := log + [SubmitCall(state.values.value)];
        return;
      }
      if props.unfreeze {
        Scan();
      }
    }

    /**
     * componentDidUpdate once the index-th awaited submit settles: the
     * success or apiError hook and then its write, only when that hook is
     * present. The finally block is FinishSubmit; the reactions the write
     * triggers may run before it.
     */
    method ResumeAfterSubmit(index: nat, outcome: Outcome<T, E>)
      requires Valid() && finishing.None? && index < |awaiting|
      modifies this`state, this`awaiting, this`finishing, this`log
      ensures Valid()
      ensures Snapshot() == Step(props, old(Snapshot()), Settle(index, outcome))
    {
      finishing := Some(awaiting[index]);
      awaiting := awaiting[..index] + awaiting[index + 1..];
      match outcome {
        case Resolved(t) =>
          if props.hasSuccess {
            log := log + [SuccessCall(t)];
            state := state.(submitting := false, result := Some(t), apiError := None);
            log := log + [Wrote(state)];
          }
        case Rejected(e) =>
          if props.hasApiError {
            log := log + [ApiErrorCall(e)];
            state := state.(submitting := false, result := None, apiError := Some(e));
            log := log + [Wrote(state)];
          }
      }
    }

    /**
     * The finally block and the rest of componentDidUpdate: complete with the
     * captured values, the write clearing validation, the re-enabling of
     * every known button, then the unfreeze re-scan.
     */
    method FinishSubmit()
      requires Valid() && finishing.Some?
      modifies this`state, this`finishing, this`log, this`disabled, this`nodes, this`submitButtons
      ensures Valid()
      ensures Snapshot() == Step(props, old(Snapshot()), Finish(Ids(old(submitButtons))))
      ensures disabled == old(disabled) - Ids(old(submitButtons))
      ensures Rescanned(old(nodes), old(submitButtons))
    {
      var values := finishing.value;
      if props.hasComplete {
        log := log + [CompleteCall(values)];
      }
      state := state.(validation := None);
      log := log + [Wrote(state)];
      EnableButtons();
      log := log + [Enabled(Ids(submitButtons))];
      finishing := None;
      if props.unfreeze {
        Scan();
      }
    }

  }
}
