/** What the debug check of `_unchecked` achieves, for every run: also for those in which
    observers break the caller's promise and upgrade inside the window. */
module CyclicCheck {
  import opened CyclicMachine
  import opened CyclicProofs

  // ---- Events of a run -------------------------------------------------------------

  datatype Event =
    | UpgradeBeforeCheck  // in the window, between the return of new_cyclic and the check
    | UpgradeAfterCheck   // in the window, between the check and the drop of `value`
    | CheckWhileShared    // the check, with an Arc in the hands of an observer
    | CheckWhileUnique    // the check, with none

  predicate Happens(ev: Event, s: State, a: Action) {
    && InWindow(s)
    && match ev
       case UpgradeBeforeCheck => a.Upgrade? && s.pc.Published?
       case UpgradeAfterCheck => a.Upgrade? && s.pc.Dropping?
       case CheckWhileShared => a.Maker? && s.pc.Published? && s.arcs > 0
       case CheckWhileUnique => a.Maker? && s.pc.Published? && s.arcs == 0
  }

  ghost predicate Occurs(ev: Event, s: State, run: seq<Action>)
    requires Runs(s, run)
    decreases |run|
  {
    run != [] && (Happens(ev, s, run[0]) || Occurs(ev, Step(s, run[0]), run[1..]))
  }

  lemma {:induction false} UpgradesAreEvents(s: State, run: seq<Action>)
    requires Runs(s, run)
    ensures !AllAllowed(s, run) <==> Occurs(UpgradeBeforeCheck, s, run) || Occurs(UpgradeAfterCheck, s, run)
    decreases |run|
  {
    if run != [] { UpgradesAreEvents(Step(s, run[0]), run[1..]); }
  }

  // ---- The check itself --------------------------------------------------------------

  /** The check aborts exactly if it is compiled in and an observer holds an Arc. */
  lemma CheckStep(s: State)
    requires Balanced(s) && InWindow(s) && s.pc.Published?
    ensures Step(s, Maker).pc.Aborted? <==> s.debug && s.arcs > 0
    ensures !Step(s, Maker).pc.Aborted? ==> Step(s, Maker).pc == Dropping(s.result.value)
  {
  }

  /** An abort is the end: nobody makes a step any more. */
  lemma AbortIsFinal(s: State, run: seq<Action>)
    requires s.pc.Aborted? && Runs(s, run)
    ensures run == [] && Exec(s, run) == s
  {
  }

  /** Nothing but the check aborts, and nobody but an observer holding an Arc makes it. */
  lemma OnlyTheCheckAborts(s: State, a: Action)
    requires Balanced(s) && s.strategy.Unchecked? && Enabled(s, a)
    ensures Step(s, a).pc.Aborted? <==> s.debug && Happens(CheckWhileShared, s, a)
  {
    match a
    case Maker => match s.pc { case Returned(_) => case Caught(_) => case Published => case _ => }
    case _ =>
  }

  lemma {:induction false} AbortedIff(s: State, run: seq<Action>)
    requires Balanced(s) && s.strategy.Unchecked? && !s.pc.Aborted? && Runs(s, run)
    ensures Exec(s, run).pc.Aborted? <==> s.debug && Occurs(CheckWhileShared, s, run)
    decreases |run|
  {
    if run != [] {
      hide Step, Happens, Balanced;
      var s' := Step(s, run[0]);
      StepKeepsBalance(s, run[0]);
      StepKeepsConfiguration(s, run[0]);
      OnlyTheCheckAborts(s, run[0]);
      if s'.pc.Aborted? { AbortIsFinal(s', run[1..]); } else { AbortedIff(s', run[1..]); }
    }
  }

  /** The maker of an unchecked construction is past its check. */
  predicate PastCheck(pc: Pc) {
    pc.Dropping? || pc.ReleaseWeak? || pc.Returning? || (pc.Done? && pc.r.ReturnErr?)
  }

  lemma OnlyTheCheckPasses(s: State, a: Action)
    requires Balanced(s) && s.strategy.Unchecked? && !PastCheck(s.pc) && Enabled(s, a)
    requires PastCheck(Step(s, a).pc)
    ensures Happens(CheckWhileUnique, s, a) || (!s.debug && Happens(CheckWhileShared, s, a))
  {
    match a
    case Maker => match s.pc { case Returned(_) => case Caught(_) => case Published => case _ => }
    case _ =>
  }

  lemma {:induction false} PastMeansChecked(s: State, run: seq<Action>)
    requires Balanced(s) && s.strategy.Unchecked? && !PastCheck(s.pc) && Runs(s, run)
    requires PastCheck(Exec(s, run).pc)
    ensures Occurs(CheckWhileUnique, s, run) || (!s.debug && Occurs(CheckWhileShared, s, run))
    decreases |run|
  {
    hide Step, Happens, Balanced;
    assert run != [];
    var s' := Step(s, run[0]);
    StepKeepsBalance(s, run[0]);
    StepKeepsConfiguration(s, run[0]);
    if PastCheck(s'.pc) { OnlyTheCheckPasses(s, run[0]); } else { PastMeansChecked(s', run[1..]); }
  }

  /** Arcs over uninitialised memory come from upgrades in the window. */
  lemma {:induction false} SharingNeedsUpgrade(s: State, run: seq<Action>)
    requires Inv(s) && Runs(s, run) && Occurs(CheckWhileShared, s, run)
    ensures Occurs(UpgradeBeforeCheck, s, run)
    decreases |run|
  {
    var s' := Step(s, run[0]);
    if Allowed(s, run[0]) {
      assert !Happens(CheckWhileShared, s, run[0]);
      StepKeepsInv(s, run[0]);
      SharingNeedsUpgrade(s', run[1..]);
    } else if s.pc.Dropping? {
      NoCheckAfterwards(s', run[1..]);
    }
  }

  predicate BeyondPublished(pc: Pc) {
    PastCheck(pc) || pc.Done? || pc.Aborted?
  }

  lemma StaysBeyond(s: State, a: Action)
    requires BeyondPublished(s.pc) && Enabled(s, a)
    ensures BeyondPublished(Step(s, a).pc) && !Happens(CheckWhileShared, s, a)
  {
  }

  lemma {:induction false} NoCheckAfterwards(s: State, run: seq<Action>)
    requires BeyondPublished(s.pc) && Runs(s, run)
    ensures !Occurs(CheckWhileShared, s, run)
    decreases |run|
  {
    if run != [] {
      StaysBeyond(s, run[0]);
      NoCheckAfterwards(Step(s, run[0]), run[1..]);
    }
  }

  lemma InitialBalance(debug: bool)
    ensures var s := Initial(Unchecked, debug);
            Balanced(s) && s.strategy.Unchecked? && s.debug == debug && s.pc.Start?
  {
    hide Balanced, Accounted;
    InitialAccounts(Unchecked, debug);
  }

  // ---- What it is good for -------------------------------------------------------------

  /** In every state of every run in which the check is next, it aborts if and only if it
      is compiled in and an observer holds an Arc at that moment. */
  lemma CheckAbortsIff(debug: bool, run: seq<Action>)
    requires Runs(Initial(Unchecked, debug), run)
    ensures var s := Exec(Initial(Unchecked, debug), run);
            s.pc.Published? && s.result.Some? ==> (Step(s, Maker).pc.Aborted? <==> debug && s.arcs > 0)
  {
    hide Step, Balanced, Exec, Runs;
    InitialBalance(debug);
    RunKeepsBalance(Initial(Unchecked, debug), run);
    RunKeepsConfiguration(Initial(Unchecked, debug), run);
    var s := Exec(Initial(Unchecked, debug), run);
    if s.pc.Published? && s.result.Some? { CheckStep(s); }
  }

  lemma {:induction false} RunKeepsBalance(s: State, run: seq<Action>)
    requires Balanced(s) && Runs(s, run)
    ensures Balanced(Exec(s, run))
    decreases |run|
  {
    if run != [] {
      StepKeepsBalance(s, run[0]);
      RunKeepsBalance(Step(s, run[0]), run[1..]);
    }
  }

  /** A run is aborted if and only if debug assertions are on and the check came while an
      observer held an Arc, which then had been upgraded before the check. */
  lemma RunIsAbortedIff(debug: bool, run: seq<Action>)
    requires Runs(Initial(Unchecked, debug), run)
    ensures var s := Initial(Unchecked, debug);
            && (Exec(s, run).pc.Aborted? <==> debug && Occurs(CheckWhileShared, s, run))
            && (Occurs(CheckWhileShared, s, run) ==> Occurs(UpgradeBeforeCheck, s, run))
  {
    hide Step, Inv, Balanced, Exec, Occurs, Runs;
    InitialBalance(debug);
    InitialInv(Unchecked, debug);
    AbortedIff(Initial(Unchecked, debug), run);
    if Occurs(CheckWhileShared, Initial(Unchecked, debug), run) {
      SharingNeedsUpgrade(Initial(Unchecked, debug), run);
    }
  }

  /** What the check lets through, exactly: a debug run that returns its error came to the
      check when no observer held an Arc, and it has exposed uninitialised memory if and
      only if a `Weak` was upgraded after the check, or one was upgraded before it, every
      Arc so obtained being gone again by then. */
  lemma ReturnedErrorWasExposedIff(run: seq<Action>)
    requires Runs(Initial(Unchecked, true), run)
    requires var s := Exec(Initial(Unchecked, true), run); s.pc.Done? && s.pc.r.ReturnErr?
    ensures var s := Initial(Unchecked, true);
            && Occurs(CheckWhileUnique, s, run) && !Occurs(CheckWhileShared, s, run)
            && (EverExposed(s, run) <==> Occurs(UpgradeAfterCheck, s, run) || Occurs(UpgradeBeforeCheck, s, run))
  {
    hide Step, Inv, Balanced, Exec, Occurs, Runs, AllAllowed, EverExposed;
    InitialBalance(true);
    AbortedIff(Initial(Unchecked, true), run);
    PastMeansChecked(Initial(Unchecked, true), run);
    ExposedIffUpgradedInWindow(Unchecked, true, run);
    UpgradesAreEvents(Initial(Unchecked, true), run);
  }
}
