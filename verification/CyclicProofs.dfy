/** Safety, results and conservation of cyclic construction, over all schedules. */
module CyclicProofs {
  import opened Wrappers
  import opened CyclicMachine

  /** Weak references that belong to the maker's stack. */
  function MakerWeaks(pc: Pc): nat {
    match pc
    case Allocated | Asserted | WritePending(_) | Publish | UnwindWeak(_) => 1
    case Running | Returned(_) | ClosureDone(_) | Unwinding(_) => 2
    case _ => 0
  }

  /** Strong references that belong to the maker's stack. */
  function MakerArcs(pc: Pc): nat {
    if pc.Published? || pc.Dropping? || pc.Aborted? then 1 else 0
  }

  /** The weak reference that all strong references own together. */
  function Collective(s: State): nat {
    if s.strong > 0 || !s.tail.NoTail? || s.pc.ReleaseWeak? then 1 else 0
  }

  predicate BeforePublish(pc: Pc) {
    pc.Start? || pc.Allocated? || pc.Asserted? || pc.Running? || pc.Returned? || pc.ClosureDone?
    || pc.Unwinding? || pc.WritePending? || pc.Publish? || pc.UnwindWeak? || pc.Caught?
  }

  /** The closure's result `d` agrees with how the initializer ended. */
  predicate Produced(s: State, d: Data) {
    match d
    case Init(v) => s.outcome == Some(InitOk(v)) && s.result.None?
    case Uninit => s.strategy.Unchecked? && s.result.Some? && s.outcome == Some(InitErr(s.result.value))
    case Dropped => false
  }

  /** A panic `p` that is under way agrees with how the initializer ended. */
  predicate Panicked(s: State, p: Payload) {
    && s.result.None?
    && match p
       case InitError => s.strategy.CatchUnwind? && s.error.Written? && s.outcome == Some(InitErr(s.error.e))
       case ErrorMessage => s.strategy.PanicOnError? && s.outcome.Some? && s.outcome.value.InitErr?
       case AssertMessage => false
       case User(c) => s.outcome == Some(InitPanic(c))
  }

  predicate Failed(s: State, e: Error) {
    s.strategy.Unchecked? && s.result == Some(e) && s.outcome == Some(InitErr(e)) && s.data.Uninit?
  }

  /** What holds at each place of the maker. */
  predicate AtPc(s: State) {
    match s.pc
    case Aborted => false
    case Start => s.outcome.None? && s.result.None? && s.data.Uninit? && s.weaks == 0
    case Allocated | Asserted | Running => s.outcome.None? && s.result.None? && s.data.Uninit?
    case Returned(o) => s.outcome == Some(o) && s.result.None? && s.data.Uninit?
    case ClosureDone(d) => Produced(s, d) && s.data.Uninit?
    case WritePending(d) => Produced(s, d) && s.data.Uninit?
    case Publish => Produced(s, s.data)
    case Published => Produced(s, s.data) && (s.result.Some? ==> s.arcs == 0)
    case Unwinding(p) => Panicked(s, p) && s.data.Uninit?
    case UnwindWeak(p) => Panicked(s, p) && s.data.Uninit?
    case Caught(p) => Panicked(s, p) && s.data.Uninit?
    case Dropping(e) => Failed(s, e) && s.arcs == 0
    case ReleaseWeak(e) => Failed(s, e) && s.strong == 0
    case Returning(e) => Failed(s, e) && s.strong == 0
    case Done(r) =>
      && s.outcome.Some? && r == Expected(s.strategy, s.outcome.value)
      && match r
         case ReturnOk =>
           && s.outcome.value.InitOk?
           && (s.strong > 0 || s.tail.DropData? ==> s.data == Init(s.outcome.value.v))
           && (s.strong == 0 && !s.tail.DropData? ==> s.data.Dropped?)
         case _ => s.strong == 0 && s.data.Uninit?
  }

  /** The captured error is written once on its way out and taken once. */
  predicate ErrorSlot(s: State) {
    match s.error
    case Unwritten =>
      && s.writes == 0 && s.takes == 0
      && (s.strategy.CatchUnwind? && s.pc.Done? ==> !s.pc.r.ReturnErr?)
    case Written(e) =>
      && s.strategy.CatchUnwind? && s.writes == 1 && s.takes == 0
      && (s.pc == Unwinding(InitError) || s.pc == UnwindWeak(InitError) || s.pc == Caught(InitError))
    case Taken => s.strategy.CatchUnwind? && s.writes == 1 && s.takes == 1 && s.pc.Done? && s.pc.r.ReturnErr?
  }

  predicate Inv(s: State) {
    && !s.ub
    && s.strong == s.arcs + MakerArcs(s.pc)
    && s.weak == s.weaks + MakerWeaks(s.pc) + Collective(s)
    && s.freed == (if s.weak == 0 && !s.pc.Start? then 1 else 0)
    && (BeforePublish(s.pc) ==> s.strong == 0)
    && (!s.tail.NoTail? ==> s.strong == 0 && s.pc == Done(ReturnOk))
    && AtPc(s)
    && ErrorSlot(s)
  }

  lemma SetUpKeepsInv(s: State)
    requires Inv(s) && (s.pc.Start? || s.pc.Allocated? || s.pc.Asserted?)
    ensures Inv(MakerStep(s))
  {
  }

  lemma MatchKeepsInv(s: State)
    requires Inv(s) && (s.pc.Returned?)
    ensures Inv(MakerStep(s))
  {
  }

  lemma DropTempKeepsInv(s: State)
    requires Inv(s) && (s.pc.ClosureDone? || s.pc.Unwinding? || s.pc.UnwindWeak?)
    ensures Inv(MakerStep(s))
  {
  }

  lemma WriteKeepsInv(s: State)
    requires Inv(s) && (s.pc.WritePending? || s.pc.Publish?)
    ensures Inv(MakerStep(s))
  {
  }

  lemma HandlePanicKeepsInv(s: State)
    requires Inv(s) && (s.pc.Caught?)
    ensures Inv(MakerStep(s))
  {
  }

  lemma HandleValueKeepsInv(s: State)
    requires Inv(s) && (s.pc.Published?)
    ensures Inv(MakerStep(s))
  {
  }

  lemma DropValueKeepsInv(s: State)
    requires Inv(s) && (s.pc.Dropping? || s.pc.ReleaseWeak? || s.pc.Returning?)
    ensures Inv(MakerStep(s))
  {
  }

  lemma MakerKeepsInv(s: State)
    requires Inv(s) && Enabled(s, Maker)
    ensures Inv(MakerStep(s))
  {
    match s.pc
    case Start | Allocated | Asserted => SetUpKeepsInv(s);
    case Returned(_) => MatchKeepsInv(s);
    case ClosureDone(_) | Unwinding(_) | UnwindWeak(_) => DropTempKeepsInv(s);
    case WritePending(_) | Publish => WriteKeepsInv(s);
    case Caught(_) => HandlePanicKeepsInv(s);
    case Published => HandleValueKeepsInv(s);
    case Dropping(_) | ReleaseWeak(_) | Returning(_) => DropValueKeepsInv(s);
    case _ => assert false;
  }

  lemma ObserverKeepsInv(s: State, a: Action)
    requires Inv(s) && Enabled(s, a) && Allowed(s, a) && !a.Maker?
    ensures Inv(Step(s, a))
  {
  }

  lemma StepKeepsInv(s: State, a: Action)
    requires Inv(s) && Enabled(s, a) && Allowed(s, a)
    ensures Inv(Step(s, a))
  {
    if a.Maker? { MakerKeepsInv(s); } else { ObserverKeepsInv(s, a); }
  }

  lemma InitialInv(strategy: Strategy, debug: bool)
    ensures Inv(Initial(strategy, debug))
  {
  }

  lemma {:induction false} RunKeepsInv(s: State, run: seq<Action>)
    requires Inv(s) && Runs(s, run) && AllAllowed(s, run)
    ensures Inv(Exec(s, run))
    decreases |run|
  {
    if run != [] {
      StepKeepsInv(s, run[0]);
      RunKeepsInv(Step(s, run[0]), run[1..]);
    }
  }

  lemma StepKeepsConfiguration(s: State, a: Action)
    requires Enabled(s, a)
    ensures Step(s, a).strategy == s.strategy && Step(s, a).debug == s.debug
  {
    match a
    case Maker => match s.pc { case Returned(o) => case _ => }
    case _ =>
  }

  /** Only the unchecked strategy has a window, so the others allow everything. */
  lemma {:induction false} OtherStrategiesAllowAll(s: State, run: seq<Action>)
    requires !s.strategy.Unchecked? && Runs(s, run)
    ensures AllAllowed(s, run)
    decreases |run|
  {
    if run != [] {
      StepKeepsConfiguration(s, run[0]);
      OtherStrategiesAllowAll(Step(s, run[0]), run[1..]);
    }
  }

  lemma {:induction false} RunKeepsConfiguration(s: State, run: seq<Action>)
    requires Runs(s, run)
    ensures Exec(s, run).strategy == s.strategy && Exec(s, run).debug == s.debug
    decreases |run|
  {
    if run != [] {
      StepKeepsConfiguration(s, run[0]);
      RunKeepsConfiguration(Step(s, run[0]), run[1..]);
    }
  }

  lemma InvIsSafe(s: State)
    requires Inv(s)
    ensures !s.ub && !Exposed(s) && !s.pc.Aborted?
    ensures s.strong > 0 && !s.data.Init? <==> InWindow(s)
  {
    match s.pc
    case Done(r) =>
    case Published =>
    case Dropping(_) =>
    case _ =>
  }

  lemma RunIsSafe(s: State, run: seq<Action>)
    requires Inv(s) && Runs(s, run) && AllAllowed(s, run)
    ensures var s' := Exec(s, run);
            && !s'.ub && !Exposed(s') && !s'.pc.Aborted?
            && (s'.strong > 0 && !s'.data.Init? <==> InWindow(s'))
  {
    RunKeepsInv(s, run);
    InvIsSafe(Exec(s, run));
  }

  // ---- Safety ----------------------------------------------------------------

  /** With catch-unwind and with panic-on-error no schedule whatsoever ever shows a
      strong count over uninitialised memory, uses such memory, or uses released memory. */
  lemma CheckedStrategiesAreSafe(strategy: Strategy, debug: bool, run: seq<Action>)
    requires !strategy.Unchecked? && Runs(Initial(strategy, debug), run)
    ensures var s := Exec(Initial(strategy, debug), run);
            && !s.ub && !Exposed(s)
            && (s.strong > 0 ==> s.data.Init?)
  {
    OtherStrategiesAllowAll(Initial(strategy, debug), run);
    AllowedRunsAreSafe(strategy, debug, run);
    RunKeepsConfiguration(Initial(strategy, debug), run);
  }

  /** With any strategy, a run without an upgrade in the window is just as safe, and a
      strong count over uninitialised memory is to be seen in the window only. */
  lemma AllowedRunsAreSafe(strategy: Strategy, debug: bool, run: seq<Action>)
    requires Runs(Initial(strategy, debug), run) && AllAllowed(Initial(strategy, debug), run)
    ensures var s := Exec(Initial(strategy, debug), run);
            && !s.ub && !Exposed(s) && !s.pc.Aborted?
            && (s.strong > 0 && !s.data.Init? <==> InWindow(s))
  {
    InitialInv(strategy, debug);
    RunIsSafe(Initial(strategy, debug), run);
  }

  lemma {:induction false} AllowedNeverExposes(s: State, run: seq<Action>)
    requires Inv(s) && Runs(s, run)
    ensures EverExposed(s, run) <==> !AllAllowed(s, run)
    decreases |run|
  {
    if run != [] {
      var s' := Step(s, run[0]);
      if Allowed(s, run[0]) {
        StepKeepsInv(s, run[0]);
        AllowedNeverExposes(s', run[1..]);
      } else {
        assert Exposed(s');
      }
    }
  }

  /** The caller's side of the unchecked strategy, exactly: a run exposes uninitialised
      memory if and only if a `Weak` is upgraded inside the window. */
  lemma ExposedIffUpgradedInWindow(strategy: Strategy, debug: bool, run: seq<Action>)
    requires Runs(Initial(strategy, debug), run)
    ensures EverExposed(Initial(strategy, debug), run) <==> !AllAllowed(Initial(strategy, debug), run)
  {
    AllowedNeverExposes(Initial(strategy, debug), run);
  }

  lemma {:induction false} Extend(s: State, run: seq<Action>, a: Action)
    requires Runs(s, run) && Enabled(Exec(s, run), a)
    ensures Runs(s, run + [a]) && Exec(s, run + [a]) == Step(Exec(s, run), a)
    decreases |run|
  {
    if run == [] {
      assert [a][1..] == [];
    } else {
      Extend(Step(s, run[0]), run[1..], a);
      assert (run + [a])[1..] == run[1..] + [a];
    }
  }

  lemma {:induction false} ExtendAllowed(s: State, run: seq<Action>, a: Action)
    requires Runs(s, run) && AllAllowed(s, run) && Enabled(Exec(s, run), a) && Allowed(Exec(s, run), a)
    ensures Runs(s, run + [a]) && AllAllowed(s, run + [a])
    decreases |run|
  {
    if run == [] {
      assert [a][1..] == [];
    } else {
      ExtendAllowed(Step(s, run[0]), run[1..], a);
      assert (run + [a])[1..] == run[1..] + [a];
    }
  }

  /** A failing initializer that has handed out one `Weak`, up to the write of the value. */
  lemma FailingStart(debug: bool, e: Error) returns (run: seq<Action>)
    ensures Runs(Initial(Unchecked, debug), run)
    ensures Exec(Initial(Unchecked, debug), run)
         == Initial(Unchecked, debug).(pc := Returned(InitErr(e)), weak := 3, weaks := 1, outcome := Some(InitErr(e)))
  {
    var s := Initial(Unchecked, debug);
    run := [];
    Extend(s, run, Maker);
    run := run + [Maker];
    Extend(s, run, Maker);
    run := run + [Maker];
    Extend(s, run, Maker);
    run := run + [Maker];
    Extend(s, run, CloneTemp);
    run := run + [CloneTemp];
    Extend(s, run, FinishInit(InitErr(e)));
    run := run + [FinishInit(InitErr(e))];
  }

  /** From there the maker reaches the window in four steps. */
  lemma WindowIsReached(debug: bool, e: Error) returns (run: seq<Action>)
    ensures Runs(Initial(Unchecked, debug), run)
    ensures var s := Exec(Initial(Unchecked, debug), run);
            && InWindow(s) && s.strong == 1 && s.weaks == 1 && s.data.Uninit? && !s.ub && s.freed == 0
            && s.pc.Published? && s.result == Some(e) && s.arcs == 0
  {
    var s := Initial(Unchecked, debug);
    run := FailingStart(debug, e);
    Extend(s, run, Maker);
    run := run + [Maker];
    Extend(s, run, Maker);
    run := run + [Maker];
    Extend(s, run, Maker);
    run := run + [Maker];
    Extend(s, run, Maker);
    run := run + [Maker];
  }

  /** The window is real: whatever the error and even with debug assertions, an observer
      that upgrades in it can read uninitialised memory. */
  lemma WindowCanBeHit(debug: bool, e: Error) returns (run: seq<Action>)
    ensures Runs(Initial(Unchecked, debug), run) && Exec(Initial(Unchecked, debug), run).ub
  {
    hide Runs, Exec, Initial;
    run := WindowIsReached(debug, e);
    Extend(Initial(Unchecked, debug), run, Upgrade);
    run := run + [Upgrade];
    Extend(Initial(Unchecked, debug), run, Deref);
    run := run + [Deref];
  }

  /** With debug assertions on or off, one that comes after the count check goes unnoticed:
      the call returns its error while an observer holds an Arc over uninitialised memory. */
  lemma CheckCanBeMissed(debug: bool, e: Error) returns (run: seq<Action>)
    ensures Runs(Initial(Unchecked, debug), run)
    ensures var s := Exec(Initial(Unchecked, debug), run); s.pc == Done(ReturnErr(e)) && Exposed(s)
  {
    hide Runs, Exec, Initial;
    var s := Initial(Unchecked, debug);
    run := WindowIsReached(debug, e);
    Extend(s, run, Maker);
    run := run + [Maker];
    Extend(s, run, Upgrade);
    run := run + [Upgrade];
    Extend(s, run, Maker);
    run := run + [Maker];
    Extend(s, run, Maker);
    run := run + [Maker];
  }

  /** So does one that comes before the check, if the Arc is dropped again in time: the
      memory has been read, and the check finds a count of one. */
  lemma CheckCanBeOutrun(debug: bool, e: Error) returns (run: seq<Action>)
    ensures Runs(Initial(Unchecked, debug), run)
    ensures var s := Exec(Initial(Unchecked, debug), run); s.pc == Done(ReturnErr(e)) && s.ub
  {
    hide Runs, Exec, Initial;
    var s := Initial(Unchecked, debug);
    run := WindowIsReached(debug, e);
    Extend(s, run, Upgrade);
    run := run + [Upgrade];
    Extend(s, run, Deref);
    run := run + [Deref];
    Extend(s, run, DropArc);
    run := run + [DropArc];
    Extend(s, run, Maker);
    run := run + [Maker];
    Extend(s, run, Maker);
    run := run + [Maker];
    Extend(s, run, Maker);
    run := run + [Maker];
    Extend(s, run, Maker);
    run := run + [Maker];
  }

  // ---- Counts, promise or no promise ---------------------------------------------

  /** Every strong reference belongs to an observer or to the maker's `value`. */
  predicate Balanced(s: State) {
    && s.strong == s.arcs + MakerArcs(s.pc)
    && (BeforePublish(s.pc) ==> s.strong == 0)
    && (s.pc.Start? ==> s.weaks == 0 && s.tail.NoTail?)
  }

  lemma MakerKeepsBalance(s: State)
    requires Balanced(s) && Enabled(s, Maker)
    ensures Balanced(MakerStep(s))
  {
    match s.pc { case Returned(_) => case Caught(_) => case Published => case _ => }
  }

  lemma ObserverKeepsBalance(s: State, a: Action)
    requires Balanced(s) && Enabled(s, a) && !a.Maker?
    ensures Balanced(Step(s, a))
  {
  }

  lemma StepKeepsBalance(s: State, a: Action)
    requires Balanced(s) && Enabled(s, a)
    ensures Balanced(Step(s, a))
  {
    hide Balanced;
    if a.Maker? { MakerKeepsBalance(s); } else { ObserverKeepsBalance(s, a); }
  }

  /** The maker has the error `e` to report, whatever became of the memory. */
  predicate Reports(s: State, e: Error) {
    s.strategy.Unchecked? && s.result == Some(e) && s.outcome == Some(InitErr(e))
  }

  /** What holds at each place of the maker even if observers upgrade inside the window. */
  predicate AtPlace(s: State) {
    match s.pc
    case Aborted => true
    case Published => Produced(s, s.data)
    case Dropping(e) => Reports(s, e)
    case ReleaseWeak(e) => Reports(s, e) && s.strong == 0
    case Returning(e) => Reports(s, e)
    case Done(r) =>
      if r.ReturnErr? then s.outcome == Some(InitErr(r.e)) && !s.strategy.PanicOnError? else AtPc(s)
    case _ => AtPc(s)
  }

  /** Every reference, the allocation and the captured error are accounted for. */
  predicate Accounted(s: State) {
    && Balanced(s)
    && s.weak == s.weaks + MakerWeaks(s.pc) + Collective(s)
    && s.freed == (if s.weak == 0 && !s.pc.Start? then 1 else 0)
    && (!s.tail.NoTail? ==> s.strong == 0 && (s.pc.Returning? || (s.pc.Done? && !s.pc.r.Unwound?)))
    && AtPlace(s)
    && ErrorSlot(s)
  }

  lemma SetUpAccounts(s: State)
    requires Accounted(s) && Enabled(s, Maker)
    requires s.pc.Start? || s.pc.Allocated? || s.pc.Asserted? || s.pc.Returned?
    ensures Accounted(Step(s, Maker))
  {
  }

  lemma ClosureAccounts(s: State)
    requires Accounted(s) && Enabled(s, Maker)
    requires s.pc.ClosureDone? || s.pc.Unwinding? || s.pc.UnwindWeak? || s.pc.Caught?
    ensures Accounted(Step(s, Maker))
  {
  }

  lemma WriteAccounts(s: State)
    requires Accounted(s) && Enabled(s, Maker)
    requires s.pc.WritePending? || s.pc.Publish? || s.pc.Published?
    ensures Accounted(Step(s, Maker))
  {
  }

  lemma DropValueAccounts(s: State)
    requires Accounted(s) && Enabled(s, Maker)
    requires s.pc.Dropping? || s.pc.ReleaseWeak? || s.pc.Returning?
    ensures Accounted(Step(s, Maker))
  {
  }

  lemma MakerAccounts(s: State)
    requires Accounted(s) && Enabled(s, Maker)
    ensures Accounted(Step(s, Maker))
  {
    hide Accounted, Step;
    if s.pc.Start? || s.pc.Allocated? || s.pc.Asserted? || s.pc.Returned? {
      SetUpAccounts(s);
    } else if s.pc.ClosureDone? || s.pc.Unwinding? || s.pc.UnwindWeak? || s.pc.Caught? {
      ClosureAccounts(s);
    } else if s.pc.WritePending? || s.pc.Publish? || s.pc.Published? {
      WriteAccounts(s);
    } else {
      DropValueAccounts(s);
    }
  }

  lemma FinishInitAccounts(s: State, a: Action)
    requires Accounted(s) && Enabled(s, a) && a.FinishInit?
    ensures Accounted(Step(s, a))
  {
  }

  lemma UpgradeAccounts(s: State, a: Action)
    requires Accounted(s) && Enabled(s, a) && (a.UpgradeTemp? || a.Upgrade?)
    ensures Accounted(Step(s, a))
  {
  }

  lemma CloneWeakAccounts(s: State, a: Action)
    requires Accounted(s) && Enabled(s, a) && (a.CloneTemp? || a.CloneWeak?)
    ensures Accounted(Step(s, a))
  {
  }

  lemma DropWeakAccounts(s: State)
    requires Accounted(s) && Enabled(s, DropWeak)
    ensures Accounted(Step(s, DropWeak))
  {
  }

  lemma ArcHolderAccounts(s: State, a: Action)
    requires Accounted(s) && Enabled(s, a)
    requires a.CloneArc? || a.DropArc? || a.Downgrade? || a.Deref? || a.FinishData? || a.FinishCollective?
    ensures Accounted(Step(s, a))
  {
  }

  lemma StepAccounts(s: State, a: Action)
    requires Accounted(s) && Enabled(s, a)
    ensures Accounted(Step(s, a))
  {
    hide Accounted, Step;
    if a.Maker? {
      MakerAccounts(s);
    } else if a.FinishInit? {
      FinishInitAccounts(s, a);
    } else if a.UpgradeTemp? || a.Upgrade? {
      UpgradeAccounts(s, a);
    } else if a.CloneTemp? || a.CloneWeak? {
      CloneWeakAccounts(s, a);
    } else if a.DropWeak? {
      DropWeakAccounts(s);
    } else {
      ArcHolderAccounts(s, a);
    }
  }

  lemma {:induction false} RunAccounts(s: State, run: seq<Action>)
    requires Accounted(s) && Runs(s, run)
    ensures Accounted(Exec(s, run))
    decreases |run|
  {
    if run != [] {
      hide Accounted, Step;
      StepAccounts(s, run[0]);
      RunAccounts(Step(s, run[0]), run[1..]);
    }
  }

  lemma InvAccounts(s: State)
    requires Inv(s)
    ensures Accounted(s) && Balanced(s)
  {
  }

  lemma InitialAccounts(strategy: Strategy, debug: bool)
    ensures Accounted(Initial(strategy, debug)) && Balanced(Initial(strategy, debug))
  {
    hide Inv, Accounted, Balanced, Initial;
    InitialInv(strategy, debug);
    InvAccounts(Initial(strategy, debug));
  }

  // ---- Results and conservation ------------------------------------------------

  /** When `run` has ended, its outcome is the one promised for the way the initializer
      ended; every reference of the maker is gone; the allocation has been released once
      if nobody refers to it and not at all otherwise; and the error went through the
      captured slot exactly once on the catch path and not at all on any other. All this
      holds even if observers upgrade inside the window. */
  lemma OutcomeAndConservation(strategy: Strategy, debug: bool, run: seq<Action>)
    requires Runs(Initial(strategy, debug), run)
    ensures var s := Exec(Initial(strategy, debug), run);
            s.pc.Done? ==>
              && s.outcome.Some?
              && s.pc.r == (match s.outcome.value
                            case InitOk(_) => ReturnOk
                            case InitErr(e) => if strategy.PanicOnError? then Unwound(ErrorMessage) else ReturnErr(e)
                            case InitPanic(c) => Unwound(User(c)))
              && s.strong == s.arcs
              && s.weak == s.weaks + (if s.strong > 0 || !s.tail.NoTail? then 1 else 0)
              && s.freed == (if s.arcs == 0 && s.weaks == 0 && s.tail.NoTail? then 1 else 0)
              && (s.pc.r.ReturnOk? && s.arcs > 0 ==> s.data == Init(s.outcome.value.v))
              && s.writes == s.takes == (if strategy.CatchUnwind? && s.outcome.value.InitErr? then 1 else 0)
  {
    hide Accounted, Balanced, Runs, Exec;
    InitialAccounts(strategy, debug);
    RunAccounts(Initial(strategy, debug), run);
    RunKeepsConfiguration(Initial(strategy, debug), run);
    DoneMeans(Exec(Initial(strategy, debug), run));
  }

  lemma DoneMeans(s: State)
    requires Accounted(s)
    ensures s.pc.Done? ==>
              && s.outcome.Some? && s.pc.r == Expected(s.strategy, s.outcome.value)
              && s.strong == s.arcs
              && s.weak == s.weaks + (if s.strong > 0 || !s.tail.NoTail? then 1 else 0)
              && s.freed == (if s.arcs == 0 && s.weaks == 0 && s.tail.NoTail? then 1 else 0)
              && (s.pc.r.ReturnOk? && s.arcs > 0 ==> s.data == Init(s.outcome.value.v))
              && s.writes == s.takes == (if s.strategy.CatchUnwind? && s.outcome.value.InitErr? then 1 else 0)
  {
  }

  lemma DeadStaysDead(s: State, a: Action)
    requires Inv(s) && s.pc.Done? && s.strong == 0 && Enabled(s, a)
    ensures var s' := Step(s, a); Inv(s') && s'.pc == s.pc && s'.strong == 0 && s'.arcs == 0
  {
    StepKeepsInv(s, a);
  }

  lemma {:induction false} DeadForever(s: State, more: seq<Action>)
    requires Inv(s) && s.pc.Done? && Runs(s, more)
    requires !s.pc.r.ReturnOk? || s.strong == 0
    ensures Exec(s, more).strong == 0 && Exec(s, more).arcs == 0
    decreases |more|
  {
    if more != [] {
      DeadStaysDead(s, more[0]);
      DeadForever(Step(s, more[0]), more[1..]);
    }
  }

  /** Once construction has failed, or the last Arc is gone, no stored `Weak` can ever
      be upgraded again, whatever observers do. */
  lemma FailureIsFinal(strategy: Strategy, debug: bool, run: seq<Action>, more: seq<Action>)
    requires Runs(Initial(strategy, debug), run) && AllAllowed(Initial(strategy, debug), run)
    requires Runs(Exec(Initial(strategy, debug), run), more)
    requires var s := Exec(Initial(strategy, debug), run); s.pc.Done? && (!s.pc.r.ReturnOk? || s.strong == 0)
    ensures var s := Exec(Exec(Initial(strategy, debug), run), more); s.strong == 0 && s.arcs == 0
  {
    RunKeepsInv(Initial(strategy, debug), run);
    DeadForever(Exec(Initial(strategy, debug), run), more);
  }
}
