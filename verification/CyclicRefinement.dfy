/** The unchecked strategy refines the catch-unwind strategy as long as nobody upgrades
    inside the window, and the other way round: every such run is a catch-unwind run with
    some maker steps added, every catch-unwind run is got like that, and the two agree on
    the outcome and on all counts in the end. */
module CyclicRefinement {
  import opened Wrappers
  import opened CyclicMachine
  import opened CyclicProofs

  /** Where catch-unwind is when the unchecked maker, having failed, is at `pc`. */
  function AbsPc(pc: Pc): Pc {
    match pc
    case ClosureDone(_) => Unwinding(InitError)
    case WritePending(_) | Publish | Published | Dropping(_) | ReleaseWeak(_) => UnwindWeak(InitError)
    case Returning(_) => Caught(InitError)
    case _ => pc
  }

  /** The catch-unwind state that an unchecked state stands for. */
  function Abs(s: State): State {
    match s.result
    case None => s.(strategy := CatchUnwind)
    case Some(e) =>
      s.(strategy := CatchUnwind,
         pc := AbsPc(s.pc),
         strong := if InWindow(s) then 0 else s.strong,
         result := None,
         error := if s.pc.Done? then Taken else Written(e),
         writes := 1,
         takes := if s.pc.Done? then 1 else 0)
  }

  /** The maker step is the unchecked strategy's own business. */
  predicate Stutters(s: State, a: Action) {
    a.Maker? && s.result.Some? && (s.pc.WritePending? || s.pc.Publish? || s.pc.Published? || s.pc.Dropping?)
  }

  lemma MakerSimulates(s: State)
    requires Inv(s) && s.strategy.Unchecked? && Enabled(s, Maker)
    ensures if Stutters(s, Maker) then Abs(MakerStep(s)) == Abs(s)
            else Enabled(Abs(s), Maker) && MakerStep(Abs(s)) == Abs(MakerStep(s))
  {
    match s.pc
    case Start | Allocated | Asserted | Returned(_) | ClosureDone(_) | Unwinding(_) | UnwindWeak(_) => BeforeWrite(s);
    case _ => AfterWrite(s);
  }

  lemma BeforeWrite(s: State)
    requires Inv(s) && s.strategy.Unchecked? && Enabled(s, Maker)
    requires s.pc.Start? || s.pc.Allocated? || s.pc.Asserted? || s.pc.Returned? || s.pc.ClosureDone?
          || s.pc.Unwinding? || s.pc.UnwindWeak?
    ensures Enabled(Abs(s), Maker) && MakerStep(Abs(s)) == Abs(MakerStep(s))
  {
  }

  lemma AfterWrite(s: State)
    requires Inv(s) && s.strategy.Unchecked? && Enabled(s, Maker)
    requires s.pc.WritePending? || s.pc.Publish? || s.pc.Published? || s.pc.Caught? || s.pc.Dropping?
          || s.pc.ReleaseWeak? || s.pc.Returning?
    ensures if Stutters(s, Maker) then Abs(MakerStep(s)) == Abs(s)
            else Enabled(Abs(s), Maker) && MakerStep(Abs(s)) == Abs(MakerStep(s))
  {
  }

  lemma ObserverSimulates(s: State, a: Action)
    requires Inv(s) && s.strategy.Unchecked? && Enabled(s, a) && Allowed(s, a) && !a.Maker?
    ensures Enabled(Abs(s), a) && Step(Abs(s), a) == Abs(Step(s, a))
  {
    match a
    case FinishInit(_) | CloneTemp | UpgradeTemp => InitializerSimulates(s, a);
    case CloneWeak | DropWeak | Upgrade => WeakHolderSimulates(s, a);
    case _ => ArcHolderSimulates(s, a);
  }

  lemma InitializerSimulates(s: State, a: Action)
    requires Inv(s) && s.strategy.Unchecked? && Enabled(s, a) && (a.FinishInit? || a.CloneTemp? || a.UpgradeTemp?)
    ensures Enabled(Abs(s), a) && Step(Abs(s), a) == Abs(Step(s, a))
  {
  }

  lemma WeakHolderSimulates(s: State, a: Action)
    requires Inv(s) && s.strategy.Unchecked? && Enabled(s, a) && Allowed(s, a)
    requires a.CloneWeak? || a.DropWeak? || a.Upgrade?
    ensures Enabled(Abs(s), a) && Step(Abs(s), a) == Abs(Step(s, a))
  {
  }

  lemma ArcHolderSimulates(s: State, a: Action)
    requires Inv(s) && s.strategy.Unchecked? && Enabled(s, a)
    requires a.CloneArc? || a.DropArc? || a.Downgrade? || a.Deref? || a.FinishData? || a.FinishCollective?
    ensures Enabled(Abs(s), a) && Step(Abs(s), a) == Abs(Step(s, a))
  {
  }

  lemma StepSimulates(s: State, a: Action)
    requires Inv(s) && s.strategy.Unchecked? && Enabled(s, a) && Allowed(s, a)
    ensures if Stutters(s, a) then Abs(Step(s, a)) == Abs(s)
            else Enabled(Abs(s), a) && Step(Abs(s), a) == Abs(Step(s, a))
  {
    hide Inv, Abs, MakerStep;
    if a.Maker? { MakerSimulates(s); } else { ObserverSimulates(s, a); }
  }

  /** The catch-unwind schedule: the unchecked one without the stuttering steps. */
  function Erase(s: State, run: seq<Action>): seq<Action>
    requires Runs(s, run)
    decreases |run|
  {
    if run == [] then []
    else
      var rest := Erase(Step(s, run[0]), run[1..]);
      if Stutters(s, run[0]) then rest else [run[0]] + rest
  }

  lemma {:induction false} RunSimulates(s: State, run: seq<Action>)
    requires Inv(s) && s.strategy.Unchecked? && Runs(s, run) && AllAllowed(s, run)
    ensures Runs(Abs(s), Erase(s, run))
    ensures Exec(Abs(s), Erase(s, run)) == Abs(Exec(s, run))
    decreases |run|
  {
    if run != [] {
      var a := run[0];
      var s' := Step(s, a);
      var rest := Erase(s', run[1..]);
      StepKeepsInv(s, a);
      StepKeepsConfiguration(s, a);
      RunSimulates(s', run[1..]);
      StepSimulates(s, a);
      if !Stutters(s, a) { assert ([a] + rest)[1..] == rest; }
    }
  }

  /** The steps of a run that are not the maker's own. */
  function Others(run: seq<Action>): seq<Action> {
    if run == [] then []
    else if run[0].Maker? then Others(run[1..])
    else [run[0]] + Others(run[1..])
  }

  lemma {:induction false} EraseKeepsOthers(s: State, run: seq<Action>)
    requires Runs(s, run)
    ensures Others(Erase(s, run)) == Others(run)
    decreases |run|
  {
    if run != [] {
      var rest := Erase(Step(s, run[0]), run[1..]);
      EraseKeepsOthers(Step(s, run[0]), run[1..]);
      assert ([run[0]] + rest)[1..] == rest;
    }
  }

  /** An unchecked state and the catch-unwind state it stands for, at the end. */
  predicate SameEnd(u: State, c: State) {
    && (u.pc.Done? <==> c.pc.Done?)
    && (u.pc.Done? ==>
          && c.pc == u.pc && c.outcome == u.outcome && c.data == u.data
          && c.strong == u.strong && c.weak == u.weak && c.freed == u.freed
          && c.arcs == u.arcs && c.weaks == u.weaks && c.tail == u.tail)
  }

  lemma AbsKeepsEnd(u: State)
    requires Inv(u) && u.strategy.Unchecked?
    ensures SameEnd(u, Abs(u))
  {
  }

  lemma RunKeepsEnd(s: State, run: seq<Action>)
    requires Inv(s) && s.strategy.Unchecked? && Runs(s, run) && AllAllowed(s, run)
    ensures Runs(Abs(s), Erase(s, run))
    ensures SameEnd(Exec(s, run), Exec(Abs(s), Erase(s, run)))
  {
    RunSimulates(s, run);
    RunKeepsInv(s, run);
    RunKeepsConfiguration(s, run);
    AbsKeepsEnd(Exec(s, run));
  }

  lemma AbsInitial(debug: bool)
    ensures Abs(Initial(Unchecked, debug)) == Initial(CatchUnwind, debug)
    ensures Initial(Unchecked, debug).strategy.Unchecked?
  {
  }

  /** For every unchecked run without an upgrade in the window there is a catch-unwind
      run, with the same observer steps and the same initializer result in the same
      order, that ends with the same outcome, counts and value. */
  lemma UncheckedRefinesCatchUnwind(debug: bool, run: seq<Action>) returns (caught: seq<Action>)
    requires Runs(Initial(Unchecked, debug), run) && AllAllowed(Initial(Unchecked, debug), run)
    ensures Runs(Initial(CatchUnwind, debug), caught)
    ensures Others(caught) == Others(run)
    ensures SameEnd(Exec(Initial(Unchecked, debug), run), Exec(Initial(CatchUnwind, debug), caught))
  {
    InitialInv(Unchecked, debug);
    AbsInitial(debug);
    RunKeepsEnd(Initial(Unchecked, debug), run);
    EraseKeepsOthers(Initial(Unchecked, debug), run);
    caught := Erase(Initial(Unchecked, debug), run);
  }

  // ---- The other direction -----------------------------------------------------

  /** How many stuttering steps are next. */
  function StuttersLeft(s: State): nat {
    match s.pc
    case WritePending(_) => 4
    case Publish => 3
    case Published => 2
    case Dropping(_) => 1
    case _ => 0
  }

  lemma StutterIsAllowed(s: State)
    requires Inv(s) && s.strategy.Unchecked? && Stutters(s, Maker)
    ensures Enabled(s, Maker) && Allowed(s, Maker) && StuttersLeft(Step(s, Maker)) < StuttersLeft(s)
  {
  }

  /** A maker that has no stuttering step to make is outside the window, and whatever the
      catch-unwind state can do, it can do. */
  lemma SettledFollows(s: State, a: Action)
    requires Inv(s) && s.strategy.Unchecked? && !Stutters(s, Maker) && Enabled(Abs(s), a)
    ensures Enabled(s, a) && Allowed(s, a) && !Stutters(s, a)
  {
  }

  lemma PrependStep(s: State, a: Action, rest: seq<Action>)
    requires Enabled(s, a) && Allowed(s, a) && Runs(Step(s, a), rest) && AllAllowed(Step(s, a), rest)
    ensures Runs(s, [a] + rest) && AllAllowed(s, [a] + rest)
    ensures Exec(s, [a] + rest) == Exec(Step(s, a), rest)
    ensures Others([a] + rest) == if a.Maker? then Others(rest) else [a] + Others(rest)
  {
    assert ([a] + rest)[1..] == rest;
  }

  /** The unchecked schedule: the catch-unwind one with the stuttering steps put in
      without a pause, so that nobody gets into the window. */
  lemma {:induction false} Follow(s: State, caught: seq<Action>) returns (run: seq<Action>)
    requires Inv(s) && s.strategy.Unchecked? && Runs(Abs(s), caught)
    ensures Runs(s, run) && AllAllowed(s, run) && Others(run) == Others(caught)
    ensures Abs(Exec(s, run)) == Exec(Abs(s), caught)
    decreases |caught|, StuttersLeft(s)
  {
    hide Inv, Abs, Step, Enabled, Allowed, StuttersLeft;
    var stutters := Stutters(s, Maker);
    if !stutters && caught == [] { return []; }
    var a := if stutters then Maker else caught[0];
    if stutters { StutterIsAllowed(s); } else { SettledFollows(s, a); }
    StepKeepsInv(s, a);
    StepKeepsConfiguration(s, a);
    StepSimulates(s, a);
    var rest := Follow(Step(s, a), if stutters then caught else caught[1..]);
    PrependStep(s, a, rest);
    run := [a] + rest;
  }

  /** For every catch-unwind run there is an unchecked run without an upgrade in the window
      that has the same observer steps and ends alike. So callers who keep their promise
      cannot tell the two strategies apart. */
  lemma CatchUnwindRefinesUnchecked(debug: bool, caught: seq<Action>) returns (run: seq<Action>)
    requires Runs(Initial(CatchUnwind, debug), caught)
    ensures Runs(Initial(Unchecked, debug), run) && AllAllowed(Initial(Unchecked, debug), run)
    ensures Others(run) == Others(caught)
    ensures SameEnd(Exec(Initial(Unchecked, debug), run), Exec(Initial(CatchUnwind, debug), caught))
  {
    hide Inv, Runs, Exec, AllAllowed, Others, SameEnd;
    var s := Initial(Unchecked, debug);
    InitialInv(Unchecked, debug);
    AbsInitial(debug);
    run := Follow(s, caught);
    RunKeepsInv(s, run);
    RunKeepsConfiguration(s, run);
    AbsKeepsEnd(Exec(s, run));
  }
}
