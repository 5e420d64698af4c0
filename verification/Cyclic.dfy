/** `TryNewCyclic::run` as it is written: methods that change reference counts, captured
    variables and the value in place, with observers running between any two of their
    steps. Every step is recorded, and the record is a run of the state machine. */
module Cyclic {
  import opened Wrappers
  import opened CyclicMachine
  import opened CyclicProofs

  predicate IsObserver(a: Action) {
    !a.Maker? && !a.FinishInit?
  }

  /** What has been done, and where it has led. */
  datatype Progress = Progress(log: seq<Action>, state: State)

  predicate CanAct(s: State, a: Action) {
    IsObserver(a) && Enabled(s, a) && Allowed(s, a)
  }

  /** The observers do those of `actions` that can be done when their turn comes. */
  function Play(p: Progress, actions: seq<Action>): Progress
    decreases |actions|
  {
    if actions == [] then p
    else if CanAct(p.state, actions[0]) then
      Play(Progress(p.log + [actions[0]], Step(p.state, actions[0])), actions[1..])
    else Play(p, actions[1..])
  }

  /** What the maker, or the initializer, does next. */
  function Next(s: State, init: InitResult): Action {
    if s.pc.Running? then FinishInit(init) else Maker
  }

  /** One step of the maker, after which the observers get to run unless it was the last. */
  function Turn(p: Progress, init: InitResult, actions: seq<Action>): Progress {
    if !Enabled(p.state, Next(p.state, init)) then p
    else
      var a := Next(p.state, init);
      var q := Progress(p.log + [a], Step(p.state, a));
      if q.state.pc.Done? then q else Play(q, actions)
  }

  /** `n` steps of the maker in turn with what the observers do after each of them. */
  function Weave(s: State, env: nat -> seq<Action>, init: InitResult, n: nat): Progress {
    if n == 0 then Progress([], s) else Turn(Weave(s, env, init, n - 1), init, env(n - 1))
  }

  lemma EmptyRun(s: State)
    ensures Runs(s, []) && AllAllowed(s, []) && Exec(s, []) == s
  {
  }

  class Construction {
    const strategy: Strategy
    const debug: bool
    /** How the initializer is going to end. */
    const init: InitResult
    /** What the observers try to do after the maker's k-th step. */
    const env: nat -> seq<Action>

    var pc: Pc
    var strong: nat
    var weak: nat
    var data: Data
    var arcs: nat
    var weaks: nat
    var tail: Tail
    var freed: nat
    var result: Option<Error>
    var error: Slot
    var writes: nat
    var takes: nat
    var outcome: Option<InitResult>
    var tick: nat             // the steps the maker has made
    ghost var log: seq<Action>

    function Abs(): State
      reads this
    {
      State(strategy, debug, pc, strong, weak, data, arcs, weaks, tail, freed,
            result, error, writes, takes, outcome, false)
    }

    /** The log is an allowed run that leads from the start to `s`, where all is well. */
    ghost predicate Sound(s: State)
      reads this`log
    {
      && Inv(s)
      && Runs(Initial(strategy, debug), log)
      && AllAllowed(Initial(strategy, debug), log)
      && Exec(Initial(strategy, debug), log) == s
    }

    /** And it is the run that the initializer and the observers make of it. */
    ghost predicate Reached(s: State)
      reads this`log, this`tick
    {
      Sound(s) && Progress(log, s) == Weave(Initial(strategy, debug), env, init, tick)
    }

    ghost predicate Valid()
      reads this
    {
      Reached(Abs())
    }

    constructor (strategy: Strategy, debug: bool, init: InitResult, env: nat -> seq<Action>)
      ensures Valid() && pc.Start?
      ensures this.strategy == strategy && this.debug == debug && this.init == init && this.env == env
    {
      this.strategy, this.debug, this.init, this.env := strategy, debug, init, env;
      pc, strong, weak, data, arcs, weaks, tail, freed := Start, 0, 0, Uninit, 0, 0, NoTail, 0;
      result, error, writes, takes, outcome, tick := None, Unwritten, 0, 0, None, 0;
      log := [];
      new;
      hide Valid, Reached, Sound;
      StartIsReached();
    }

    lemma StartIsReached()
      requires Abs() == Initial(strategy, debug) && log == [] && tick == 0
      ensures Valid()
    {
      hide Inv, Runs, AllAllowed, Exec, Initial;
      InitialInv(strategy, debug);
      EmptyRun(Initial(strategy, debug));
    }

    /** What the methods below need to know about the states they are in. */
    lemma SoundFacts()
      requires Sound(Abs())
      ensures pc.Allocated? ==> strong == 0
      ensures pc.Returned? ==> result.None?
      ensures MakerWeaks(pc) > 0 || pc.ReleaseWeak? || weaks > 0 || tail.DropCollective? ==> weak > 0
      ensures arcs > 0 ==> strong > 0
      ensures !tail.NoTail? ==> strong == 0 && pc == Done(ReturnOk)
      ensures pc.Published? && result.None? ==> data.Init?
      ensures (pc.Published? && result.Some?) || pc.Dropping? ==> strong == 1
      ensures pc.Published? ==> strong > 0
    {
    }

    lemma Facts()
      requires Valid()
      ensures pc.Allocated? ==> strong == 0
      ensures pc.Returned? ==> result.None?
      ensures MakerWeaks(pc) > 0 || pc.ReleaseWeak? || weaks > 0 || tail.DropCollective? ==> weak > 0
      ensures arcs > 0 ==> strong > 0
      ensures !tail.NoTail? ==> strong == 0 && pc == Done(ReturnOk)
      ensures pc.Published? && result.None? ==> data.Init?
      ensures (pc.Published? && result.Some?) || pc.Dropping? ==> strong == 1
      ensures pc.Published? ==> strong > 0
    {
      hide Sound;
      SoundFacts();
    }

    /** What holds once the maker has finished. */
    lemma Ended()
      requires Valid() && pc.Done?
      ensures outcome.Some? && strong == arcs
      ensures weak == weaks + (if strong > 0 || !tail.NoTail? then 1 else 0)
      ensures freed == (if arcs == 0 && weaks == 0 && tail.NoTail? then 1 else 0)
      ensures writes == takes == (if strategy.CatchUnwind? && outcome.value.InitErr? then 1 else 0)
      ensures pc.r.ReturnOk? ==> outcome.value.InitOk? && (strong > 0 ==> data == Init(outcome.value.v))
      ensures !pc.r.ReturnOk? ==> strong == 0 && data.Uninit?
    {
      InvAccounts(Abs());
      DoneMeans(Abs());
    }

    /** Append step `a`, which has just led from `s` to the present state, to the log. */
    ghost method Record(s: State, a: Action)
      requires Sound(s) && Enabled(s, a) && Allowed(s, a) && Abs() == Step(s, a).(ub := false)
      modifies this`log
      ensures Sound(Abs()) && log == old(log) + [a] && Abs() == Step(s, a)
    {
      hide Inv;
      StepKeepsInv(s, a);
      InvIsSafe(Step(s, a));
      Extend(Initial(strategy, debug), log, a);
      ExtendAllowed(Initial(strategy, debug), log, a);
      log := log + [a];
    }

    // ---- Observers -----------------------------------------------------------

    method ReleaseWeakRef()
      requires weak > 0
      modifies this`weak, this`freed
      ensures weak == old(weak) - 1 && freed == old(freed) + (if weak == 0 then 1 else 0)
    {
      weak := weak - 1;
      if weak == 0 { freed := freed + 1; }
    }

    /** One step of an observer. */
    method Observe(a: Action)
      requires Sound(Abs()) && IsObserver(a) && Enabled(Abs(), a) && Allowed(Abs(), a)
      modifies this`strong, this`weak, this`data, this`arcs, this`weaks, this`tail, this`freed, this`log
      ensures Sound(Abs()) && Abs() == Step(old(Abs()), a) && log == old(log) + [a]
    {
      hide Reached, Step;
      if a.CloneTemp? || a.CloneWeak? || a.Downgrade? || a.DropWeak? || a.UpgradeTemp? || a.Upgrade? {
        ObserveWeak(a);
      } else {
        ObserveArc(a);
      }
    }

    method ObserveWeak(a: Action)
      requires Sound(Abs()) && Enabled(Abs(), a) && Allowed(Abs(), a)
      requires a.CloneTemp? || a.CloneWeak? || a.Downgrade? || a.DropWeak? || a.UpgradeTemp? || a.Upgrade?
      modifies this`strong, this`weak, this`data, this`arcs, this`weaks, this`tail, this`freed, this`log
      ensures Sound(Abs()) && Abs() == Step(old(Abs()), a) && log == old(log) + [a]
    {
      hide Reached, Sound;
      ghost var s := Abs();
      SoundFacts();
      if a.UpgradeTemp? || a.Upgrade? {
        if strong != 0 { strong, arcs := strong + 1, arcs + 1; }
      } else if a.DropWeak? {
        ReleaseWeakRef();
        weaks := weaks - 1;
      } else {
        weak, weaks := weak + 1, weaks + 1;
      }
      Record(s, a);
    }

    method ObserveArc(a: Action)
      requires Sound(Abs()) && Enabled(Abs(), a)
      requires a.CloneArc? || a.DropArc? || a.Deref? || a.FinishData? || a.FinishCollective?
      modifies this`strong, this`weak, this`data, this`arcs, this`weaks, this`tail, this`freed, this`log
      ensures Sound(Abs()) && Abs() == Step(old(Abs()), a) && log == old(log) + [a]
    {
      hide Reached, Sound;
      ghost var s := Abs();
      SoundFacts();
      match a {
        case CloneArc => strong, arcs := strong + 1, arcs + 1;
        case DropArc =>
          strong, arcs := strong - 1, arcs - 1;
          if strong == 0 { tail := DropData; }
        case Deref =>
        case FinishData => data, tail := Dropped, DropCollective;
        case FinishCollective =>
          ReleaseWeakRef();
          tail := NoTail;
      }
      Record(s, a);
    }

    /** The observers get to run after the maker's k-th step: they do whatever they can, in
        the order they like, except that the caller of the unchecked strategy keeps them
        from upgrading in its window. None of it touches what belongs to the maker. */
    method Interfere(k: nat)
      requires Sound(Abs())
      modifies this`strong, this`weak, this`data, this`arcs, this`weaks, this`tail, this`freed, this`log
      ensures Sound(Abs()) && Progress(log, Abs()) == Play(old(Progress(log, Abs())), env(k))
    {
      hide Sound, Step;
      var actions := env(k);
      assert actions[0..] == actions;
      for i := 0 to |actions|
        invariant Sound(Abs())
        invariant Play(Progress(log, Abs()), actions[i..]) == old(Play(Progress(log, Abs()), env(k)))
      {
        assert actions[i..][1..] == actions[i + 1..];
        if CanAct(Abs(), actions[i]) {
          Observe(actions[i]);
        }
      }
    }

    // ---- The maker -----------------------------------------------------------

    /** The variables that only the maker changes. */
    twostate predicate SameCaptured()
      reads this
    {
      && result == old(result) && error == old(error) && outcome == old(outcome)
      && takes == old(takes) && writes == old(writes)
    }

    /** The maker has just made its next step from `s`; the observers get to run unless it
        was the last one. */
    method EndStep(ghost s: State)
      requires Reached(s) && Enabled(s, Next(s, init)) && Abs() == Step(s, Next(s, init)).(ub := false)
      modifies this`strong, this`weak, this`data, this`arcs, this`weaks, this`tail, this`freed, this`log, this`tick
      ensures Valid()
      ensures pc.Done? ==> strong == old(strong)
    {
      hide Sound, Step;
      Record(s, Next(s, init));
      tick := tick + 1;
      if !pc.Done? {
        Interfere(tick - 1);
      }
    }

    method Allocate()
      requires Valid() && pc.Start?
      modifies this
      ensures Valid() && pc.Allocated?
    {
      hide Reached, Sound;
      ghost var s := Abs();
      strong, weak, data, pc := 0, 1, Uninit, Allocated;
      EndStep(s);
    }

    /** `assert!(weak.strong_count() == 0)`, which never fails. */
    method AssertZero()
      requires Valid() && pc.Allocated?
      modifies this
      ensures Valid() && pc.Asserted?
    {
      hide Reached, Sound;
      ghost var s := Abs();
      Facts();
      if strong != 0 { assert false; }
      pc := Asserted;
      EndStep(s);
    }

    /** `Weak::from_raw(weak.clone().into_raw().cast())`. */
    method MakeTemp()
      requires Valid() && pc.Asserted?
      modifies this
      ensures Valid() && pc.Running?
    {
      hide Reached, Sound;
      ghost var s := Abs();
      weak, pc := weak + 1, Running;
      EndStep(s);
    }

    /** `temp` goes out of scope, by return or by unwinding. */
    method DropTemp(next: Pc)
      requires Valid()
      requires (pc.ClosureDone? && next == WritePending(pc.d)) || (pc.Unwinding? && next == UnwindWeak(pc.p))
      modifies this
      ensures Valid() && pc == next && SameCaptured()
    {
      hide Reached, Sound;
      ghost var s := Abs();
      Facts();
      ReleaseWeakRef();
      pc := next;
      EndStep(s);
    }

    /** The weak reference of new_cyclic, or of the strong references, goes away. */
    method DropOwnWeak(next: Pc)
      requires Valid()
      requires (pc.UnwindWeak? && next == Caught(pc.p)) || (pc.ReleaseWeak? && next == Returning(pc.e))
      modifies this
      ensures Valid() && pc == next && SameCaptured()
    {
      hide Reached, Sound;
      ghost var s := Abs();
      Facts();
      ReleaseWeakRef();
      pc := next;
      EndStep(s);
    }

    /** What happens before the initializer is called. */
    method BeginClosure()
      requires Valid() && pc.Start?
      modifies this
      ensures Valid() && pc.Running?
    {
      hide Reached, Sound;
      Allocate();
      AssertZero();
      MakeTemp();
    }

    /** Call the initializer: it may do anything with `temp` before it ends. */
    method CallInit()
      requires Valid() && pc.Running?
      modifies this
      ensures Valid() && pc == Returned(init) && outcome == Some(init) && result.None?
    {
      hide Reached, Sound;
      ghost var s := Abs();
      pc, outcome := Returned(init), Some(init);
      EndStep(s);
      Facts();
    }

    method WriteValue(d: Data)
      requires Valid() && pc == WritePending(d)
      modifies this
      ensures Valid() && pc.Publish? && SameCaptured()
    {
      hide Reached, Sound;
      ghost var s := Abs();
      data, pc := d, Publish;
      EndStep(s);
    }

    method RaiseStrong()
      requires Valid() && pc.Publish?
      modifies this
      ensures Valid() && pc.Published? && SameCaptured()
    {
      hide Reached, Sound;
      ghost var s := Abs();
      strong, pc := strong + 1, Published;
      EndStep(s);
    }

    /** The closure returns: drop `temp`, write the value, raise the strong count. */
    method FinishNewCyclic(d: Data)
      requires Valid() && pc == ClosureDone(d)
      modifies this
      ensures Valid() && pc.Published? && SameCaptured()
    {
      hide Reached, Sound;
      DropTemp(WritePending(d));
      WriteValue(d);
      RaiseStrong();
    }

    /** The closure panics: drop `temp`, then the weak reference of new_cyclic. */
    method Unwind(p: Payload)
      requires Valid() && pc == Unwinding(p)
      modifies this
      ensures Valid() && pc == Caught(p) && SameCaptured()
    {
      hide Reached, Sound;
      DropTemp(UnwindWeak(p));
      DropOwnWeak(Caught(p));
    }

    /** `Ok(value.assume_init())`: the caller gets the Arc. */
    method AssumeInit()
      requires Valid() && pc.Published? && result.None?
      modifies this
      ensures Valid() && pc == Done(ReturnOk) && SameCaptured() && strong > 0
    {
      hide Reached, Sound;
      ghost var s := Abs();
      Facts();
      arcs, pc := arcs + 1, Done(ReturnOk);
      EndStep(s);
    }

    /** A panic that nobody catches leaves `run`. */
    method ResumeUnwind(p: Payload)
      requires Valid() && pc == Caught(p) && !(strategy.CatchUnwind? && p.InitError?)
      modifies this
      ensures Valid() && pc == Done(Unwound(p)) && SameCaptured()
    {
      hide Reached, Sound;
      ghost var s := Abs();
      pc := Done(Unwound(p));
      EndStep(s);
    }

    /** The step that leads from the initializer's result to `next`. */
    method Branch(next: Pc)
      requires Valid() && pc.Returned? && MatchResult(Abs(), pc.o) == Abs().(pc := next)
      modifies this
      ensures Valid() && pc == next && SameCaptured()
    {
      hide Reached, Sound;
      ghost var s := Abs();
      pc := next;
      EndStep(s);
    }

    /** `error.write(err); panic_any(InitError)`. */
    method PanicWithError(e: Error)
      requires Valid() && strategy.CatchUnwind? && pc == Returned(InitErr(e))
      modifies this
      ensures Valid() && pc == Unwinding(InitError) && error == Written(e) && outcome == old(outcome)
    {
      hide Reached, Sound;
      ghost var s := Abs();
      error, writes, pc := Written(e), writes + 1, Unwinding(InitError);
      EndStep(s);
    }

    /** The panic was `InitError`: move the error out of the captured slot. */
    method TakeError(e: Error) returns (r: Outcome)
      requires Valid() && strategy.CatchUnwind? && pc == Caught(InitError) && error == Written(e)
      modifies this
      ensures Valid() && r == ReturnErr(e) && pc == Done(r) && outcome == old(outcome)
    {
      hide Reached, Sound;
      ghost var s := Abs();
      error, takes, pc := Taken, takes + 1, Done(ReturnErr(e));
      r := ReturnErr(e);
      EndStep(s);
    }

    /** `_catch_unwind`. */
    method RunCatchUnwind() returns (r: Outcome)
      requires Valid() && pc.Start? && strategy.CatchUnwind?
      modifies this
      ensures Valid() && pc == Done(r) && r == Expected(strategy, init) && outcome == Some(init)
      ensures r.ReturnOk? ==> strong > 0
    {
      hide Reached, Sound;
      BeginClosure();
      CallInit();
      match init {
        case InitOk(v) =>
          Branch(ClosureDone(Init(v)));
          FinishNewCyclic(Init(v));
          AssumeInit();
          r := ReturnOk;
        case InitErr(e) =>
          PanicWithError(e);
          Unwind(InitError);
          r := TakeError(e);
        case InitPanic(c) =>
          Branch(Unwinding(User(c)));
          Unwind(User(c));
          ResumeUnwind(User(c));
          r := Unwound(User(c));
      }
    }

    /** `_panic_on_error`. */
    method RunPanicOnError() returns (r: Outcome)
      requires Valid() && pc.Start? && strategy.PanicOnError?
      modifies this
      ensures Valid() && pc == Done(r) && r == Expected(strategy, init) && outcome == Some(init)
      ensures r.ReturnOk? ==> strong > 0
    {
      hide Reached, Sound;
      BeginClosure();
      CallInit();
      match init {
        case InitOk(v) =>
          Branch(ClosureDone(Init(v)));
          FinishNewCyclic(Init(v));
          AssumeInit();
          r := ReturnOk;
        case InitErr(_) =>
          Branch(Unwinding(ErrorMessage));
          Unwind(ErrorMessage);
          ResumeUnwind(ErrorMessage);
          r := Unwound(ErrorMessage);
        case InitPanic(c) =>
          Branch(Unwinding(User(c)));
          Unwind(User(c));
          ResumeUnwind(User(c));
          r := Unwound(User(c));
      }
    }

    /** `_unchecked`. */
    method RunUnchecked() returns (r: Outcome)
      requires Valid() && pc.Start? && strategy.Unchecked?
      modifies this
      ensures Valid() && pc == Done(r) && r == Expected(strategy, init) && outcome == Some(init)
      ensures r.ReturnOk? ==> strong > 0
    {
      hide Reached, Sound;
      BeginClosure();
      CallInit();
      match init {
        case InitOk(v) =>
          Branch(ClosureDone(Init(v)));
          FinishNewCyclic(Init(v));
          AssumeInit();
          r := ReturnOk;
        case InitErr(e) =>
          ghost var s := Abs();
          result, pc := Some(e), ClosureDone(Uninit);
          EndStep(s);
          FinishNewCyclic(Uninit);
          ReturnError(e);
          r := ReturnErr(e);
        case InitPanic(c) =>
          Branch(Unwinding(User(c)));
          Unwind(User(c));
          ResumeUnwind(User(c));
          r := Unwound(User(c));
      }
    }

    /** `abort` if the Arc is shared, which the caller's promise rules out. */
    method CheckUnique(e: Error)
      requires Valid() && pc.Published? && strategy.Unchecked? && result == Some(e)
      modifies this
      ensures Valid() && pc == Dropping(e) && SameCaptured()
    {
      hide Reached, Sound;
      ghost var s := Abs();
      Facts();
      if debug && strong > 1 { assert false; }
      pc := Dropping(e);
      EndStep(s);
    }

    /** `drop(value)`. */
    method DropValue(e: Error)
      requires Valid() && pc == Dropping(e)
      modifies this
      ensures Valid() && pc == Returning(e) && SameCaptured()
    {
      hide Reached, Sound;
      ghost var s := Abs();
      Facts();
      strong, pc := strong - 1, ReleaseWeak(e);
      EndStep(s);
      DropOwnWeak(Returning(e));
    }

    /** The error path of `_unchecked`: check the count, drop the Arc, return the error. */
    method ReturnError(e: Error)
      requires Valid() && pc.Published? && strategy.Unchecked? && result == Some(e)
      modifies this
      ensures Valid() && pc == Done(ReturnErr(e)) && SameCaptured()
    {
      hide Reached, Sound;
      CheckUnique(e);
      DropValue(e);
      ghost var s := Abs();
      pc := Done(ReturnErr(e));
      EndStep(s);
    }

    /** `TryNewCyclic::run`. */
    method Run() returns (r: Outcome)
      requires Valid() && pc.Start?
      modifies this
      ensures Valid() && pc == Done(r) && outcome == Some(init)
      ensures r == match init
                   case InitOk(_) => ReturnOk
                   case InitErr(e) => if strategy.PanicOnError? then Unwound(ErrorMessage) else ReturnErr(e)
                   case InitPanic(c) => Unwound(User(c))
      // The caller gets an Arc to the value, or nobody will ever get one.
      ensures r.ReturnOk? ==> strong == arcs && arcs > 0 && data == Init(init.v)
      ensures !r.ReturnOk? ==> strong == 0 && data.Uninit?
      // All other references are the observers', and the allocation lives as long as they do.
      ensures weak == weaks + (if strong > 0 then 1 else 0)
      ensures freed == (if strong == 0 && weaks == 0 then 1 else 0)
      // The error is written and taken once on the catch path, and never otherwise.
      ensures writes == takes == (if strategy.CatchUnwind? && init.InitErr? then 1 else 0)
    {
      hide Reached, Sound;
      match strategy {
        case CatchUnwind => r := RunCatchUnwind();
        case PanicOnError => r := RunPanicOnError();
        case Unchecked => r := RunUnchecked();
      }
      Facts();
      Ended();
    }
  }
}
