/** Fallible cyclic construction of an `Arc<T>`, as a state machine.

    One maker thread runs `TryNewCyclic::run`; its reference count operations, the
    user's initializer, the write of the value and its panics are steps of their own.
    Observers are anybody else who holds a `Weak` or an `Arc`: references are
    interchangeable, so the number of each stands for arbitrarily many observers, and
    observer steps come between any two steps of the maker. */
module CyclicMachine {
  import opened Wrappers

  type Value = nat  // the values of T, the errors of E, and panic payloads of the user
  type Error = nat
  type Cause = nat

  datatype Strategy = CatchUnwind | PanicOnError | Unchecked

  /** How a call of the user's initializer ends. */
  datatype InitResult = InitOk(v: Value) | InitErr(e: Error) | InitPanic(c: Cause)

  datatype Payload = InitError | ErrorMessage | AssertMessage | User(c: Cause)

  datatype Data = Uninit | Init(v: Value) | Dropped

  /** The captured `MaybeUninit<E>` of the catch-unwind strategy. */
  datatype Slot = Unwritten | Written(e: Error) | Taken

  /** What `run` does in the end; `ReturnOk` hands an Arc to the caller. */
  datatype Outcome = ReturnOk | ReturnErr(e: Error) | Unwound(p: Payload)

  /** Where the maker is. */
  datatype Pc =
    | Start
    | Allocated                 // strong 0, weak 1, value uninitialised; the assertion is next
    | Asserted                  // the clone of the weak reference is next
    | Running                   // the user's initializer runs with `&temp`
    | Returned(o: InitResult)   // its result is about to be matched
    | ClosureDone(d: Data)      // the closure has its result; `temp` is about to be dropped
    | Unwinding(p: Payload)     // the closure panics; `temp` is about to be dropped
    | WritePending(d: Data)     // new_cyclic is about to write the value
    | Publish                   // new_cyclic is about to raise the strong count
    | Published                 // new_cyclic has returned an Arc
    | UnwindWeak(p: Payload)    // new_cyclic's own weak reference is about to be dropped
    | Caught(p: Payload)        // the panic has left new_cyclic
    | Dropping(e: Error)        // unchecked: `drop(value)` is next
    | ReleaseWeak(e: Error)     // unchecked: the strong references' weak reference is next
    | Returning(e: Error)       // unchecked: `value` is gone
    | Done(r: Outcome)
    | Aborted

  /** What the observer that dropped the last Arc has left to do. */
  datatype Tail = NoTail | DropData | DropCollective

  datatype State = State(
    strategy: Strategy,
    debug: bool,               // debug_assertions
    pc: Pc,
    strong: nat,
    weak: nat,                 // includes the one weak reference all strong references own together
    data: Data,
    arcs: nat,                 // Arcs in the hands of observers
    weaks: nat,                // Weaks in the hands of observers
    tail: Tail,
    freed: nat,                // how often the allocation was released
    result: Option<Error>,     // the captured `result`; None is Ok(())
    error: Slot,               // the captured `error`
    writes: nat,               // writes to `error`
    takes: nat,                // moves out of `error`
    outcome: Option<InitResult>,  // how the initializer ended, once it has
    ub: bool                   // uninitialised or released memory was used
  )

  datatype Action =
    | Maker
    | FinishInit(o: InitResult)
    | CloneTemp | UpgradeTemp  // by the initializer, through its argument
    | CloneWeak | DropWeak | Upgrade
    | CloneArc | DropArc | Downgrade | Deref
    | FinishData | FinishCollective

  function Initial(strategy: Strategy, debug: bool): State {
    State(strategy, debug, Start, 0, 0, Uninit, 0, 0, NoTail, 0, None, Unwritten, 0, 0, None, false)
  }

  // ---- Reference count operations ------------------------------------------

  function CloneWeakRef(s: State): State {
    s.(weak := s.weak + 1, ub := s.ub || s.freed > 0)
  }

  /** Dropping the last weak reference releases the allocation. */
  function DropWeakRef(s: State): State {
    if s.weak == 0 then s.(ub := true)
    else s.(weak := s.weak - 1, freed := s.freed + (if s.weak == 1 then 1 else 0), ub := s.ub || s.freed > 0)
  }

  /** `Weak::upgrade`: a strong count of zero is never raised. */
  function UpgradeRef(s: State): State {
    if s.strong == 0 then s.(ub := s.ub || s.freed > 0)
    else s.(strong := s.strong + 1, arcs := s.arcs + 1, ub := s.ub || s.freed > 0)
  }

  // ---- The maker -------------------------------------------------------------

  /** The match on the initializer's result, which differs by strategy. */
  function MatchResult(s: State, o: InitResult): State {
    match o
    case InitOk(v) => s.(pc := ClosureDone(Init(v)))
    case InitPanic(c) => s.(pc := Unwinding(User(c)))
    case InitErr(e) =>
      match s.strategy
      case CatchUnwind => s.(error := Written(e), writes := s.writes + 1, pc := Unwinding(InitError))
      case PanicOnError => s.(pc := Unwinding(ErrorMessage))
      case Unchecked => s.(result := Some(e), pc := ClosureDone(Uninit))
  }

  /** What `catch_unwind` finds, or what propagates without it. */
  function HandlePanic(s: State, p: Payload): State {
    if s.strategy.CatchUnwind? && p.InitError? then
      match s.error
      case Written(e) => s.(error := Taken, takes := s.takes + 1, pc := Done(ReturnErr(e)))
      case _ => s.(ub := true, pc := Done(Unwound(p)))
    else
      s.(pc := Done(Unwound(p)))
  }

  /** What happens to the Arc that new_cyclic has returned. */
  function HandleValue(s: State): State {
    match s.result
    case None => s.(pc := Done(ReturnOk), arcs := s.arcs + 1, ub := s.ub || !s.data.Init?)
    case Some(e) => if s.debug && s.strong > 1 then s.(pc := Aborted) else s.(pc := Dropping(e))
  }

  function MakerStep(s: State): State {
    match s.pc
    case Start => s.(strong := 0, weak := 1, data := Uninit, pc := Allocated)
    case Allocated => if s.strong == 0 then s.(pc := Asserted) else s.(pc := UnwindWeak(AssertMessage))
    case Asserted => CloneWeakRef(s).(pc := Running)
    case Returned(o) => MatchResult(s, o)
    case ClosureDone(d) => DropWeakRef(s).(pc := WritePending(d))
    case Unwinding(p) => DropWeakRef(s).(pc := UnwindWeak(p))
    case WritePending(d) => s.(data := d, pc := Publish, ub := s.ub || s.freed > 0)
    case Publish => s.(strong := s.strong + 1, pc := Published, ub := s.ub || s.freed > 0)
    case UnwindWeak(p) => DropWeakRef(s).(pc := Caught(p))
    case Caught(p) => HandlePanic(s, p)
    case Published => HandleValue(s)
    case Dropping(e) =>
      if s.strong == 0 then s.(ub := true)
      else if s.strong == 1 then s.(strong := 0, pc := ReleaseWeak(e))
      else s.(strong := s.strong - 1, pc := Returning(e))
    case ReleaseWeak(e) => DropWeakRef(s).(pc := Returning(e))
    case Returning(e) => s.(pc := Done(ReturnErr(e)))
    case _ => s
  }

  // ---- Steps -----------------------------------------------------------------

  predicate Enabled(s: State, a: Action) {
    && !s.pc.Aborted?
    && match a
       case Maker => !s.pc.Running? && !s.pc.Done?
       case FinishInit(_) | CloneTemp | UpgradeTemp => s.pc.Running?
       case CloneWeak | DropWeak | Upgrade => s.weaks > 0
       case CloneArc | DropArc | Downgrade | Deref => s.arcs > 0
       case FinishData => s.tail.DropData?
       case FinishCollective => s.tail.DropCollective?
  }

  function Step(s: State, a: Action): State
    requires Enabled(s, a)
  {
    match a
    case Maker => MakerStep(s)
    case FinishInit(o) => s.(pc := Returned(o), outcome := Some(o))
    case CloneTemp | CloneWeak | Downgrade => CloneWeakRef(s).(weaks := s.weaks + 1)
    case DropWeak => DropWeakRef(s).(weaks := s.weaks - 1)
    case UpgradeTemp | Upgrade => UpgradeRef(s)
    case CloneArc => s.(strong := s.strong + 1, arcs := s.arcs + 1, ub := s.ub || s.freed > 0)
    case DropArc =>
      if s.strong == 0 then s.(ub := true)
      else s.(strong := s.strong - 1, arcs := s.arcs - 1,
              tail := if s.strong == 1 then DropData else s.tail, ub := s.ub || s.freed > 0)
    case Deref => s.(ub := s.ub || s.freed > 0 || !s.data.Init?)
    case FinishData => s.(tail := DropCollective, data := Dropped, ub := s.ub || s.freed > 0 || !s.data.Init?)
    case FinishCollective => DropWeakRef(s).(tail := NoTail)
  }

  predicate Runs(s: State, run: seq<Action>)
    decreases |run|
  {
    run == [] || (Enabled(s, run[0]) && Runs(Step(s, run[0]), run[1..]))
  }

  function Exec(s: State, run: seq<Action>): State
    requires Runs(s, run)
    decreases |run|
  {
    if run == [] then s else Exec(Step(s, run[0]), run[1..])
  }

  // ---- Vocabulary ------------------------------------------------------------

  /** An observer could get at memory that holds no value. */
  predicate Exposed(s: State) {
    s.arcs > 0 && !s.data.Init?
  }

  /** The unchecked strategy's short period of a strong count over uninitialised memory:
      from the return of new_cyclic to the drop of `value` on the error path. */
  predicate InWindow(s: State) {
    s.strategy.Unchecked? && (s.pc.Published? || s.pc.Dropping?) && s.result.Some?
  }

  /** A step other than an upgrade inside the window. */
  predicate Allowed(s: State, a: Action) {
    !(a.Upgrade? && InWindow(s))
  }

  ghost predicate AllAllowed(s: State, run: seq<Action>)
    requires Runs(s, run)
    decreases |run|
  {
    run == [] || (Allowed(s, run[0]) && AllAllowed(Step(s, run[0]), run[1..]))
  }

  /** Some state of the run is exposed. */
  ghost predicate EverExposed(s: State, run: seq<Action>)
    requires Runs(s, run)
    decreases |run|
  {
    Exposed(s) || (run != [] && EverExposed(Step(s, run[0]), run[1..]))
  }

  /** What `run` promises for an initializer that ends with `o`. */
  function Expected(strategy: Strategy, o: InitResult): Outcome {
    match o
    case InitOk(_) => ReturnOk
    case InitPanic(c) => Unwound(User(c))
    case InitErr(e) => if strategy.PanicOnError? then Unwound(ErrorMessage) else ReturnErr(e)
  }
}
