/** `rc::try_new_cyclic`: the same construction on one thread, where the only user code
    that can run before the function returns is the initializer itself. */
module Rc {
  import opened Wrappers
  import opened CyclicMachine
  import opened CyclicProofs

  /** What the initializer can do with the `Weak` it is given and with clones of it. */
  datatype UserOp = CloneTemp | UpgradeTemp | CloneStored | DropStored | UpgradeStored

  /** The counts as user code finds them. */
  datatype Counts = Counts(strong: nat, weak: nat, rcs: nat, weaks: nat)

  /** One operation of the user; what needs a stored `Weak` does nothing without one. */
  function Apply(c: Counts, op: UserOp): Counts {
    match op
    case CloneTemp => c.(weak := c.weak + 1, weaks := c.weaks + 1)
    case CloneStored => if c.weaks > 0 then c.(weak := c.weak + 1, weaks := c.weaks + 1) else c
    case DropStored => if c.weaks > 0 && c.weak > 0 then c.(weak := c.weak - 1, weaks := c.weaks - 1) else c
    case UpgradeTemp => if c.strong > 0 then c.(strong := c.strong + 1, rcs := c.rcs + 1) else c
    case UpgradeStored => if c.strong > 0 && c.weaks > 0 then c.(strong := c.strong + 1, rcs := c.rcs + 1) else c
  }

  function ApplyAll(c: Counts, ops: seq<UserOp>): Counts {
    if ops == [] then c else Apply(ApplyAll(c, ops[..|ops| - 1]), ops[|ops| - 1])
  }

  /** Without a strong reference no sequence of operations ever gets one, and every weak
      reference that comes or goes is one of the user's. */
  lemma {:induction false} DeadCountsStayDead(c: Counts, ops: seq<UserOp>)
    requires c.strong == 0 && c.weak >= c.weaks
    ensures var d := ApplyAll(c, ops);
            d.strong == 0 && d.rcs == c.rcs && d.weak - d.weaks == c.weak - c.weaks
  {
    if ops != [] { DeadCountsStayDead(c, ops[..|ops| - 1]); }
  }

  // ---- What a sequence of operations amounts to --------------------------------------

  /** Some operations need a stored `Weak`. */
  predicate NeedsStored(op: UserOp) {
    op.CloneStored? || op.DropStored? || op.UpgradeStored?
  }

  /** How often `op` occurs in `ops`. */
  function Occurrences(ops: seq<UserOp>, op: UserOp): nat {
    if ops == [] then 0
    else Occurrences(ops[..|ops| - 1], op) + (if ops[|ops| - 1] == op then 1 else 0)
  }

  /** How often `op` occurs in `ops` where it can be done, starting from `c`: with a stored
      `Weak` if it needs one. */
  function TimesDone(c: Counts, ops: seq<UserOp>, op: UserOp): nat {
    if ops == [] then 0
    else
      var before := ops[..|ops| - 1];
      TimesDone(c, before, op)
      + (if ops[|ops| - 1] == op && (NeedsStored(op) ==> ApplyAll(c, before).weaks > 0) then 1 else 0)
  }

  /** The `Weak`s that are made less those that are dropped. */
  function StoredBy(c: Counts, ops: seq<UserOp>): int {
    TimesDone(c, ops, UserOp.CloneTemp) + TimesDone(c, ops, CloneStored) - TimesDone(c, ops, DropStored)
  }

  /** Whatever the operations: the stored `Weak`s are those made less those dropped, each of
      them is a weak reference, and with a strong reference around every upgrade that can be
      tried makes another one. */
  lemma {:induction false} OpsAreBooked(c: Counts, ops: seq<UserOp>)
    requires c.weak >= c.weaks
    ensures var d := ApplyAll(c, ops);
            && d.weaks == c.weaks + StoredBy(c, ops)
            && d.weak - c.weak == d.weaks - c.weaks
            && d.strong - c.strong == d.rcs - c.rcs
               == (if c.strong > 0 then TimesDone(c, ops, UserOp.UpgradeTemp) + TimesDone(c, ops, UpgradeStored) else 0)
  {
    if ops != [] { OpsAreBooked(c, ops[..|ops| - 1]); }
  }

  /** A program can only name a stored `Weak` that it has made and not yet dropped. */
  predicate CanBeWritten(ops: seq<UserOp>) {
    forall k :: 0 <= k < |ops| ==> (NeedsStored(ops[k]) ==> Stored(ops[..k]) > 0)
  }

  function Stored(ops: seq<UserOp>): int {
    Occurrences(ops, UserOp.CloneTemp) + Occurrences(ops, CloneStored) - Occurrences(ops, DropStored)
  }

  /** For such a program the count is plain: `Weak`s cloned less `Weak`s dropped. */
  lemma {:induction false} StoredIsPlain(c: Counts, ops: seq<UserOp>)
    requires c.weak >= c.weaks && c.weaks == 0 && CanBeWritten(ops)
    ensures ApplyAll(c, ops).weaks == Stored(ops)
    ensures ApplyAll(c, ops).weak == c.weak + Stored(ops)
  {
    if ops != [] {
      var n := |ops| - 1;
      forall k | 0 <= k < n ensures NeedsStored(ops[..n][k]) ==> Stored(ops[..n][..k]) > 0 {
        assert ops[..n][..k] == ops[..k] && ops[..n][k] == ops[k];
      }
      StoredIsPlain(c, ops[..n]);
      assert NeedsStored(ops[n]) ==> Stored(ops[..n]) > 0;
    }
  }

  class RcBox {
    var strong: nat
    var weak: nat
    var data: Data
    var freed: nat
    var rcs: nat        // Rcs in the hands of the user
    var weaks: nat      // Weaks in the hands of the user
    /** The strong count and the value at each operation of user code. */
    var seen: seq<(nat, Data)>

    function Now(): Counts
      reads this
    {
      Counts(strong, weak, rcs, weaks)
    }

    constructor ()
      ensures Now() == Counts(0, 0, 0, 0) && data.Uninit? && freed == 0 && seen == []
    {
      strong, weak, data, freed, rcs, weaks, seen := 0, 0, Uninit, 0, 0, 0, [];
    }

    method UserStep(op: UserOp)
      requires weak >= weaks
      modifies this`strong, this`weak, this`rcs, this`weaks, this`seen
      ensures Now() == Apply(old(Now()), op) && weak >= weaks
      ensures seen == old(seen) + [(old(strong), data)]
    {
      seen := seen + [(strong, data)];
      match op {
        case CloneTemp => weak, weaks := weak + 1, weaks + 1;
        case CloneStored => if weaks > 0 { weak, weaks := weak + 1, weaks + 1; }
        case DropStored => if weaks > 0 { weak, weaks := weak - 1, weaks - 1; }
        case UpgradeTemp => if strong > 0 { strong, rcs := strong + 1, rcs + 1; }
        case UpgradeStored => if strong > 0 && weaks > 0 { strong, rcs := strong + 1, rcs + 1; }
      }
    }

    method DropWeakRef()
      requires weak > 0
      modifies this`weak, this`freed
      ensures weak == old(weak) - 1 && freed == old(freed) + (if weak == 0 then 1 else 0)
    {
      weak := weak - 1;
      if weak == 0 { freed := freed + 1; }
    }

    /** The initializer's operations, of which each finds a strong count of zero. */
    method CallInit(ops: seq<UserOp>)
      requires Now() == Counts(0, 2, 0, 0) && data.Uninit? && freed == 0 && seen == []
      modifies this`strong, this`weak, this`rcs, this`weaks, this`seen
      ensures strong == rcs == 0 && weak == weaks + 2
      ensures weaks == StoredBy(Counts(0, 2, 0, 0), ops) && (CanBeWritten(ops) ==> weaks == Stored(ops))
      ensures |seen| == |ops| && forall k :: 0 <= k < |seen| ==> seen[k].0 == 0
    {
      for k := 0 to |ops|
        invariant Now() == ApplyAll(Counts(0, 2, 0, 0), ops[..k])
        invariant strong == 0 && rcs == 0 && weak == weaks + 2
        invariant |seen| == k && forall j :: 0 <= j < k ==> seen[j].0 == 0
      {
        assert ops[..k + 1][..k] == ops[..k];
        UserStep(ops[k]);
      }
      hide StoredBy, Stored, CanBeWritten;
      assert ops[..|ops|] == ops;
      OpsAreBooked(Counts(0, 2, 0, 0), ops);
      if CanBeWritten(ops) { StoredIsPlain(Counts(0, 2, 0, 0), ops); }
    }

    /** `try_new_cyclic` with an initializer that does `ops` and then ends with `o`. The call
        of the initializer, with the destructors of what it captures, is the only place at
        which user code runs: dropping `temp` with a strong count of zero and dropping
        `value`, whose content is `MaybeUninit`, run no destructor, and an error is only
        moved. What the user does after the return is any sequence of operations. */
    method TryNewCyclic(ops: seq<UserOp>, o: InitResult) returns (r: Outcome)
      requires Now() == Counts(0, 0, 0, 0) && data.Uninit? && freed == 0 && seen == []
      modifies this
      ensures r == match o
                   case InitOk(_) => ReturnOk
                   case InitErr(e) => ReturnErr(e)
                   case InitPanic(c) => Unwound(User(c))
      // What the initializer stored: what it cloned less what it dropped.
      ensures weaks == StoredBy(Counts(0, 2, 0, 0), ops)
      ensures CanBeWritten(ops) ==> weaks == Stored(ops)
      // All that is left is what the user holds, and the caller's Rc on success.
      ensures r.ReturnOk? ==> strong == rcs == 1 && data == Init(o.v) && weak == weaks + 1 && freed == 0
      ensures !r.ReturnOk? ==>
                && strong == rcs == 0 && data.Uninit? && weak == weaks
                && freed == (if weaks == 0 then 1 else 0)
      // No operation of user code saw a strong count over uninitialised memory.
      ensures |seen| == |ops| && forall k :: 0 <= k < |seen| ==> seen[k].0 == 0
      // After success a stored Weak can be upgraded, and whatever is done, the value is there.
      ensures r.ReturnOk? && weaks > 0 ==> Apply(Now(), UpgradeStored) == Now().(strong := 2, rcs := 2)
      ensures r.ReturnOk? ==> forall more :: ApplyAll(Now(), more).strong == ApplyAll(Now(), more).rcs >= 1
      // Nothing the user stored can ever be upgraded after a failure.
      ensures !r.ReturnOk? ==> forall more :: ApplyAll(Now(), more).strong == 0
    {
      hide StoredBy, Stored, CanBeWritten, ApplyAll;
      strong, weak, data := 0, 1, Uninit;  // Rc::new_cyclic allocates
      if strong != 0 {
        assert false;                      // assert!(weak.strong_count() == 0)
      }
      weak := weak + 1;                    // temp
      CallInit(ops);
      var result: Option<Error> := None;
      var written := Uninit;
      match o {
        case InitOk(v) => written := Init(v);
        case InitErr(e) => result := Some(e);
        case InitPanic(c) =>
          DropWeakRef();  // temp
          DropWeakRef();  // the weak reference of new_cyclic
          DeadNow();
          return Unwound(User(c));
      }
      DropWeakRef();  // temp
      data := written;
      strong := strong + 1;
      match result {
        case None =>
          rcs := rcs + 1;
          AliveNow();
          r := ReturnOk;
        case Some(e) =>
          strong := strong - 1;  // `value` goes out of scope
          DropWeakRef();
          DeadNow();
          r := ReturnErr(e);
      }
    }

    lemma AliveNow()
      requires strong == rcs == 1 && weak >= weaks
      ensures forall more :: ApplyAll(Now(), more).strong == ApplyAll(Now(), more).rcs >= 1
    {
      forall more ensures ApplyAll(Now(), more).strong == ApplyAll(Now(), more).rcs >= 1 {
        OpsAreBooked(Now(), more);
      }
    }

    lemma DeadNow()
      requires strong == 0 && weak >= weaks
      ensures forall more :: ApplyAll(Now(), more).strong == 0
    {
      forall more ensures ApplyAll(Now(), more).strong == 0 {
        DeadCountsStayDead(Now(), more);
      }
    }
  }

  // ---- On the shared machine -----------------------------------------------------

  /** On one thread only the maker runs until it is done, except inside the initializer. */
  ghost predicate SingleThreaded(s: State, run: seq<Action>)
    requires Runs(s, run)
    decreases |run|
  {
    run == [] || ((run[0].Maker? || s.pc.Running? || s.pc.Done?) && SingleThreaded(Step(s, run[0]), run[1..]))
  }

  lemma {:induction false} SingleThreadedIsAllowed(s: State, run: seq<Action>)
    requires Runs(s, run) && SingleThreaded(s, run)
    ensures AllAllowed(s, run)
    decreases |run|
  {
    if run != [] { SingleThreadedIsAllowed(Step(s, run[0]), run[1..]); }
  }

  /** On one thread the unchecked strategy, which is how `try_new_cyclic` proceeds, is
      safe without any promise by the caller. */
  lemma OneThreadNeedsNoPromise(run: seq<Action>)
    requires Runs(Initial(Unchecked, false), run) && SingleThreaded(Initial(Unchecked, false), run)
    ensures !EverExposed(Initial(Unchecked, false), run)
    ensures !Exec(Initial(Unchecked, false), run).ub
  {
    SingleThreadedIsAllowed(Initial(Unchecked, false), run);
    ExposedIffUpgradedInWindow(Unchecked, false, run);
    AllowedRunsAreSafe(Unchecked, false, run);
  }
}
