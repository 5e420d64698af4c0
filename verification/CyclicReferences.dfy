/** What the observers of a cyclic construction get out of it: their references are booked
    one by one, a stored `Weak` yields the value after success, and when everybody lets go
    the value is dropped and the allocation released. */
module CyclicReferences {
  import opened Wrappers
  import opened CyclicMachine
  import opened CyclicProofs

  // ---- Every reference is booked ---------------------------------------------------

  datatype Entry = WeakMade | WeakDropped | ArcMade | ArcDropped

  /** Which steps are booked under `e`. An upgrade makes an Arc if the strong count is not zero. */
  predicate Books(e: Entry, s: State, a: Action) {
    match e
    case WeakMade => a.CloneTemp? || a.CloneWeak? || a.Downgrade?
    case WeakDropped => a.DropWeak?
    case ArcMade => a.CloneArc? || ((a.UpgradeTemp? || a.Upgrade?) && s.strong > 0)
    case ArcDropped => a.DropArc?
  }

  /** How many steps of the run are booked under `e`. */
  ghost function Total(e: Entry, s: State, run: seq<Action>): nat
    requires Runs(s, run)
    decreases |run|
  {
    if run == [] then 0
    else (if Books(e, s, run[0]) then 1 else 0) + Total(e, Step(s, run[0]), run[1..])
  }

  /** The Arc that the caller of `run` is given. */
  function Handed(s: State): nat {
    if s.pc == Done(ReturnOk) then 1 else 0
  }

  function Booked(e: Entry, s: State, a: Action): int {
    if Books(e, s, a) then 1 else 0
  }

  lemma MakerIsNotBooked(s: State)
    requires Enabled(s, Maker)
    ensures MakerStep(s).weaks == s.weaks && MakerStep(s).arcs - Handed(MakerStep(s)) == s.arcs - Handed(s)
  {
    match s.pc { case Returned(_) => case Caught(_) => case Published => case _ => }
  }

  lemma StepIsBooked(s: State, a: Action)
    requires Accounted(s) && Enabled(s, a)
    ensures var s' := Step(s, a);
            && s'.weaks == s.weaks + Booked(WeakMade, s, a) - Booked(WeakDropped, s, a)
            && s'.arcs - Handed(s') == s.arcs - Handed(s) + Booked(ArcMade, s, a) - Booked(ArcDropped, s, a)
  {
    hide AtPlace, ErrorSlot, MakerStep;
    if a.Maker? { MakerIsNotBooked(s); }
  }

  lemma {:induction false} RunIsBooked(s: State, run: seq<Action>)
    requires Accounted(s) && Runs(s, run)
    ensures var s' := Exec(s, run);
            && s'.weaks == s.weaks + Total(WeakMade, s, run) - Total(WeakDropped, s, run)
            && s'.arcs - Handed(s') == s.arcs - Handed(s) + Total(ArcMade, s, run) - Total(ArcDropped, s, run)
    decreases |run|
  {
    if run != [] {
      hide Accounted, Step, Enabled, Books, Handed;
      StepIsBooked(s, run[0]);
      StepAccounts(s, run[0]);
      RunIsBooked(Step(s, run[0]), run[1..]);
    }
  }

  lemma StartIsEmpty(strategy: Strategy, debug: bool)
    ensures var s := Initial(strategy, debug); s.weaks == 0 && s.arcs == 0 && s.pc.Start?
  {
  }

  /** In every run, upgrades in the window or not: the `Weak`s that observers hold are those
      they made less those they dropped; the Arcs likewise, and the caller's comes on top. */
  lemma ReferencesAreBooked(strategy: Strategy, debug: bool, run: seq<Action>)
    requires Runs(Initial(strategy, debug), run)
    ensures var s := Initial(strategy, debug); var s' := Exec(s, run);
            && s'.weaks == Total(WeakMade, s, run) - Total(WeakDropped, s, run)
            && s'.arcs == Total(ArcMade, s, run) - Total(ArcDropped, s, run)
                          + (if s'.pc == Done(ReturnOk) then 1 else 0)
  {
    hide Accounted, Balanced, Runs, Exec, Total, Initial;
    StartIsEmpty(strategy, debug);
    InitialAccounts(strategy, debug);
    RunIsBooked(Initial(strategy, debug), run);
  }

  // ---- A stored Weak ------------------------------------------------------------------

  lemma UpgradeInState(s: State)
    requires Inv(s) && s.weaks > 0 && Allowed(s, Upgrade)
    ensures Enabled(s, Upgrade)
    ensures var s' := Step(s, Upgrade);
            if s.strong > 0
            then s'.arcs == s.arcs + 1 && s'.strong == s.strong + 1
                 && s'.data.Init? && s'.outcome == Some(InitOk(s'.data.v))
            else s' == s
    ensures s.pc == Done(ReturnOk) && s.arcs > 0 ==> s.strong > 0
    ensures s.strong > 0 ==> s.pc.Published? || s.pc == Done(ReturnOk)
  {
    InvIsSafe(s);
  }

  /** What construction in a cycle is for: whoever stored a `Weak` can always try to upgrade
      it, outside the window; that yields one more Arc, to the value that the initializer
      returned, if there is a strong reference, and otherwise changes nothing. After success
      there is one as long as anybody holds an Arc; before the value is published, and after
      a failure, there is none. */
  lemma StoredWeakUpgrades(strategy: Strategy, debug: bool, run: seq<Action>)
    requires Runs(Initial(strategy, debug), run) && AllAllowed(Initial(strategy, debug), run)
    requires var s := Exec(Initial(strategy, debug), run); s.weaks > 0 && !InWindow(s)
    ensures var s := Exec(Initial(strategy, debug), run);
            && Enabled(s, Upgrade)
            && var s' := Step(s, Upgrade);
               if s.strong > 0
               then s'.arcs == s.arcs + 1 && s'.strong == s.strong + 1
                    && s'.data.Init? && s'.outcome == Some(InitOk(s'.data.v))
               else s' == s
    ensures var s := Exec(Initial(strategy, debug), run);
            && (s.pc == Done(ReturnOk) && s.arcs > 0 ==> s.strong > 0)
            && (s.strong > 0 ==> s.pc.Published? || s.pc == Done(ReturnOk))
  {
    hide Inv, Step, Enabled, Runs, Exec, AllAllowed;
    InitialInv(strategy, debug);
    RunKeepsInv(Initial(strategy, debug), run);
    UpgradeInState(Exec(Initial(strategy, debug), run));
  }

  // ---- Letting go -----------------------------------------------------------------------

  /** Observers let go of references, and finish what the drop of the last Arc has begun. */
  predicate LetsGo(a: Action) {
    a.DropWeak? || a.DropArc? || a.FinishData? || a.FinishCollective?
  }

  predicate OnlyLetsGo(run: seq<Action>) {
    forall k :: 0 <= k < |run| ==> LetsGo(run[k])
  }

  /** A bound on the steps of letting go. */
  function StepsLeft(s: State): nat {
    s.weaks + 3 * s.arcs + (match s.tail case DropData => 2 case DropCollective => 1 case NoTail => 0)
  }

  lemma LettingGoProgresses(s: State, a: Action)
    requires Accounted(s) && Enabled(s, a) && LetsGo(a)
    ensures StepsLeft(Step(s, a)) < StepsLeft(s) && Step(s, a).pc == s.pc
  {
    hide AtPlace, ErrorSlot, MakerStep;
  }

  lemma {:induction false} LettingGoIsBounded(s: State, drops: seq<Action>)
    requires Accounted(s) && Runs(s, drops) && OnlyLetsGo(drops)
    ensures |drops| + StepsLeft(Exec(s, drops)) <= StepsLeft(s) && Exec(s, drops).pc == s.pc
    decreases |drops|
  {
    if drops != [] {
      hide Accounted, Step, Enabled, LetsGo, StepsLeft;
      assert LetsGo(drops[0]);
      LettingGoProgresses(s, drops[0]);
      StepAccounts(s, drops[0]);
      LettingGoIsBounded(Step(s, drops[0]), drops[1..]);
    }
  }

  lemma NothingLeft(s: State)
    requires Accounted(s) && s.pc.Done?
    requires forall a :: LetsGo(a) ==> !Enabled(s, a)
    ensures s.weaks == 0 && s.arcs == 0 && s.strong == 0 && s.weak == 0 && s.freed == 1
    ensures s.pc.r.ReturnOk? ==> s.data.Dropped?
  {
    assert !Enabled(s, DropWeak) && !Enabled(s, DropArc);
    assert !Enabled(s, FinishData) && !Enabled(s, FinishCollective);
  }

  /** After the end of `run`, whatever has happened before: when everybody lets go, in any
      order, that comes to an end, and then the value has been dropped if there was one and
      the allocation has been released, just once. */
  lemma EveryoneLetsGo(strategy: Strategy, debug: bool, run: seq<Action>, drops: seq<Action>)
    requires Runs(Initial(strategy, debug), run) && Exec(Initial(strategy, debug), run).pc.Done?
    requires Runs(Exec(Initial(strategy, debug), run), drops) && OnlyLetsGo(drops)
    ensures |drops| <= StepsLeft(Exec(Initial(strategy, debug), run))
    ensures var s := Exec(Exec(Initial(strategy, debug), run), drops);
            (forall a :: LetsGo(a) ==> !Enabled(s, a)) ==>
              && s.weaks == 0 && s.arcs == 0 && s.strong == 0 && s.weak == 0 && s.freed == 1
              && (s.pc == Done(ReturnOk) ==> s.data.Dropped?)
  {
    hide Accounted, Balanced, Step, Enabled, LetsGo, OnlyLetsGo, Runs, Exec, StepsLeft, Initial;
    var s := Exec(Initial(strategy, debug), run);
    InitialAccounts(strategy, debug);
    RunAccounts(Initial(strategy, debug), run);
    RunAccounts(s, drops);
    LettingGoIsBounded(s, drops);
    if forall a :: LetsGo(a) ==> !Enabled(Exec(s, drops), a) {
      NothingLeft(Exec(s, drops));
    }
  }

  /** Nothing above holds for want of observers: in every state that has not been aborted,
      the holder of a `Weak` or of an Arc can do to it whatever can be done to one. */
  lemma HoldersActFreely(s: State)
    requires !s.pc.Aborted?
    ensures s.weaks > 0 ==> forall a :: a in {CloneWeak, DropWeak, Upgrade} ==> Enabled(s, a)
    ensures s.arcs > 0 ==> forall a :: a in {CloneArc, DropArc, Downgrade, Deref} ==> Enabled(s, a)
  {
  }
}
