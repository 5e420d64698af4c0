/** What the channel protocol guarantees in every reachable state of every run. */
module ChannelProofs {
  import opened Wrappers
  import opened AtomicFds
  import opened ChannelMachine

  /** No sender other than `p` still holds the Arc. */
  ghost predicate NoOtherSender(s: State, p: Party) {
    forall q: Party :: q.Tx? && q != p && IsParty(s, q) ==> !Owns(Get(s, q).phase)
  }

  /** What a handle in the middle of its drop still knows about the others. */
  ghost predicate Knows(s: State, p: Party)
    requires IsParty(s, p)
  {
    match Get(s, p).phase
    case Counted(n) =>
      && p.Tx?
      && n == Get(s, p).loaded
      && n >= 1
      && (n == 1 ==> NoOtherSender(s, p) && !Owns(s.rx.phase))
      && (n == 2 ==> NoOtherSender(s, p) || !Owns(s.rx.phase))
    case Checked(has) => p.Tx? && Get(s, p).loaded == 2 && (has ==> NoOtherSender(s, p))
    case Undefined => false
    case _ => true
  }

  /** Where a descriptor is: closed, in one of the slots, or held by a handle. */
  function Ledger(s: State, fd: Fd): nat {
    SlotsAndClosed(s, fd) + Total(Held(fd), s)
  }

  function SlotsAndClosed(s: State, fd: Fd): nat {
    s.closed[fd] + (if s.sender == Some(fd) then 1 else 0) + (if s.receiver == Some(fd) then 1 else 0)
  }

  ghost predicate Inv(s: State, tx: Fd, rx: Fd) {
    // The Arc count is the number of handles that have not released it.
    && s.strong == Total(Owners, s)
    // The slots hold their own descriptor or nothing.
    && (s.sender.Some? ==> s.sender.value == tx)
    && (s.receiver.Some? ==> s.receiver.value == rx)
    // Both descriptors, and only these, exist exactly once.
    && (forall fd: Fd :: Ledger(s, fd) == if fd == tx || fd == rx then 1 else 0)
    // The receiver slot is full exactly while the receiver is live.
    && (s.rx.phase.Live? <==> s.receiver.Some?)
    // Nobody who might still use or empty the sender slot finds it empty.
    && (s.sender.None? ==> forall p: Party :: p.Tx? && IsParty(s, p) ==> !Undecided(Get(s, p).phase))
    && (forall p: Party :: IsParty(s, p) ==> Knows(s, p))
    && TornDown(s)
  }

  /** Tear-down starts at count zero and empties both slots. */
  predicate TornDown(s: State) {
    && (s.strong > 0 ==> Total(TearsReceiver, s) == 0)
    && (s.strong == 0 && Total(TearsSender, s) == 0 ==> s.sender.None?)
    && (s.strong == 0 && Total(TearsReceiver, s) == 0 ==> s.receiver.None?)
  }

  lemma InitialInv(tx: Fd, rx: Fd)
    requires tx != rx
    ensures Inv(Initial(tx, rx), tx, rx)
  {
    var s := Initial(tx, rx);
    forall m ensures Total(m, s) == 2 * Weight(m, Handle(Live, 0)) {
      assert s.senders == [] + [Handle(Live, 0)];
      SumAppend(m, [], Handle(Live, 0));
    }
  }

  /** At count one nobody else owns the Arc; at count two just one other handle does. */
  lemma CountTellsOwners(s: State, p: Party)
    requires s.strong == Total(Owners, s) && IsParty(s, p) && p.Tx? && Owns(Get(s, p).phase)
    ensures s.strong >= 1
    ensures s.strong == 1 ==> NoOtherSender(s, p) && !Owns(s.rx.phase)
    ensures s.strong == 2 ==> NoOtherSender(s, p) || !Owns(s.rx.phase)
  {
    TotalAtLeast(Owners, s, p);
    assert s.strong == 1 ==> !Owns(Get(s, Rx).phase);
    if s.strong == 2 && Owns(s.rx.phase) {
      assert Sum(Owners, s.senders) == 1;
      SumAtLeast(Owners, s.senders, p.i);
    }
  }

  /** `s'` follows `s` by a step of handle `p`: that handle only has changed, it has not been
      revived, and it has fewer steps left. */
  predicate Advanced(s: State, s': State, p: Party)
    requires IsParty(s, p)
  {
    && IsParty(s', p)
    && s'.senders == Put(s, p, Get(s', p)).senders
    && s'.rx == Put(s, p, Get(s', p)).rx
    && (Owns(Get(s', p).phase) ==> Owns(Get(s, p).phase))
    && (Undecided(Get(s', p).phase) ==> Undecided(Get(s, p).phase))
    && Weight(StepsLeft, Get(s', p)) < Weight(StepsLeft, Get(s, p))
  }

  predicate CanMove(phase: Phase) { !phase.Gone? && !phase.Undefined? }

  lemma ReleaseShape(s: State, p: Party)
    requires IsParty(s, p) && CanMove(Get(s, p).phase)
    ensures Advanced(s, StepRelease(s, p), p)
  {
    hide StepRelease, Advanced;
    match p
    case Rx => ReceiverReleaseShape(s);
    case Tx(i) => SenderReleaseShape(s, i);
  }

  lemma ReceiverReleaseShape(s: State)
    requires CanMove(s.rx.phase)
    ensures Advanced(s, StepRelease(s, Rx), Rx)
  {
  }

  lemma SenderReleaseShape(s: State, i: nat)
    requires i < |s.senders| && CanMove(s.senders[i].phase)
    ensures Advanced(s, StepRelease(s, Tx(i)), Tx(i))
  {
  }

  lemma SenderShape(s: State, i: nat)
    requires i < |s.senders| && CanMove(s.senders[i].phase)
    ensures Advanced(s, StepSender(s, i), Tx(i))
  {
    match s.senders[i].phase
    case Live | Counted(_) | Checked(_) =>
    case _ =>
      hide StepRelease;
      ReleaseShape(s, Tx(i));
  }

  lemma ReceiverShape(s: State)
    requires CanMove(s.rx.phase)
    ensures Advanced(s, StepReceiver(s), Rx)
  {
    hide StepRelease;
    if !s.rx.phase.Live? { ReleaseShape(s, Rx); }
  }

  /** Advancing a handle changes that handle only, and never revives it. */
  lemma AdvanceShape(s: State, p: Party)
    requires Enabled(s, Advance(p))
    ensures Advanced(s, Step(s, Advance(p)), p)
  {
    hide StepSender, StepReceiver, Advanced;
    match p
    case Rx => ReceiverShape(s);
    case Tx(i) => SenderShape(s, i);
  }

  lemma AdvanceLowersSteps(s: State, p: Party)
    requires Enabled(s, Advance(p))
    ensures IsParty(Step(s, Advance(p)), p)
    ensures Weight(StepsLeft, Get(Step(s, Advance(p)), p)) < Weight(StepsLeft, Get(s, p))
  {
    hide Step;
    AdvanceShape(s, p);
  }

  /** How a step changes the sums over the handles. */
  lemma StepEffect(s: State, a: Action, m: Measure)
    requires Enabled(s, a)
    ensures a.Clone? ==> Total(m, Step(s, a)) == Total(m, s) + Weight(m, Handle(Live, 0))
    ensures a.Advance? ==>
              && IsParty(Step(s, a), a.p)
              && Total(m, Step(s, a)) == Total(m, s) - Weight(m, Get(s, a.p)) + Weight(m, Get(Step(s, a), a.p))
  {
    match a
    case Clone(_) => SumAppend(m, s.senders, Handle(Live, 0));
    case Advance(p) =>
      AdvanceShape(s, p);
      TotalPut(m, s, p, Get(Step(s, a), p));
  }

  /** A descriptor that leaves a slot or a handle turns up somewhere else. */
  predicate Conserved(s: State, s': State, p: Party, fd: Fd)
    requires IsParty(s, p)
  {
    && IsParty(s', p)
    && SlotsAndClosed(s', fd) + Weight(Held(fd), Get(s', p)) == SlotsAndClosed(s, fd) + Weight(Held(fd), Get(s, p))
  }

  lemma CloseMovesDescriptor(s: State, owned: Option<Fd>, fd: Fd)
    ensures Close(s, owned) == s.(closed := Close(s, owned).closed)
    ensures Close(s, owned).closed[fd] == s.closed[fd] + (if owned == Some(fd) then 1 else 0)
  {
  }

  lemma ReleaseMovesDescriptor(s: State, p: Party, fd: Fd)
    requires IsParty(s, p) && CanMove(Get(s, p).phase)
    ensures Conserved(s, StepRelease(s, p), p, fd)
  {
    hide Close;
    match Get(s, p).phase
    case Holding(owned) => HeldIsClosed(s, p, owned, fd);
    case TearSender => CloseMovesDescriptor(PutPhase(s, p, TearReceiver), s.sender, fd);
    case TearReceiver => CloseMovesDescriptor(PutPhase(s, p, Gone), s.receiver, fd);
    case _ =>
  }

  lemma HeldIsClosed(s: State, p: Party, owned: Option<Fd>, fd: Fd)
    requires IsParty(s, p) && Get(s, p).phase == Holding(owned)
    ensures Conserved(s, Close(PutPhase(s, p, Finished), owned), p, fd)
  {
    hide Close;
    CloseMovesDescriptor(PutPhase(s, p, Finished), owned, fd);
  }

  lemma StepMovesDescriptor(s: State, p: Party, fd: Fd)
    requires Enabled(s, Advance(p))
    ensures Conserved(s, Step(s, Advance(p)), p, fd)
  {
    hide StepRelease;
    match Get(s, p).phase
    case Live | Counted(_) | Checked(_) => if p.Rx? { ReleaseMovesDescriptor(s, p, fd); }
    case _ => ReleaseMovesDescriptor(s, p, fd);
  }

  /** A step keeps the ledger of every descriptor. */
  lemma StepKeepsLedger(s: State, a: Action, fd: Fd)
    requires Enabled(s, a)
    ensures Ledger(Step(s, a), fd) == Ledger(s, fd)
  {
    StepEffect(s, a, Held(fd));
    if a.Advance? { StepMovesDescriptor(s, a.p, fd); }
  }

  /** The handles after a step own no more than before, and the others are untouched. */
  lemma StepFrame(s: State, a: Action, q: Party)
    requires Enabled(s, a) && IsParty(s, q)
    ensures IsParty(Step(s, a), q)
    ensures a != Advance(q) ==> Get(Step(s, a), q) == Get(s, q)
    ensures Owns(Get(Step(s, a), q).phase) ==> Owns(Get(s, q).phase)
    ensures Undecided(Get(Step(s, a), q).phase) ==> Undecided(Get(s, q).phase)
  {
    if a.Advance? { AdvanceShape(s, a.p); }
  }

  lemma NoOtherSenderAfter(s: State, a: Action, q: Party)
    requires a.Advance? && Enabled(s, a) && IsParty(s, q) && NoOtherSender(s, q)
    ensures NoOtherSender(Step(s, a), q)
  {
    forall r: Party | r.Tx? && r != q && IsParty(Step(s, a), r)
      ensures !Owns(Get(Step(s, a), r).phase)
    {
      AdvanceShape(s, a.p);
      assert IsParty(s, r);
      StepFrame(s, a, r);
    }
  }

  /** The handle that moves keeps knowing what it has to know. */
  lemma MoverKnows(s: State, p: Party, tx: Fd, rx: Fd)
    requires Enabled(s, Advance(p)) && Inv(s, tx, rx)
    ensures IsParty(Step(s, Advance(p)), p) && Knows(Step(s, Advance(p)), p)
  {
    AdvanceShape(s, p);
    assert Knows(s, p);
    if p.Tx? && Get(s, p).phase.Live? { CountTellsOwners(s, p); }
    if NoOtherSender(s, p) { NoOtherSenderAfter(s, Advance(p), p); }
    if p.Tx? { StepFrame(s, Advance(p), Rx); }
  }

  /** So does a handle that looks on while another one moves. */
  lemma OnlookerKnows(s: State, p: Party, q: Party)
    requires Enabled(s, Advance(p)) && IsParty(s, q) && q != p && Knows(s, q)
    ensures IsParty(Step(s, Advance(p)), q) && Knows(Step(s, Advance(p)), q)
  {
    StepFrame(s, Advance(p), q);
    StepFrame(s, Advance(p), Rx);
    if NoOtherSender(s, q) { NoOtherSenderAfter(s, Advance(p), q); }
  }

  /** And so does every handle when a live sender is cloned. */
  lemma CloneKeepsKnowledge(s: State, i: nat, q: Party)
    requires Enabled(s, Clone(i)) && IsParty(Step(s, Clone(i)), q)
    requires IsParty(s, q) ==> Knows(s, q)
    ensures Knows(Step(s, Clone(i)), q)
  {
    assert Owns(Get(s, Tx(i)).phase);
  }

  lemma StepKeepsKnowledge(s: State, a: Action, tx: Fd, rx: Fd, q: Party)
    requires Enabled(s, a) && Inv(s, tx, rx) && IsParty(Step(s, a), q)
    ensures Knows(Step(s, a), q)
  {
    if a.Clone? {
      CloneKeepsKnowledge(s, a.i, q);
    } else {
      AdvanceShape(s, a.p);
      if q == a.p { MoverKnows(s, q, tx, rx); } else { OnlookerKnows(s, a.p, q); }
    }
  }

  /** An empty sender slot stays invisible to undecided senders. */
  lemma StepKeepsSlot(s: State, a: Action, tx: Fd, rx: Fd, q: Party)
    requires Enabled(s, a) && Inv(s, tx, rx)
    requires Step(s, a).sender.None? && q.Tx? && IsParty(Step(s, a), q)
    ensures !Undecided(Get(Step(s, a), q).phase)
  {
    match a
    case Clone(i) => assert Undecided(Get(s, Tx(i)).phase);
    case Advance(p) =>
      AdvanceShape(s, p);
      assert IsParty(s, q);
      StepFrame(s, a, q);
      assert Knows(s, p);
      if s.sender.Some? && Undecided(Get(s, q).phase) && Get(s, p).phase.TearSender? {
        TotalAtLeast(TearsReceiver, s, p);
        TotalAtLeast(Owners, s, q);
      }
  }

  /** The count follows the owners, and tear-down starts only at zero. */
  lemma StepKeepsCounts(s: State, a: Action)
    requires Enabled(s, a) && s.strong == Total(Owners, s) && TornDown(s)
    requires a.Advance? ==> Knows(s, a.p)
    ensures var s' := Step(s, a); s'.strong == Total(Owners, s') && TornDown(s')
  {
    StepEffect(s, a, Owners);
    StepEffect(s, a, TearsSender);
    StepEffect(s, a, TearsReceiver);
    if a.Clone? {
      TotalAtLeast(Owners, s, Tx(a.i));
    } else {
      TotalAtLeast(Owners, s, a.p);
      TotalAtLeast(TearsReceiver, s, a.p);
      TotalAtLeast(TearsSender, s, a.p);
    }
  }

  lemma StepKeepsSlots(s: State, a: Action, tx: Fd, rx: Fd)
    requires Enabled(s, a) && Inv(s, tx, rx)
    ensures var s' := Step(s, a);
            && (s'.sender.Some? ==> s'.sender.value == tx)
            && (s'.receiver.Some? ==> s'.receiver.value == rx)
            && (s'.rx.phase.Live? <==> s'.receiver.Some?)
  {
    if a.Advance? {
      assert Knows(s, a.p);
      if Get(s, a.p).phase.TearReceiver? {
        TotalAtLeast(TearsReceiver, s, a.p);
        TotalAtLeast(Owners, s, Rx);
      }
    }
  }

  lemma StepKeepsInv(s: State, a: Action, tx: Fd, rx: Fd)
    requires Enabled(s, a) && Inv(s, tx, rx)
    ensures Inv(Step(s, a), tx, rx)
  {
    var s' := Step(s, a);
    if a.Advance? { assert Knows(s, a.p); }
    StepKeepsCounts(s, a);
    StepKeepsSlots(s, a, tx, rx);
    forall fd: Fd ensures Ledger(s', fd) == if fd == tx || fd == rx then 1 else 0 {
      StepKeepsLedger(s, a, fd);
    }
    forall q: Party | IsParty(s', q) ensures Knows(s', q) {
      StepKeepsKnowledge(s, a, tx, rx, q);
    }
    forall q: Party | s'.sender.None? && q.Tx? && IsParty(s', q) ensures !Undecided(Get(s', q).phase) {
      StepKeepsSlot(s, a, tx, rx, q);
    }
  }

  lemma {:induction false} RunKeepsInv(s: State, run: seq<Action>, tx: Fd, rx: Fd)
    requires Runs(s, run) && Inv(s, tx, rx)
    ensures Inv(Exec(s, run), tx, rx)
    decreases |run|
  {
    if run != [] {
      StepKeepsInv(s, run[0], tx, rx);
      RunKeepsInv(Step(s, run[0]), run[1..], tx, rx);
    }
  }

  // ---- Safety ----------------------------------------------------------------

  /** A sender that has not begun to drop always finds its descriptor, and that
      descriptor is open: the unreachable branch of `Sender::as_fd` is dead code.
      The same goes for the receiver and for the two branches of `Sender::drop`. */
  lemma DescriptorsOutliveTheirHandles(tx: Fd, rx: Fd, run: seq<Action>)
    requires tx != rx && Runs(Initial(tx, rx), run)
    ensures var s := Exec(Initial(tx, rx), run);
            && (LiveSenderExists(s) ==> SenderAsFd(s) == Some(tx) && tx !in s.closed)
            && (s.rx.phase.Live? ==> ReceiverAsFd(s) == Some(rx) && rx !in s.closed)
            && (HasReceiver(s) <==> s.rx.phase.Live?)
            && (forall p: Party :: IsParty(s, p) ==> !Get(s, p).phase.Undefined?)
  {
    InitialInv(tx, rx);
    RunKeepsInv(Initial(tx, rx), run, tx, rx);
    var s := Exec(Initial(tx, rx), run);
    assert Ledger(s, tx) == 1 && Ledger(s, rx) == 1;
    if LiveSenderExists(s) {
      var i: nat :| i < |s.senders| && s.senders[i].phase.Live?;
      assert Undecided(Get(s, Tx(i)).phase);
    }
    forall p: Party | IsParty(s, p) ensures !Get(s, p).phase.Undefined? {
      assert Knows(s, p);
    }
  }

  // ---- Conservation ----------------------------------------------------------

  lemma AllGoneOwnNothing(s: State, m: Measure)
    requires AllGone(s)
    ensures Total(m, s) == 0
  {
    SumZero(m, s.senders);
  }

  /** No descriptor is ever closed twice, nothing else is closed, the Arc count is the
      number of handles that have not released it, and once every handle is gone both
      descriptors have been closed. */
  lemma ClosedExactlyOnce(tx: Fd, rx: Fd, run: seq<Action>)
    requires tx != rx && Runs(Initial(tx, rx), run)
    ensures var s := Exec(Initial(tx, rx), run);
            && s.strong == Total(Owners, s)
            && s.closed <= multiset{tx, rx}
            && (AllGone(s) ==> s.strong == 0 && s.closed == multiset{tx, rx} && s.sender.None? && s.receiver.None?)
  {
    InitialInv(tx, rx);
    RunKeepsInv(Initial(tx, rx), run, tx, rx);
    var s := Exec(Initial(tx, rx), run);
    forall fd: Fd ensures s.closed[fd] <= multiset{tx, rx}[fd] {
      assert Ledger(s, fd) == if fd == tx || fd == rx then 1 else 0;
    }
    if AllGone(s) {
      forall m ensures Total(m, s) == 0 { AllGoneOwnNothing(s, m); }
      forall fd: Fd ensures s.closed[fd] == multiset{tx, rx}[fd] {
        assert Ledger(s, fd) == if fd == tx || fd == rx then 1 else 0;
      }
    }
  }

  /** Every advance uses up one of the steps that are left ... */
  lemma AdvanceMakesProgress(s: State, p: Party)
    requires Enabled(s, Advance(p))
    ensures Total(StepsLeft, Step(s, Advance(p))) < Total(StepsLeft, s)
  {
    StepEffect(s, Advance(p), StepsLeft);
    AdvanceLowersSteps(s, p);
  }

  predicate OnlyDrops(run: seq<Action>) {
    forall k :: 0 <= k < |run| ==> run[k].Advance?
  }

  /** ... so no schedule of drops goes on for ever ... */
  lemma {:induction false} DropsAreBounded(s: State, run: seq<Action>)
    requires Runs(s, run) && OnlyDrops(run)
    ensures |run| + Total(StepsLeft, Exec(s, run)) <= Total(StepsLeft, s)
    decreases |run|
  {
    if run != [] {
      assert run[0].Advance?;
      AdvanceMakesProgress(s, run[0].p);
      DropsAreBounded(Step(s, run[0]), run[1..]);
    }
  }

  /** ... and where one cannot go on, every handle is gone and both descriptors are closed. */
  lemma DeadEndIsDrained(s: State, tx: Fd, rx: Fd)
    requires Inv(s, tx, rx) && tx != rx
    requires forall p: Party :: IsParty(s, p) ==> !Enabled(s, Advance(p))
    ensures AllGone(s) && s.closed == multiset{tx, rx}
  {
    assert IsParty(s, Rx);
    forall p: Party | IsParty(s, p) ensures Get(s, p).phase.Gone? {
      assert Knows(s, p);
    }
    forall i | 0 <= i < |s.senders| ensures s.senders[i].phase.Gone? {
      assert IsParty(s, Tx(i)) && Get(s, Tx(i)).phase.Gone?;
    }
    forall m ensures Total(m, s) == 0 { AllGoneOwnNothing(s, m); }
    forall fd: Fd ensures s.closed[fd] == multiset{tx, rx}[fd] {
      assert Ledger(s, fd) == if fd == tx || fd == rx then 1 else 0;
    }
  }

  /** Whatever has happened so far, and in whatever order all handles are then dropped:
      when no drop can go on, both descriptors have been closed, each exactly once. */
  lemma EveryDrainClosesBoth(tx: Fd, rx: Fd, run: seq<Action>, drops: seq<Action>)
    requires tx != rx && Runs(Initial(tx, rx), run)
    requires Runs(Exec(Initial(tx, rx), run), drops) && OnlyDrops(drops)
    ensures |drops| <= Total(StepsLeft, Exec(Initial(tx, rx), run))
    ensures var s := Exec(Exec(Initial(tx, rx), run), drops);
            (forall p: Party :: IsParty(s, p) ==> !Enabled(s, Advance(p))) ==>
              AllGone(s) && s.closed == multiset{tx, rx}
  {
    InitialInv(tx, rx);
    var s := Exec(Initial(tx, rx), run);
    RunKeepsInv(Initial(tx, rx), run, tx, rx);
    RunKeepsInv(s, drops, tx, rx);
    DropsAreBounded(s, drops);
    if forall p: Party :: IsParty(Exec(s, drops), p) ==> !Enabled(Exec(s, drops), Advance(p)) {
      DeadEndIsDrained(Exec(s, drops), tx, rx);
    }
  }

  // ---- What `has_sender` tells a live receiver --------------------------------

  /** While the receiver lives, the slot is empty just when a sender that loaded a
      count of at most two has got past its decision. */
  ghost predicate SlotHistory(s: State) {
    s.rx.phase.Live? ==>
      && (forall i :: 0 <= i < |s.senders| && s.senders[i].phase.Checked? ==> s.senders[i].phase.hasReceiver)
      && (s.sender.None? <==>
          exists i :: 0 <= i < |s.senders| && !Undecided(s.senders[i].phase) && s.senders[i].loaded <= 2)
  }

  lemma StepKeepsHistory(s: State, a: Action, tx: Fd, rx: Fd)
    requires Enabled(s, a) && Inv(s, tx, rx) && SlotHistory(s)
    ensures SlotHistory(Step(s, a))
  {
    var s' := Step(s, a);
    if s'.rx.phase.Live? {
      assert s.rx.phase.Live?;
      if a.Advance? {
        var i := a.p.i;
        assert Knows(s, a.p);
        TotalAtLeast(Owners, s, Rx);
        TotalAtLeast(TearsReceiver, s, a.p);
        assert s'.senders == s.senders[i := s'.senders[i]];
      }
      if s.sender.None? {
        var j :| 0 <= j < |s.senders| && !Undecided(s.senders[j].phase) && s.senders[j].loaded <= 2;
        assert !Undecided(s'.senders[j].phase) && s'.senders[j].loaded <= 2;
      }
    }
  }

  lemma {:induction false} RunKeepsHistory(s: State, run: seq<Action>, tx: Fd, rx: Fd)
    requires Runs(s, run) && Inv(s, tx, rx) && SlotHistory(s)
    ensures SlotHistory(Exec(s, run))
    decreases |run|
  {
    if run != [] {
      StepKeepsInv(s, run[0], tx, rx);
      StepKeepsHistory(s, run[0], tx, rx);
      RunKeepsHistory(Step(s, run[0]), run[1..], tx, rx);
    }
  }

  /** Some sender that is gone had loaded a count of at most two. */
  ghost predicate SomeDropSawTwo(s: State) {
    exists i :: 0 <= i < |s.senders| && s.senders[i].phase.Gone? && s.senders[i].loaded <= 2
  }

  /** A sender begins its drop while no other sender holds the Arc. */
  ghost predicate BeginsAlone(s: State, a: Action) {
    a.Advance? && a.p.Tx? && IsParty(s, a.p) && Get(s, a.p).phase.Live? && NoOtherSender(s, a.p)
  }

  ghost predicate LoneDropBegins(s: State, run: seq<Action>)
    requires Runs(s, run)
    decreases |run|
  {
    run != [] && (BeginsAlone(s, run[0]) || LoneDropBegins(Step(s, run[0]), run[1..]))
  }

  /** Some sender whose drop has begun has loaded a count of at most two. */
  ghost predicate SomeLoadedTwo(s: State) {
    exists i :: 0 <= i < |s.senders| && !s.senders[i].phase.Live? && s.senders[i].loaded <= 2
  }

  /** While the receiver lives, a sender loads at most two exactly if it is alone. */
  lemma LoadsTwoIffAlone(s: State, i: nat, tx: Fd, rx: Fd)
    requires Inv(s, tx, rx) && s.rx.phase.Live? && i < |s.senders| && s.senders[i].phase.Live?
    ensures s.strong <= 2 <==> NoOtherSender(s, Tx(i))
  {
    CountTellsOwners(s, Tx(i));
    if NoOtherSender(s, Tx(i)) {
      forall j | 0 <= j < |s.senders| && j != i ensures !Owns(s.senders[j].phase) {
        assert IsParty(s, Tx(j)) && !Owns(Get(s, Tx(j)).phase);
      }
      LoneSenderLoadsTwo(s, i, tx, rx);
    }
  }

  /** Only the first step of a drop decides what the sender has loaded. */
  lemma LoadedOnce(s: State, a: Action)
    requires Enabled(s, a)
    ensures SomeLoadedTwo(Step(s, a)) <==>
              SomeLoadedTwo(s) || (a.Advance? && a.p.Tx? && Get(s, a.p).phase.Live? && s.strong <= 2)
  {
    var s' := Step(s, a);
    if a.Advance? {
      AdvanceShape(s, a.p);
      if a.p.Tx? {
        var i := a.p.i;
        assert s'.senders == s.senders[i := s'.senders[i]];
        assert !s'.senders[i].phase.Live?;
        assert s'.senders[i].loaded == if s.senders[i].phase.Live? then s.strong else s.senders[i].loaded;
      }
    }
    if SomeLoadedTwo(s) {
      var j :| 0 <= j < |s.senders| && !s.senders[j].phase.Live? && s.senders[j].loaded <= 2;
      assert !s'.senders[j].phase.Live? && s'.senders[j].loaded <= 2;
    }
  }

  lemma {:induction false} LoadedTwoIffLoneDrop(s: State, run: seq<Action>, tx: Fd, rx: Fd)
    requires Runs(s, run) && Inv(s, tx, rx) && Exec(s, run).rx.phase.Live?
    ensures s.rx.phase.Live?
    ensures SomeLoadedTwo(Exec(s, run)) <==> SomeLoadedTwo(s) || LoneDropBegins(s, run)
    decreases |run|
  {
    if run != [] {
      var s' := Step(s, run[0]);
      StepKeepsInv(s, run[0], tx, rx);
      LoadedTwoIffLoneDrop(s', run[1..], tx, rx);
      ReceiverStaysDropped(s, run[0]);
      LoadedOnce(s, run[0]);
      if run[0].Advance? && run[0].p.Tx? && Get(s, run[0].p).phase.Live? {
        LoadsTwoIffAlone(s, run[0].p.i, tx, rx);
      }
    }
  }

  lemma ReceiverStaysDropped(s: State, a: Action)
    requires Enabled(s, a) && Step(s, a).rx.phase.Live?
    ensures s.rx.phase.Live?
  {
  }

  /** With the receiver alive and no drop under way, `has_sender` is false if and only if
      one of the drops saw a count of at most two, which is if and only if a sender began
      its drop when no other sender held the Arc. So it is right if and only if a sender is
      left or there was such a drop. */
  lemma HasSenderIsRightIff(tx: Fd, rx: Fd, run: seq<Action>)
    requires tx != rx && Runs(Initial(tx, rx), run)
    ensures var s := Exec(Initial(tx, rx), run);
            s.rx.phase.Live? && Quiescent(s) ==>
              && (HasSender(s) <==> !SomeDropSawTwo(s))
              && (HasSender(s) <==> !LoneDropBegins(Initial(tx, rx), run))
              && ((HasSender(s) <==> LiveSenderExists(s)) <==>
                    LiveSenderExists(s) || LoneDropBegins(Initial(tx, rx), run))
  {
    hide Inv, Step;
    InitialInv(tx, rx);
    RunKeepsInv(Initial(tx, rx), run, tx, rx);
    RunKeepsHistory(Initial(tx, rx), run, tx, rx);
    DescriptorsOutliveTheirHandles(tx, rx, run);
    if Exec(Initial(tx, rx), run).rx.phase.Live? {
      LoadedTwoIffLoneDrop(Initial(tx, rx), run, tx, rx);
    }
  }

  ghost predicate NoOverlap(s: State) {
    forall i, j | 0 <= i < |s.senders| && 0 <= j < |s.senders| ::
      MidDrop(s.senders[i].phase) && MidDrop(s.senders[j].phase) ==> i == j
  }

  /** No two sender drops overlap, from the count load to the Arc release. */
  ghost predicate SerialDrops(s: State, run: seq<Action>)
    requires Runs(s, run)
    decreases |run|
  {
    NoOverlap(s) && (run != [] ==> SerialDrops(Step(s, run[0]), run[1..]))
  }

  /** Without overlap the last sender to drop under a live receiver loads a count of two. */
  ghost predicate LastSenderKnows(s: State) {
    s.rx.phase.Live? && !LiveSenderExists(s) ==>
      && (forall i :: 0 <= i < |s.senders| && s.senders[i].phase.Counted? ==> s.senders[i].loaded <= 2)
      && ((forall i :: 0 <= i < |s.senders| ==> !Undecided(s.senders[i].phase)) ==> s.sender.None?)
  }

  lemma LoneSenderLoadsTwo(s: State, i: nat, tx: Fd, rx: Fd)
    requires Inv(s, tx, rx) && s.rx.phase.Live? && i < |s.senders| && Owns(s.senders[i].phase)
    requires forall j :: 0 <= j < |s.senders| && j != i ==> !Owns(s.senders[j].phase)
    ensures s.strong == 2
  {
    SumUpdate(Owners, s.senders, i, Handle(Gone, 0));
    SumZero(Owners, s.senders[i := Handle(Gone, 0)]);
  }

  lemma StepKeepsLastSender(s: State, a: Action, tx: Fd, rx: Fd)
    requires Enabled(s, a) && Inv(s, tx, rx) && SlotHistory(s) && LastSenderKnows(s)
    requires NoOverlap(Step(s, a))
    ensures LastSenderKnows(Step(s, a))
  {
    var s' := Step(s, a);
    if a.Clone? {
      assert s'.senders[|s.senders|].phase.Live?;
    } else if s'.rx.phase.Live? && !LiveSenderExists(s') {
      var i := a.p.i;
      assert Knows(s, a.p);
      AdvanceShape(s, a.p);
      assert s'.senders == s.senders[i := s'.senders[i]];
      assert forall j :: 0 <= j < |s.senders| && j != i ==> s.senders[j] == s'.senders[j];
      if s.senders[i].phase.Live? {
        LoneSenderLoadsTwo(s, i, tx, rx);
        assert Undecided(s'.senders[i].phase);
      } else {
        assert !LiveSenderExists(s);
        if Undecided(s.senders[i].phase) && !Undecided(s'.senders[i].phase) {
          assert s'.sender.None?;
        }
      }
    }
  }

  lemma {:induction false} RunKeepsLastSender(s: State, run: seq<Action>, tx: Fd, rx: Fd)
    requires Runs(s, run) && Inv(s, tx, rx) && SlotHistory(s) && LastSenderKnows(s) && SerialDrops(s, run)
    ensures LastSenderKnows(Exec(s, run))
    decreases |run|
  {
    if run != [] {
      StepKeepsInv(s, run[0], tx, rx);
      StepKeepsHistory(s, run[0], tx, rx);
      StepKeepsLastSender(s, run[0], tx, rx);
      RunKeepsLastSender(Step(s, run[0]), run[1..], tx, rx);
    }
  }

  /** If no two sender drops overlap, a live receiver that looks while no drop is under
      way is told the truth. */
  lemma HasSenderIsRightWithoutOverlap(tx: Fd, rx: Fd, run: seq<Action>)
    requires tx != rx && Runs(Initial(tx, rx), run) && SerialDrops(Initial(tx, rx), run)
    ensures var s := Exec(Initial(tx, rx), run);
            s.rx.phase.Live? && Quiescent(s) ==> (HasSender(s) <==> LiveSenderExists(s))
  {
    InitialInv(tx, rx);
    assert Initial(tx, rx).senders[0].phase.Live?;
    RunKeepsLastSender(Initial(tx, rx), run, tx, rx);
    DescriptorsOutliveTheirHandles(tx, rx, run);
  }

  lemma Prepend(s: State, a: Action, rest: seq<Action>)
    requires Enabled(s, a) && Runs(Step(s, a), rest)
    ensures Runs(s, [a] + rest) && Exec(s, [a] + rest) == Exec(Step(s, a), rest)
  {
    assert ([a] + rest)[1..] == rest;
  }

  /** Two senders have both loaded a count of three. */
  function BothLoadedThree(tx: Fd, rx: Fd): State {
    State(3, Some(tx), Some(rx), multiset{}, [Handle(Counted(3), 3), Handle(Counted(3), 3)], Handle(Live, 0))
  }

  /** Neither of them touches the slot on its way out. */
  lemma BothLeave(tx: Fd, rx: Fd) returns (run: seq<Action>)
    ensures Runs(BothLoadedThree(tx, rx), run)
    ensures Exec(BothLoadedThree(tx, rx), run)
         == State(1, Some(tx), Some(rx), multiset{}, [Handle(Gone, 3), Handle(Gone, 3)], Handle(Live, 0))
  {
    var a, b := Advance(Tx(0)), Advance(Tx(1));
    var s0 := BothLoadedThree(tx, rx);
    var s1 := Step(s0, a);
    var s2 := Step(s1, a);
    var s3 := Step(s2, b);
    assert Step(s3, b) == State(1, Some(tx), Some(rx), multiset{}, [Handle(Gone, 3), Handle(Gone, 3)], Handle(Live, 0));
    run := [];
    Prepend(s3, b, run);
    run := [b] + run;
    Prepend(s2, b, run);
    run := [b] + run;
    Prepend(s1, a, run);
    run := [a] + run;
    Prepend(s0, a, run);
    run := [a] + run;
  }

  /** The hypothesis is needed: two drops that both load a count of three leave the slot full. */
  lemma OverlappingDropsLeaveTheSlotFull(tx: Fd, rx: Fd) returns (run: seq<Action>)
    requires tx != rx
    ensures Runs(Initial(tx, rx), run)
    ensures var s := Exec(Initial(tx, rx), run);
            && s.rx.phase.Live? && Quiescent(s) && !LiveSenderExists(s)
            && HasSender(s)
  {
    var s0 := Initial(tx, rx);
    var s1 := Step(s0, Clone(0));
    var s2 := Step(s1, Advance(Tx(0)));
    assert Step(s2, Advance(Tx(1))) == BothLoadedThree(tx, rx);
    run := BothLeave(tx, rx);
    Prepend(s2, Advance(Tx(1)), run);
    run := [Advance(Tx(1))] + run;
    Prepend(s1, Advance(Tx(0)), run);
    run := [Advance(Tx(0))] + run;
    Prepend(s0, Clone(0), run);
    run := [Clone(0)] + run;
  }
}
