/** The channel as mutable objects: two atomic slots, a reference count and the handles.
    Every method is proved against the state machine, which carries the guarantees. */
module Channel {
  import opened Wrappers
  import opened AtomicFds
  import opened ChannelMachine
  import opened ChannelProofs

  /** Run the drop of handle `p` to its end with nobody interfering. */
  function Finish(s: State, p: Party): State
    requires IsParty(s, p)
    decreases Weight(StepsLeft, Get(s, p))
  {
    if !Enabled(s, Advance(p)) then s
    else
      AdvanceLowersSteps(s, p);
      Finish(Step(s, Advance(p)), p)
  }

  /** An uninterrupted drop is a run of the machine, so it keeps the invariant. */
  lemma {:induction false} FinishIsARun(s: State, p: Party, tx: Fd, rx: Fd) returns (run: seq<Action>)
    requires IsParty(s, p) && Inv(s, tx, rx)
    ensures Runs(s, run) && Exec(s, run) == Finish(s, p) && Inv(Finish(s, p), tx, rx)
    decreases Weight(StepsLeft, Get(s, p))
  {
    if Enabled(s, Advance(p)) {
      AdvanceLowersSteps(s, p);
      StepKeepsInv(s, Advance(p), tx, rx);
      var rest := FinishIsARun(Step(s, Advance(p)), p, tx, rx);
      Prepend(s, Advance(p), rest);
      run := [Advance(p)] + rest;
    } else {
      run := [];
    }
  }

  lemma FinishStep(s: State, p: Party)
    requires Enabled(s, Advance(p))
    ensures IsParty(Step(s, Advance(p)), p) && Finish(s, p) == Finish(Step(s, Advance(p)), p)
  {
    AdvanceLowersSteps(s, p);
  }

  /** The last handle empties both slots. */
  lemma FinishTearsDown(s: State, i: nat)
    requires i < |s.senders| && s.senders[i].phase.TearSender?
    ensures var s' := Finish(s, Tx(i));
            && s'.senders == s.senders[i := s.senders[i].(phase := Gone)] && s'.rx == s.rx
            && s'.strong == s.strong && s'.sender.None? && s'.receiver.None?
  {
    FinishStep(s, Tx(i));
    FinishStep(Step(s, Advance(Tx(i))), Tx(i));
  }

  /** From `Finished` on, a handle releases its Arc and tears down if it was the last. */
  lemma FinishReleases(s: State, i: nat)
    requires i < |s.senders| && s.senders[i].phase.Finished? && s.strong > 0
    ensures var s' := Finish(s, Tx(i));
            && s'.senders == s.senders[i := s.senders[i].(phase := Gone)] && s'.rx == s.rx
            && s'.strong == s.strong - 1
            && s'.sender == (if s.strong == 1 then None else s.sender)
            && s'.receiver == (if s.strong == 1 then None else s.receiver)
  {
    FinishStep(s, Tx(i));
    if s.strong == 1 {
      FinishTearsDown(Step(s, Advance(Tx(i))), i);
    }
  }

  /** A sender that has decided to swap leaves the slot empty and is `Finished`. */
  lemma FinishTakes(s: State, i: nat) returns (s': State)
    requires i < |s.senders| && (s.senders[i].phase == Counted(1) || s.senders[i].phase == Checked(true))
    ensures s'.senders == s.senders[i := s.senders[i].(phase := Finished)] && s'.rx == s.rx
    ensures s'.strong == s.strong && s'.sender == None && s'.receiver == s.receiver
    ensures Finish(s, Tx(i)) == Finish(s', Tx(i))
  {
    var s1 := Step(s, Advance(Tx(i)));
    s' := Step(s1, Advance(Tx(i)));
    FinishStep(s, Tx(i));
    FinishStep(s1, Tx(i));
  }

  /** What an uninterrupted `Sender::drop` does, in terms of the state it starts from. */
  lemma UninterruptedDrop(s: State, i: nat, tx: Fd, rx: Fd)
    requires Inv(s, tx, rx) && i < |s.senders| && s.senders[i].phase.Live?
    ensures var s' := Finish(s, Tx(i));
            && s'.senders == s.senders[i := Handle(Gone, s.strong)] && s'.rx == s.rx
            && s'.strong == s.strong - 1
            && s'.sender == (if s.strong == 1 || (s.strong == 2 && HasReceiver(s)) then None else Some(tx))
            && s'.receiver == (if s.strong == 1 then None else s.receiver)
  {
    var p := Tx(i);
    assert Undecided(Get(s, p).phase);
    CountTellsOwners(s, p);
    var s1 := Step(s, Advance(p));
    FinishStep(s, p);
    var s2 := s1;
    if s.strong == 1 {
      s2 := FinishTakes(s1, i);
    } else {
      FinishStep(s1, p);
      s2 := Step(s1, Advance(p));
      if s.strong == 2 {
        if HasReceiver(s) {
          s2 := FinishTakes(s2, i);
        } else {
          FinishStep(s2, p);
          s2 := Step(s2, Advance(p));
        }
      }
    }
    FinishReleases(s2, i);
  }

  /** Dropped while nobody else is mid-drop and the receiver lives, a sender empties the
      slot just when it was the last one. */
  lemma UninterruptedDropTellsTheReceiver(s: State, i: nat, tx: Fd, rx: Fd)
    requires Inv(s, tx, rx) && i < |s.senders| && s.senders[i].phase.Live?
    requires Quiescent(s) && s.rx.phase.Live?
    ensures HasSender(Finish(s, Tx(i))) <==> LiveSenderExists(Finish(s, Tx(i)))
  {
    var s' := Finish(s, Tx(i));
    UninterruptedDrop(s, i, tx, rx);
    SumUpdate(Owners, s.senders, i, Handle(Gone, 0));
    if LiveSenderExists(s') {
      var j :| 0 <= j < |s'.senders| && s'.senders[j].phase.Live?;
      SumAtLeast(Owners, s.senders, i);
      assert Weight(Owners, s.senders[i]) + Weight(Owners, s.senders[j]) <= Sum(Owners, s.senders);
    } else {
      forall j | 0 <= j < |s.senders| && j != i ensures s.senders[j].phase.Gone? {
        assert s'.senders[j] == s.senders[j];
      }
      LoneSenderLoadsTwo(s, i, tx, rx);
    }
  }

  lemma SenderCounts(s: State, i: nat, tx: Fd, rx: Fd)
    requires Inv(s, tx, rx) && i < |s.senders| && s.senders[i].phase.Live?
    ensures s.strong > 0
  {
    CountTellsOwners(s, Tx(i));
  }

  lemma ReceiverCounts(s: State, tx: Fd, rx: Fd)
    requires Inv(s, tx, rx) && s.rx.phase.Live?
    ensures s.strong > 0
  {
  }

  class Shared {
    const sender: AtomicFd
    const receiver: AtomicFd
    var strong: nat
    var closed: multiset<Fd>
    var senders: seq<Handle>
    var rx: Handle

    ghost predicate Valid()
      reads this
    {
      sender != receiver
    }

    ghost function Abs(): State
      reads this, sender, receiver
    {
      State(strong, sender.Owned(), receiver.Owned(), closed, senders, rx)
    }

    /** The end of `channel`: one Arc, one sender, one receiver. */
    constructor (tx: Fd, rx: Fd)
      ensures Valid() && fresh(sender) && fresh(receiver)
      ensures Abs() == Initial(tx, rx)
    {
      sender := new AtomicFd(Some(tx));
      receiver := new AtomicFd(Some(rx));
      strong := 2;
      closed := multiset{};
      senders := [Handle(Live, 0)];
      this.rx := Handle(Live, 0);
    }

    method CloneSender(i: nat, ghost tx: Fd, ghost rx: Fd) returns (j: nat)
      requires Valid() && Inv(Abs(), tx, rx) && Enabled(Abs(), Clone(i))
      modifies this
      ensures Inv(Abs(), tx, rx)
      ensures Valid() && Abs() == Step(old(Abs()), Clone(i))
      ensures j < |senders| && senders[j] == Handle(Live, 0) && j == |old(senders)|
    {
      StepKeepsInv(Abs(), Clone(i), tx, rx);
      strong := strong + 1;
      j := |senders|;
      senders := senders + [Handle(Live, 0)];
    }

    /** Drop an owned descriptor. */
    method CloseFd(fd: Option<Fd>)
      modifies this`closed
      ensures Abs() == Close(old(Abs()), fd)
    {
      match fd {
        case None =>
        case Some(n) => closed := closed + multiset{n};
      }
    }

    /** `Drop for AtomicFd` on one of the slots: take what is there and close it. */
    method DropSlot(slot: AtomicFd)
      requires Valid() && (slot == sender || slot == receiver)
      modifies this`closed, slot
      ensures slot == sender ==> Abs() == Close(old(Abs()), old(slot.Owned())).(sender := None)
      ensures slot == receiver ==> Abs() == Close(old(Abs()), old(slot.Owned())).(receiver := None)
    {
      var taken := slot.IntoInner();
      CloseFd(taken);
    }

    /** `Sender::as_fd`. The precondition is what Rust's borrow gives: the sender is live. */
    method SenderAsFd(i: nat, ghost tx: Fd, ghost rx: Fd) returns (fd: Fd)
      requires Inv(Abs(), tx, rx) && i < |senders| && senders[i].phase.Live?
      ensures fd == tx && tx !in closed
    {
      assert Undecided(Get(Abs(), Tx(i)).phase) && Ledger(Abs(), tx) == 1;
      var borrowed := sender.LoadBorrowed();
      match borrowed {
        case Some(n) => fd := n;
        case None => assert false;
      }
    }

    method SetPhase(p: Party, phase: Phase)
      requires IsParty(Abs(), p)
      modifies this`senders, this`rx
      ensures Abs() == PutPhase(old(Abs()), p, phase)
    {
      match p {
        case Rx => rx := rx.(phase := phase);
        case Tx(i) => senders := senders[i := senders[i].(phase := phase)];
      }
    }

    /** `Sender::drop` followed by the release of its Arc, run without interference. */
    method DropSender(i: nat, ghost tx: Fd, ghost rx: Fd)
      requires Valid() && Inv(Abs(), tx, rx) && i < |senders| && senders[i].phase.Live?
      modifies this, sender, receiver
      ensures Valid() && Inv(Abs(), tx, rx) && Abs() == Finish(old(Abs()), Tx(i))
    {
      hide Inv;
      ghost var s := Abs();
      ghost var _ := FinishIsARun(s, Tx(i), tx, rx);
      SenderCounts(s, i, tx, rx);
      var count := strong;
      senders := senders[i := Handle(Counted(count), count)];
      ghost var s1 := Abs();
      assert s1 == Step(s, Advance(Tx(i)));
      match count {
        case 0 => assert false;
        case 1 => TakeSender(i);
        case 2 =>
          var hasReceiver := receiver.IsSome();
          SetPhase(Tx(i), Checked(hasReceiver));
          assert Abs() == Step(s1, Advance(Tx(i)));
          ghost var s2 := Abs();
          if hasReceiver {
            TakeSender(i);
          } else {
            SetPhase(Tx(i), Finished);
            assert Abs() == Step(s2, Advance(Tx(i)));
          }
        case _ =>
          SetPhase(Tx(i), Finished);
          assert Abs() == Step(s1, Advance(Tx(i)));
      }
      assert Finish(s1, Tx(i)) == Finish(Abs(), Tx(i));
      ReleaseArc(Tx(i));
    }

    /** `Receiver::drop` followed by the release of its Arc, run without interference. */
    method DropReceiver(ghost txFd: Fd, ghost rxFd: Fd)
      requires Valid() && Inv(Abs(), txFd, rxFd) && rx.phase.Live?
      modifies this, sender, receiver
      ensures Valid() && Inv(Abs(), txFd, rxFd) && Abs() == Finish(old(Abs()), Rx)
    {
      hide Inv;
      ghost var s := Abs();
      ghost var _ := FinishIsARun(s, Rx, txFd, rxFd);
      ReceiverCounts(s, txFd, rxFd);
      var owned := receiver.Swap(None);
      SetPhase(Rx, Holding(owned));
      assert Abs() == Step(s, Advance(Rx));
      DropHeld(Rx, owned);
      ReleaseArc(Rx);
    }

    /** The descriptor that a swap returned goes out of scope. */
    method DropHeld(p: Party, owned: Option<Fd>)
      requires Valid() && IsParty(Abs(), p) && Get(Abs(), p).phase == Holding(owned)
      modifies this
      ensures Valid() && Abs() == Step(old(Abs()), Advance(p))
    {
      SetPhase(p, Finished);
      CloseFd(owned);
    }

    /** `drop(self.channel.sender.swap(None))`. */
    method TakeSender(i: nat)
      requires Valid() && i < |senders|
      requires senders[i].phase == Counted(1) || senders[i].phase == Checked(true)
      modifies this, sender
      ensures Valid() && i < |senders| && senders[i].phase.Finished? && strong == old(strong)
      ensures Finish(old(Abs()), Tx(i)) == Finish(Abs(), Tx(i))
    {
      ghost var s := Abs();
      var owned := sender.Swap(None);
      SetPhase(Tx(i), Holding(owned));
      assert Abs() == Step(s, Advance(Tx(i)));
      DropHeld(Tx(i), owned);
    }

    /** Release an Arc; the last one tears the channel down. */
    method ReleaseArc(p: Party)
      requires Valid() && IsParty(Abs(), p) && Get(Abs(), p).phase.Finished? && strong > 0
      modifies this, sender, receiver
      ensures Valid() && Abs() == Finish(old(Abs()), p)
    {
      ghost var s := Abs();
      strong := strong - 1;
      if strong == 0 {
        SetPhase(p, TearSender);
        assert Abs() == Step(s, Advance(p));
        TearDown(p);
      } else {
        SetPhase(p, Gone);
        assert Abs() == Step(s, Advance(p));
        assert Finish(Abs(), p) == Abs();
      }
    }

    /** `drop_in_place` of the channel: the two slots, in declaration order. */
    method TearDown(p: Party)
      requires Valid() && IsParty(Abs(), p) && Get(Abs(), p).phase.TearSender?
      modifies this, sender, receiver
      ensures Valid() && Abs() == Finish(old(Abs()), p)
    {
      ghost var s := Abs();
      TearSenderSlot(p);
      FinishStep(s, p);
      ghost var s1 := Abs();
      TearReceiverSlot(p);
      FinishStep(s1, p);
    }

    method TearSenderSlot(p: Party)
      requires Valid() && IsParty(Abs(), p) && Get(Abs(), p).phase.TearSender?
      modifies this, sender
      ensures Valid() && Abs() == Step(old(Abs()), Advance(p))
    {
      DropSlot(sender);
      SetPhase(p, TearReceiver);
    }

    method TearReceiverSlot(p: Party)
      requires Valid() && IsParty(Abs(), p) && Get(Abs(), p).phase.TearReceiver?
      modifies this, receiver
      ensures Valid() && Abs() == Step(old(Abs()), Advance(p)) && Get(Abs(), p).phase.Gone?
    {
      DropSlot(receiver);
      SetPhase(p, Gone);
    }
  }
}
