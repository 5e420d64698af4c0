/** The descriptor lifetime protocol of the PipeWire channel, as a state machine.

    One receiver and any number of cloneable senders share an `Arc<Channel>` that
    owns two pipe descriptors. Every atomic access of a `Sender::drop` or a
    `Receiver::drop` is a step of its own, and the steps of different handles
    interleave freely. A dropped handle runs through the phases

      Live -> Counted -> [Checked] -> [Holding] -> Finished -> [tear-down] -> Gone

    where `Counted` has loaded the strong count, `Checked` has also loaded the
    receiver slot, `Holding` owns what a swap returned and still has to close it,
    and `Finished` is about to release its `Arc`. The handle that releases the
    last `Arc` drops the two slots in declaration order. */
module ChannelMachine {
  import opened Wrappers
  import opened AtomicFds

  datatype Phase =
    | Live
    | Counted(count: nat)
    | Checked(hasReceiver: bool)
    | Holding(owned: Option<Fd>)
    | Finished
    | TearSender
    | TearReceiver
    | Gone
    | Undefined  // an unreachable_unchecked! branch was taken

  /** A handle and, once its drop has loaded the strong count, the value it loaded. */
  datatype Handle = Handle(phase: Phase, loaded: nat)

  datatype State = State(
    strong: nat,               // the strong count of the shared Arc
    sender: Option<Fd>,        // the slot `Channel::sender`
    receiver: Option<Fd>,      // the slot `Channel::receiver`
    closed: multiset<Fd>,      // every close(2) that was executed
    senders: seq<Handle>,
    rx: Handle
  )

  datatype Party = Tx(i: nat) | Rx

  datatype Action = Clone(i: nat) | Advance(p: Party)

  /** The state that `channel` builds from the two ends of a fresh pipe. */
  function Initial(tx: Fd, rx: Fd): State {
    State(2, Some(tx), Some(rx), multiset{}, [Handle(Live, 0)], Handle(Live, 0))
  }

  // ---- Handles -------------------------------------------------------------

  predicate IsParty(s: State, p: Party) {
    p.Tx? ==> p.i < |s.senders|
  }

  function Get(s: State, p: Party): Handle
    requires IsParty(s, p)
  {
    match p case Rx => s.rx case Tx(i) => s.senders[i]
  }

  function Put(s: State, p: Party, h: Handle): State
    requires IsParty(s, p)
  {
    match p case Rx => s.(rx := h) case Tx(i) => s.(senders := s.senders[i := h])
  }

  function PutPhase(s: State, p: Party, phase: Phase): State
    requires IsParty(s, p)
  {
    Put(s, p, Get(s, p).(phase := phase))
  }

  /** The handle still holds its reference to the shared Arc. */
  predicate Owns(phase: Phase) {
    phase.Live? || phase.Counted? || phase.Checked? || phase.Holding? || phase.Finished?
  }

  /** The handle is a sender that has not yet got past its decision to swap. */
  predicate Undecided(phase: Phase) {
    phase.Live? || phase.Counted? || phase.Checked?
  }

  /** The drop of the handle has begun and has not ended. */
  predicate MidDrop(phase: Phase) {
    !phase.Live? && !phase.Gone?
  }

  // ---- Operations ----------------------------------------------------------

  /** `AtomicFd` drop and the drop of a swapped-out descriptor: close it if there is one. */
  function Close(s: State, fd: Option<Fd>): State {
    if fd.Some? then s.(closed := s.closed + multiset{fd.value}) else s
  }

  /** `channel.sender.swap(None)`, the result staying with handle `p`. */
  function SwapSender(s: State, p: Party): State
    requires IsParty(s, p)
  {
    PutPhase(s, p, Holding(s.sender)).(sender := None)
  }

  /** `Arc` release at the end of a drop; zero makes this handle tear the channel down. */
  function Release(s: State, p: Party): State
    requires IsParty(s, p)
  {
    if s.strong <= 1 then PutPhase(s, p, TearSender).(strong := 0)
    else PutPhase(s, p, Gone).(strong := s.strong - 1)
  }

  /** The next atomic step of `Sender::drop`. */
  function StepSender(s: State, i: nat): State
    requires i < |s.senders|
  {
    match s.senders[i].phase
    case Live => Put(s, Tx(i), Handle(Counted(s.strong), s.strong))
    case Counted(n) =>
      if n == 0 then PutPhase(s, Tx(i), Undefined)
      else if n == 1 then SwapSender(s, Tx(i))
      else if n == 2 then PutPhase(s, Tx(i), Checked(s.receiver.Some?))
      else PutPhase(s, Tx(i), Finished)
    case Checked(has) => if has then SwapSender(s, Tx(i)) else PutPhase(s, Tx(i), Finished)
    case _ => StepRelease(s, Tx(i))
  }

  /** The next atomic step of `Receiver::drop`. */
  function StepReceiver(s: State): State {
    if s.rx.phase.Live? then
      PutPhase(s, Rx, Holding(s.receiver)).(receiver := None)
    else
      StepRelease(s, Rx)
  }

  /** The part of a drop that senders and the receiver share. */
  function StepRelease(s: State, p: Party): State
    requires IsParty(s, p)
  {
    match Get(s, p).phase
    case Holding(owned) => Close(PutPhase(s, p, Finished), owned)
    case Finished => Release(s, p)
    case TearSender => Close(PutPhase(s, p, TearReceiver), s.sender).(sender := None)
    case TearReceiver => Close(PutPhase(s, p, Gone), s.receiver).(receiver := None)
    case _ => PutPhase(s, p, Undefined)
  }

  predicate Enabled(s: State, a: Action) {
    match a
    case Clone(i) => i < |s.senders| && s.senders[i].phase.Live?
    case Advance(p) => IsParty(s, p) && !Get(s, p).phase.Gone? && !Get(s, p).phase.Undefined?
  }

  function Step(s: State, a: Action): State
    requires Enabled(s, a)
  {
    match a
    case Clone(_) => s.(strong := s.strong + 1, senders := s.senders + [Handle(Live, 0)])
    case Advance(Tx(i)) => StepSender(s, i)
    case Advance(Rx) => StepReceiver(s)
  }

  /** `Sender::as_fd`: what `load_borrowed` finds. None is the unreachable branch. */
  function SenderAsFd(s: State): Option<Fd> { s.sender }

  /** `Receiver::as_fd`. */
  function ReceiverAsFd(s: State): Option<Fd> { s.receiver }

  /** `Sender::has_receiver`. */
  predicate HasReceiver(s: State) { s.receiver.Some? }

  /** `Receiver::has_sender`. */
  predicate HasSender(s: State) { s.sender.Some? }

  // ---- Runs ----------------------------------------------------------------

  predicate Runs(s: State, run: seq<Action>)
    decreases |run|
  {
    run == [] || (Enabled(s, run[0]) && Runs(Step(s, run[0]), run[1..]))
  }

  function Exec(s: State, run: seq<Action>): State
    requires Runs(s, run)
    decreases |run|
  {
    if run == [] then s else Exec(Step(s, run[0]), run[1..])
  }

  ghost predicate LiveSenderExists(s: State) {
    exists i :: 0 <= i < |s.senders| && s.senders[i].phase.Live?
  }

  /** No handle is in the middle of its drop. */
  predicate Quiescent(s: State) {
    !MidDrop(s.rx.phase) && forall i :: 0 <= i < |s.senders| ==> !MidDrop(s.senders[i].phase)
  }

  predicate AllGone(s: State) {
    s.rx.phase.Gone? && forall i :: 0 <= i < |s.senders| ==> s.senders[i].phase.Gone?
  }

  // ---- Weighted sums over handles --------------------------------------------

  /** What is summed up over the handles. */
  datatype Measure =
    | Owners               // references to the Arc
    | Held(fd: Fd)         // descriptors swapped out and not yet closed
    | TearsSender          // handles that still have to drop the sender slot
    | TearsReceiver        // handles that still have to drop the receiver slot
    | StepsLeft            // an upper bound on the steps a handle can still take

  function Weight(m: Measure, h: Handle): nat {
    match m
    case Owners => if Owns(h.phase) then 1 else 0
    case Held(fd) => if h.phase == Holding(Some(fd)) then 1 else 0
    case TearsSender => if h.phase.TearSender? then 1 else 0
    case TearsReceiver => if h.phase.TearSender? || h.phase.TearReceiver? then 1 else 0
    case StepsLeft =>
      match h.phase
      case Live => 7
      case Counted(_) => 6
      case Checked(_) => 5
      case Holding(_) => 4
      case Finished => 3
      case TearSender => 2
      case TearReceiver => 1
      case _ => 0
  }

  function Sum(m: Measure, hs: seq<Handle>): nat {
    if hs == [] then 0 else Sum(m, hs[..|hs| - 1]) + Weight(m, hs[|hs| - 1])
  }

  function Total(m: Measure, s: State): nat {
    Sum(m, s.senders) + Weight(m, s.rx)
  }

  lemma {:induction false} SumUpdate(m: Measure, hs: seq<Handle>, i: nat, h: Handle)
    requires i < |hs|
    ensures Sum(m, hs[i := h]) == Sum(m, hs) - Weight(m, hs[i]) + Weight(m, h)
  {
    var last := |hs| - 1;
    if i == last {
      assert hs[i := h][..last] == hs[..last];
    } else {
      SumUpdate(m, hs[..last], i, h);
      assert hs[i := h][..last] == hs[..last][i := h];
    }
  }

  lemma SumAppend(m: Measure, hs: seq<Handle>, h: Handle)
    ensures Sum(m, hs + [h]) == Sum(m, hs) + Weight(m, h)
  {
    assert (hs + [h])[..|hs|] == hs;
  }

  /** One handle, and any two different handles, are part of the sum. */
  lemma {:induction false} SumAtLeast(m: Measure, hs: seq<Handle>, i: nat)
    requires i < |hs|
    ensures Weight(m, hs[i]) <= Sum(m, hs)
    ensures forall j :: 0 <= j < |hs| && j != i ==> Weight(m, hs[i]) + Weight(m, hs[j]) <= Sum(m, hs)
  {
    var h := hs[i].(phase := Gone);
    SumUpdate(m, hs, i, h);
    forall j | 0 <= j < |hs| && j != i
      ensures Weight(m, hs[i]) + Weight(m, hs[j]) <= Sum(m, hs)
    {
      SumUpdate(m, hs[i := h], j, h);
    }
  }

  lemma {:induction false} SumZero(m: Measure, hs: seq<Handle>)
    requires forall i :: 0 <= i < |hs| ==> Weight(m, hs[i]) == 0
    ensures Sum(m, hs) == 0
  {
    if hs != [] { SumZero(m, hs[..|hs| - 1]); }
  }

  lemma TotalPut(m: Measure, s: State, p: Party, h: Handle)
    requires IsParty(s, p)
    ensures Total(m, Put(s, p, h)) == Total(m, s) - Weight(m, Get(s, p)) + Weight(m, h)
  {
    if p.Tx? { SumUpdate(m, s.senders, p.i, h); }
  }

  lemma TotalAtLeast(m: Measure, s: State, p: Party)
    requires IsParty(s, p)
    ensures Weight(m, Get(s, p)) <= Total(m, s)
    ensures forall q: Party :: q != p && IsParty(s, q) ==> Weight(m, Get(s, p)) + Weight(m, Get(s, q)) <= Total(m, s)
  {
    if p.Tx? { SumAtLeast(m, s.senders, p.i); }
    forall q: Party | q != p && IsParty(s, q)
      ensures Weight(m, Get(s, p)) + Weight(m, Get(s, q)) <= Total(m, s)
    {
      if q.Tx? { SumAtLeast(m, s.senders, q.i); }
    }
  }
}
