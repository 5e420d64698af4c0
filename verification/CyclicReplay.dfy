/** The code misses no interleaving: every run of the machine that keeps the caller's promise
    and ends with the last step of the maker is recorded by `Construction.Run` for some
    initializer and some observers. */
module CyclicReplay {
  import opened Wrappers
  import opened CyclicMachine
  import opened CyclicProofs
  import opened Cyclic

  /** The maker makes its last step at the end of the run and not before. */
  predicate Completed(s: State, run: seq<Action>)
    requires Runs(s, run)
    decreases |run|
  {
    if run == [] then s.pc.Done? else !s.pc.Done? && Completed(Step(s, run[0]), run[1..])
  }

  /** How many observer steps come first. */
  function Front(run: seq<Action>): (n: nat)
    ensures n <= |run|
    ensures forall k :: 0 <= k < n ==> IsObserver(run[k])
    ensures n < |run| ==> !IsObserver(run[n])
  {
    if run == [] || !IsObserver(run[0]) then 0 else 1 + Front(run[1..])
  }

  /** What the observers do after each step of the maker, with which the run begins. */
  function Blocks(run: seq<Action>): seq<seq<Action>> {
    if run == [] then []
    else
      var rest := run[1..];
      [rest[..Front(rest)]] + Blocks(rest[Front(rest)..])
  }

  /** The observers of the run; after its end they have nothing more to do. */
  function Env(run: seq<Action>): nat -> seq<Action> {
    var blocks := Blocks(run);
    (k: nat) => if k < |blocks| then blocks[k] else []
  }

  lemma ObserverKeepsPc(s: State, a: Action)
    requires IsObserver(a) && Enabled(s, a)
    ensures Step(s, a).pc == s.pc && Step(s, a).outcome == s.outcome
  {
  }

  /** Observers do all of what was possible and allowed in the first place. */
  lemma {:induction false} PlayAll(p: Progress, run: seq<Action>, n: nat)
    requires n <= |run| && Runs(p.state, run) && AllAllowed(p.state, run)
    requires !p.state.pc.Done? && Completed(p.state, run)
    requires forall k :: 0 <= k < n ==> IsObserver(run[k])
    ensures var q := Play(p, run[..n]);
            && q.log == p.log + run[..n] && q.state.pc == p.state.pc && q.state.outcome == p.state.outcome
            && Runs(q.state, run[n..]) && AllAllowed(q.state, run[n..]) && Completed(q.state, run[n..])
            && Exec(q.state, run[n..]) == Exec(p.state, run)
    decreases n
  {
    hide Step, Enabled, Allowed;
    if n == 0 {
      assert run[..0] == [] && run[0..] == run;
    } else {
      var a := run[0];
      var p' := Progress(p.log + [a], Step(p.state, a));
      ObserverKeepsPc(p.state, a);
      PlayAll(p', run[1..], n - 1);
      assert run[..n][1..] == run[1..][..n - 1] && run[1..][n - 1..] == run[n..];
      assert p'.log + run[1..][..n - 1] == p.log + run[..n];
    }
  }

  lemma OutcomeStays(s: State, a: Action)
    requires Inv(s) && Enabled(s, a) && s.outcome.Some?
    ensures Step(s, a).outcome == s.outcome
  {
    match a
    case Maker => match s.pc { case Returned(_) => case Caught(_) => case Published => case _ => }
    case _ =>
  }

  lemma {:induction false} OutcomeIsFinal(s: State, run: seq<Action>)
    requires Inv(s) && Runs(s, run) && AllAllowed(s, run) && s.outcome.Some?
    ensures Exec(s, run).outcome == s.outcome
    decreases |run|
  {
    if run != [] {
      hide Inv, Step, Enabled, Allowed;
      OutcomeStays(s, run[0]);
      StepKeepsInv(s, run[0]);
      OutcomeIsFinal(Step(s, run[0]), run[1..]);
    }
  }

  lemma FinishSetsOutcome(s: State, o: InitResult)
    requires Enabled(s, FinishInit(o))
    ensures Step(s, FinishInit(o)).outcome == Some(o)
  {
  }

  /** A step that is not an observer's is the next one of the maker or of its initializer. */
  lemma NextIsForced(s: State, run: seq<Action>, init: InitResult)
    requires Inv(s) && run != [] && Runs(s, run) && AllAllowed(s, run) && !IsObserver(run[0])
    requires Exec(s, run).outcome == Some(init)
    ensures run[0] == Next(s, init)
  {
    var a := run[0];
    if a.FinishInit? {
      FinishSetsOutcome(s, a.o);
      StepKeepsInv(s, a);
      OutcomeIsFinal(Step(s, a), run[1..]);
    }
  }

  /** `run` leads from `p` to the end, and the initializer ends with `init` on the way. */
  ghost predicate Finishes(p: Progress, run: seq<Action>, init: InitResult) {
    && Inv(p.state)
    && Runs(p.state, run) && AllAllowed(p.state, run) && Completed(p.state, run)
    && Exec(p.state, run).outcome == Some(init)
  }

  /** A turn takes the first step of the run and the observers' steps behind it. */
  lemma TurnTakesBlock(p: Progress, run: seq<Action>, init: InitResult)
    requires Finishes(p, run, init) && run != [] && !IsObserver(run[0])
    ensures var n := Front(run[1..]);
            var q := Turn(p, init, run[1..][..n]);
            && q.log == p.log + run[..n + 1] && Finishes(q, run[n + 1..], init)
            && Runs(p.state, run) && Runs(q.state, run[n + 1..])
            && Exec(q.state, run[n + 1..]) == Exec(p.state, run)
  {
    hide Inv, Step, Enabled, Allowed, Next, Play;
    var a, rest := run[0], run[1..];
    NextIsForced(p.state, run, init);
    StepKeepsInv(p.state, a);
    var q := Progress(p.log + [a], Step(p.state, a));
    var n := Front(rest);
    assert q.log + rest[..n] == p.log + run[..n + 1] && rest[n..] == run[n + 1..];
    if q.state.pc.Done? {
      DoneEndsRun(q.state, rest);
    } else {
      PlayAll(q, rest, n);
      PlayKeepsInv(q, rest[..n]);
    }
  }

  lemma DoneEndsRun(s: State, run: seq<Action>)
    requires Runs(s, run) && Completed(s, run) && s.pc.Done?
    ensures run == []
  {
  }

  /** The observers do `blocks`, from the maker's n-th step on. */
  ghost predicate Does(env: nat -> seq<Action>, n: nat, blocks: seq<seq<Action>>) {
    forall k :: 0 <= k < |blocks| ==> env(n + k) == blocks[k]
  }

  lemma DoesFirst(env: nat -> seq<Action>, n: nat, block: seq<Action>, blocks: seq<seq<Action>>)
    requires Does(env, n, [block] + blocks)
    ensures env(n) == block && Does(env, n + 1, blocks)
  {
    var all := [block] + blocks;
    assert env(n + 0) == all[0];
    forall k | 0 <= k < |blocks| ensures env(n + 1 + k) == blocks[k] {
      assert env(n + (1 + k)) == all[1 + k];
    }
  }

  lemma Regroup(log: seq<Action>, run: seq<Action>, n: nat)
    requires n <= |run|
    ensures log + run[..n] + run[n..] == log + run
  {
  }

  lemma EmptyBlocks(p: Progress)
    ensures Blocks([]) == [] && p.log + [] == p.log && Exec(p.state, []) == p.state
  {
  }

  /** From a state in which the maker is to move, turn by turn to the end. */
  lemma {:induction false} FollowBlocks(s: State, env: nat -> seq<Action>, init: InitResult, n: nat, run: seq<Action>)
    requires Finishes(Weave(s, env, init, n), run, init)
    requires run != [] ==> !IsObserver(run[0])
    requires Does(env, n, Blocks(run))
    ensures Runs(Weave(s, env, init, n).state, run)
    ensures var p := Weave(s, env, init, n);
            Weave(s, env, init, n + |Blocks(run)|) == Progress(p.log + run, Exec(p.state, run))
    decreases |run|
  {
    hide Finishes, Turn, Runs, Exec, Does, Front, Blocks, Step;
    var p := Weave(s, env, init, n);
    FinishesRuns(p, run, init);
    if run == [] {
      EmptyBlocks(p);
    } else {
      var m := Front(run[1..]);
      TurnTakesBlock(p, run, init);
      BlocksOf(run);
      DoesFirst(env, n, run[1..][..m], Blocks(run[m + 1..]));
      assert Weave(s, env, init, n + 1) == Turn(p, init, run[1..][..m]);
      FollowBlocks(s, env, init, n + 1, run[m + 1..]);
      Regroup(p.log, run, m + 1);
    }
  }

  lemma FinishesRuns(p: Progress, run: seq<Action>, init: InitResult)
    requires Finishes(p, run, init)
    ensures Runs(p.state, run)
  {
  }

  lemma BlocksOf(run: seq<Action>)
    requires run != []
    ensures Front(run[1..]) + 1 < |run| ==> !IsObserver(run[Front(run[1..]) + 1])
    ensures var m := Front(run[1..]); Blocks(run) == [run[1..][..m]] + Blocks(run[m + 1..])
  {
    assert run[1..][Front(run[1..])..] == run[Front(run[1..]) + 1..];
  }

  lemma {:induction false} PlayKeepsInv(p: Progress, actions: seq<Action>)
    requires Inv(p.state)
    ensures Inv(Play(p, actions).state)
    decreases |actions|
  {
    if actions != [] {
      hide Inv, Step, Enabled, Allowed, IsObserver;
      if CanAct(p.state, actions[0]) {
        StepKeepsInv(p.state, actions[0]);
        PlayKeepsInv(Progress(p.log + [actions[0]], Step(p.state, actions[0])), actions[1..]);
      } else {
        PlayKeepsInv(p, actions[1..]);
      }
    }
  }

  lemma MakerBegins(strategy: Strategy, debug: bool, run: seq<Action>)
    requires Runs(Initial(strategy, debug), run) && Completed(Initial(strategy, debug), run)
    ensures run != [] && !IsObserver(run[0])
  {
  }

  lemma {:induction false} CompletedIsDone(s: State, run: seq<Action>)
    requires Runs(s, run) && Completed(s, run)
    ensures Exec(s, run).pc.Done?
    decreases |run|
  {
    if run != [] { CompletedIsDone(Step(s, run[0]), run[1..]); }
  }

  lemma EndHasOutcome(strategy: Strategy, debug: bool, run: seq<Action>)
    requires Runs(Initial(strategy, debug), run) && Completed(Initial(strategy, debug), run)
    ensures Exec(Initial(strategy, debug), run).outcome.Some?
  {
    hide Runs, Exec, Completed, Initial;
    CompletedIsDone(Initial(strategy, debug), run);
    OutcomeAndConservation(strategy, debug, run);
  }

  /** Taken turn by turn, with the observers of the run, the machine makes that run. */
  lemma RunIsWoven(strategy: Strategy, debug: bool, run: seq<Action>, init: InitResult) returns (n: nat)
    requires Runs(Initial(strategy, debug), run) && AllAllowed(Initial(strategy, debug), run)
    requires Completed(Initial(strategy, debug), run) && Exec(Initial(strategy, debug), run).outcome == Some(init)
    ensures Weave(Initial(strategy, debug), Env(run), init, n) == Progress(run, Exec(Initial(strategy, debug), run))
  {
    hide Inv, Runs, AllAllowed, Exec, Completed, Blocks, Initial;
    var s := Initial(strategy, debug);
    InitialInv(strategy, debug);
    MakerBegins(strategy, debug, run);
    assert Weave(s, Env(run), init, 0) == Progress([], s);
    FollowBlocks(s, Env(run), init, 0, run);
    n := |Blocks(run)|;
    assert [] + run == run;
  }

  /** For every run of the machine that keeps the promise and ends with the last step of the
      maker, the code with the initializer and the observers of that run records it. */
  method Replay(strategy: Strategy, debug: bool, run: seq<Action>) returns (c: Construction, r: Outcome)
    requires Runs(Initial(strategy, debug), run) && AllAllowed(Initial(strategy, debug), run)
    requires Completed(Initial(strategy, debug), run)
    ensures c.log == run && c.Abs() == Exec(Initial(strategy, debug), run) && c.pc == Done(r)
  {
    hide Runs, AllAllowed, Exec, Completed, Initial, Inv;
    EndHasOutcome(strategy, debug, run);
    CompletedIsDone(Initial(strategy, debug), run);
    var init := Exec(Initial(strategy, debug), run).outcome.value;
    ghost var n := RunIsWoven(strategy, debug, run, init);
    c := new Construction(strategy, debug, init, Env(run));
    r := c.Run();
    EndIsUnique(c, n);
  }

  /** When the maker is done, nothing is woven on. */
  lemma {:induction false} DoneIsTheEnd(s: State, env: nat -> seq<Action>, init: InitResult, n: nat, m: nat)
    requires n <= m && Weave(s, env, init, n).state.pc.Done?
    ensures Weave(s, env, init, m) == Weave(s, env, init, n)
    decreases m
  {
    if n < m { DoneIsTheEnd(s, env, init, n, m - 1); }
  }

  lemma EndIsUnique(c: Construction, n: nat)
    requires c.Valid() && c.pc.Done?
    requires Weave(Initial(c.strategy, c.debug), c.env, c.init, n).state.pc.Done?
    ensures Progress(c.log, c.Abs()) == Weave(Initial(c.strategy, c.debug), c.env, c.init, n)
  {
    hide Inv, Runs, AllAllowed, Exec, Initial;
    var s := Initial(c.strategy, c.debug);
    if n <= c.tick {
      DoneIsTheEnd(s, c.env, c.init, n, c.tick);
    } else {
      DoneIsTheEnd(s, c.env, c.init, c.tick, n);
    }
  }
}
