/** Whole runs of a packet thread: from start-up, through any nesting of scopes and onloads, to idle. */
module OffloadRuns {
  import opened Basics
  import opened ContextSwitcher
  import opened OffloadProtocol
  import opened OffloadSafety
  import Runs

  /** The thread takes an action where its control is, if neither contexts nor workers have run out. */
  function Thread(): Runs.System<State, Action> {
    Runs.System((s, a) => Control(s, a) && Resources(s, a), (s, a) => if Control(s, a) then Step(s, a) else None)
  }

  ghost predicate Legal(s: State, run: seq<Action>) {
    Runs.Legal(Thread(), s, run)
  }

  /** None if an assertion fails on the way. */
  ghost function Exec(s: State, run: seq<Action>): Option<State> {
    Runs.Exec(Thread(), s, run)
  }

  /** The first action of a run and the rest. */
  lemma LegalTurn(s: State, run: seq<Action>)
    requires run != []
    ensures Legal(s, run) <==>
            Control(s, run[0]) && Resources(s, run[0]) &&
            (Step(s, run[0]).Some? ==> Legal(Step(s, run[0]).value, run[1..]))
    ensures Legal(s, run) && Step(s, run[0]).Some? ==> Exec(s, run) == Exec(Step(s, run[0]).value, run[1..])
  {
    hide Control, Resources, Step;
  }

  function Initial(max: nat, workers: nat): State {
    State(Slots(seq(max, i => i + 1), [], seq(max + 1, i => None)), seq(max + 1, i => Context(0, 0)),
          [], [], workers, map[], 0, {}, {}, {})
  }

  lemma InitialInv(max: nat, workers: nat)
    ensures Inv(Initial(max, workers))
  {
    var s := Initial(max, workers);
    SetUpIsValid(s.slots);
    NoneHeld(s.slots.hold);
    hide Valid, HoldCount;
  }

  lemma WorkersConserved(s: State, a: Action)
    requires Control(s, a) && Step(s, a).Some?
    ensures var t := Step(s, a).value;
            && t.workers + |t.requests| == s.workers + |s.requests|
            && |t.contexts| == |s.contexts|
  {
  }

  /**
    Any run: no assertion fails, the invariant holds at its end, and every regex worker is idle or has
    exactly one packet.
   */
  lemma {:induction false} RunSafe(s: State, run: seq<Action>)
    requires Inv(s) && Legal(s, run)
    ensures Exec(s, run).Some? && Inv(Exec(s, run).value)
    ensures Exec(s, run).value.workers + |Exec(s, run).value.requests| == s.workers + |s.requests|
    ensures |Exec(s, run).value.contexts| == |s.contexts|
    decreases |run|
  {
    hide Inv, Control, Resources, Step;
    if run != [] {
      StepSafe(s, run[0]);
      WorkersConserved(s, run[0]);
      RunSafe(Step(s, run[0]).value, run[1..]);
    }
  }

  predicate Quiescent(s: State) {
    s.frames == [] && s.requests == []
  }

  /**
    When a thread is quiescent all contexts are idle, no flow is offloaded, every context number given
    out has been released, and every inspection begun has been finished.
   */
  lemma Settled(s: State)
    requires Inv(s) && Quiescent(s)
    ensures s.slots.busy == [] && |s.slots.idle| == |s.contexts| - 1
    ensures forall flow: nat :: Pending(s.pending, flow) == 0
    ensures forall n: nat :: n in s.released <==> 1 <= n <= s.counter
    ensures s.begun == s.finished
  {
    hide FramesOk, CapacityOk;
    EnterBusy(s.frames, s.slots.busy);
    forall c: nat ensures !Live(s.slots, c) {
      assert !InFlight(s.requests, c);
    }
    hide Live, Valid, HoldCount, InFlight, Held;
    AllPlaced(s.slots);
    forall n | n in s.begun ensures n in s.finished { assert !Carried(s.slots, s.contexts, n); }
  }

  /** Nothing is released or finished twice: each such step logs a number that was not logged before. */
  lemma OncePerPacket(s: State, a: Action)
    requires Inv(s) && Control(s, a) && Resources(s, a)
    ensures Step(s, a).Some?
    ensures var t := Step(s, a).value;
            && |t.released| == |s.released| + (if a == Release && Owns(Innermost(s)) then 1 else 0)
            && |t.finished| == |s.finished| + (if a == Finish then 1 else 0)
  {
    hide Inv;
    StepSafe(s, a);
    if a == Release {
      ReleasesAndFinishes(s);
      ReleaseLogs(s);
    } else if a == Finish {
      ReleasesAndFinishes(s);
      FinishLogs(s);
    } else {
      OthersLogNothing(s, a);
    }
    hide Step, Control, Resources;
  }

  lemma OthersLogNothing(s: State, a: Action)
    requires Control(s, a) && Step(s, a).Some? && a != Release && a != Finish
    ensures Step(s, a).value.released == s.released && Step(s, a).value.finished == s.finished
  {
  }

  lemma FinishLogs(s: State)
    requires Control(s, Finish) && Innermost(s).ctx < |s.contexts|
    requires s.contexts[Innermost(s).ctx].num !in s.finished
    ensures Step(s, Finish).Some?
    ensures Step(s, Finish).value.released == s.released && |Step(s, Finish).value.finished| == |s.finished| + 1
  {
  }

  lemma ReleaseLogs(s: State)
    requires Control(s, Release) && s.slots.busy != [] && Step(s, Release).Some?
    requires Top(s.slots.busy) == Innermost(s).ctx <==> Owns(Innermost(s))
    requires !Owns(Innermost(s)) ==> Innermost(s).kind == Rebuilt
    requires Owns(Innermost(s)) ==>
               Innermost(s).ctx < |s.contexts| && s.contexts[Innermost(s).ctx].num !in s.released
    ensures Step(s, Release).value.finished == s.finished
    ensures |Step(s, Release).value.released| == |s.released| + if Owns(Innermost(s)) then 1 else 0
  {
  }

  lemma ReleasesAndFinishes(s: State)
    requires Inv(s) && s.frames != []
    ensures s.slots.busy != []
    ensures Top(s.slots.busy) == Innermost(s).ctx <==> Owns(Innermost(s))
    ensures !Owns(Innermost(s)) ==> Innermost(s).kind == Rebuilt
    ensures Owns(Innermost(s)) ==>
              var c := Innermost(s).ctx;
              && c < |s.contexts| && s.contexts[c].num !in s.released
              && (Innermost(s).phase == Executing ==> s.contexts[c].num !in s.finished)
  {
    hide Valid, InFlightOk, PendingOk, CapacityOk, FramesOk;
    InnermostIsCurrent(s);
    if Owns(Innermost(s)) {
      var k := |s.frames| - 1;
      assert Logged(s.frames[k].phase, s.contexts[s.frames[k].ctx].num, s.begun, s.finished);
      assert Live(s.slots, Top(s.slots.busy));
    } else {
      OnlyRebuiltLeaves(s);
    }
  }

  /**
    A packet thread from start-up to quiescence: every context number ever given out was released, every
    inspection begun was finished, and contexts, flows and workers are as at the start.
   */
  lemma ThreadEndsClean(max: nat, workers: nat, run: seq<Action>)
    requires Legal(Initial(max, workers), run)
    ensures Exec(Initial(max, workers), run).Some?
    ensures var t := Exec(Initial(max, workers), run).value;
            Quiescent(t) ==>
              && t.slots.busy == [] && |t.slots.idle| == max && t.workers == workers
              && (forall flow: nat :: Pending(t.pending, flow) == 0)
              && (forall n: nat :: n in t.released <==> 1 <= n <= t.counter)
              && t.begun == t.finished
  {
    InitialInv(max, workers);
    RunSafe(Initial(max, workers), run);
    var t := Exec(Initial(max, workers), run).value;
    hide Inv, Exec, Legal;
    if Quiescent(t) {
      Settled(t);
    }
  }

  predicate FlowHeld(s: State, flow: nat) {
    exists c: nat | c < |s.contexts| :: Held(s.slots, c) && s.contexts[c].flow == flow
  }

  /**
    A context is on hold exactly while its request is in flight; a flow is marked, once, exactly while a packet
    of it is on hold; and no two contexts on hold have packets of the same flow.
   */
  lemma OnHoldMeansInFlight(s: State, c: nat, c': nat, flow: nat)
    requires Inv(s)
    ensures Held(s.slots, c) <==> InFlight(s.requests, c)
    ensures Held(s.slots, c) ==> c < |s.contexts| && Pending(s.pending, s.contexts[c].flow) == 1
    ensures Pending(s.pending, flow) == if FlowHeld(s, flow) then 1 else 0
    ensures Held(s.slots, c) && Held(s.slots, c') && c != c' ==> s.contexts[c].flow != s.contexts[c'].flow
  {
    hide Valid, FramesOk, NumbersOk, ProgressOk, CapacityOk, HoldCount, Pending;
    forall x: nat | Held(s.slots, x)
      ensures x < |s.contexts| && FlowInFlight(s.requests, s.contexts, s.contexts[x].flow)
    {
      var i :| 0 <= i < |s.requests| && s.requests[i].id == x;
    }
    if FlowInFlight(s.requests, s.contexts, flow) {
      var i :| 0 <= i < |s.requests| && s.requests[i].id < |s.contexts| && s.contexts[s.requests[i].id].flow == flow;
      assert Held(s.slots, s.requests[i].id);
    }
    if Held(s.slots, c) && Held(s.slots, c') {
      var i :| 0 <= i < |s.requests| && s.requests[i].id == c;
      var j :| 0 <= j < |s.requests| && s.requests[j].id == c';
    }
  }

  /** After `onload(flow)` has waited, no packet of the flow is on hold or at a worker. */
  lemma OnloadedFlowIsFree(s: State, flow: nat)
    requires Inv(s) && Pending(s.pending, flow) == 0
    ensures forall c: nat | Held(s.slots, c) :: c < |s.contexts| && s.contexts[c].flow != flow
    ensures forall i | 0 <= i < |s.requests| ::
              s.requests[i].id < |s.contexts| && s.contexts[s.requests[i].id].flow != flow
  {
    hide Inv, Pending;
    forall c: nat | Held(s.slots, c) ensures c < |s.contexts| && s.contexts[c].flow != flow {
      OnHoldMeansInFlight(s, c, c, flow);
    }
    forall i | 0 <= i < |s.requests|
      ensures s.requests[i].id < |s.contexts| && s.contexts[s.requests[i].id].flow != flow
    {
      assert InFlight(s.requests, s.requests[i].id);
      OnHoldMeansInFlight(s, s.requests[i].id, 0, flow);
    }
  }

  /** With at least six contexts, six of them are never on hold. */
  lemma SixOffHold(s: State)
    requires Inv(s) && |s.contexts| > 6
    ensures |s.slots.idle| + |s.slots.busy| >= 6
    ensures |s.requests| <= |s.contexts| - 1 - 6
  {
    hide FramesOk, PendingOk, ProgressOk, HoldCount;
    AllPlaced(s.slots);
  }

  /** So nesting up to five deep never runs out of contexts; only `put` after a wait can lack a worker. */
  lemma FiveDeepHasContexts(s: State, a: Action)
    requires Inv(s) && |s.contexts| > 6 && |s.slots.busy| <= 5 && Control(s, a) && a != Suspend
    ensures Resources(s, a)
  {
    hide Inv, Control;
    SixOffHold(s);
  }

  /** A run in which at most five contexts are busy and a wait for a flow ends with a worker idle. */
  ghost predicate FiveDeep(s: State, run: seq<Action>)
    decreases |run|
  {
    |s.slots.busy| <= 5 &&
    (run == [] ||
     (Control(s, run[0]) && (run[0] == Suspend ==> s.workers > 0) &&
      (Step(s, run[0]).Some? ==> FiveDeep(Step(s, run[0]).value, run[1..]))))
  }

  /**
    With more than six contexts, twenty in the program, contexts never run out in any such run: every
    assertion holds, also those of `interrupt` and `get_next`, and the invariant is kept.
   */
  lemma {:induction false} FiveDeepSafe(s: State, run: seq<Action>)
    requires Inv(s) && |s.contexts| > 6 && FiveDeep(s, run)
    ensures Legal(s, run) && Exec(s, run).Some? && Inv(Exec(s, run).value)
    decreases |run|
  {
    hide Inv, Control, Resources, Step;
    if run != [] {
      if run[0] == Suspend {
        WorkerIsResource(s);
      } else {
        FiveDeepHasContexts(s, run[0]);
      }
      StepSafe(s, run[0]);
      WorkersConserved(s, run[0]);
      FiveDeepSafe(Step(s, run[0]).value, run[1..]);
    }
  }

  lemma WorkerIsResource(s: State)
    requires s.workers > 0
    ensures Resources(s, Suspend)
  {
  }

  // ---- the thread is never stuck ----

  /** Something that the thread can do where it is; it never has to wait but for workers. */
  function ThreadNext(s: State): Action {
    if s.frames == [] then StartWire
    else
      match Innermost(s).phase
      case Open => if Innermost(s).kind == Onloaded then Finish else Inspect
      case Executing => Finish
      case Waiting =>
        if Innermost(s).ctx < |s.contexts| && Pending(s.pending, s.contexts[Innermost(s).ctx].flow) > 0
        then Action.Onload(Some(s.contexts[Innermost(s).ctx].flow)) else Suspend
      case Offloaded => Release
      case Finished => Release
  }

  lemma ThreadGoesOn(s: State)
    requires Inv(s)
    ensures !ThreadNext(s).WorkerDone? && Control(s, ThreadNext(s))
    ensures s.frames != [] && Innermost(s).phase == Executing && Innermost(s).pdu && |s.slots.idle| > 5 && s.workers > 0
            ==> Control(s, Offload)
    ensures s.requests != [] && s.frames == [] ==> Control(s, Action.Onload(None))
    ensures forall i | 0 <= i < |s.requests| && !s.requests[i].done :: Control(s, WorkerDone(i))
  {
    hide PendingOk, InFlightOk, NumbersOk, ProgressOk, CapacityOk, HoldCount;
    if s.frames != [] {
      assert FrameOk(Innermost(s), |s.frames| - 1);
    }
  }

  // ---- scopes nest ----

  /** Steps taken inside a scope leave the frames outside it alone. */
  lemma OuterFramesStay(s: State, a: Action, n: nat)
    requires Control(s, a) && Step(s, a).Some? && n < |s.frames|
    ensures n <= |Step(s, a).value.frames| && Step(s, a).value.frames[..n] == s.frames[..n]
  {
  }

  /** Whether the thread stays inside the scope above depth `n` until the last action of the run. */
  ghost predicate Within(s: State, run: seq<Action>, n: nat)
    requires Legal(s, run)
    decreases |run|
  {
    run == [] || (|s.frames| > n && (Step(s, run[0]).Some? ==> Within(Step(s, run[0]).value, run[1..], n)))
  }

  lemma {:induction false} ScopeKeepsOuter(s: State, run: seq<Action>, n: nat)
    requires Inv(s) && Legal(s, run) && n <= |s.frames| && Within(s, run, n)
    ensures Exec(s, run).Some? && n <= |Exec(s, run).value.frames| && Exec(s, run).value.frames[..n] == s.frames[..n]
    decreases |run|
  {
    hide Inv, Control, Resources, Step;
    if run != [] {
      StepSafe(s, run[0]);
      OuterFramesStay(s, run[0], n);
      ScopeKeepsOuter(Step(s, run[0]).value, run[1..], n);
    }
  }

  /** The actions that open a scope: a wire packet, a detection engine, and an onload that takes a packet back. */
  predicate Opens(s: State, a: Action) {
    a.StartWire? || a.Interrupt? || (a.Onload? && s.requests != [] && s.requests[0].done)
  }

  lemma OpensOne(s: State, a: Action)
    requires Inv(s) && Control(s, a) && Resources(s, a) && Opens(s, a) && Step(s, a).Some?
    ensures var t := Step(s, a).value; |t.frames| == |s.frames| + 1 && t.frames[..|s.frames|] == s.frames
  {
    hide Inv;
    if a.Onload? {
      TakeBackSucceeds(s);
    }
  }

  /**
    From the constructor of a detection engine to its destructor, from the start of an onload to its end, and
    from the start of a wire packet to its stop, whatever is opened, offloaded or onloaded meanwhile, however
    deeply nested: the outer frames and the stack of busy contexts are left as they were.
   */
  lemma ScopeRestores(s: State, a: Action, run: seq<Action>)
    requires Inv(s) && Opens(s, a) && Legal(s, [a] + run)
    requires Step(s, a).Some? ==> Legal(Step(s, a).value, run) && Within(Step(s, a).value, run, |s.frames|)
    requires Exec(s, [a] + run).Some? ==> |Exec(s, [a] + run).value.frames| == |s.frames|
    ensures Exec(s, [a] + run).Some?
    ensures Exec(s, [a] + run).value.frames == s.frames && Exec(s, [a] + run).value.slots.busy == s.slots.busy
  {
    hide Inv, Opens;
    RunSafe(s, [a] + run);
    LegalTurn(s, [a] + run);
    assert ([a] + run)[1..] == run;
    StepSafe(s, a);
    OpensOne(s, a);
    var t := Step(s, a).value;
    hide Legal, Within, Step, Control, Resources;
    ScopeKeepsOuter(t, run, |s.frames|);
    var u := Exec(s, [a] + run).value;
    hide Exec;
    assert u.frames[..|s.frames|] == u.frames;
    InvBusy(s);
    InvBusy(u);
  }

  lemma InvBusy(s: State)
    requires Inv(s)
    ensures s.slots.busy == Owners(s.frames)
  {
  }

  /** A loop at depth `n` that does nothing itself but take packets back; inside these anything may happen. */
  ghost predicate Waits(s: State, run: seq<Action>, n: nat)
    requires Legal(s, run)
    decreases |run|
  {
    run == [] ||
    (|s.frames| >= n && (|s.frames| == n ==> run[0].Onload? || run[0].WorkerDone?) &&
     (Step(s, run[0]).Some? ==> Waits(Step(s, run[0]).value, run[1..], n)))
  }

  lemma WaitStep(s: State, a: Action, n: nat)
    requires Control(s, a) && Step(s, a).Some? && n <= |s.frames| && (|s.frames| == n ==> a.Onload? || a.WorkerDone?)
    ensures n <= |Step(s, a).value.frames| && Step(s, a).value.frames[..n] == s.frames[..n]
  {
  }

  lemma {:induction false} WaitKeepsOuter(s: State, run: seq<Action>, n: nat)
    requires Inv(s) && Legal(s, run) && n <= |s.frames| && Waits(s, run, n)
    ensures Exec(s, run).Some? && n <= |Exec(s, run).value.frames| && Exec(s, run).value.frames[..n] == s.frames[..n]
    decreases |run|
  {
    hide Inv, Control, Resources, Step;
    if run != [] {
      StepSafe(s, run[0]);
      WaitStep(s, run[0], n);
      WaitKeepsOuter(Step(s, run[0]).value, run[1..], n);
    }
  }

  /**
    `onload(flow)` and `idle`, whatever opens inside the packets that they take back, however deeply nested: the
    frames and the stack of busy contexts are left as they were.
   */
  lemma WaitRestores(s: State, run: seq<Action>)
    requires Inv(s) && Legal(s, run) && Waits(s, run, |s.frames|)
    requires Exec(s, run).Some? ==> |Exec(s, run).value.frames| == |s.frames|
    ensures Exec(s, run).Some?
    ensures Exec(s, run).value.frames == s.frames && Exec(s, run).value.slots.busy == s.slots.busy
  {
    hide Inv, Waits, Legal;
    RunSafe(s, run);
    WaitKeepsOuter(s, run, |s.frames|);
    var u := Exec(s, run).value;
    hide Exec;
    assert u.frames[..|s.frames|] == u.frames;
    InvBusy(s);
    InvBusy(u);
  }

  // ---- reachability ----

  ghost predicate Reaches(s: State, t: State) {
    exists run :: Legal(s, run) && Exec(s, run) == Some(t)
  }

  lemma ReachesSelf(s: State)
    ensures Reaches(s, s)
  {
    assert Legal(s, []) && Exec(s, []) == Some(s);
  }

  lemma {:induction false} OneMore(s: State, run: seq<Action>, a: Action)
    requires Legal(s, run) && Exec(s, run).Some?
    requires Control(Exec(s, run).value, a) && Resources(Exec(s, run).value, a) && Step(Exec(s, run).value, a).Some?
    ensures Legal(s, run + [a]) && Exec(s, run + [a]) == Step(Exec(s, run).value, a)
    decreases |run|
  {
    hide Control, Resources, Step;
    if run == [] {
      assert run + [a] == [a];
      LegalTurn(s, [a]);
      assert [a][1..] == [];
    } else {
      OneMore(Step(s, run[0]).value, run[1..], a);
      assert (run + [a])[1..] == run[1..] + [a];
    }
  }

  lemma ReachesNext(s: State, t: State, a: Action)
    requires Inv(t) && Reaches(s, t) && Control(t, a) && Resources(t, a)
    ensures Step(t, a).Some? && Inv(Step(t, a).value) && Reaches(s, Step(t, a).value)
  {
    hide Control, Resources, Step, Inv;
    StepSafe(t, a);
    var run :| Legal(s, run) && Exec(s, run) == Some(t);
    OneMore(s, run, a);
  }

  // ---- the loops that wait ----

  lemma FinishShape(s: State)
    requires Control(s, Finish) && Step(s, Finish).Some?
    ensures var t := Step(s, Finish).value;
            t == s.(finished := t.finished, frames := s.frames[|s.frames| - 1 := Innermost(s).(phase := Finished)])
  {
  }

  lemma ReleaseShape(s: State)
    requires Control(s, Release) && Step(s, Release).Some?
    ensures var t := Step(s, Release).value;
            && t.frames == s.frames[..|s.frames| - 1] && t.requests == s.requests && t.pending == s.pending
            && t.contexts == s.contexts
            && (Owns(Innermost(s)) && s.slots.busy != [] && Top(s.slots.busy) == Innermost(s).ctx ==>
                  t.slots == Completed(s.slots))
  {
  }

  lemma WorkerDoneShape(s: State)
    requires s.requests != [] && !s.requests[0].done
    ensures Control(s, WorkerDone(0)) && Resources(s, WorkerDone(0))
    ensures Step(s, WorkerDone(0)) == Some(s.(requests := s.requests[0 := s.requests[0].(done := true)]))
  {
  }

  /**
    `onload` in which nothing else opens, once the worker of the oldest request is done: its packet is finished
    and its context freed.
   */
  method Onload(ghost s0: State, s: State, awaited: Option<nat>) returns (t: State)
    requires Inv(s) && Reaches(s0, s) && Control(s, Action.Onload(awaited))
    requires s.requests != [] && s.requests[0].done && s.slots.idle != []
    ensures Inv(t) && Reaches(s0, t)
    ensures t.frames == s.frames && t.slots.busy == s.slots.busy && |t.slots.idle| == |s.slots.idle| + 1
    ensures t.requests == s.requests[1..]
  {
    hide Inv, Reaches;
    ReachesNext(s0, s, Action.Onload(awaited));
    var a := Step(s, Action.Onload(awaited)).value;
    TakeBackSucceeds(s);
    ReachesNext(s0, a, Finish);
    var b := Step(a, Finish).value;
    FinishShape(a);
    hide Step, TakeBack;
    assert a.frames == s.frames + [Innermost(a)] && Innermost(a).phase == Executing;
    assert Innermost(b) == Innermost(a).(phase := Finished);
    ReachesNext(s0, b, Release);
    t := Step(b, Release).value;
    ReleaseShape(b);
    InvFrames(b);
    InnermostIsCurrent(b);
    assert t.frames == s.frames;
    hide Control;
    InvBusy(s);
    InvBusy(t);
  }

  lemma InvFrames(s: State)
    requires Inv(s)
    ensures FramesOk(s.frames, s.slots.busy)
  {
  }

  /**
    `onload(flow)`: taking packets back one after the other as their workers finish, and if nothing opens in
    between, the loop ends; then no packet of the flow is on hold or in flight, and the stack of busy contexts
    is as it was.
   */
  method OnloadFlow(ghost s0: State, s: State, flow: nat) returns (t: State)
    requires Inv(s) && Reaches(s0, s) && s.slots.idle != []
    ensures Inv(t) && Reaches(s0, t) && t.frames == s.frames && t.slots.busy == s.slots.busy
    ensures Pending(t.pending, flow) == 0
    ensures forall c: nat | Held(t.slots, c) :: c < |t.contexts| && t.contexts[c].flow != flow
  {
    hide Inv, Reaches, Pending;
    t := s;
    while Pending(t.pending, flow) > 0
      invariant Inv(t) && Reaches(s0, t) && t.slots.idle != []
      invariant t.frames == s.frames && t.slots.busy == s.slots.busy
      decreases |t.requests|
    {
      AwaitedIsInFlight(t, flow);
      if !t.requests[0].done {
        WorkerDoneShape(t);
        ReachesNext(s0, t, WorkerDone(0));
        t := Step(t, WorkerDone(0)).value;
      }
      t := Onload(s0, t, Some(flow));
    }
    OnloadedFlowIsFree(t, flow);
  }

  /** `idle`: if nothing opens in between, the loop empties the offloader and leaves the thread quiescent. */
  method Idle(ghost s0: State, s: State) returns (t: State)
    requires Inv(s) && Reaches(s0, s) && s.frames == []
    ensures Inv(t) && Reaches(s0, t) && Quiescent(t)
  {
    hide Inv, Reaches;
    t := s;
    while t.requests != []
      invariant Inv(t) && Reaches(s0, t) && t.frames == []
      decreases |t.requests|
    {
      if !t.requests[0].done {
        WorkerDoneShape(t);
        ReachesNext(s0, t, WorkerDone(0));
        t := Step(t, WorkerDone(0)).value;
      }
      NothingOpenHasIdle(t);
      t := Onload(s0, t, None);
    }
  }

  lemma NothingOpenHasIdle(s: State)
    requires Inv(s) && s.frames == [] && s.requests != []
    ensures s.slots.idle != []
  {
    hide Valid, PendingOk, NumbersOk, ProgressOk, HoldCount;
  }
}
