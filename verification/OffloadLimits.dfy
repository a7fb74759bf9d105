/**
  The one assertion that nesting alone does not establish.  `offload` checks for an idle worker first and
  may then wait for earlier packets of the flow; engines that open and offload while it waits can take the
  last worker, so that `put` finds none.
 */
module OffloadLimits {
  import opened Basics
  import opened ContextSwitcher
  import opened OffloadProtocol
  import opened OffloadSafety
  import opened OffloadRuns

  /** The live contexts of `s` are the same in `t`. */
  ghost predicate KeepsLive(s: State, t: State) {
    |s.contexts| == |t.contexts| &&
    forall c: nat | c < |s.contexts| && Live(s.slots, c) :: t.contexts[c] == s.contexts[c]
  }

  lemma OpenPdu(s0: State, s: State, flow: nat) returns (t: State, c: nat)
    requires Inv(s) && Reaches(s0, s) && s.frames != [] && Innermost(s).phase != Waiting && s.slots.idle != []
    ensures Inv(t) && Reaches(s0, t) && KeepsLive(s, t)
    ensures t.frames == s.frames + [Frame(c, Rebuilt, true, Executing)]
    ensures c < |t.contexts| && t.contexts[c].flow == flow
    ensures t.workers == s.workers && t.requests == s.requests && t.pending == s.pending
    ensures |t.slots.idle| == |s.slots.idle| - 1
  {
    hide Inv, Reaches;
    EnterReady(s);
    hide Live;
    var a := Interrupt(true, flow);
    ReachesNext(s0, s, a);
    var u := Step(s, a).value;
    c := Top(s.slots.idle);
    ReachesNext(s0, u, Inspect);
    t := Step(u, Inspect).value;
    assert t.frames[..|s.frames|] == s.frames;
    assert t.frames == s.frames + [Frame(c, Rebuilt, true, Executing)];
  }

  /** A rebuilt packet opened, inspected and offloaded: the stack is as before and a worker is taken. */
  lemma SendOne(s0: State, s: State, flow: nat) returns (t: State)
    requires Inv(s) && Reaches(s0, s) && s.frames != [] && Innermost(s).phase != Waiting
    requires |s.slots.idle| > 6 && s.workers > 0 && Pending(s.pending, flow) == 0
    ensures Inv(t) && Reaches(s0, t) && KeepsLive(s, t)
    ensures t.frames == s.frames && t.workers == s.workers - 1 && t.pending == s.pending[flow := 1]
    ensures |t.slots.idle| == |s.slots.idle| - 1 && |t.requests| == |s.requests| + 1
    ensures t.requests[..|s.requests|] == s.requests && !t.requests[|s.requests|].done
    ensures t.requests[|s.requests|].id < |t.contexts| && t.contexts[t.requests[|s.requests|].id].flow == flow
  {
    hide Inv, Reaches, KeepsLive;
    var u, c := OpenPdu(s0, s, flow);
    ReachesNext(s0, u, Offload);
    var v := Step(u, Offload).value;
    HandOverSucceeds(u);
    assert v == HandOver(u).value;
    assert v.frames[..|s.frames|] == s.frames && Innermost(v).phase == Offloaded;
    ReachesNext(s0, v, Release);
    t := Step(v, Release).value;
    InvFrames(v);
    InnermostIsCurrent(v);
    assert t == v.(frames := s.frames);
    SameContexts(s, u, t);
  }

  lemma SameContexts(s: State, u: State, t: State)
    requires KeepsLive(s, u) && t.contexts == u.contexts
    ensures KeepsLive(s, t)
  {
  }

  // ---- workers over a run ----

  predicate HandsOver(s: State, a: Action) {
    || a == Suspend
    || (a == Offload && s.frames != [] && Innermost(s).ctx < |s.contexts| &&
        Pending(s.pending, s.contexts[Innermost(s).ctx].flow) == 0)
  }

  predicate TakesBack(s: State, a: Action) {
    a.Onload? && s.requests != [] && s.requests[0].done
  }

  lemma WorkersMove(s: State, a: Action)
    requires Control(s, a) && Step(s, a).Some?
    ensures Step(s, a).value.workers + (if HandsOver(s, a) then 1 else 0) ==
            s.workers + (if TakesBack(s, a) then 1 else 0)
  {
  }

  /** How many packets a run gives to workers. */
  ghost function HandOvers(s: State, run: seq<Action>): nat
    requires Legal(s, run)
    decreases |run|
  {
    if run == [] || Step(s, run[0]).None? then 0
    else (if HandsOver(s, run[0]) then 1 else 0) + HandOvers(Step(s, run[0]).value, run[1..])
  }

  /** How many packets a run takes back from workers. */
  ghost function TakeBacks(s: State, run: seq<Action>): nat
    requires Legal(s, run)
    decreases |run|
  {
    if run == [] || Step(s, run[0]).None? then 0
    else (if TakesBack(s, run[0]) then 1 else 0) + TakeBacks(Step(s, run[0]).value, run[1..])
  }

  lemma {:induction false} WorkersOverRun(s: State, run: seq<Action>)
    requires Inv(s) && Legal(s, run)
    ensures Exec(s, run).Some? && Inv(Exec(s, run).value)
    ensures Exec(s, run).value.workers + HandOvers(s, run) == s.workers + TakeBacks(s, run)
    decreases |run|
  {
    hide Inv, Control, Resources, Step, HandsOver, TakesBack;
    if run != [] {
      StepSafe(s, run[0]);
      WorkersMove(s, run[0]);
      WorkersOverRun(Step(s, run[0]).value, run[1..]);
    }
  }

  // ---- the order of packets ----

  function Ids(requests: seq<Request>): (ids: seq<nat>)
    ensures |ids| == |requests| && forall i | 0 <= i < |ids| :: ids[i] == requests[i].id
  {
    seq(|requests|, i requires 0 <= i < |requests| => requests[i].id)
  }

  /** The context given to a worker by a step, if one is. */
  function Given(s: State, a: Action): seq<nat> {
    if HandsOver(s, a) && s.frames != [] then [Innermost(s).ctx] else []
  }

  /** The context taken back by a step, if one is. */
  function Taken(s: State, a: Action): seq<nat> {
    if TakesBack(s, a) then [s.requests[0].id] else []
  }

  lemma RequestsAfter(s: State, a: Action)
    requires Control(s, a) && Step(s, a).Some?
    ensures HandsOver(s, a) ==> s.frames != []
    ensures Step(s, a).value.requests ==
            if HandsOver(s, a) then s.requests + [Request(Innermost(s).ctx, false)]
            else if TakesBack(s, a) then s.requests[1..]
            else if a.WorkerDone? then s.requests[a.i := s.requests[a.i].(done := true)]
            else s.requests
  {
  }

  /** A step gives a packet to the workers last, or takes the first back, or does neither. */
  lemma RequestsQueue(s: State, a: Action)
    requires Control(s, a) && Step(s, a).Some?
    ensures Ids(s.requests) + Given(s, a) == Taken(s, a) + Ids(Step(s, a).value.requests)
  {
    RequestsAfter(s, a);
    hide Step, HandsOver, TakesBack, Ids;
    var rs := s.requests;
    if HandsOver(s, a) {
      IdsLast(rs, Request(Innermost(s).ctx, false));
      NotBoth(s, a);
    } else if TakesBack(s, a) {
      BackIsThere(s, a);
      IdsFirst(rs);
    } else if a.WorkerDone? {
      IdsDone(rs, a.i);
    }
    assert Ids(rs) + [] == Ids(rs) == [] + Ids(rs);
  }

  lemma NotBoth(s: State, a: Action)
    requires HandsOver(s, a)
    ensures !TakesBack(s, a)
  {
  }

  lemma BackIsThere(s: State, a: Action)
    requires TakesBack(s, a)
    ensures s.requests != []
  {
  }

  lemma IdsLast(rs: seq<Request>, r: Request)
    ensures Ids(rs + [r]) == [] + Ids(rs + [r]) == Ids(rs) + [r.id]
  {
  }

  lemma IdsFirst(rs: seq<Request>)
    requires rs != []
    ensures Ids(rs) == Ids(rs) + [] == [rs[0].id] + Ids(rs[1..])
  {
  }

  lemma IdsDone(rs: seq<Request>, i: nat)
    requires i < |rs|
    ensures Ids(rs[i := rs[i].(done := true)]) == Ids(rs)
  {
  }

  /** A request is done if and only if its own worker has finished with it. */
  lemma DoneByWorker(s: State, a: Action, i: nat)
    requires Control(s, a) && Step(s, a).Some? && i < |s.requests| && !TakesBack(s, a)
    ensures var t := Step(s, a).value;
            i < |t.requests| && t.requests[i] == s.requests[i].(done := s.requests[i].done || a == WorkerDone(i))
  {
  }

  ghost function AllGiven(s: State, run: seq<Action>): seq<nat>
    requires Legal(s, run)
    decreases |run|
  {
    if run == [] || Step(s, run[0]).None? then []
    else Given(s, run[0]) + AllGiven(Step(s, run[0]).value, run[1..])
  }

  ghost function AllTaken(s: State, run: seq<Action>): seq<nat>
    requires Legal(s, run)
    decreases |run|
  {
    if run == [] || Step(s, run[0]).None? then []
    else Taken(s, run[0]) + AllTaken(Step(s, run[0]).value, run[1..])
  }

  lemma Requeue(a: seq<nat>, g: seq<nat>, gs: seq<nat>, k: seq<nat>, b: seq<nat>, ks: seq<nat>, c: seq<nat>)
    requires a + g == k + b && b + gs == ks + c
    ensures a + (g + gs) == (k + ks) + c
  {
    assert a + (g + gs) == (a + g) + gs;
    assert (k + ks) + c == k + (ks + c);
    assert (k + b) + gs == k + (b + gs);
  }

  /** Over any run packets come back in the order in which they were given away, and none is lost or made up. */
  lemma {:induction false} FirstAwayFirstBack(s: State, run: seq<Action>)
    requires Inv(s) && Legal(s, run)
    ensures Exec(s, run).Some?
    ensures Ids(s.requests) + AllGiven(s, run) == AllTaken(s, run) + Ids(Exec(s, run).value.requests)
    decreases |run|
  {
    hide Inv, Control, Resources, Step, Given, Taken, Ids;
    if run != [] {
      StepSafe(s, run[0]);
      RequestsQueue(s, run[0]);
      var t := Step(s, run[0]).value;
      FirstAwayFirstBack(t, run[1..]);
      Requeue(Ids(s.requests), Given(s, run[0]), AllGiven(t, run[1..]), Taken(s, run[0]), Ids(t.requests),
              AllTaken(t, run[1..]), Ids(Exec(t, run[1..]).value.requests));
    } else {
      assert Ids(s.requests) + [] == [] + Ids(s.requests);
    }
  }

  /**
    An engine that was made to wait when it called `offload`, and any run until its flow is free: `put` then
    finds no worker if and only if the packets handed over meanwhile are as many as the workers that were idle
    at the call and the packets taken back meanwhile together.  So `put` succeeds if nothing was handed over.
   */
  lemma PutAfterWait(s: State, run: seq<Action>)
    requires Inv(s) && Control(s, Offload) && Step(s, Offload).Some? && !HandsOver(s, Offload)
    requires Legal(Step(s, Offload).value, run)
    requires Exec(Step(s, Offload).value, run).Some? ==> Control(Exec(Step(s, Offload).value, run).value, Suspend)
    ensures var w := Step(s, Offload).value;
            && Exec(w, run).Some? && Control(Exec(w, run).value, Suspend)
            && (Step(Exec(w, run).value, Suspend).None? <==> HandOvers(w, run) == s.workers + TakeBacks(w, run))
            && (HandOvers(w, run) == 0 ==> Step(Exec(w, run).value, Suspend).Some?)
  {
    hide Inv, Legal, Exec;
    StepSafe(s, Offload);
    WorkersMove(s, Offload);
    var w := Step(s, Offload).value;
    WorkersOverRun(w, run);
    var u := Exec(w, run).value;
    if u.workers > 0 {
      StepSafe(u, Suspend);
    }
    SomeWorkerAtOffload(s);
    hide Step, Control;
  }

  lemma SomeWorkerAtOffload(s: State)
    requires Control(s, Offload)
    ensures s.workers > 0
  {
  }

  lemma NoWorkerFails(s: State)
    requires Control(s, Suspend) && s.workers == 0
    ensures Step(s, Suspend).None?
  {
  }

  lemma StartThread() returns (s: State)
    ensures Inv(s) && Reaches(Initial(12, 2), s) && |s.frames| == 1 && Innermost(s).phase == Open
    ensures s.workers == 2 && s.requests == [] && s.pending == map[] && |s.slots.idle| == 11
  {
    hide Inv;
    var i := Initial(12, 2);
    InitialInv(12, 2);
    ReachesSelf(i);
    hide Reaches;
    ReachesNext(i, i, StartWire);
    s := Step(i, StartWire).value;
  }

  /** An engine for flow 7 is made to wait by an earlier packet of its flow. */
  lemma WaitForFlow(s0: State, s: State) returns (t: State, c: nat)
    requires Inv(s) && Reaches(s0, s) && |s.frames| == 1 && Innermost(s).phase == Open
    requires s.workers == 2 && s.requests == [] && s.pending == map[] && |s.slots.idle| == 11
    ensures Inv(t) && Reaches(s0, t) && |t.frames| == 2
    ensures Innermost(t) == Frame(c, Rebuilt, true, Waiting) && c < |t.contexts| && t.contexts[c].flow == 7
    ensures t.workers == 1 && t.pending == map[7 := 1] && |t.slots.idle| == 9
    ensures |t.requests| == 1 && !t.requests[0].done
    ensures t.requests[0].id < |t.contexts| && t.contexts[t.requests[0].id].flow == 7
  {
    hide Inv, Reaches, Live, KeepsLive;
    var u;
    u, c := OpenPdu(s0, s, 7);
    var v := SendOne(s0, u, 7);
    InnermostLives(u, v);
    ReachesNext(s0, v, Offload);
    t := Step(v, Offload).value;
  }

  lemma InnermostLives(s: State, t: State)
    requires Inv(s) && s.frames != [] && Owns(Innermost(s)) && KeepsLive(s, t)
    ensures Innermost(s).ctx < |s.contexts| == |t.contexts|
    ensures t.contexts[Innermost(s).ctx] == s.contexts[Innermost(s).ctx]
  {
    hide InFlightOk, PendingOk, ProgressOk, CapacityOk;
    TopDistinct(s);
  }

  /** A run of a thread with twelve contexts and two workers in which `put` fails. */
  lemma PutCanFail() returns (s: State)
    ensures Reaches(Initial(12, 2), s) && Inv(s)
    ensures Control(s, Suspend) && Step(s, Suspend).None?
  {
    hide Inv, Reaches, Live, KeepsLive;
    var s0 := Initial(12, 2);
    var a := StartThread();
    var b, c := WaitForFlow(s0, a);
    ReachesNext(s0, b, WorkerDone(0));
    var d := Step(b, WorkerDone(0)).value;
    ReachesNext(s0, d, Action.Onload(Some(7)));
    var e := Step(d, Action.Onload(Some(7))).value;
    TakeBackSucceeds(d);
    assert e.frames == b.frames + [Frame(d.requests[0].id, Onloaded, false, Executing)];
    s := LastWorkers(s0, e, c, b.frames);
    NoWorkerFails(s);
  }

  /** While the packet of flow 7 is being finished, two other packets take both workers. */
  lemma LastWorkers(s0: State, s: State, c: nat, outer: seq<Frame>) returns (t: State)
    requires Inv(s) && Reaches(s0, s) && |outer| == 2 && outer[1] == Frame(c, Rebuilt, true, Waiting)
    requires |s.frames| == 3 && s.frames[..2] == outer
    requires Innermost(s).kind == Onloaded && Innermost(s).phase == Executing
    requires c < |s.contexts| && s.contexts[c].flow == 7
    requires s.workers == 2 && s.requests == [] && s.pending == map[7 := 0] && |s.slots.idle| == 9
    ensures Inv(t) && Reaches(s0, t) && Control(t, Suspend) && t.workers == 0 && |t.requests| == 2
  {
    hide Inv, Reaches, Live, KeepsLive;
    FrameLives(s, 1);
    var u := SendOne(s0, s, 8);
    var v := SendOne(s0, u, 9);
    StillLives(s, u, 1);
    StillLives(u, v, 1);
    ReachesNext(s0, v, Finish);
    var w := Step(v, Finish).value;
    assert v.slots.idle == w.slots.idle;
    ReachesNext(s0, w, Release);
    t := Step(w, Release).value;
    assert t.frames == outer;
  }

  lemma FrameLives(s: State, i: nat)
    requires Inv(s) && i < |s.frames| && Owns(s.frames[i])
    ensures Live(s.slots, s.frames[i].ctx)
  {
    hide InFlightOk, PendingOk, ProgressOk, CapacityOk, Valid, NumbersOk;
    OwnerIsBusy(s.frames, i);
  }

  lemma StillLives(s: State, t: State, i: nat)
    requires Inv(s) && i < |s.frames| && Owns(s.frames[i]) && KeepsLive(s, t)
    ensures s.frames[i].ctx < |s.contexts| ==>
              s.frames[i].ctx < |t.contexts| && t.contexts[s.frames[i].ctx] == s.contexts[s.frames[i].ctx]
  {
    hide Inv;
    FrameLives(s, i);
  }
}
