/** What every step of the offload protocol keeps, and what follows for whole runs. */
module OffloadSafety {
  import opened Basics
  import opened ContextSwitcher
  import opened OffloadProtocol

  // ---- frames and their contexts ----

  lemma OwnersPushed(frames: seq<Frame>, f: Frame)
    ensures Owners(frames + [f]) == Owners(frames) + if Owns(f) then [f.ctx] else []
  {
    assert (frames + [f])[..|frames|] == frames;
  }

  lemma OwnersRephased(frames: seq<Frame>, f: Frame)
    requires frames != []
    ensures Owners(frames[|frames| - 1 := f]) == Owners(frames[..|frames| - 1]) + if Owns(f) then [f.ctx] else []
  {
    assert frames[|frames| - 1 := f] == frames[..|frames| - 1] + [f];
    OwnersPushed(frames[..|frames| - 1], f);
  }

  lemma {:induction false} OwnerIsBusy(frames: seq<Frame>, i: nat)
    requires i < |frames| && Owns(frames[i])
    ensures frames[i].ctx in Owners(frames)
  {
    if i < |frames| - 1 {
      OwnerIsBusy(frames[..|frames| - 1], i);
    }
  }

  lemma {:induction false} BusyHasOwner(frames: seq<Frame>, c: nat) returns (i: nat)
    requires c in Owners(frames)
    ensures i < |frames| && Owns(frames[i]) && frames[i].ctx == c
  {
    if c in Owners(frames[..|frames| - 1]) {
      i := BusyHasOwner(frames[..|frames| - 1], c);
    } else {
      i := |frames| - 1;
    }
  }

  lemma {:induction false} OwnersOfPrefix(frames: seq<Frame>, k: nat)
    requires k <= |frames|
    ensures |Owners(frames[..k])| <= |Owners(frames)|
  {
    if k < |frames| {
      OwnersOfPrefix(frames[..|frames| - 1], k);
      assert frames[..|frames| - 1][..k] == frames[..k];
    } else {
      assert frames[..k] == frames;
    }
  }

  /** A frame that has its context is current exactly when it is innermost. */
  lemma InnermostIsCurrent(s: State)
    requires FramesOk(s.frames, s.slots.busy) && s.frames != []
    ensures s.slots.busy != []
    ensures Top(s.slots.busy) == Innermost(s).ctx <==> Owns(Innermost(s))
  {
    if !Owns(Innermost(s)) {
      var n := |s.frames| - 1;
      assert FrameOk(s.frames[n], n) && FrameOk(s.frames[0], 0);
      OwnerIsBusy(s.frames, 0);
      assert Owners(s.frames) == Owners(s.frames[..n]);
      var i := BusyHasOwner(s.frames[..n], Top(s.slots.busy));
      assert s.frames[i].ctx != s.frames[n].ctx;
    }
  }

  // ---- opening an engine ----

  lemma EnterFrames(s: State, kind: Kind, pdu: bool, flow: nat)
    requires Valid(s.slots) && FramesOk(s.frames, s.slots.busy) && CapacityOk(s.slots, s.frames)
    requires Enter(s, kind, pdu, flow).Some? && kind != Onloaded
    requires kind == Wire ==> s.frames == []
    requires pdu ==> s.frames != [] && kind == Rebuilt
    ensures var t := Enter(s, kind, pdu, flow).value;
            FramesOk(t.frames, t.slots.busy) && CapacityOk(t.slots, t.frames)
  {
    hide Valid, HoldCount;
    var t := Enter(s, kind, pdu, flow).value;
    OwnersPushed(s.frames, t.frames[|s.frames|]);
    forall k | 0 <= k < |t.frames| && t.frames[k].phase == Waiting
      ensures |t.slots.idle| + |t.slots.busy| - |Owners(t.frames[..k + 1])| >= 6
    {
      assert t.frames[..k + 1] == s.frames[..k + 1];
    }
  }

  lemma IdleIsNotLive(s: Slots, c: nat)
    requires Valid(s) && c in s.idle
    ensures 0 < c < |s.hold| && !Live(s, c)
  {
  }

  lemma LiveAfterInterrupt(s: Slots, c: nat)
    requires s.idle != []
    ensures Live(Interrupted(s), c) <==> Live(s, c) || c == Top(s.idle)
  {
  }

  lemma EnterPending(requests: seq<Request>, contexts: seq<Context>, pending: map<nat, nat>, c: nat, x: Context)
    requires PendingOk(requests, contexts, pending) && c < |contexts| && !InFlight(requests, c)
    ensures PendingOk(requests, contexts[c := x], pending)
  {
    hide Pending;
    forall flow: nat
      ensures FlowInFlight(requests, contexts[c := x], flow) == FlowInFlight(requests, contexts, flow)
    {
      forall i | 0 <= i < |requests| ensures contexts[c := x][requests[i].id] == contexts[requests[i].id] {
        assert requests[i].id != c;
      }
      if FlowInFlight(requests, contexts, flow) {
        var i :| 0 <= i < |requests| && requests[i].id < |contexts| && contexts[requests[i].id].flow == flow;
        assert contexts[c := x][requests[i].id].flow == flow;
      }
    }
  }

  lemma EnterCarried(s: Slots, contexts: seq<Context>, x: Context, n: nat)
    requires s.idle != [] && Top(s.idle) < |contexts| && !Live(s, Top(s.idle))
    ensures Carried(Interrupted(s), contexts[Top(s.idle) := x], n) <==> Carried(s, contexts, n) || n == x.num
  {
    hide Live, Interrupted;
    var c := Top(s.idle);
    var t, new_ := Interrupted(s), contexts[c := x];
    forall d: nat ensures Live(t, d) <==> Live(s, d) || d == c { LiveAfterInterrupt(s, d); }
    if Carried(s, contexts, n) {
      var d: nat :| d < |contexts| && Live(s, d) && contexts[d].num == n;
      assert Live(t, d) && new_[d].num == n;
    }
    if n == x.num {
      assert Live(t, c) && new_[c].num == n;
    }
  }

  lemma EnterNumbers(s: Slots, contexts: seq<Context>, counter: nat, released: set<nat>, flow: nat)
    requires NumbersOk(s, contexts, counter, released)
    requires s.idle != [] && Top(s.idle) < |contexts| && !Live(s, Top(s.idle))
    ensures NumbersOk(Interrupted(s), contexts[Top(s.idle) := Context(counter + 1, flow)], counter + 1, released)
  {
    hide Live, Carried;
    var c, x := Top(s.idle), Context(counter + 1, flow);
    forall d: nat ensures Live(Interrupted(s), d) <==> Live(s, d) || d == c { LiveAfterInterrupt(s, d); }
    forall n: nat | 1 <= n <= counter + 1 ensures n in released || Carried(Interrupted(s), contexts[c := x], n) {
      EnterCarried(s, contexts, x, n);
    }
  }

  lemma EnterProgress(s: State, kind: Kind, pdu: bool, flow: nat)
    requires s.slots.idle != [] && Top(s.slots.idle) < |s.contexts| && !Live(s.slots, Top(s.slots.idle))
    requires ProgressOk(s.frames, s.slots, s.contexts, s.counter, s.begun, s.finished)
    requires s.slots.busy == Owners(s.frames) && Enter(s, kind, pdu, flow).Some?
    ensures var t := Enter(s, kind, pdu, flow).value;
            ProgressOk(t.frames, t.slots, t.contexts, t.counter, t.begun, t.finished)
  {
    hide Carried;
    var t := Enter(s, kind, pdu, flow).value;
    forall n | n in t.begun ensures n in t.finished || Carried(t.slots, t.contexts, n) {
      EnterCarried(s.slots, s.contexts, Context(s.counter + 1, flow), n);
    }
    forall i | 0 <= i < |t.frames| && Owns(t.frames[i])
      ensures t.frames[i].ctx < |t.contexts|
      ensures Logged(t.frames[i].phase, t.contexts[t.frames[i].ctx].num, t.begun, t.finished)
    {
      if i < |s.frames| {
        OwnerIsBusy(s.frames, i);
        assert t.frames[i] == s.frames[i] && s.frames[i].ctx != Top(s.slots.idle);
      }
    }
    forall c: nat | Held(t.slots, c)
      ensures c < |t.contexts| && t.contexts[c].num in t.begun && t.contexts[c].num !in t.finished
    {
      assert Held(s.slots, c) && Live(s.slots, c);
    }
  }

  lemma EnterReady(s: State)
    requires Inv(s) && s.slots.idle != []
    ensures Top(s.slots.idle) < |s.contexts| && !Live(s.slots, Top(s.slots.idle))
    ensures !InFlight(s.requests, Top(s.slots.idle))
    ensures s.frames == [] ==> s.slots.busy == []
  {
    hide PendingOk, ProgressOk, CapacityOk, HoldCount;
    IdleIsNotLive(s.slots, Top(s.slots.idle));
  }

  lemma EnterKeeps(s: State, kind: Kind, pdu: bool, flow: nat)
    requires Inv(s) && s.slots.idle != [] && kind != Onloaded
    requires kind == Wire ==> s.frames == []
    requires pdu ==> s.frames != [] && kind == Rebuilt
    ensures Enter(s, kind, pdu, flow).Some? && Inv(Enter(s, kind, pdu, flow).value)
  {
    hide Valid, FramesOk, InFlightOk, PendingOk, NumbersOk, ProgressOk, CapacityOk, Live, InFlight;
    var c := Top(s.slots.idle);
    EnterReady(s);
    EnterFrames(s, kind, pdu, flow);
    EnterBusy(s.frames, s.slots.busy);
    EnterProgress(s, kind, pdu, flow);
    InterruptKeeps(s.slots);
    EnterNumbers(s.slots, s.contexts, s.counter, s.released, flow);
    EnterPending(s.requests, s.contexts, s.pending, c, Context(s.counter + 1, flow));
    SameHold(s.requests, s.slots, Interrupted(s.slots));
  }

  lemma EnterBusy(frames: seq<Frame>, busy: seq<nat>)
    requires FramesOk(frames, busy)
    ensures busy == Owners(frames)
  {
  }

  lemma SameHold(requests: seq<Request>, s: Slots, t: Slots)
    requires InFlightOk(requests, s) && s.hold == t.hold
    ensures InFlightOk(requests, t)
  {
    hide HoldCount, InFlight;
    forall c: nat | Held(t, c) ensures InFlight(requests, c) { assert Held(s, c); }
  }

  // ---- the innermost frame against everything else ----

  lemma TopDistinct(s: State)
    requires Valid(s.slots) && FramesOk(s.frames, s.slots.busy) && s.frames != [] && Owns(Innermost(s))
    requires NumbersOk(s.slots, s.contexts, s.counter, s.released)
    ensures var c := Innermost(s).ctx;
            && s.slots.busy != [] && Top(s.slots.busy) == c < |s.contexts| && s.slots.hold[c].None? && Live(s.slots, c)
            && 1 <= s.contexts[c].num <= s.counter
            && (forall i | 0 <= i < |s.frames| - 1 && Owns(s.frames[i]) ::
                  s.frames[i].ctx != c && s.frames[i].ctx < |s.contexts| &&
                  s.contexts[s.frames[i].ctx].num != s.contexts[c].num)
            && (forall d: nat | Held(s.slots, d) ::
                  d != c && d < |s.contexts| && s.contexts[d].num != s.contexts[c].num)
  {
    hide HoldCount, Carried;
    var c := Innermost(s).ctx;
    var rest := s.frames[..|s.frames| - 1];
    assert s.slots.busy == Owners(rest) + [c];
    assert c in s.slots.busy;
    forall i | 0 <= i < |s.frames| - 1 && Owns(s.frames[i])
      ensures s.frames[i].ctx != c && s.frames[i].ctx in s.slots.busy && Live(s.slots, s.frames[i].ctx)
    {
      OwnerIsBusy(rest, i);
      MoveLast(s.slots.busy, s.slots.idle);
      assert s.slots.busy[..|s.slots.busy| - 1] == Owners(rest);
    }
    forall d: nat | Held(s.slots, d) ensures d != c && Live(s.slots, d) {}
  }

  // ---- changing the phase of the innermost frame ----

  lemma RephaseFrames(s: State, phase: Phase)
    requires FramesOk(s.frames, s.slots.busy) && CapacityOk(s.slots, s.frames)
    requires s.frames != [] && Owns(Innermost(s)) && phase != Offloaded
    requires phase == Waiting ==> Innermost(s).pdu && |s.slots.idle| >= 6
    requires phase == Open ==> Innermost(s).kind != Onloaded
    ensures var t := Rephased(s, phase); FramesOk(t.frames, t.slots.busy) && CapacityOk(t.slots, t.frames)
  {
    hide HoldCount;
    var t, n := Rephased(s, phase), |s.frames| - 1;
    OwnersRephased(s.frames, t.frames[n]);
    assert FrameOk(s.frames[n], n);
    forall k | 0 <= k < |t.frames| && t.frames[k].phase == Waiting
      ensures |t.slots.idle| + |t.slots.busy| - |Owners(t.frames[..k + 1])| >= 6
    {
      if k < n {
        assert t.frames[..k + 1] == s.frames[..k + 1] && t.frames[k] == s.frames[k];
      } else {
        assert t.frames[..k + 1] == t.frames;
      }
    }
  }

  predicate Begins(from: Phase, to: Phase) { from == Open && to == Executing }
  predicate Ends(from: Phase, to: Phase) { from == Executing && to == Finished }

  lemma RephaseProgress(s: State, phase: Phase, begun: set<nat>, finished: set<nat>)
    requires Valid(s.slots) && FramesOk(s.frames, s.slots.busy)
    requires NumbersOk(s.slots, s.contexts, s.counter, s.released)
    requires ProgressOk(s.frames, s.slots, s.contexts, s.counter, s.begun, s.finished)
    requires s.frames != [] && Owns(Innermost(s)) && Innermost(s).ctx < |s.contexts| && phase != Offloaded
    requires var n := s.contexts[Innermost(s).ctx].num;
             || (Begins(Innermost(s).phase, phase) && begun == s.begun + {n} && finished == s.finished)
             || (Ends(Innermost(s).phase, phase) && begun == s.begun && finished == s.finished + {n})
             || (Innermost(s).phase == Executing && phase == Waiting && begun == s.begun && finished == s.finished)
    ensures ProgressOk(Rephased(s, phase).frames, s.slots, s.contexts, s.counter, begun, finished)
  {
    TopDistinct(s);
    hide Valid, FramesOk, NumbersOk;
    var n, c := |s.frames| - 1, Innermost(s).ctx;
    assert Logged(s.frames[n].phase, s.contexts[s.frames[n].ctx].num, s.begun, s.finished);
    assert Carried(s.slots, s.contexts, s.contexts[c].num);
    hide Carried, Live, Held;
    var frames := Rephased(s, phase).frames;
    forall i | 0 <= i < |frames| && Owns(frames[i])
      ensures frames[i].ctx < |s.contexts|
      ensures Logged(frames[i].phase, s.contexts[frames[i].ctx].num, begun, finished)
    {
      if i < n {
        assert frames[i] == s.frames[i];
      }
    }
  }

  lemma RephaseKeeps(s: State, phase: Phase, begun: set<nat>, finished: set<nat>)
    requires Inv(s) && s.frames != [] && Owns(Innermost(s)) && Innermost(s).ctx < |s.contexts| && phase != Offloaded
    requires phase == Waiting ==> Innermost(s).pdu && |s.slots.idle| >= 6
    requires var n := s.contexts[Innermost(s).ctx].num;
             || (Begins(Innermost(s).phase, phase) && begun == s.begun + {n} && finished == s.finished)
             || (Ends(Innermost(s).phase, phase) && begun == s.begun && finished == s.finished + {n})
             || (Innermost(s).phase == Executing && phase == Waiting && begun == s.begun && finished == s.finished)
    ensures Inv(Rephased(s, phase).(begun := begun, finished := finished))
  {
    hide Valid, FramesOk, InFlightOk, PendingOk, NumbersOk, ProgressOk, CapacityOk;
    RephaseFrames(s, phase);
    RephaseProgress(s, phase, begun, finished);
  }

  // ---- handing a packet to a worker ----

  lemma HandOverFrames(s: State)
    requires FramesOk(s.frames, s.slots.busy) && CapacityOk(s.slots, s.frames)
    requires s.frames != [] && Owns(Innermost(s)) && Innermost(s).pdu && |s.slots.idle| >= 6
    requires HandOver(s).Some?
    requires forall i | 0 <= i < |s.frames| - 1 && Owns(s.frames[i]) :: s.frames[i].ctx != Innermost(s).ctx
    ensures var t := HandOver(s).value; FramesOk(t.frames, t.slots.busy) && CapacityOk(t.slots, t.frames)
  {
    hide HoldCount;
    var t, n := HandOver(s).value, |s.frames| - 1;
    OwnersRephased(s.frames, t.frames[n]);
    assert Owners(t.frames) == Owners(s.frames[..n]);
    assert s.slots.busy == Owners(s.frames[..n]) + [Innermost(s).ctx];
    assert FrameOk(s.frames[n], n);
    forall k | 0 <= k < |t.frames| && t.frames[k].phase == Waiting
      ensures |t.slots.idle| + |t.slots.busy| - |Owners(t.frames[..k + 1])| >= 6
    {
      assert t.frames[..k + 1] == s.frames[..n][..k + 1];
      OwnersOfPrefix(s.frames[..n], k + 1);
    }
  }

  lemma SuspendSize(s: Slots)
    requires s.busy != [] && Top(s.busy) < |s.hold|
    ensures |Suspended(s).hold| == |s.hold|
  {
  }

  lemma LiveAfterSuspend(s: Slots, c: nat)
    requires Valid(s) && s.busy != []
    ensures Live(Suspended(s), c) <==> Live(s, c)
  {
    hide HoldCount;
    MoveLast(s.busy, s.idle);
  }

  lemma HandOverInFlight(s: Slots, requests: seq<Request>)
    requires Valid(s) && s.busy != [] && InFlightOk(requests, s)
    ensures InFlightOk(requests + [Request(Top(s.busy), false)], Suspended(s))
  {
    var c := Top(s.busy);
    SuspendKeeps(s);
    hide HoldCount, Valid;
    var t, more := Suspended(s), requests + [Request(c, false)];
    forall d: nat | Held(t, d) ensures InFlight(more, d) {
      if d == c {
        assert more[|requests|].id == d;
      } else {
        assert Held(s, d);
        var i :| 0 <= i < |requests| && requests[i].id == d;
        assert more[i].id == d;
      }
    }
  }

  lemma HandOverPending(requests: seq<Request>, contexts: seq<Context>, pending: map<nat, nat>, c: nat)
    requires PendingOk(requests, contexts, pending) && c < |contexts|
    requires Pending(pending, contexts[c].flow) == 0
    ensures PendingOk(requests + [Request(c, false)], contexts, pending[contexts[c].flow := 1])
  {
    var more, flow := requests + [Request(c, false)], contexts[c].flow;
    assert !FlowInFlight(requests, contexts, flow);
    forall f: nat
      ensures FlowInFlight(more, contexts, f) <==> FlowInFlight(requests, contexts, f) || f == flow
    {
      if FlowInFlight(requests, contexts, f) {
        var i :| 0 <= i < |requests| && requests[i].id < |contexts| && contexts[requests[i].id].flow == f;
        assert more[i].id == requests[i].id;
      }
      if f == flow {
        assert more[|requests|].id == c;
      }
    }
  }

  lemma SameLive(s: Slots, t: Slots, contexts: seq<Context>, n: nat)
    requires forall c: nat :: Live(s, c) <==> Live(t, c)
    ensures Carried(s, contexts, n) <==> Carried(t, contexts, n)
  {
    hide Live;
  }

  lemma SameLiveNumbers(s: Slots, t: Slots, contexts: seq<Context>, counter: nat, released: set<nat>)
    requires NumbersOk(s, contexts, counter, released) && |s.hold| == |t.hold|
    requires forall c: nat :: Live(s, c) <==> Live(t, c)
    ensures NumbersOk(t, contexts, counter, released)
  {
    hide Live, Carried;
    forall n: nat | 1 <= n <= counter ensures n in released || Carried(t, contexts, n) {
      SameLive(s, t, contexts, n);
    }
  }

  lemma HandOverProgress(s: State)
    requires ProgressOk(s.frames, s.slots, s.contexts, s.counter, s.begun, s.finished)
    requires s.frames != [] && (Innermost(s).phase == Executing || Innermost(s).phase == Waiting)
    requires HandOver(s).Some?
    requires forall c: nat :: Live(s.slots, c) <==> Live(HandOver(s).value.slots, c)
    ensures var t := HandOver(s).value; ProgressOk(t.frames, t.slots, t.contexts, t.counter, t.begun, t.finished)
  {
    hide Carried, Live;
    var t, n := HandOver(s).value, |s.frames| - 1;
    assert Logged(s.frames[n].phase, s.contexts[s.frames[n].ctx].num, s.begun, s.finished);
    forall m | m in t.begun ensures m in t.finished || Carried(t.slots, t.contexts, m) {
      SameLive(s.slots, t.slots, s.contexts, m);
    }
    forall c: nat | Held(t.slots, c)
      ensures c < |t.contexts| && t.contexts[c].num in t.begun && t.contexts[c].num !in t.finished
    {
      assert c == Innermost(s).ctx || Held(s.slots, c);
    }
    forall i | 0 <= i < |t.frames| && Owns(t.frames[i]) ensures i < n && t.frames[i] == s.frames[i] {}
  }

  lemma HandOverSucceeds(s: State)
    requires Inv(s) && s.frames != [] && Owns(Innermost(s)) && s.workers > 0
    requires Innermost(s).ctx < |s.contexts| && Pending(s.pending, s.contexts[Innermost(s).ctx].flow) == 0
    ensures HandOver(s).Some?
    ensures forall i | 0 <= i < |s.frames| - 1 && Owns(s.frames[i]) :: s.frames[i].ctx != Innermost(s).ctx
    ensures var t := HandOver(s).value; var c := Innermost(s).ctx;
            && s.slots.busy != [] && Top(s.slots.busy) == c < |s.slots.hold| && t.slots == Suspended(s.slots)
            && t.contexts == s.contexts && t.requests == s.requests + [Request(c, false)]
            && t.pending == s.pending[s.contexts[c].flow := 1] && t.counter == s.counter && t.released == s.released
  {
    hide InFlightOk, PendingOk, ProgressOk, CapacityOk, FramesOk, Valid, Live;
    TopDistinct(s);
    SameSize(s.slots, s.contexts, s.counter, s.released);
  }

  lemma SameSize(slots: Slots, contexts: seq<Context>, counter: nat, released: set<nat>)
    requires NumbersOk(slots, contexts, counter, released)
    ensures |slots.hold| == |contexts|
  {
  }

  lemma HandOverKeeps(s: State)
    requires Inv(s) && s.frames != [] && Innermost(s).pdu && |s.slots.idle| >= 6 && s.workers > 0
    requires Innermost(s).phase == Executing || Innermost(s).phase == Waiting
    requires Innermost(s).ctx < |s.contexts| && Pending(s.pending, s.contexts[Innermost(s).ctx].flow) == 0
    ensures HandOver(s).Some? && Inv(HandOver(s).value)
  {
    hide Valid, FramesOk, InFlightOk, PendingOk, NumbersOk, ProgressOk, CapacityOk, HandOver, Suspended, Live;
    HandOverSucceeds(s);
    var t := HandOver(s).value;
    HandOverFrames(s);
    SuspendKeeps(s.slots);
    HandOverInFlight(s.slots, s.requests);
    HandOverPending(s.requests, s.contexts, s.pending, Innermost(s).ctx);
    forall c: nat ensures Live(s.slots, c) <==> Live(t.slots, c) { LiveAfterSuspend(s.slots, c); }
    assert |t.slots.hold| == |s.slots.hold| by { SuspendSize(s.slots); }
    SameLiveNumbers(s.slots, t.slots, s.contexts, s.counter, s.released);
    HandOverProgress(s);
  }

  // ---- taking a packet back ----

  lemma TakeBackFrames(s: State, id: nat)
    requires FramesOk(s.frames, s.slots.busy) && CapacityOk(s.slots, s.frames)
    requires Held(s.slots, id) && s.slots.hold[id].value == id
    requires HoldCount(Resumed(s.slots, id).hold) == HoldCount(s.slots.hold) - 1
    ensures var frames := s.frames + [Frame(id, Onloaded, false, Executing)];
            FramesOk(frames, Resumed(s.slots, id).busy) && CapacityOk(Resumed(s.slots, id), frames)
  {
    hide HoldCount;
    var f := Frame(id, Onloaded, false, Executing);
    var frames := s.frames + [f];
    OwnersPushed(s.frames, f);
    forall k | 0 <= k < |frames| && frames[k].phase == Waiting
      ensures |s.slots.idle| + |s.slots.busy| + 1 - |Owners(frames[..k + 1])| >= 6
    {
      assert frames[..k + 1] == s.frames[..k + 1];
    }
  }

  lemma LiveAfterResume(s: Slots, id: nat, c: nat)
    requires Held(s, id) && s.hold[id].value == id
    ensures Live(Resumed(s, id), c) <==> Live(s, c)
  {
  }

  lemma TakeBackInFlight(s: Slots, requests: seq<Request>)
    requires Valid(s) && InFlightOk(requests, s) && requests != []
    ensures Held(s, requests[0].id) && InFlightOk(requests[1..], Resumed(s, requests[0].id))
  {
    var id := requests[0].id;
    ResumeKeeps(s, id);
    hide HoldCount, Valid;
    var t := Resumed(s, id);
    forall d: nat | Held(t, d) ensures InFlight(requests[1..], d) {
      assert Held(s, d);
      var i :| 0 <= i < |requests| && requests[i].id == d;
      assert requests[1..][i - 1].id == d;
    }
  }

  lemma TakeBackPending(requests: seq<Request>, contexts: seq<Context>, pending: map<nat, nat>)
    requires PendingOk(requests, contexts, pending) && requests != []
    ensures requests[0].id < |contexts| && Pending(pending, contexts[requests[0].id].flow) == 1
    ensures PendingOk(requests[1..], contexts, pending[contexts[requests[0].id].flow := 0])
  {
    var flow, rest := contexts[requests[0].id].flow, requests[1..];
    assert FlowInFlight(requests, contexts, flow);
    forall f: nat
      ensures FlowInFlight(rest, contexts, f) <==> FlowInFlight(requests, contexts, f) && f != flow
    {
      if FlowInFlight(requests, contexts, f) && f != flow {
        var i :| 0 <= i < |requests| && requests[i].id < |contexts| && contexts[requests[i].id].flow == f;
        assert rest[i - 1] == requests[i];
      }
      if FlowInFlight(rest, contexts, f) {
        var i :| 0 <= i < |rest| && rest[i].id < |contexts| && contexts[rest[i].id].flow == f;
        assert requests[i + 1] == rest[i];
      }
    }
  }

  lemma TakeBackProgress(s: State, id: nat)
    requires ProgressOk(s.frames, s.slots, s.contexts, s.counter, s.begun, s.finished)
    requires Held(s.slots, id) && s.slots.hold[id].value == id
    ensures ProgressOk(s.frames + [Frame(id, Onloaded, false, Executing)], Resumed(s.slots, id),
                       s.contexts, s.counter, s.begun, s.finished)
  {
    hide Carried, Live;
    var t, frames := Resumed(s.slots, id), s.frames + [Frame(id, Onloaded, false, Executing)];
    forall c: nat ensures Live(s.slots, c) <==> Live(t, c) { LiveAfterResume(s.slots, id, c); }
    forall m | m in s.begun ensures m in s.finished || Carried(t, s.contexts, m) {
      SameLive(s.slots, t, s.contexts, m);
    }
    forall c: nat | Held(t, c) ensures Held(s.slots, c) {}
    forall i | 0 <= i < |frames| && Owns(frames[i])
      ensures frames[i].ctx < |s.contexts|
      ensures Logged(frames[i].phase, s.contexts[frames[i].ctx].num, s.begun, s.finished)
    {
      if i < |s.frames| {
        assert frames[i] == s.frames[i];
      }
    }
  }

  lemma TakeBackSucceeds(s: State)
    requires Inv(s) && s.requests != [] && s.requests[0].done
    ensures TakeBack(s).Some?
    ensures var t := TakeBack(s).value; var id := s.requests[0].id;
            && id < |s.contexts| && Held(s.slots, id) && s.slots.hold[id].value == id
            && t == s.(slots := Resumed(s.slots, id), pending := s.pending[s.contexts[id].flow := 0],
                       requests := s.requests[1..], workers := s.workers + 1,
                       frames := s.frames + [Frame(id, Onloaded, false, Executing)])
  {
    hide FramesOk, NumbersOk, ProgressOk, CapacityOk;
    TakeBackInFlight(s.slots, s.requests);
    TakeBackPending(s.requests, s.contexts, s.pending);
    ResumeKeeps(s.slots, s.requests[0].id);
    hide Valid, InFlightOk, PendingOk;
  }

  lemma TakeBackKeeps(s: State)
    requires Inv(s) && s.requests != []
    ensures TakeBack(s).Some? && Inv(TakeBack(s).value)
  {
    hide Valid, FramesOk, InFlightOk, PendingOk, NumbersOk, ProgressOk, CapacityOk, Live;
    if s.requests[0].done {
      TakeBackSucceeds(s);
      hide TakeBack, Held, Resumed;
      var t, id := TakeBack(s).value, s.requests[0].id;
      ResumeKeeps(s.slots, id);
      TakeBackFrames(s, id);
      TakeBackInFlight(s.slots, s.requests);
      TakeBackPending(s.requests, s.contexts, s.pending);
      forall c: nat ensures Live(s.slots, c) <==> Live(t.slots, c) { LiveAfterResume(s.slots, id, c); }
      ResumeSize(s.slots, id);
      SameLiveNumbers(s.slots, t.slots, s.contexts, s.counter, s.released);
      TakeBackProgress(s, id);
    }
  }

  lemma ResumeSize(s: Slots, id: nat)
    requires Held(s, id)
    ensures |Resumed(s, id).hold| == |s.hold|
  {
  }

  // ---- closing a scope ----

  lemma PopFrames(s: State, slots: Slots)
    requires FramesOk(s.frames, s.slots.busy) && CapacityOk(s.slots, s.frames) && s.frames != []
    requires slots.busy == if Owns(Innermost(s)) then s.slots.busy[..|s.slots.busy| - 1] else s.slots.busy
    requires |slots.idle| + |slots.busy| == |s.slots.idle| + |s.slots.busy| && slots.hold == s.slots.hold
    ensures FramesOk(s.frames[..|s.frames| - 1], slots.busy) && CapacityOk(slots, s.frames[..|s.frames| - 1])
  {
    hide HoldCount;
    var rest := s.frames[..|s.frames| - 1];
    assert slots.busy == Owners(rest);
    forall k | 0 <= k < |rest| && rest[k].phase == Waiting
      ensures |slots.idle| + |slots.busy| - |Owners(rest[..k + 1])| >= 6
    {
      assert rest[..k + 1] == s.frames[..k + 1] && rest[k] == s.frames[k];
    }
  }

  lemma LiveAfterComplete(s: Slots, c: nat)
    requires Valid(s) && s.busy != []
    ensures Live(Completed(s), c) <==> Live(s, c) && c != Top(s.busy)
  {
    hide HoldCount;
    MoveLast(s.busy, s.idle);
  }

  lemma CloseCarried(s: Slots, contexts: seq<Context>, n: nat)
    requires Valid(s) && s.busy != [] && Top(s.busy) < |contexts| && n != contexts[Top(s.busy)].num
    ensures Carried(Completed(s), contexts, n) <==> Carried(s, contexts, n)
  {
    hide Live, Completed, Valid;
    forall c: nat ensures Live(Completed(s), c) <==> Live(s, c) && c != Top(s.busy) { LiveAfterComplete(s, c); }
  }

  lemma CloseNumbers(s: Slots, contexts: seq<Context>, counter: nat, released: set<nat>)
    requires Valid(s) && s.busy != [] && Top(s.busy) < |contexts|
    requires NumbersOk(s, contexts, counter, released)
    ensures NumbersOk(Completed(s), contexts, counter, released + {contexts[Top(s.busy)].num})
  {
    var c, t := Top(s.busy), Completed(s);
    assert Live(s, c);
    hide Live, Carried, Valid;
    forall d: nat ensures Live(t, d) <==> Live(s, d) && d != c { LiveAfterComplete(s, d); }
    forall n: nat | 1 <= n <= counter ensures n in released + {contexts[c].num} || Carried(t, contexts, n) {
      if n != contexts[c].num {
        CloseCarried(s, contexts, n);
      }
    }
  }

  lemma PopProgress(s: State, slots: Slots)
    requires ProgressOk(s.frames, s.slots, s.contexts, s.counter, s.begun, s.finished) && s.frames != []
    requires slots.hold == s.slots.hold
    requires forall n | n in s.begun && n !in s.finished && Carried(s.slots, s.contexts, n) ::
               Carried(slots, s.contexts, n)
    ensures ProgressOk(s.frames[..|s.frames| - 1], slots, s.contexts, s.counter, s.begun, s.finished)
  {
    hide Carried;
    forall c: nat | Held(slots, c) ensures Held(s.slots, c) {}
  }

  lemma CloseProgress(s: State)
    requires Valid(s.slots) && s.frames != [] && Owns(Innermost(s))
    requires Innermost(s).phase == Open || Innermost(s).phase == Finished
    requires s.slots.busy != [] && Top(s.slots.busy) == Innermost(s).ctx < |s.contexts|
    requires ProgressOk(s.frames, s.slots, s.contexts, s.counter, s.begun, s.finished)
    ensures ProgressOk(s.frames[..|s.frames| - 1], Completed(s.slots), s.contexts, s.counter, s.begun, s.finished)
  {
    hide Carried, Valid;
    var k := |s.frames| - 1;
    assert Logged(s.frames[k].phase, s.contexts[s.frames[k].ctx].num, s.begun, s.finished);
    forall n | n in s.begun && n !in s.finished && Carried(s.slots, s.contexts, n)
      ensures Carried(Completed(s.slots), s.contexts, n)
    {
      CloseCarried(s.slots, s.contexts, n);
    }
    PopProgress(s, Completed(s.slots));
  }

  lemma LoneWire(s: State)
    requires FramesOk(s.frames, s.slots.busy) && s.frames != [] && Innermost(s).kind == Wire
    ensures |s.slots.busy| == 1
  {
    assert FrameOk(Innermost(s), |s.frames| - 1);
    assert s.frames[..|s.frames| - 1] == [] && Owns(Innermost(s));
    assert s.slots.busy == Owners([]) + [Innermost(s).ctx];
  }

  lemma OnlyRebuiltLeaves(s: State)
    requires FramesOk(s.frames, s.slots.busy) && s.frames != [] && !Owns(Innermost(s))
    ensures Innermost(s).kind == Rebuilt
  {
    assert FrameOk(Innermost(s), |s.frames| - 1);
  }

  lemma CloseOwned(s: State)
    requires Inv(s) && s.frames != [] && Owns(Innermost(s))
    requires Innermost(s).phase == Open || Innermost(s).phase == Finished
    ensures Close(s).Some? && Inv(Close(s).value)
  {
    hide InFlightOk, PendingOk, ProgressOk, CapacityOk, FramesOk, Valid, NumbersOk, Live;
    TopDistinct(s);
    if Innermost(s).kind == Wire {
      LoneWire(s);
    }
    var t := Close(s).value;
    assert t.slots == Completed(s.slots) && t.frames == s.frames[..|s.frames| - 1];
    CompleteKeeps(s.slots);
    PopFrames(s, t.slots);
    CloseNumbers(s.slots, s.contexts, s.counter, s.released);
    CloseProgress(s);
    SameHold(s.requests, s.slots, t.slots);
  }

  lemma CloseLeft(s: State)
    requires Inv(s) && s.frames != [] && !Owns(Innermost(s))
    ensures Close(s).Some? && Inv(Close(s).value)
  {
    hide InFlightOk, PendingOk, ProgressOk, CapacityOk, FramesOk, NumbersOk;
    InnermostIsCurrent(s);
    OnlyRebuiltLeaves(s);
    SameSize(s.slots, s.contexts, s.counter, s.released);
    assert Top(s.slots.busy) < |s.contexts|;
    hide Valid;
    PopFrames(s, s.slots);
    PopProgress(s, s.slots);
  }

  lemma WorkerDoneKeeps(s: State, i: nat)
    requires Inv(s) && Control(s, WorkerDone(i))
    ensures Inv(Step(s, WorkerDone(i)).value)
  {
    hide ProgressOk, CapacityOk, FramesOk, NumbersOk, Valid, HoldCount, Pending;
    var t := Step(s, WorkerDone(i)).value;
    assert forall k | 0 <= k < |s.requests| :: t.requests[k].id == s.requests[k].id;
    forall c: nat | Held(s.slots, c) ensures InFlight(t.requests, c) {
      var k :| 0 <= k < |s.requests| && s.requests[k].id == c;
      assert t.requests[k].id == c;
    }
    forall f: nat
      ensures FlowInFlight(t.requests, s.contexts, f) == FlowInFlight(s.requests, s.contexts, f)
    {
      if FlowInFlight(s.requests, s.contexts, f) {
        var k :| 0 <= k < |s.requests| && s.requests[k].id < |s.contexts| && s.contexts[s.requests[k].id].flow == f;
        assert t.requests[k].id == s.requests[k].id;
      }
    }
  }

  // ---- every step ----

  lemma InnermostHasContext(s: State)
    requires Inv(s) && s.frames != [] && Owns(Innermost(s))
    ensures Innermost(s).ctx < |s.contexts|
    ensures FrameOk(Innermost(s), |s.frames| - 1)
    ensures Innermost(s).phase == Waiting ==> |s.slots.idle| >= 6
  {
    hide InFlightOk, PendingOk, ProgressOk, NumbersOk;
    assert Innermost(s).ctx < |s.contexts| by { TopDistinct(s); }
    hide Valid;
    assert s.frames[..|s.frames|] == s.frames;
  }

  /** A flow marked offloaded has a packet in flight, so `get` always finds a request. */
  lemma AwaitedIsInFlight(s: State, flow: nat)
    requires Inv(s) && Pending(s.pending, flow) > 0
    ensures s.requests != []
  {
  }

  /**
    Wherever the thread is, if contexts and workers have not run out, no assertion of the engine, the
    switcher, the flow or the offloader fails, and the invariant is kept.
   */
  lemma StepSafe(s: State, a: Action)
    requires Inv(s) && Control(s, a) && Resources(s, a)
    ensures Step(s, a).Some? && Inv(Step(s, a).value)
  {
    hide Inv, Enter, HandOver, TakeBack, Close, Pending;
    match a
    case StartWire => EnterKeeps(s, Wire, false, 0);
    case Interrupt(pdu, flow) => EnterKeeps(s, Rebuilt, pdu, flow);
    case Inspect =>
      InnermostHasContext(s);
      RephaseKeeps(s, Executing, s.begun + {s.contexts[Innermost(s).ctx].num}, s.finished);
    case Finish =>
      InnermostHasContext(s);
      RephaseKeeps(s, Finished, s.begun, s.finished + {s.contexts[Innermost(s).ctx].num});
    case Offload =>
      InnermostHasContext(s);
      if Pending(s.pending, s.contexts[Innermost(s).ctx].flow) > 0 {
        RephaseKeeps(s, Waiting, s.begun, s.finished);
        assert Rephased(s, Waiting) == Rephased(s, Waiting).(begun := s.begun, finished := s.finished);
      } else {
        HandOverKeeps(s);
      }
    case Suspend =>
      InnermostHasContext(s);
      HandOverKeeps(s);
    case Onload(awaited) =>
      if awaited.Some? {
        AwaitedIsInFlight(s, awaited.value);
      }
      TakeBackKeeps(s);
    case Release =>
      if Owns(Innermost(s)) {
        CloseOwned(s);
      } else {
        CloseLeft(s);
      }
    case WorkerDone(i) => WorkerDoneKeeps(s, i);
  }
}
