/**
  The offload protocol of one packet thread (src/detection/detection_engine.cc, lines 70-84, 163-174,
  282-370, 414-445; src/detection/regex_offload.cc; src/main/snort.cc, lines 864-900, 978-1040).

  The thread opens and closes detection engines like nested scopes, each with a context of its own.  While
  inspecting a rebuilt packet it may suspend the context and hand the packet to a regex worker; later it
  resumes the context and finishes the packet.  `frames` is the thread's stack of open engines and running
  onloads, so a run is any interleaving of nested scopes, onloads and workers that finish.
 */
module OffloadProtocol {
  import opened Basics
  import opened ContextSwitcher

  datatype Context = Context(num: nat, flow: nat)

  datatype Kind = Wire | Rebuilt | Onloaded

  datatype Phase = Open | Executing | Waiting | Offloaded | Finished

  datatype Frame = Frame(ctx: nat, kind: Kind, pdu: bool, phase: Phase)

  datatype Request = Request(id: nat, done: bool)

  datatype State = State(
    slots: Slots, contexts: seq<Context>, frames: seq<Frame>,
    requests: seq<Request>, workers: nat, pending: map<nat, nat>,
    counter: nat, begun: set<nat>, finished: set<nat>, released: set<nat>)

  datatype Action =
    | StartWire
    | Interrupt(pdu: bool, flow: nat)
    | Inspect
    | Finish
    | Offload
    | Suspend
    | Onload(awaited: Option<nat>)
    | Release
    | WorkerDone(i: nat)

  /** `Flow::offloads_pending`. */
  function Pending(pending: map<nat, nat>, flow: nat): nat {
    if flow in pending then pending[flow] else 0
  }

  predicate Owns(f: Frame) {
    f.phase != Offloaded
  }

  /** The contexts of the frames that still have theirs, innermost last. */
  function Owners(frames: seq<Frame>): seq<nat> {
    if frames == [] then []
    else Owners(frames[..|frames| - 1]) +
         if Owns(frames[|frames| - 1]) then [frames[|frames| - 1].ctx] else []
  }

  function Innermost(s: State): Frame
    requires s.frames != []
  {
    s.frames[|s.frames| - 1]
  }

  // ---- where the thread can be ----

  predicate Control(s: State, a: Action) {
    match a
    case StartWire => s.frames == []
    case Interrupt(pdu, _) => if s.frames == [] then !pdu else Innermost(s).phase != Waiting
    case Inspect => s.frames != [] && Innermost(s).phase == Open && Innermost(s).kind != Onloaded
    case Finish => s.frames != [] && Innermost(s).phase == Executing
    case Offload =>
      && s.frames != [] && Innermost(s).phase == Executing && Innermost(s).pdu
      && |s.slots.idle| > 5 && s.workers > 0
    case Suspend =>
      && s.frames != [] && Innermost(s).phase == Waiting
      && (Innermost(s).ctx < |s.contexts| ==> Pending(s.pending, s.contexts[Innermost(s).ctx].flow) == 0)
    case Onload(None) => s.frames == [] && s.requests != []
    case Onload(Some(flow)) => Pending(s.pending, flow) > 0
    case Release =>
      && s.frames != []
      && (Innermost(s).phase == Open || Innermost(s).phase == Offloaded || Innermost(s).phase == Finished)
      && (Innermost(s).kind == Onloaded ==> Innermost(s).phase == Finished)
    case WorkerDone(i) => i < |s.requests| && !s.requests[i].done
  }

  /** What can run out: idle contexts, and workers after waiting for a flow. */
  predicate Resources(s: State, a: Action) {
    match a
    case StartWire => s.slots.idle != []
    case Interrupt(_, _) => s.slots.idle != []
    case Release => s.frames != [] && Owns(Innermost(s)) && Innermost(s).kind != Wire ==> s.slots.idle != []
    case Suspend => s.workers > 0
    case Inspect => true
    case Finish => true
    case Offload => true
    case Onload(_) => true
    case WorkerDone(_) => true
  }

  // ---- the operations; None is a failed assertion ----

  function Rephased(s: State, phase: Phase): State
    requires s.frames != []
  {
    s.(frames := s.frames[|s.frames| - 1 := Innermost(s).(phase := phase)])
  }

  function Enter(s: State, kind: Kind, pdu: bool, flow: nat): Option<State> {
    if s.slots.idle == [] || Top(s.slots.idle) >= |s.contexts| || (kind == Wire && s.slots.busy != []) then None
    else
      var c := Top(s.slots.idle);
      Some(s.(slots := Interrupted(s.slots), counter := s.counter + 1,
           contexts := s.contexts[c := Context(s.counter + 1, flow)],
           frames := s.frames + [Frame(c, kind, pdu, Open)]))
  }

  /** The current context goes on hold and its packet to a worker. */
  function HandOver(s: State): Option<State>
    requires s.frames != []
  {
    var c := Innermost(s).ctx;
    if s.slots.busy == [] || Top(s.slots.busy) != c || c >= |s.slots.hold| || c >= |s.contexts|
       || s.slots.hold[c].Some? || Pending(s.pending, s.contexts[c].flow) >= 0xFF || s.workers == 0 then None
    else
      Some(Rephased(s, Offloaded).(slots := Suspended(s.slots),
           pending := s.pending[s.contexts[c].flow := Pending(s.pending, s.contexts[c].flow) + 1],
           requests := s.requests + [Request(c, false)], workers := s.workers - 1))
  }

  /** `offload`: waits for earlier packets of the flow, if there are any. */
  function TryOffload(s: State): Option<State>
    requires s.frames != []
  {
    if Innermost(s).ctx >= |s.contexts| then None
    else if Pending(s.pending, s.contexts[Innermost(s).ctx].flow) > 0 then Some(Rephased(s, Waiting))
    else HandOver(s)
  }

  /** `onload`: nothing if the oldest request is still at work, else its context becomes current again. */
  function TakeBack(s: State): Option<State> {
    if s.requests == [] then None
    else
      var r := s.requests[0];
      if !r.done then Some(s)
      else if !Held(s.slots, r.id) || s.slots.hold[r.id].value != r.id || r.id >= |s.contexts|
              || Pending(s.pending, s.contexts[r.id].flow) == 0 then None
      else
        Some(s.(slots := Resumed(s.slots, r.id),
             pending := s.pending[s.contexts[r.id].flow := Pending(s.pending, s.contexts[r.id].flow) - 1],
             requests := s.requests[1..], workers := s.workers + 1,
             frames := s.frames + [Frame(r.id, Onloaded, false, Executing)]))
  }

  /** The end of a scope: an engine gives its context back only if it is still the current one. */
  function Close(s: State): Option<State>
    requires s.frames != []
  {
    var f := Innermost(s);
    var rest := s.frames[..|s.frames| - 1];
    if s.slots.busy == [] || Top(s.slots.busy) >= |s.contexts| then None
    else if f.kind == Wire && |s.slots.busy| != 1 then None
    else if f.kind == Rebuilt && Top(s.slots.busy) != f.ctx then Some(s.(frames := rest))
    else
      Some(s.(frames := rest, slots := Completed(s.slots),
           released := s.released + {s.contexts[Top(s.slots.busy)].num}))
  }

  function Step(s: State, a: Action): Option<State>
    requires Control(s, a)
  {
    match a
    case StartWire => Enter(s, Wire, false, 0)
    case Interrupt(pdu, flow) => Enter(s, Rebuilt, pdu, flow)
    case Inspect =>
      if Innermost(s).ctx >= |s.contexts| then None
      else Some(Rephased(s, Executing).(begun := s.begun + {s.contexts[Innermost(s).ctx].num}))
    case Finish =>
      if Innermost(s).ctx >= |s.contexts| then None
      else Some(Rephased(s, Finished).(finished := s.finished + {s.contexts[Innermost(s).ctx].num}))
    case Offload => TryOffload(s)
    case Suspend => HandOver(s)
    case Onload(_) => TakeBack(s)
    case Release => Close(s)
    case WorkerDone(i) => Some(s.(requests := s.requests[i := s.requests[i].(done := true)]))
  }

  // ---- the invariant ----

  /** Busy contexts are those of the open frames, in order; the outermost frame keeps its own. */
  predicate FramesOk(frames: seq<Frame>, busy: seq<nat>) {
    && busy == Owners(frames)
    && (frames != [] ==> !frames[0].pdu)
    && (forall k | 0 <= k < |frames| :: FrameOk(frames[k], k))
    && (forall i, j | 0 <= i < j < |frames| && frames[j].phase == Offloaded && Owns(frames[i]) ::
          frames[i].ctx != frames[j].ctx)
  }

  predicate FrameOk(f: Frame, depth: nat) {
    && (f.phase == Waiting || f.phase == Offloaded ==> f.pdu)
    && (f.pdu ==> f.kind == Rebuilt)
    && (f.kind == Wire ==> depth == 0)
    && (f.kind == Onloaded ==> f.phase == Executing || f.phase == Finished)
  }

  /** Exactly the contexts on hold are in flight, each once. */
  ghost predicate InFlightOk(requests: seq<Request>, slots: Slots) {
    && (forall i | 0 <= i < |requests| :: Held(slots, requests[i].id))
    && (forall i, j | 0 <= i < j < |requests| :: requests[i].id != requests[j].id)
    && (forall c: nat | Held(slots, c) :: InFlight(requests, c))
    && |requests| == HoldCount(slots.hold)
  }

  predicate InFlight(requests: seq<Request>, c: nat) {
    exists i :: 0 <= i < |requests| && requests[i].id == c
  }

  predicate FlowInFlight(requests: seq<Request>, contexts: seq<Context>, flow: nat) {
    exists i :: 0 <= i < |requests| && requests[i].id < |contexts| && contexts[requests[i].id].flow == flow
  }

  /** A flow is marked offloaded exactly while one packet of it is in flight; never two. */
  ghost predicate PendingOk(requests: seq<Request>, contexts: seq<Context>, pending: map<nat, nat>) {
    && (forall i | 0 <= i < |requests| :: requests[i].id < |contexts|)
    && (forall i, j | 0 <= i < j < |requests| ::
          contexts[requests[i].id].flow != contexts[requests[j].id].flow)
    && (forall flow: nat :: Pending(pending, flow) == if FlowInFlight(requests, contexts, flow) then 1 else 0)
  }

  predicate Live(slots: Slots, c: nat) {
    c in slots.busy || Held(slots, c)
  }

  predicate Carried(slots: Slots, contexts: seq<Context>, n: nat) {
    exists c: nat | c < |contexts| :: Live(slots, c) && contexts[c].num == n
  }

  /** Every context number given out is carried by one live context or was released, never both. */
  ghost predicate NumbersOk(slots: Slots, contexts: seq<Context>, counter: nat, released: set<nat>) {
    && |contexts| == |slots.hold|
    && (forall c: nat | Live(slots, c) ::
          c < |contexts| && 1 <= contexts[c].num <= counter && contexts[c].num !in released)
    && (forall c: nat, d: nat | c < d && Live(slots, c) && Live(slots, d) :: contexts[c].num != contexts[d].num)
    && (forall n | n in released :: 1 <= n <= counter)
    && (forall n: nat | 1 <= n <= counter :: n in released || Carried(slots, contexts, n))
  }

  predicate Logged(phase: Phase, n: nat, begun: set<nat>, finished: set<nat>) {
    match phase
    case Open => n !in begun
    case Executing => n in begun && n !in finished
    case Waiting => n in begun && n !in finished
    case Offloaded => true
    case Finished => n in finished
  }

  /** Inspection of a packet that has begun is finished once, or the packet is still around. */
  ghost predicate ProgressOk(frames: seq<Frame>, slots: Slots, contexts: seq<Context>, counter: nat,
                             begun: set<nat>, finished: set<nat>)
  {
    && finished <= begun
    && (forall n | n in begun :: 1 <= n <= counter)
    && (forall i | 0 <= i < |frames| && Owns(frames[i]) ::
          frames[i].ctx < |contexts| && Logged(frames[i].phase, contexts[frames[i].ctx].num, begun, finished))
    && (forall c: nat | Held(slots, c) ::
          c < |contexts| && contexts[c].num in begun && contexts[c].num !in finished)
    && (forall n | n in begun :: n in finished || Carried(slots, contexts, n))
  }

  /** Six contexts stay off hold, also counted above a frame that waits to offload. */
  predicate CapacityOk(slots: Slots, frames: seq<Frame>) {
    && (HoldCount(slots.hold) > 0 ==> |slots.idle| + |slots.busy| >= 6)
    && (forall k | 0 <= k < |frames| && frames[k].phase == Waiting ::
          |slots.idle| + |slots.busy| - |Owners(frames[..k + 1])| >= 6)
  }

  ghost predicate Inv(s: State) {
    && Valid(s.slots)
    && FramesOk(s.frames, s.slots.busy)
    && InFlightOk(s.requests, s.slots)
    && PendingOk(s.requests, s.contexts, s.pending)
    && NumbersOk(s.slots, s.contexts, s.counter, s.released)
    && ProgressOk(s.frames, s.slots, s.contexts, s.counter, s.begun, s.finished)
    && CapacityOk(s.slots, s.frames)
  }
}
