/**
  The drove of packet threads and the commands sent to them (src/main.cc, lines 99-290, 642-654, 771-885;
  src/main/analyzer.cc, lines 51-55, 84-143).

  A pig is a slot for one analyzer and its thread.  The main thread preps, starts and stops pigs, broadcasts
  reference-counted commands and reaps them; the analyzer threads take commands, complete them, change their
  state and poke the main thread through a ring.  A run is any interleaving of these steps.
 */
module PigManager {
  import opened Basics

  datatype Stage = New | Initialized | Started | Running | Paused | Stopped

  /** `owes`: the state has been set and the poke that follows has not been made yet. */
  datatype Analyzer = Analyzer(
    stage: Stage, pending: seq<nat>, executing: Option<nat>, completed: seq<nat>, owes: bool)

  datatype Pig = Pig(analyzer: Option<Analyzer>, thread: bool)

  /** Where the main thread is; `last`: the queue of the pig held no more than what was reaped from it last. */
  datatype Place =
    | Prepping(next: nat)
    | AtLoop
    | Handling(idx: nat)
    | RingEmpty
    | Servicing
    | Broadcasting(cmd: nat, next: nat, sent: nat, inService: bool)
    | Draining(idx: nat)
    | ReapingPigs(idx: nat, last: bool)
    | ReapingOrphans
    | Exited

  datatype State = State(
    pigs: seq<Pig>, swine: nat, ring: seq<nat>, place: Place,
    orphans: seq<nat>, refs: map<nat, nat>, made: nat)

  datatype Action =
    | PrepNext | PrepDone | LoopExit | Read
    | HandleNothing | StartPig | JoinPig | QueueOwn | BroadcastNew
    | SendNext | SendDone
    | DrainCompleted | DrainPending | DropAnalyzer
    | PrepLazy | Serve | ServeDone
    | ReapStart | ReapOne | ReapNextPig | ReapOrphan | ReapDone
    | SetStage(i: nat, stage: Stage) | Poke(i: nat) | Take(i: nat) | Complete(i: nat)

  const NEW_ANALYZER := Analyzer(New, [], None, [], false)

  // ---- pieces ----

  /** `main_poke`: the ring has room for one entry per pig and drops what does not fit. */
  function Poked(ring: seq<nat>, id: nat, max: nat): seq<nat> {
    if |ring| < max then ring + [id] else ring
  }

  /** `get_lazy_pig`: the first pig without an analyzer. */
  function LazyPig(pigs: seq<Pig>): nat {
    if pigs == [] || pigs[0].analyzer.None? then 0 else 1 + LazyPig(pigs[1..])
  }

  function Prep(s: State, i: nat): Option<State> {
    if i >= |s.pigs| || s.pigs[i].analyzer.Some? then None
    else Some(s.(pigs := s.pigs[i := s.pigs[i].(analyzer := Some(NEW_ANALYZER))],
              ring := Poked(s.ring, i, |s.pigs|), swine := s.swine + 1))
  }

  /** `queue_command` for a pig that has an analyzer and a thread. */
  function Queued(s: State, i: nat, cmd: nat): Option<State>
    requires i < |s.pigs| && s.pigs[i].analyzer.Some?
  {
    if cmd !in s.refs then None
    else
      var a := s.pigs[i].analyzer.value;
      Some(s.(pigs := s.pigs[i := s.pigs[i].(analyzer := Some(a.(pending := a.pending + [cmd])))],
           refs := s.refs[cmd := s.refs[cmd] + 1]))
  }

  /** `reap_command`: the last reference deletes.  None: the command is gone or has no reference. */
  function Reaped(s: State, cmd: nat): Option<State> {
    if cmd !in s.refs || s.refs[cmd] == 0 then None
    else if s.refs[cmd] == 1 then Some(s.(refs := s.refs - {cmd}))
    else Some(s.(refs := s.refs[cmd := s.refs[cmd] - 1]))
  }

  function WithAnalyzer(s: State, i: nat, a: Option<Analyzer>): State
    requires i < |s.pigs|
  {
    s.(pigs := s.pigs[i := s.pigs[i].(analyzer := a)])
  }

  /** The analyzer's state changes that its thread makes. */
  predicate Moves(from: Stage, to: Stage) {
    && from != Stopped && to != New && from != to
    && (from == New ==> to == Initialized || to == Stopped)
  }

  // ---- where each thread can be ----

  predicate HasAnalyzer(s: State, i: nat) {
    i < |s.pigs| && s.pigs[i].analyzer.Some?
  }

  predicate Works(s: State, i: nat) {
    && HasAnalyzer(s, i) && s.pigs[i].thread && !s.pigs[i].analyzer.value.owes
    && s.pigs[i].analyzer.value.stage != Stopped
  }

  predicate HandlesStage(s: State, stage: Stage) {
    s.place.Handling? && HasAnalyzer(s, s.place.idx) && s.pigs[s.place.idx].analyzer.value.stage == stage
  }

  /** The state was read before; since then the thread may have moved on, but not back to a new one. */
  predicate HandlesLater(s: State) {
    s.place.Handling? && HasAnalyzer(s, s.place.idx) && !HandlesStage(s, New)
  }

  predicate Control(s: State, a: Action) {
    match a
    case PrepNext => s.place.Prepping? && s.place.next < |s.pigs|
    case PrepDone => s.place.Prepping? && s.place.next == |s.pigs|
    case LoopExit => s.place.AtLoop? && s.swine == 0
    case Read => s.place.AtLoop?
    case HandleNothing => s.place.Handling? && !HandlesStage(s, New)
    case StartPig => HandlesStage(s, New)
    case JoinPig => HandlesStage(s, Stopped) && !s.pigs[s.place.idx].analyzer.value.owes
    case QueueOwn => HandlesLater(s)
    case BroadcastNew => s.place.Servicing? || HandlesLater(s)
    case SendNext => s.place.Broadcasting? && s.place.next < |s.pigs|
    case SendDone => s.place.Broadcasting? && s.place.next == |s.pigs|
    case DrainCompleted =>
      s.place.Draining? && HasAnalyzer(s, s.place.idx) && s.pigs[s.place.idx].analyzer.value.completed != []
    case DrainPending =>
      && s.place.Draining? && HasAnalyzer(s, s.place.idx)
      && s.pigs[s.place.idx].analyzer.value.completed == [] && s.pigs[s.place.idx].analyzer.value.pending != []
    case DropAnalyzer =>
      && s.place.Draining? && HasAnalyzer(s, s.place.idx)
      && s.pigs[s.place.idx].analyzer.value.completed == [] && s.pigs[s.place.idx].analyzer.value.pending == []
    case PrepLazy => s.place.RingEmpty? && s.swine < |s.pigs|
    case Serve => s.place.RingEmpty?
    case ServeDone => s.place.Servicing?
    case ReapStart => s.place.Servicing?
    case ReapOne =>
      && s.place.ReapingPigs? && !s.place.last && HasAnalyzer(s, s.place.idx)
      && s.pigs[s.place.idx].analyzer.value.completed != []
    case ReapNextPig =>
      s.place.ReapingPigs? &&
      (s.place.last || (HasAnalyzer(s, s.place.idx) ==> s.pigs[s.place.idx].analyzer.value.completed == []))
    case ReapOrphan => s.place.ReapingOrphans? && s.orphans != []
    case ReapDone => s.place.ReapingOrphans? && s.orphans == []
    case SetStage(i, stage) =>
      && Works(s, i) && Moves(s.pigs[i].analyzer.value.stage, stage)
      && (stage == Stopped ==> s.pigs[i].analyzer.value.executing.None?)
    case Poke(i) => HasAnalyzer(s, i) && s.pigs[i].thread && s.pigs[i].analyzer.value.owes
    case Take(i) =>
      && Works(s, i) && s.pigs[i].analyzer.value.stage != New && s.pigs[i].analyzer.value.executing.None?
      && s.pigs[i].analyzer.value.pending != []
    case Complete(i) => Works(s, i) && s.pigs[i].analyzer.value.executing.Some?
  }

  // ---- the steps; None is a failed assertion or a dead command touched ----

  function NewCommand(s: State): State {
    s.(refs := s.refs[s.made := 0], made := s.made + 1)
  }

  function MainStep(s: State, a: Action): Option<State>
    requires Control(s, a) && !a.SetStage? && !a.Poke? && !a.Take? && !a.Complete?
  {
    match a
    case PrepNext =>
      var t := Prep(s, s.place.next);
      if t.None? then None else Some(t.value.(place := Prepping(s.place.next + 1)))
    case PrepDone => Some(s.(place := AtLoop))
    case LoopExit => Some(s.(place := Exited))
    case Read =>
      if s.ring == [] then Some(s.(place := RingEmpty))
      else if s.ring[0] >= |s.pigs| then None
      else Some(s.(ring := s.ring[1..], place := Handling(s.ring[0])))
    case HandleNothing => Some(s.(place := AtLoop))
    case StartPig =>
      if s.pigs[s.place.idx].thread then None
      else Some(s.(pigs := s.pigs[s.place.idx := s.pigs[s.place.idx].(thread := true)], place := AtLoop))
    case JoinPig =>
      if !s.pigs[s.place.idx].thread then None
      else Some(s.(pigs := s.pigs[s.place.idx := s.pigs[s.place.idx].(thread := false)],
                place := Draining(s.place.idx)))
    case QueueOwn =>
      var t := NewCommand(s).(place := AtLoop);
      if s.pigs[s.place.idx].thread then Queued(t, s.place.idx, s.made)
      else Some(t.(orphans := t.orphans + [s.made]))
    case BroadcastNew => Some(NewCommand(s).(place := Broadcasting(s.made, 0, 0, s.place.Servicing?)))
    case SendNext =>
      var b := s.place;
      if HasAnalyzer(s, b.next) && s.pigs[b.next].thread then
        Queued(s.(place := b.(next := b.next + 1, sent := b.sent + 1)), b.next, b.cmd)
      else Some(s.(place := b.(next := b.next + 1)))
    case SendDone =>
      var t := s.(place := if s.place.inService then Servicing else AtLoop);
      Some(if s.place.sent == 0 then t.(orphans := t.orphans + [s.place.cmd]) else t)
    case DrainCompleted => ReapCompleted(s, s.place.idx)
    case DrainPending =>
      var a := s.pigs[s.place.idx].analyzer.value;
      Reaped(WithAnalyzer(s, s.place.idx, Some(a.(pending := a.pending[1..]))), a.pending[0])
    case DropAnalyzer =>
      if s.swine == 0 then None
      else Some(WithAnalyzer(s, s.place.idx, None).(swine := s.swine - 1, place := AtLoop))
    case PrepLazy =>
      var t := Prep(s, LazyPig(s.pigs));
      if t.None? then None else Some(t.value.(place := AtLoop))
    case Serve => Some(s.(place := Servicing))
    case ServeDone => Some(s.(place := AtLoop))
    case ReapStart => Some(s.(place := ReapingPigs(0, false)))
    case ReapOne =>
      var left := |s.pigs[s.place.idx].analyzer.value.completed|;
      ReapCompleted(s.(place := ReapingPigs(s.place.idx, left == 1)), s.place.idx)
    case ReapNextPig =>
      Some(s.(place := if s.place.idx + 1 < |s.pigs| then ReapingPigs(s.place.idx + 1, false) else ReapingOrphans))
    case ReapOrphan =>
      if s.orphans[0] !in s.refs then None
      else Some(s.(refs := s.refs - {s.orphans[0]}, orphans := s.orphans[1..]))
    case ReapDone => Some(s.(place := Servicing))
  }

  function ReapCompleted(s: State, i: nat): Option<State>
    requires HasAnalyzer(s, i) && s.pigs[i].analyzer.value.completed != []
  {
    var a := s.pigs[i].analyzer.value;
    Reaped(WithAnalyzer(s, i, Some(a.(completed := a.completed[1..]))), a.completed[0])
  }

  function ThreadStep(s: State, a: Action): State
    requires Control(s, a) && (a.SetStage? || a.Poke? || a.Take? || a.Complete?)
  {
    var w := s.pigs[a.i].analyzer.value;
    match a
    case SetStage(i, stage) => WithAnalyzer(s, i, Some(w.(stage := stage, owes := true)))
    case Poke(i) => WithAnalyzer(s, i, Some(w.(owes := false))).(ring := Poked(s.ring, i, |s.pigs|))
    case Take(i) => WithAnalyzer(s, i, Some(w.(executing := Some(w.pending[0]), pending := w.pending[1..])))
    case Complete(i) =>
      WithAnalyzer(s, i, Some(w.(executing := None, completed := w.completed + [w.executing.value])))
  }

  function Step(s: State, a: Action): Option<State>
    requires Control(s, a)
  {
    if a.SetStage? || a.Poke? || a.Take? || a.Complete? then Some(ThreadStep(s, a)) else MainStep(s, a)
  }

  // ---- the invariant ----

  /** The work-queue entries of a pig, as commands with multiplicity. */
  function EntriesOf(p: Pig): multiset<nat> {
    if p.analyzer.None? then multiset{}
    else
      var a := p.analyzer.value;
      multiset(a.pending) + multiset(a.completed) +
      if a.executing.Some? then multiset{a.executing.value} else multiset{}
  }

  function Entries(pigs: seq<Pig>): multiset<nat> {
    if pigs == [] then multiset{} else Entries(pigs[..|pigs| - 1]) + EntriesOf(pigs[|pigs| - 1])
  }

  function Analyzers(pigs: seq<Pig>): nat {
    if pigs == [] then 0
    else Analyzers(pigs[..|pigs| - 1]) + if pigs[|pigs| - 1].analyzer.Some? then 1 else 0
  }

  predicate PigOk(p: Pig, draining: bool) {
    && (p.thread ==> p.analyzer.Some?)
    && (draining ==> p.analyzer.Some?)
    && (p.analyzer.Some? ==>
          var a := p.analyzer.value;
          && (a.stage == Stopped ==> a.executing.None?)
          && (draining ==> !p.thread && a.stage == Stopped && !a.owes)
          && (!p.thread && !draining ==> a == NEW_ANALYZER)
          && (a.stage == New ==> !a.owes))
  }

  ghost predicate PigsOk(pigs: seq<Pig>, place: Place) {
    && (place.Draining? ==> place.idx < |pigs|)
    && forall i | 0 <= i < |pigs| :: PigOk(pigs[i], place == Draining(i))
  }

  /** Pokes of a pig that are on their way to `handle`. */
  function Tokens(ring: seq<nat>, place: Place, i: nat): nat {
    multiset(ring)[i] + if place == Handling(i) then 1 else 0
  }

  /** A new analyzer is started by the one poke its construction made, and by no other. */
  predicate TokenOk(p: Pig, tokens: nat) {
    p.analyzer.Some? && p.analyzer.value.stage == New ==> if p.thread then tokens == 0 else tokens <= 1
  }

  ghost predicate RingOk(pigs: seq<Pig>, ring: seq<nat>, place: Place) {
    && (forall x | x in ring :: x < |pigs|)
    && (place.Handling? ==> place.idx < |pigs|)
    && (forall i | 0 <= i < |pigs| :: TokenOk(pigs[i], Tokens(ring, place, i)))
    && (place.RingEmpty? ==> forall i | 0 <= i < |pigs| && pigs[i].analyzer.None? :: multiset(ring)[i] == 0)
    && (place.Prepping? ==>
          && place.next <= |pigs|
          && forall i | place.next <= i < |pigs| :: pigs[i].analyzer.None? && multiset(ring)[i] == 0)
  }

  /** The command being broadcast and how many pigs it was sent to. */
  function Sending(place: Place): Option<(nat, nat)> {
    if place.Broadcasting? then Some((place.cmd, place.sent)) else None
  }

  /**
    Every command alive is referenced as often as it is queued; orphans and commands yet to be sent are not
    queued; a command that is none of these is not alive.
   */
  ghost predicate RefsOk(entries: multiset<nat>, orphans: seq<nat>, refs: map<nat, nat>, made: nat,
                         sending: Option<(nat, nat)>)
  {
    && (forall c | c in refs :: c < made && refs[c] == entries[c])
    && (forall c | c in entries :: c in refs)
    && NoRepeats(orphans)
    && (forall c | c in orphans :: c in refs && c !in entries)
    && (sending.Some? ==>
          && sending.value.0 in refs && sending.value.0 !in orphans
          && entries[sending.value.0] == sending.value.1)
    && (forall c | c in refs :: c in entries || c in orphans || (sending.Some? && c == sending.value.0))
  }

  ghost predicate Inv(s: State) {
    && s.swine == Analyzers(s.pigs)
    && PigsOk(s.pigs, s.place)
    && RingOk(s.pigs, s.ring, s.place)
    && RefsOk(Entries(s.pigs), s.orphans, s.refs, s.made, Sending(s.place))
  }

  function Initial(max: nat, live: bool): State {
    State(seq(max, i => Pig(None, false)), 0, [], if live then Prepping(0) else AtLoop, [], map[], 0)
  }
}
