/**
  Where commands go (src/main.cc, lines 146-290): which pigs a broadcast reaches, and in which order a pig is given
  its commands, in every interleaving of the threads.
 */
module PigDelivery {
  import opened Basics
  import opened PigManager
  import opened PigSafety

  /** The commands given to a pig and not yet reaped, oldest first: done, being executed, waiting. */
  function History(p: Pig): seq<nat> {
    if p.analyzer.None? then []
    else
      var a := p.analyzer.value;
      a.completed + (if a.executing.Some? then [a.executing.value] else []) + a.pending
  }

  /** The pig has an analyzer and a thread to run it. */
  predicate Listens(p: Pig) {
    p.analyzer.Some? && p.thread
  }

  predicate OfThread(a: Action) {
    a.SetStage? || a.Poke? || a.Take? || a.Complete?
  }

  lemma TakeKeepsHistory(p: Pig, q: Pig)
    requires p.analyzer.Some? && p.analyzer.value.executing.None? && p.analyzer.value.pending != []
    requires var w := p.analyzer.value;
             q == p.(analyzer := Some(w.(executing := Some(w.pending[0]), pending := w.pending[1..])))
    ensures History(q) == History(p)
  {
    var w := p.analyzer.value;
    assert w.pending == [w.pending[0]] + w.pending[1..];
  }

  lemma CompleteKeepsHistory(p: Pig, q: Pig)
    requires p.analyzer.Some? && p.analyzer.value.executing.Some?
    requires var w := p.analyzer.value;
             q == p.(analyzer := Some(w.(executing := None, completed := w.completed + [w.executing.value])))
    ensures History(q) == History(p)
  {
  }

  /** The analyzer threads move commands along, in order, and lose none. */
  lemma ThreadKeepsHistory(s: State, a: Action, i: nat)
    requires Control(s, a) && OfThread(a) && i < |s.pigs|
    ensures |ThreadStep(s, a).pigs| == |s.pigs|
    ensures var p := ThreadStep(s, a).pigs[i]; Listens(p) == Listens(s.pigs[i]) && History(p) == History(s.pigs[i])
  {
    var p, q := s.pigs[i], ThreadStep(s, a).pigs[i];
    if a.i != i {
      assert q == p;
    } else {
      match a {
        case Take(_) => hide History; TakeKeepsHistory(p, q);
        case Complete(_) => hide History; CompleteKeepsHistory(p, q);
        case SetStage(_, _) =>
        case Poke(_) =>
      }
    }
  }

  lemma ThreadStaysAside(s: State, a: Action)
    requires Control(s, a) && OfThread(a)
    ensures var t := ThreadStep(s, a);
            |t.pigs| == |s.pigs| && t.place == s.place && t.made == s.made && t.orphans == s.orphans
  {
  }

  // ---- one broadcast ----

  /** Of the first `n` pigs those that listen have been given the command, once and last; nothing else has changed. */
  ghost predicate Delivered(before: seq<Pig>, after: seq<Pig>, cmd: nat, n: nat) {
    && |after| == |before|
    && forall i | 0 <= i < |before| ::
         && Listens(after[i]) == Listens(before[i])
         && History(after[i]) == History(before[i]) + if i < n && Listens(before[i]) then [cmd] else []
  }

  predicate SomeListen(pigs: seq<Pig>) {
    exists i :: 0 <= i < |pigs| && Listens(pigs[i])
  }

  function Listeners(pigs: seq<Pig>, n: nat): nat
    requires n <= |pigs|
  {
    if n == 0 then 0 else Listeners(pigs, n - 1) + if Listens(pigs[n - 1]) then 1 else 0
  }

  /** What has happened by the time a broadcast that began among the pigs `before` has come to a pig. */
  ghost predicate Underway(before: seq<Pig>, orphans: seq<nat>, inService: bool, s: State, cmd: nat) {
    && s.place.Broadcasting? && s.place.cmd == cmd && s.place.next <= |before| && s.orphans == orphans
    && s.place.inService == inService
    && Delivered(before, s.pigs, cmd, s.place.next) && s.place.sent == Listeners(before, s.place.next)
  }

  lemma HistoryGrows(p: Pig, q: Pig, cmd: nat)
    requires p.analyzer.Some? && q.analyzer.Some?
    requires q.analyzer.value == p.analyzer.value.(pending := p.analyzer.value.pending + [cmd])
    ensures History(q) == History(p) + [cmd]
  {
  }

  /** One turn of the broadcast gives the command to the pig whose turn it is, if that listens, and to no other. */
  lemma SendsTo(s: State, i: nat)
    requires Control(s, SendNext) && MainStep(s, SendNext).Some? && i < |s.pigs|
    ensures var t, mine := MainStep(s, SendNext).value, i == s.place.next && Listens(s.pigs[i]);
            && |t.pigs| == |s.pigs| && Listens(t.pigs[i]) == Listens(s.pigs[i])
            && History(t.pigs[i]) == History(s.pigs[i]) + if mine then [s.place.cmd] else []
  {
    hide History;
    var t := MainStep(s, SendNext).value;
    if i == s.place.next && Listens(s.pigs[i]) {
      HistoryGrows(s.pigs[i], t.pigs[i], s.place.cmd);
    } else {
      assert t.pigs[i] == s.pigs[i];
    }
  }

  lemma SendPlace(s: State)
    requires Control(s, SendNext) && MainStep(s, SendNext).Some?
    ensures var t, p := MainStep(s, SendNext).value, s.place;
            && |t.pigs| == |s.pigs| && t.orphans == s.orphans && p.next < |s.pigs|
            && t.place == p.(next := p.next + 1, sent := p.sent + if Listens(s.pigs[p.next]) then 1 else 0)
  {
  }

  lemma SendReaches(before: seq<Pig>, orphans: seq<nat>, inService: bool, s: State, cmd: nat)
    requires Underway(before, orphans, inService, s, cmd) && Control(s, SendNext) && MainStep(s, SendNext).Some?
    ensures Underway(before, orphans, inService, MainStep(s, SendNext).value, cmd)
  {
    hide MainStep, History, Listens;
    var t, n := MainStep(s, SendNext).value, s.place.next;
    SendPlace(s);
    forall i | 0 <= i < |before|
      ensures Listens(t.pigs[i]) == Listens(before[i])
      ensures History(t.pigs[i]) == History(before[i]) + if i < n + 1 && Listens(before[i]) then [cmd] else []
    {
      SendsTo(s, i);
    }
  }

  lemma ThreadLeaves(before: seq<Pig>, orphans: seq<nat>, inService: bool, s: State, cmd: nat, a: Action)
    requires Underway(before, orphans, inService, s, cmd) && Control(s, a) && OfThread(a)
    ensures Underway(before, orphans, inService, ThreadStep(s, a), cmd)
  {
    hide Listens, History, Control, ThreadStep;
    var t := ThreadStep(s, a);
    ThreadStaysAside(s, a);
    forall i | 0 <= i < |before|
      ensures Listens(t.pigs[i]) == Listens(s.pigs[i]) && History(t.pigs[i]) == History(s.pigs[i])
    {
      ThreadKeepsHistory(s, a, i);
    }
  }

  lemma {:induction false} SendingReaches(
    before: seq<Pig>, orphans: seq<nat>, inService: bool, s: State, cmd: nat, run: seq<Action>)
    requires Inv(s) && Underway(before, orphans, inService, s, cmd) && Legal(s, run)
    requires forall a | a in run :: a == SendNext || OfThread(a)
    ensures Exec(s, run).Some? && Underway(before, orphans, inService, Exec(s, run).value, cmd)
    decreases |run|
  {
    hide Inv, Underway, Control, MainStep, ThreadStep;
    if run != [] {
      StepSafe(s, run[0]);
      if run[0] == SendNext {
        SendReaches(before, orphans, inService, s, cmd);
      } else {
        ThreadLeaves(before, orphans, inService, s, cmd, run[0]);
      }
      SendingReaches(before, orphans, inService, Step(s, run[0]).value, cmd, run[1..]);
    }
  }

  /**
    A broadcast, whatever the analyzer threads do meanwhile: when it is done, exactly the pigs that had an analyzer
    and a thread when it began have been given the command, each once and behind all its other commands.  The
    command is an orphan if and only if there was no such pig.
   */
  lemma BroadcastReaches(s: State, run: seq<Action>)
    requires Inv(s) && Control(s, BroadcastNew) && Step(s, BroadcastNew).Some?
    requires Legal(Step(s, BroadcastNew).value, run)
    requires forall a | a in run :: a == SendNext || OfThread(a)
    ensures Exec(Step(s, BroadcastNew).value, run).Some?
    ensures var t := Exec(Step(s, BroadcastNew).value, run).value;
            Control(t, SendDone) ==>
              && Step(t, SendDone).Some?
              && var u := Step(t, SendDone).value;
                 && Delivered(s.pigs, u.pigs, s.made, |s.pigs|)
                 && t.place.sent == Listeners(s.pigs, |s.pigs|)
                 && u.orphans == s.orphans + (if SomeListen(s.pigs) then [] else [s.made])
                 && u.place == if s.place.Servicing? then Servicing else AtLoop
  {
    hide Inv, Delivered, Control, Legal, Exec, MainStep, Underway;
    StepSafe(s, BroadcastNew);
    BroadcastBegins(s);
    SendingReaches(s.pigs, s.orphans, s.place.Servicing?, Step(s, BroadcastNew).value, s.made, run);
    var t := Exec(Step(s, BroadcastNew).value, run).value;
    if Control(t, SendDone) {
      BroadcastEnds(s.pigs, s.orphans, s.place.Servicing?, t, s.made);
    }
  }

  lemma BroadcastBegins(s: State)
    requires Control(s, BroadcastNew)
    ensures Underway(s.pigs, s.orphans, s.place.Servicing?, MainStep(s, BroadcastNew).value, s.made)
  {
  }

  lemma BroadcastEnds(before: seq<Pig>, orphans: seq<nat>, inService: bool, s: State, cmd: nat)
    requires Underway(before, orphans, inService, s, cmd) && Control(s, SendDone)
    ensures MainStep(s, SendDone).Some? && s.place.Broadcasting? && s.place.sent == Listeners(before, |before|)
    ensures var t := MainStep(s, SendDone).value;
            && Delivered(before, t.pigs, cmd, |before|)
            && t.orphans == orphans + (if SomeListen(before) then [] else [cmd])
            && t.place == if inService then Servicing else AtLoop
  {
    hide Listens, History;
    SomeListens(before, |before|);
    assert orphans + [] == orphans;
  }

  lemma {:induction false} SomeListens(pigs: seq<Pig>, n: nat)
    requires n <= |pigs|
    ensures Listeners(pigs, n) > 0 <==> exists i :: 0 <= i < n && Listens(pigs[i])
  {
    if n > 0 {
      SomeListens(pigs, n - 1);
      if Listens(pigs[n - 1]) {
        assert exists i :: 0 <= i < n && Listens(pigs[i]);
      }
    }
  }

  // ---- the order of commands ----

  /** What a step may do to the commands of pig `i`: nothing, take the oldest, or add the newest. */
  predicate Passes(s: State, t: State, i: nat, before: seq<nat>, after: seq<nat>) {
    || after == before
    || (before != [] && after == before[1..])
    || (after == before + [s.made] && t.made == s.made + 1 && !s.place.Broadcasting? && !t.place.Broadcasting?)
    || (s.place.Broadcasting? && s.place.next == i && after == before + [s.place.cmd])
  }

  lemma FirstGoes(a: seq<nat>, b: seq<nat>, c: seq<nat>)
    requires a != []
    ensures (a + b + c) != [] && (a + b + c)[1..] == a[1..] + b + c
  {
  }

  /** Reaping takes the oldest command of a pig. */
  lemma ReapTakesOldest(s: State, i: nat)
    requires HasAnalyzer(s, i) && s.pigs[i].analyzer.value.completed != [] && ReapCompleted(s, i).Some?
    ensures var h := History(s.pigs[i]);
            h != [] && ReapCompleted(s, i).value.pigs == s.pigs[i := ReapCompleted(s, i).value.pigs[i]] &&
            History(ReapCompleted(s, i).value.pigs[i]) == h[1..]
  {
    var a := s.pigs[i].analyzer.value;
    FirstGoes(a.completed, if a.executing.Some? then [a.executing.value] else [], a.pending);
  }

  lemma OnlyPending(p: Pig)
    requires p.analyzer.Some? && p.analyzer.value.completed == [] && p.analyzer.value.executing.None?
    ensures History(p) == p.analyzer.value.pending
  {
    assert [] + [] + p.analyzer.value.pending == p.analyzer.value.pending;
  }

  lemma DrainTakesOldest(s: State)
    requires Control(s, DrainPending) && MainStep(s, DrainPending).Some?
    requires s.pigs[s.place.idx].analyzer.value.executing.None?
    ensures var t, i := MainStep(s, DrainPending).value, s.place.idx;
            && History(s.pigs[i]) != []
            && t.pigs == s.pigs[i := t.pigs[i]] && History(t.pigs[i]) == History(s.pigs[i])[1..]
  {
    hide History, LazyPig, Poked, ReapCompleted;
    OnlyPending(s.pigs[s.place.idx]);
    OnlyPending(MainStep(s, DrainPending).value.pigs[s.place.idx]);
  }

  lemma OwnReaches(s: State)
    requires Inv(s) && Control(s, QueueOwn) && MainStep(s, QueueOwn).Some?
    ensures var t, i := MainStep(s, QueueOwn).value, s.place.idx;
            && i < |s.pigs| && t.made == s.made + 1
            && if s.pigs[i].thread then
                 && t.pigs == s.pigs[i := t.pigs[i]] && History(t.pigs[i]) == History(s.pigs[i]) + [s.made]
                 && t.orphans == s.orphans
               else t.pigs == s.pigs && t.orphans == s.orphans + [s.made]
  {
    hide Inv;
    if s.pigs[s.place.idx].thread {
      HistoryGrows(s.pigs[s.place.idx], MainStep(s, QueueOwn).value.pigs[s.place.idx], s.made);
    }
  }

  /** Every step of any thread passes the commands of every pig on in order. */
  lemma StepPasses(s: State, a: Action, i: nat)
    requires Inv(s) && Control(s, a) && Step(s, a).Some? && i < |s.pigs|
    ensures |Step(s, a).value.pigs| == |s.pigs|
    ensures Passes(s, Step(s, a).value, i, History(s.pigs[i]), History(Step(s, a).value.pigs[i]))
  {
    hide Inv, LazyPig, Poked, Reaped;
    if OfThread(a) {
      ThreadKeepsHistory(s, a, i);
    } else {
      match a {
        case QueueOwn => OwnReaches(s);
        case SendNext =>
          if HasAnalyzer(s, s.place.next) && s.pigs[s.place.next].thread {
            HistoryGrows(s.pigs[s.place.next], Step(s, a).value.pigs[s.place.next], s.place.cmd);
          }
        case DrainCompleted => ReapTakesOldest(s, s.place.idx);
        case ReapOne =>
          var left := |s.pigs[s.place.idx].analyzer.value.completed|;
          ReapTakesOldest(s.(place := ReapingPigs(s.place.idx, left == 1)), s.place.idx);
        case DrainPending =>
          ThePigIsOk(s, s.place.idx);
          DrainTakesOldest(s);
        case DropAnalyzer => ThePigIsOk(s, s.place.idx);
        case _ =>
      }
    }
  }

  /** Commands are numbered as they are made. */
  predicate InOrder(h: seq<nat>, bound: nat) {
    && (forall j, k | 0 <= j < k < |h| :: h[j] < h[k])
    && (forall j | 0 <= j < |h| :: h[j] < bound)
  }

  /** The commands that a pig may have been given have numbers below this. */
  function Bound(s: State, i: nat): nat {
    if s.place.Broadcasting? && i >= s.place.next then s.place.cmd else s.made
  }

  /** Every pig has its commands in the order in which they were made, and none twice. */
  ghost predicate Ordered(s: State) {
    && (s.place.Broadcasting? ==> s.place.cmd + 1 == s.made)
    && (forall i | 0 <= i < |s.pigs| :: InOrder(History(s.pigs[i]), Bound(s, i)))
  }

  lemma BoundGrows(s: State, a: Action, i: nat)
    requires Control(s, a) && Step(s, a).Some? && (s.place.Broadcasting? ==> s.place.cmd + 1 == s.made)
    ensures var t := Step(s, a).value;
            && (t.place.Broadcasting? ==> t.place.cmd + 1 == t.made) && Bound(s, i) <= Bound(t, i)
            && (s.place.Broadcasting? && a == SendNext && i == s.place.next ==> s.place.cmd < Bound(t, i))
  {
    hide LazyPig, Poked;
  }

  lemma AddsOnlyNext(s: State, a: Action, i: nat)
    requires Control(s, a) && Step(s, a).Some? && i < |s.pigs| && s.place.Broadcasting? && a != SendNext
    ensures |Step(s, a).value.pigs| == |s.pigs| && History(Step(s, a).value.pigs[i]) == History(s.pigs[i])
  {
    if OfThread(a) {
      ThreadKeepsHistory(s, a, i);
    }
  }

  lemma StaysInOrder(h: seq<nat>, b: nat, h': seq<nat>, b': nat)
    requires InOrder(h, b) && b <= b'
    requires h' == h || (h != [] && h' == h[1..]) || (b < b' && h' == h + [b])
    ensures InOrder(h', b')
  {
  }

  lemma OrderKept(s: State, a: Action)
    requires Inv(s) && Ordered(s) && Control(s, a) && Step(s, a).Some?
    ensures Ordered(Step(s, a).value)
  {
    hide Inv, Control, Step, InOrder, History;
    var t := Step(s, a).value;
    BoundGrows(s, a, 0);
    forall i | 0 <= i < |t.pigs| ensures InOrder(History(t.pigs[i]), Bound(t, i)) {
      DroveStays(s, a);
      StepPasses(s, a, i);
      BoundGrows(s, a, i);
      if s.place.Broadcasting? && a != SendNext {
        AddsOnlyNext(s, a, i);
      }
      StaysInOrder(History(s.pigs[i]), Bound(s, i), History(t.pigs[i]), Bound(t, i));
    }
  }

  lemma DroveStays(s: State, a: Action)
    requires Control(s, a) && Step(s, a).Some?
    ensures |Step(s, a).value.pigs| == |s.pigs|
  {
    hide LazyPig, Poked;
  }

  lemma {:induction false} AlwaysOrdered(s: State, run: seq<Action>)
    requires Inv(s) && Ordered(s) && Legal(s, run)
    ensures Exec(s, run).Some? && Ordered(Exec(s, run).value)
    decreases |run|
  {
    hide Inv, Ordered, Control, Step;
    if run != [] {
      StepSafe(s, run[0]);
      OrderKept(s, run[0]);
      AlwaysOrdered(Step(s, run[0]).value, run[1..]);
    }
  }

  /** In every run of all threads from the start, every pig has its commands in the order in which they were made. */
  lemma CommandsInOrder(max: nat, live: bool, run: seq<Action>, i: nat)
    requires Legal(Initial(max, live), run)
    ensures Exec(Initial(max, live), run).Some?
    ensures var t := Exec(Initial(max, live), run).value; i < |t.pigs| ==> InOrder(History(t.pigs[i]), t.made)
  {
    InitialInv(max, live);
    assert Ordered(Initial(max, live));
    hide Inv, InOrder;
    AlwaysOrdered(Initial(max, live), run);
    var t := Exec(Initial(max, live), run).value;
    if i < |t.pigs| {
      StaysInOrder(History(t.pigs[i]), Bound(t, i), History(t.pigs[i]), t.made);
    }
  }
}
