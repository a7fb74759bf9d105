/**
  The life of pigs (src/main.cc, lines 146-257 and 642-885): how commands are reaped, how pokes travel, in which order
  pigs are prepped, started, joined and dropped, and that no thread is ever stuck, in every interleaving.
 */
module PigLife {
  import opened Basics
  import opened PigManager
  import opened PigSafety
  import opened PigDelivery

  // ---- reaping ----

  function DoneOf(p: Pig): seq<nat> {
    if p.analyzer.None? then [] else p.analyzer.value.completed
  }

  /** Since `p` the oldest commands of the pig have been reaped and others may have been completed. */
  predicate Reaping(p: Pig, q: Pig) {
    && |History(q)| <= |History(p)| && History(q) == History(p)[|History(p)| - |History(q)|..]
    && |DoneOf(p)| <= |History(p)| - |History(q)| + |DoneOf(q)| && (p.analyzer.None? ==> q.analyzer.None?)
  }

  /** All that was completed then has been reaped. */
  predicate AllReaped(p: Pig, q: Pig) {
    Reaping(p, q) && |DoneOf(p)| <= |History(p)| - |History(q)|
  }

  lemma DoneInHistory(p: Pig)
    ensures |DoneOf(p)| <= |History(p)|
  {
  }

  lemma ReapingStarts(p: Pig)
    ensures Reaping(p, p)
  {
    DoneInHistory(p);
    assert History(p)[0..] == History(p);
  }

  /** Where reaping stands that began with the pigs and orphans `before` and `orphans`. */
  ghost predicate ReapsOn(before: seq<Pig>, orphans: seq<nat>, s: State) {
    && |s.pigs| == |before| && |s.orphans| <= |orphans| && s.orphans == orphans[|orphans| - |s.orphans|..]
    && (forall k | 0 <= k < |orphans| - |s.orphans| :: orphans[k] !in s.refs)
    && (s.place.ReapingPigs? || s.place.ReapingOrphans?)
    && (forall i | 0 <= i < |before| :: Reaping(before[i], s.pigs[i]))
    && (forall i | 0 <= i < |before| && Passed(s.place, i) :: AllReaped(before[i], s.pigs[i]))
  }

  predicate Passed(place: Place, i: nat) {
    place.ReapingOrphans? || (place.ReapingPigs? && (i < place.idx || (i == place.idx && place.last)))
  }

  lemma TailOfTail(h: seq<nat>, k: nat)
    requires k < |h|
    ensures h[k..][1..] == h[k + 1..]
  {
  }

  lemma ReapOnePig(p: Pig, q: Pig, r: Pig)
    requires Reaping(p, q) && q.analyzer.Some? && q.analyzer.value.completed != []
    requires r == q.(analyzer := Some(q.analyzer.value.(completed := q.analyzer.value.completed[1..])))
    ensures Reaping(p, r) && (|DoneOf(q)| == 1 ==> AllReaped(p, r))
  {
    var a := q.analyzer.value;
    FirstGoes(a.completed, if a.executing.Some? then [a.executing.value] else [], a.pending);
    assert History(r) == History(q)[1..];
    TailOfTail(History(p), |History(p)| - |History(q)|);
  }

  lemma ThreadReaping(p: Pig, s: State, a: Action, i: nat)
    requires Control(s, a) && OfThread(a) && i < |s.pigs| && Reaping(p, s.pigs[i])
    ensures |ThreadStep(s, a).pigs| == |s.pigs|
    ensures var q := ThreadStep(s, a).pigs[i]; Reaping(p, q) && (AllReaped(p, s.pigs[i]) ==> AllReaped(p, q))
  {
    hide History;
    ThreadKeepsHistory(s, a, i);
    ThreadDone(s, a, i);
  }

  lemma ThreadDone(s: State, a: Action, i: nat)
    requires Control(s, a) && OfThread(a) && i < |s.pigs|
    ensures |ThreadStep(s, a).pigs| == |s.pigs| && |DoneOf(s.pigs[i])| <= |DoneOf(ThreadStep(s, a).pigs[i])|
    ensures s.pigs[i].analyzer.None? ==> ThreadStep(s, a).pigs[i].analyzer.None?
  {
  }

  lemma ThreadReaps(before: seq<Pig>, orphans: seq<nat>, s: State, a: Action)
    requires ReapsOn(before, orphans, s) && Control(s, a) && OfThread(a)
    ensures ReapsOn(before, orphans, ThreadStep(s, a))
  {
    hide Reaping, AllReaped, Control, ThreadStep;
    var t := ThreadStep(s, a);
    ThreadStaysAside(s, a);
    ThreadRefs(s, a);
    forall i | 0 <= i < |before|
      ensures Reaping(before[i], t.pigs[i]) && (AllReaped(before[i], s.pigs[i]) ==> AllReaped(before[i], t.pigs[i]))
    {
      ThreadReaping(before[i], s, a, i);
    }
  }

  lemma ThreadRefs(s: State, a: Action)
    requires Control(s, a) && OfThread(a)
    ensures ThreadStep(s, a).refs == s.refs
  {
  }

  predicate OfReaping(a: Action) {
    a == ReapOne || a == ReapNextPig || a == ReapOrphan
  }

  lemma MainReaps(before: seq<Pig>, orphans: seq<nat>, s: State, a: Action)
    requires ReapsOn(before, orphans, s) && Control(s, a) && OfReaping(a) && MainStep(s, a).Some?
    ensures ReapsOn(before, orphans, MainStep(s, a).value)
  {
    match a
    case ReapOne => ReapsOne(before, orphans, s);
    case ReapNextPig => ReapsNext(before, orphans, s);
    case ReapOrphan => ReapsOrphan(before, orphans, s);
  }

  lemma ReapsOne(before: seq<Pig>, orphans: seq<nat>, s: State)
    requires ReapsOn(before, orphans, s) && Control(s, ReapOne) && MainStep(s, ReapOne).Some?
    ensures ReapsOn(before, orphans, MainStep(s, ReapOne).value)
  {
    hide Reaping, AllReaped;
    var t, j := MainStep(s, ReapOne).value, s.place.idx;
    ReapOnePig(before[j], s.pigs[j], t.pigs[j]);
  }

  lemma ReapsNext(before: seq<Pig>, orphans: seq<nat>, s: State)
    requires ReapsOn(before, orphans, s) && Control(s, ReapNextPig)
    ensures ReapsOn(before, orphans, MainStep(s, ReapNextPig).value)
  {
    hide History;
    var j := s.place.idx;
    if j < |before| && !s.place.last {
      assert DoneOf(s.pigs[j]) == [];
      assert AllReaped(before[j], s.pigs[j]);
    }
    hide Reaping, AllReaped;
  }

  lemma ReapsOrphan(before: seq<Pig>, orphans: seq<nat>, s: State)
    requires ReapsOn(before, orphans, s) && Control(s, ReapOrphan) && MainStep(s, ReapOrphan).Some?
    ensures ReapsOn(before, orphans, MainStep(s, ReapOrphan).value)
  {
    hide Reaping, AllReaped;
    TailOfTail(orphans, |orphans| - |s.orphans|);
  }

  lemma {:induction false} ReapingGoesOn(before: seq<Pig>, orphans: seq<nat>, s: State, run: seq<Action>)
    requires Inv(s) && ReapsOn(before, orphans, s) && Legal(s, run)
    requires forall a | a in run :: OfReaping(a) || OfThread(a)
    ensures Exec(s, run).Some? && ReapsOn(before, orphans, Exec(s, run).value)
    decreases |run|
  {
    hide Inv, ReapsOn, Control, MainStep, ThreadStep;
    if run != [] {
      StepSafe(s, run[0]);
      if OfThread(run[0]) {
        ThreadReaps(before, orphans, s, run[0]);
      } else {
        MainReaps(before, orphans, s, run[0]);
      }
      ReapingGoesOn(before, orphans, Step(s, run[0]).value, run[1..]);
    }
  }

  /**
    Reaping, whatever the analyzer threads do meanwhile: when it is done, every command that was completed when it
    began has been taken from its pig, oldest first and without taking any other out of turn, and every orphan has
    been deleted.
   */
  lemma ReapsAll(s: State, run: seq<Action>)
    requires Inv(s) && Control(s, ReapStart) && Step(s, ReapStart).Some?
    requires Legal(Step(s, ReapStart).value, run) && forall a | a in run :: OfReaping(a) || OfThread(a)
    ensures Exec(Step(s, ReapStart).value, run).Some?
    ensures var t := Exec(Step(s, ReapStart).value, run).value;
            Control(t, ReapDone) ==>
              && Step(t, ReapDone).Some? && |t.pigs| == |s.pigs|
              && var u := Step(t, ReapDone).value;
                 && (forall i | 0 <= i < |s.pigs| :: AllReaped(s.pigs[i], u.pigs[i]))
                 && u.orphans == [] && (forall c | c in s.orphans :: c !in u.refs) && u.place == Servicing
  {
    hide Inv, Legal, Exec, Reaping, AllReaped;
    StepSafe(s, ReapStart);
    forall i | 0 <= i < |s.pigs| ensures Reaping(s.pigs[i], s.pigs[i]) { ReapingStarts(s.pigs[i]); }
    assert s.orphans[0..] == s.orphans;
    ReapingGoesOn(s.pigs, s.orphans, Step(s, ReapStart).value, run);
  }

  // ---- pokes ----

  /** The main thread makes an analyzer for pig `i`, or its thread makes the poke that it owes. */
  predicate Announces(s: State, a: Action, i: nat) {
    || (a == PrepNext && s.place == Prepping(i))
    || (a == PrepLazy && i == LazyPig(s.pigs))
    || a == Poke(i)
  }

  /** The main thread is done with a poke of pig `i`. */
  predicate Answers(s: State, a: Action, i: nat) {
    s.place == Handling(i) && !OfThread(a)
  }

  lemma PokeCounts(ring: seq<nat>, id: nat, max: nat, i: nat)
    ensures multiset(Poked(ring, id, max))[i] == multiset(ring)[i] + if id == i && |ring| < max then 1 else 0
  {
  }

  lemma ThreadPokes(s: State, a: Action, i: nat)
    requires Control(s, a) && OfThread(a) && i < |s.pigs|
    ensures var t := Step(s, a).value;
            Tokens(t.ring, t.place, i) ==
            Tokens(s.ring, s.place, i) + if a == Poke(i) && |s.ring| < |s.pigs| then 1 else 0
  {
    hide Poked;
    PokeCounts(s.ring, a.i, |s.pigs|, i);
  }

  lemma PrepPokes(s: State, a: Action, i: nat)
    requires Control(s, a) && Step(s, a).Some? && a in {PrepNext, PrepLazy} && i < |s.pigs|
    ensures !s.place.Handling?
    ensures var t := Step(s, a).value;
            Tokens(t.ring, t.place, i) ==
            Tokens(s.ring, s.place, i) + if Announces(s, a, i) && |s.ring| < |s.pigs| then 1 else 0
  {
    hide Poked, LazyPig, ThreadStep;
    PokeCounts(s.ring, if a == PrepNext then s.place.next else LazyPig(s.pigs), |s.pigs|, i);
  }

  lemma ReadPokes(s: State, i: nat)
    requires Control(s, Read) && Step(s, Read).Some? && i < |s.pigs|
    ensures !s.place.Handling?
    ensures var t := Step(s, Read).value; Tokens(t.ring, t.place, i) == Tokens(s.ring, s.place, i)
  {
    hide ThreadStep;
    if s.ring != [] {
      assert s.ring == [s.ring[0]] + s.ring[1..];
    }
  }

  lemma NoPokes(s: State, a: Action)
    requires Control(s, a) && Step(s, a).Some? && !OfThread(a) && a !in {PrepNext, PrepLazy, Read}
    ensures Step(s, a).value.ring == s.ring && !Step(s, a).value.place.Handling?
  {
    hide LazyPig, Poked, ThreadStep;
  }

  lemma RestPokes(s: State, a: Action, i: nat)
    requires Control(s, a) && Step(s, a).Some? && !OfThread(a)
    requires Step(s, a).value.ring == s.ring && !Step(s, a).value.place.Handling?
    ensures var t := Step(s, a).value;
            Tokens(t.ring, t.place, i) + (if Answers(s, a, i) then 1 else 0) == Tokens(s.ring, s.place, i)
  {
    hide Step, Control;
  }

  /**
    Pokes are conserved: the pokes of a pig on their way to the main thread grow by one exactly when one is made and
    the ring has room, and shrink by one exactly when one has been handled.
   */
  lemma PokesMove(s: State, a: Action, i: nat)
    requires Control(s, a) && Step(s, a).Some? && i < |s.pigs|
    ensures var t := Step(s, a).value;
            Tokens(t.ring, t.place, i) + (if Answers(s, a, i) then 1 else 0) ==
            Tokens(s.ring, s.place, i) + (if Announces(s, a, i) && |s.ring| < |s.pigs| then 1 else 0)
  {
    hide LazyPig, Tokens, Control, Step;
    if OfThread(a) {
      ThreadPokes(s, a, i);
    } else if a in {PrepNext, PrepLazy} {
      PrepPokes(s, a, i);
    } else if a == Read {
      ReadPokes(s, i);
    } else {
      NoPokes(s, a);
      RestPokes(s, a, i);
    }
  }

  /** An analyzer thread that has changed its state does nothing else before it has poked the main thread. */
  lemma ChangesAreAnnounced(s: State, i: nat, stage: Stage, b: Action)
    requires Control(s, SetStage(i, stage)) && OfThread(b) && b.i == i
    ensures Control(ThreadStep(s, SetStage(i, stage)), b) <==> b == Poke(i)
  {
  }

  // ---- the life of a pig ----

  datatype Life = Free | Prepped | Threaded | Drained

  function LifeOf(s: State, i: nat): Life
    requires i < |s.pigs|
  {
    if s.pigs[i].analyzer.None? then Free
    else if s.pigs[i].thread then Threaded
    else if s.place == Draining(i) then Drained
    else Prepped
  }

  /** Which step of a pig's life an action of the main thread is, if it is one. */
  function NextLife(s: State, a: Action, i: nat): Life
    requires i < |s.pigs|
  {
    if a == PrepNext && s.place == Prepping(i) then Prepped
    else if a == PrepLazy && i == LazyPig(s.pigs) then Prepped
    else if a == StartPig && s.place == Handling(i) then Threaded
    else if a == JoinPig && s.place == Handling(i) then Drained
    else if a == DropAnalyzer && s.place == Draining(i) then Free
    else LifeOf(s, i)
  }

  /**
    A pig is prepped, started, joined and dropped in this order, by the main thread alone, and by nothing else: not
    by what the analyzer threads do, and not by what happens to other pigs.
   */
  lemma LifeGoesOn(s: State, a: Action, i: nat)
    requires Inv(s) && Control(s, a) && i < |s.pigs|
    ensures Step(s, a).Some? && |Step(s, a).value.pigs| == |s.pigs|
    ensures LifeOf(Step(s, a).value, i) == NextLife(s, a, i)
    ensures NextLife(s, a, i) != LifeOf(s, i) ==>
              (LifeOf(s, i), NextLife(s, a, i)) in
                {(Free, Prepped), (Prepped, Threaded), (Threaded, Drained), (Drained, Free)}
  {
    hide Inv, LazyPig, Poked, TokenOk, Tokens, Control, Step;
    StepSafe(s, a);
    DroveStays(s, a);
    ThePigIsOk(s, i);
    if a in {PrepNext, PrepLazy} {
      PrepLives(s, a, i);
    } else if a in {StartPig, JoinPig, DropAnalyzer} {
      OwnLives(s, a, i);
    } else {
      OthersLive(s, a, i);
    }
  }

  lemma PrepLives(s: State, a: Action, i: nat)
    requires Control(s, a) && Step(s, a).Some? && i < |s.pigs| && a in {PrepNext, PrepLazy}
    requires PigOk(s.pigs[i], s.place == Draining(i))
    ensures |Step(s, a).value.pigs| == |s.pigs| && LifeOf(Step(s, a).value, i) == NextLife(s, a, i)
    ensures NextLife(s, a, i) != LifeOf(s, i) ==> LifeOf(s, i) == Free && NextLife(s, a, i) == Prepped
  {
    hide LazyPig, Poked;
  }

  lemma OwnLives(s: State, a: Action, i: nat)
    requires Control(s, a) && Step(s, a).Some? && i < |s.pigs| && a in {StartPig, JoinPig, DropAnalyzer}
    requires PigOk(s.pigs[i], s.place == Draining(i))
    ensures |Step(s, a).value.pigs| == |s.pigs| && LifeOf(Step(s, a).value, i) == NextLife(s, a, i)
    ensures NextLife(s, a, i) != LifeOf(s, i) ==>
              (LifeOf(s, i), NextLife(s, a, i)) in {(Prepped, Threaded), (Threaded, Drained), (Drained, Free)}
  {
    hide LazyPig, Poked;
  }

  /** All other steps leave analyzer and thread of every pig, and the draining of one. */
  lemma OthersLive(s: State, a: Action, i: nat)
    requires Control(s, a) && Step(s, a).Some? && i < |s.pigs|
    requires a !in {PrepNext, PrepLazy, StartPig, JoinPig, DropAnalyzer}
    ensures |Step(s, a).value.pigs| == |s.pigs|
    ensures LifeOf(Step(s, a).value, i) == LifeOf(s, i) == NextLife(s, a, i)
  {
    hide LazyPig, Poked;
    if OfThread(a) {
      ThreadStaysAside(s, a);
      ThreadKeepsLife(s, a, i);
    } else if a in {DrainCompleted, DrainPending, ReapOne} {
      ReapingKeepsLife(s, a, i);
    } else {
      hide ThreadStep, ReapCompleted, Reaped;
    }
  }

  lemma ReapingKeepsLife(s: State, a: Action, i: nat)
    requires Control(s, a) && Step(s, a).Some? && i < |s.pigs| && a in {DrainCompleted, DrainPending, ReapOne}
    ensures |Step(s, a).value.pigs| == |s.pigs| && LifeOf(Step(s, a).value, i) == LifeOf(s, i)
  {
    hide ThreadStep, LazyPig, Poked;
  }

  lemma ThreadKeepsLife(s: State, a: Action, i: nat)
    requires Control(s, a) && OfThread(a) && i < |s.pigs|
    ensures |ThreadStep(s, a).pigs| == |s.pigs| && LifeOf(ThreadStep(s, a), i) == LifeOf(s, i)
  {
  }

  // ---- no thread is stuck ----

  /** Something that the main thread can do where it is. */
  function MainNext(s: State): Action {
    match s.place
    case Prepping(next) => if next < |s.pigs| then PrepNext else PrepDone
    case AtLoop => Read
    case Handling(i) => if HandlesStage(s, New) then StartPig else HandleNothing
    case RingEmpty => Serve
    case Servicing => ReapStart
    case Broadcasting(_, next, _, _) => if next < |s.pigs| then SendNext else SendDone
    case Draining(i) =>
      if !HasAnalyzer(s, i) then DropAnalyzer
      else if s.pigs[i].analyzer.value.completed != [] then DrainCompleted
      else if s.pigs[i].analyzer.value.pending != [] then DrainPending
      else DropAnalyzer
    case ReapingPigs(i, last) =>
      if !last && HasAnalyzer(s, i) && s.pigs[i].analyzer.value.completed != [] then ReapOne else ReapNextPig
    case ReapingOrphans => if s.orphans != [] then ReapOrphan else ReapDone
    case Exited => LoopExit
  }

  ghost predicate Placed(s: State) {
    s.place.Broadcasting? ==> s.place.next <= |s.pigs|
  }

  /** The main thread can always go on until it leaves its loop. */
  lemma MainGoesOn(s: State)
    requires Inv(s) && Placed(s) && !s.place.Exited?
    ensures !OfThread(MainNext(s)) && Control(s, MainNext(s))
  {
    hide RefsOk, Entries, Analyzers, TokenOk;
    if s.place.Draining? {
      ThePigIsOk(s, s.place.idx);
    }
  }

  lemma PlacedKept(s: State, a: Action)
    requires Placed(s) && Control(s, a) && Step(s, a).Some?
    ensures Placed(Step(s, a).value)
  {
    hide LazyPig, Poked;
    DroveStays(s, a);
  }

  /** A poke of an analyzer that waits for a command can be answered with one, and a stopped one can be joined. */
  lemma PokeCanBeAnswered(s: State)
    requires s.place.Handling? && HasAnalyzer(s, s.place.idx)
    ensures var a := s.pigs[s.place.idx].analyzer.value;
            && (a.stage in {Initialized, Started} ==> Control(s, QueueOwn) && Control(s, BroadcastNew))
            && (a.stage == Stopped && !a.owes ==> Control(s, JoinPig))
            && (a.stage == New <==> Control(s, StartPig))
  {
  }

  /** An analyzer thread can always go on until it has stopped: it pokes, works, or changes its state. */
  lemma ThreadGoesOn(s: State, i: nat)
    requires HasAnalyzer(s, i) && s.pigs[i].thread
    ensures var a := s.pigs[i].analyzer.value;
            && (a.owes ==> Control(s, Poke(i)))
            && (!a.owes && a.stage != Stopped && a.executing.Some? ==> Control(s, Complete(i)))
            && (!a.owes && a.stage == New ==> Control(s, SetStage(i, Initialized)))
            && (!a.owes && a.stage !in {New, Stopped} && a.executing.None? ==>
                  Control(s, SetStage(i, Stopped)) && (a.pending != [] ==> Control(s, Take(i))))
  {
  }
}
