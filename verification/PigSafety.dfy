/** What every step of the main thread and the analyzer threads keeps, and what follows for whole runs. */
module PigSafety {
  import opened Basics
  import opened PigManager
  import Runs

  // ---- sums over the pigs ----

  lemma {:induction false} EntriesUpdate(pigs: seq<Pig>, i: nat, p: Pig)
    requires i < |pigs|
    ensures Entries(pigs[i := p]) + EntriesOf(pigs[i]) == Entries(pigs) + EntriesOf(p)
    ensures EntriesOf(pigs[i]) <= Entries(pigs)
  {
    hide EntriesOf;
    var n := |pigs| - 1;
    if i == n {
      assert pigs[i := p][..n] == pigs[..n];
    } else {
      EntriesUpdate(pigs[..n], i, p);
      assert pigs[i := p][..n] == pigs[..n][i := p];
      Regroup(Entries(pigs[..n][i := p]), EntriesOf(pigs[i]), Entries(pigs[..n]), EntriesOf(p), EntriesOf(pigs[n]));
    }
  }

  lemma Regroup(a: multiset<nat>, x: multiset<nat>, b: multiset<nat>, y: multiset<nat>, q: multiset<nat>)
    requires a + x == b + y
    ensures (a + q) + x == (b + q) + y
  {
    assert (a + q) + x == (a + x) + q;
    assert (b + q) + y == (b + y) + q;
  }

  lemma {:induction false} AnalyzersUpdate(pigs: seq<Pig>, i: nat, p: Pig)
    requires i < |pigs|
    ensures Analyzers(pigs[i := p]) + (if pigs[i].analyzer.Some? then 1 else 0) ==
            Analyzers(pigs) + (if p.analyzer.Some? then 1 else 0)
  {
    var n := |pigs| - 1;
    if i == n {
      assert pigs[i := p][..n] == pigs[..n];
    } else {
      AnalyzersUpdate(pigs[..n], i, p);
      assert pigs[i := p][..n] == pigs[..n][i := p];
    }
  }

  lemma {:induction false} AnalyzersAt(pigs: seq<Pig>, i: nat)
    requires i < |pigs| && pigs[i].analyzer.Some?
    ensures Analyzers(pigs) > 0
  {
    if i < |pigs| - 1 {
      AnalyzersAt(pigs[..|pigs| - 1], i);
    }
  }

  lemma {:induction false} NoAnalyzers(pigs: seq<Pig>)
    requires Analyzers(pigs) == 0
    ensures forall i | 0 <= i < |pigs| :: pigs[i].analyzer.None?
    ensures Entries(pigs) == multiset{}
  {
    if pigs != [] {
      NoAnalyzers(pigs[..|pigs| - 1]);
    }
  }

  lemma {:induction false} FullDrove(pigs: seq<Pig>)
    requires forall i | 0 <= i < |pigs| :: pigs[i].analyzer.Some?
    ensures Analyzers(pigs) == |pigs|
  {
    if pigs != [] {
      FullDrove(pigs[..|pigs| - 1]);
    }
  }

  /** `get_lazy_pig` finds the first free pig if there is one. */
  lemma {:induction false} LazyPigIsFree(pigs: seq<Pig>, i: nat)
    requires i < |pigs| && pigs[i].analyzer.None?
    ensures LazyPig(pigs) <= i && pigs[LazyPig(pigs)].analyzer.None?
    ensures forall j | 0 <= j < LazyPig(pigs) :: pigs[j].analyzer.Some?
  {
    if pigs[0].analyzer.Some? {
      LazyPigIsFree(pigs[1..], i - 1);
      assert pigs[1..][LazyPig(pigs[1..])] == pigs[LazyPig(pigs)];
      forall j | 0 <= j < LazyPig(pigs) ensures pigs[j].analyzer.Some? {
        assert j > 0 ==> pigs[j] == pigs[1..][j - 1];
      }
    }
  }

  lemma LazyPigFound(pigs: seq<Pig>)
    requires Analyzers(pigs) < |pigs|
    ensures LazyPig(pigs) < |pigs| && pigs[LazyPig(pigs)].analyzer.None?
  {
    if i :| 0 <= i < |pigs| && pigs[i].analyzer.None? {
      LazyPigIsFree(pigs, i);
    } else {
      FullDrove(pigs);
    }
  }

  // ---- reference counts ----

  lemma RefsNew(entries: multiset<nat>, orphans: seq<nat>, refs: map<nat, nat>, made: nat)
    requires RefsOk(entries, orphans, refs, made, None)
    ensures made !in refs && made !in entries && made !in orphans
    ensures RefsOk(entries, orphans, refs[made := 0], made + 1, Some((made, 0)))
  {
  }

  lemma RefsSend(entries: multiset<nat>, orphans: seq<nat>, refs: map<nat, nat>, made: nat, cmd: nat, sent: nat)
    requires RefsOk(entries, orphans, refs, made, Some((cmd, sent)))
    ensures cmd in refs
    ensures RefsOk(entries + multiset{cmd}, orphans, refs[cmd := refs[cmd] + 1], made, Some((cmd, sent + 1)))
  {
  }

  lemma RefsSent(entries: multiset<nat>, orphans: seq<nat>, refs: map<nat, nat>, made: nat, cmd: nat, sent: nat)
    requires RefsOk(entries, orphans, refs, made, Some((cmd, sent)))
    ensures RefsOk(entries, if sent == 0 then orphans + [cmd] else orphans, refs, made, None)
  {
    if sent == 0 {
      assert (orphans + [cmd])[|orphans|] == cmd;
    }
  }

  lemma RefsReap(entries: multiset<nat>, orphans: seq<nat>, refs: map<nat, nat>, made: nat, cmd: nat)
    requires RefsOk(entries, orphans, refs, made, None) && cmd in entries
    ensures cmd in refs && refs[cmd] > 0
    ensures RefsOk(entries - multiset{cmd}, orphans,
                   if refs[cmd] == 1 then refs - {cmd} else refs[cmd := refs[cmd] - 1], made, None)
  {
    var left := entries - multiset{cmd};
    assert forall c :: c in left ==> c in entries;
    assert forall c :: c != cmd ==> left[c] == entries[c];
  }

  lemma RefsOrphan(entries: multiset<nat>, orphans: seq<nat>, refs: map<nat, nat>, made: nat)
    requires RefsOk(entries, orphans, refs, made, None) && orphans != []
    ensures orphans[0] in refs
    ensures RefsOk(entries, orphans[1..], refs - {orphans[0]}, made, None)
  {
    assert orphans == [orphans[0]] + orphans[1..];
  }

  // ---- one pig changes ----

  lemma Cancel(a: multiset<nat>, b: multiset<nat>, e: multiset<nat>)
    requires a + e == b + e
    ensures a == b
  {
    assert a == a + e - e;
    assert b == b + e - e;
  }

  lemma SameEntries(pigs: seq<Pig>, i: nat, p: Pig)
    requires i < |pigs| && EntriesOf(p) == EntriesOf(pigs[i])
    ensures Entries(pigs[i := p]) == Entries(pigs)
  {
    EntriesUpdate(pigs, i, p);
    hide EntriesOf, Entries;
    Cancel(Entries(pigs[i := p]), Entries(pigs), EntriesOf(p));
  }

  lemma OnePigRing(s: State, i: nat, p: Pig)
    requires RingOk(s.pigs, s.ring, s.place) && i < |s.pigs|
    requires p.analyzer.Some? == s.pigs[i].analyzer.Some? && TokenOk(p, Tokens(s.ring, s.place, i))
    ensures RingOk(s.pigs[i := p], s.ring, s.place)
  {
    hide TokenOk, Tokens;
  }

  lemma OnePigPigs(pigs: seq<Pig>, place: Place, i: nat, p: Pig)
    requires PigsOk(pigs, place) && i < |pigs| && PigOk(p, place == Draining(i))
    ensures PigsOk(pigs[i := p], place)
  {
    hide PigOk;
  }

  lemma OnePig(s: State, i: nat, p: Pig)
    requires Inv(s) && i < |s.pigs| && PigOk(p, s.place == Draining(i))
    requires p.analyzer.Some? == s.pigs[i].analyzer.Some? && EntriesOf(p) == EntriesOf(s.pigs[i])
    requires TokenOk(p, Tokens(s.ring, s.place, i))
    ensures Inv(s.(pigs := s.pigs[i := p]))
  {
    hide RefsOk, RingOk, PigsOk, PigOk, TokenOk, Tokens, EntriesOf, Entries, Analyzers;
    SameEntries(s.pigs, i, p);
    AnalyzersUpdate(s.pigs, i, p);
    OnePigRing(s, i, p);
    OnePigPigs(s.pigs, s.place, i, p);
  }

  // ---- only the place of the main thread changes ----

  lemma PlaceRing(pigs: seq<Pig>, ring: seq<nat>, from: Place, to: Place)
    requires RingOk(pigs, ring, from) && !to.Handling? && !to.Prepping?
    requires to.RingEmpty? ==> ring == []
    ensures RingOk(pigs, ring, to)
  {
    forall i | 0 <= i < |pigs| ensures TokenOk(pigs[i], Tokens(ring, to, i)) {
      assert TokenOk(pigs[i], Tokens(ring, from, i));
    }
  }

  lemma PlacePigs(pigs: seq<Pig>, from: Place, to: Place)
    requires PigsOk(pigs, from) && !from.Draining? && !to.Draining?
    ensures PigsOk(pigs, to)
  {
    hide PigOk;
    forall i | 0 <= i < |pigs| ensures PigOk(pigs[i], to == Draining(i)) {
      assert PigOk(pigs[i], from == Draining(i));
    }
  }

  lemma MovesOn(s: State, place: Place)
    requires Inv(s) && !s.place.Draining? && !s.place.Broadcasting?
    requires !place.Draining? && !place.Handling? && !place.Prepping? && !place.Broadcasting?
    requires place.RingEmpty? ==> s.ring == []
    ensures Inv(s.(place := place))
  {
    hide RefsOk, RingOk, PigsOk, Entries, Analyzers;
    PlaceRing(s.pigs, s.ring, s.place, place);
    PlacePigs(s.pigs, s.place, place);
  }

  // ---- the analyzer threads ----

  lemma ThePigIsOk(s: State, i: nat)
    requires Inv(s) && i < |s.pigs|
    ensures PigOk(s.pigs[i], s.place == Draining(i)) && TokenOk(s.pigs[i], Tokens(s.ring, s.place, i))
  {
    hide RefsOk, PigOk, TokenOk, Tokens, Entries, Analyzers;
  }

  lemma PokeRing(pigs: seq<Pig>, ring: seq<nat>, place: Place, i: nat)
    requires RingOk(pigs, ring, place) && i < |pigs|
    requires pigs[i].analyzer.Some? && pigs[i].analyzer.value.stage != New
    ensures RingOk(pigs, Poked(ring, i, |pigs|), place)
  {
    forall j | 0 <= j < |pigs| ensures TokenOk(pigs[j], Tokens(Poked(ring, i, |pigs|), place, j)) {
      assert TokenOk(pigs[j], Tokens(ring, place, j));
    }
  }

  lemma PokeKeeps(s: State, i: nat)
    requires Inv(s) && Control(s, Poke(i))
    ensures Inv(ThreadStep(s, Poke(i)))
  {
    hide Inv;
    ThePigIsOk(s, i);
    var p := s.pigs[i].(analyzer := Some(s.pigs[i].analyzer.value.(owes := false)));
    OnePig(s, i, p);
    PokeOnly(s.(pigs := s.pigs[i := p]), i);
  }

  lemma PokeOnly(s: State, i: nat)
    requires Inv(s) && i < |s.pigs| && s.pigs[i].analyzer.Some? && s.pigs[i].analyzer.value.stage != New
    ensures Inv(s.(ring := Poked(s.ring, i, |s.pigs|)))
  {
    hide RefsOk, RingOk, PigsOk, Entries, Analyzers, Poked;
    PokeRing(s.pigs, s.ring, s.place, i);
  }

  lemma SetStageKeeps(s: State, i: nat, stage: Stage)
    requires Inv(s) && Control(s, SetStage(i, stage))
    ensures Inv(ThreadStep(s, SetStage(i, stage)))
  {
    hide Inv;
    ThePigIsOk(s, i);
    OnePig(s, i, ThreadStep(s, SetStage(i, stage)).pigs[i]);
  }

  lemma TakeKeeps(s: State, i: nat)
    requires Inv(s) && Control(s, Take(i))
    ensures Inv(ThreadStep(s, Take(i)))
  {
    hide Inv;
    ThePigIsOk(s, i);
    var w := s.pigs[i].analyzer.value;
    assert w.pending == [w.pending[0]] + w.pending[1..];
    OnePig(s, i, s.pigs[i].(analyzer := Some(w.(executing := Some(w.pending[0]), pending := w.pending[1..]))));
  }

  lemma CompleteKeeps(s: State, i: nat)
    requires Inv(s) && Control(s, Complete(i))
    ensures Inv(ThreadStep(s, Complete(i)))
  {
    hide Inv;
    ThePigIsOk(s, i);
    OnePig(s, i, ThreadStep(s, Complete(i)).pigs[i]);
  }

  // ---- prepping, starting and stopping ----

  lemma PrepRing(pigs: seq<Pig>, ring: seq<nat>, from: Place, to: Place, i: nat, p: Pig)
    requires RingOk(pigs, ring, from) && i < |pigs| && multiset(ring)[i] == 0
    requires p == Pig(Some(NEW_ANALYZER), false)
    requires !from.Handling? && (to == AtLoop || (from == Prepping(i) && to == Prepping(i + 1)))
    ensures RingOk(pigs[i := p], Poked(ring, i, |pigs|), to)
  {
    var after, poked := pigs[i := p], Poked(ring, i, |pigs|);
    assert forall j :: multiset(poked)[j] <= multiset(ring)[j] + if j == i then 1 else 0;
    assert forall j :: j != i ==> multiset(poked)[j] == multiset(ring)[j];
    forall j | 0 <= j < |pigs| ensures TokenOk(after[j], Tokens(poked, to, j)) {
      assert TokenOk(pigs[j], Tokens(ring, from, j));
    }
  }

  lemma PrepKeeps(s: State, i: nat, to: Place)
    requires Inv(s) && i < |s.pigs| && s.pigs[i].analyzer.None? && multiset(s.ring)[i] == 0
    requires (s.place == RingEmpty && to == AtLoop) || (s.place == Prepping(i) && to == Prepping(i + 1))
    ensures Prep(s, i).Some? && Inv(Prep(s, i).value.(place := to))
  {
    hide RefsOk, RingOk, PigsOk, Entries, Analyzers, Poked, TokenOk;
    ThePigIsOk(s, i);
    var p := s.pigs[i].(analyzer := Some(NEW_ANALYZER));
    SameEntries(s.pigs, i, p);
    hide EntriesOf;
    AnalyzersUpdate(s.pigs, i, p);
    OnePigPigs(s.pigs, s.place, i, p);
    PlacePigs(s.pigs[i := p], s.place, to);
    PrepRing(s.pigs, s.ring, s.place, to, i, p);
  }

  lemma ReadRing(pigs: seq<Pig>, ring: seq<nat>, from: Place)
    requires RingOk(pigs, ring, from) && ring != [] && !from.Handling?
    ensures ring[0] < |pigs| && RingOk(pigs, ring[1..], Handling(ring[0]))
  {
    assert ring == [ring[0]] + ring[1..];
    assert ring[0] in ring && forall x | x in ring[1..] :: x in ring;
    forall i | 0 <= i < |pigs| ensures TokenOk(pigs[i], Tokens(ring[1..], Handling(ring[0]), i)) {
      assert TokenOk(pigs[i], Tokens(ring, from, i));
    }
  }

  lemma ReadKeeps(s: State)
    requires Inv(s) && Control(s, Read)
    ensures MainStep(s, Read).Some? && Inv(MainStep(s, Read).value)
  {
    if s.ring == [] {
      MovesOn(s, RingEmpty);
    } else {
      hide RefsOk, RingOk, PigsOk, Entries, Analyzers;
      ReadRing(s.pigs, s.ring, s.place);
      PlacePigs(s.pigs, s.place, Handling(s.ring[0]));
    }
  }

  /** `start`: the pig has no thread yet. */
  lemma StartKeeps(s: State)
    requires Inv(s) && Control(s, StartPig)
    ensures MainStep(s, StartPig).Some? && Inv(MainStep(s, StartPig).value)
  {
    hide Inv;
    var i := s.place.idx;
    ThePigIsOk(s, i);
    MovesOn(s, AtLoop);
    OnePig(s.(place := AtLoop), i, s.pigs[i].(thread := true));
  }

  lemma JoinPigs(pigs: seq<Pig>, i: nat)
    requires PigsOk(pigs, Handling(i)) && i < |pigs| && pigs[i].analyzer.Some?
    requires pigs[i].analyzer.value.stage == Stopped && !pigs[i].analyzer.value.owes
    ensures pigs[i].thread && PigsOk(pigs[i := pigs[i].(thread := false)], Draining(i))
  {
    assert forall j | 0 <= j < |pigs| :: PigOk(pigs[j], Handling(i) == Draining(j));
  }

  lemma JoinRing(pigs: seq<Pig>, ring: seq<nat>, i: nat)
    requires RingOk(pigs, ring, Handling(i)) && i < |pigs| && pigs[i].analyzer.Some?
    requires pigs[i].analyzer.value.stage == Stopped
    ensures RingOk(pigs[i := pigs[i].(thread := false)], ring, Draining(i))
  {
    PlaceRing(pigs, ring, Handling(i), Draining(i));
  }

  /** `stop`: the pig has a thread to join. */
  lemma JoinKeeps(s: State)
    requires Inv(s) && Control(s, JoinPig)
    ensures MainStep(s, JoinPig).Some? && Inv(MainStep(s, JoinPig).value)
  {
    hide RefsOk, RingOk, PigsOk, Entries, Analyzers;
    var i := s.place.idx;
    var p := s.pigs[i].(thread := false);
    SameEntries(s.pigs, i, p);
    hide EntriesOf;
    AnalyzersUpdate(s.pigs, i, p);
    JoinPigs(s.pigs, i);
    JoinRing(s.pigs, s.ring, i);
  }

  lemma DropPigs(pigs: seq<Pig>, i: nat)
    requires PigsOk(pigs, Draining(i)) && i < |pigs|
    ensures !pigs[i].thread && PigsOk(pigs[i := pigs[i].(analyzer := None)], AtLoop)
  {
    assert forall j | 0 <= j < |pigs| :: PigOk(pigs[j], Draining(i) == Draining(j));
  }

  lemma DropRing(pigs: seq<Pig>, ring: seq<nat>, i: nat)
    requires RingOk(pigs, ring, Draining(i)) && i < |pigs|
    ensures RingOk(pigs[i := pigs[i].(analyzer := None)], ring, AtLoop)
  {
    PlaceRing(pigs, ring, Draining(i), AtLoop);
  }

  lemma SameEntriesNone(pigs: seq<Pig>, i: nat, p: Pig)
    requires i < |pigs| && EntriesOf(pigs[i]) == multiset{} && p.analyzer.None?
    ensures Entries(pigs[i := p]) == Entries(pigs)
  {
    SameEntries(pigs, i, p);
  }

  lemma DropKeeps(s: State)
    requires Inv(s) && Control(s, DropAnalyzer)
    ensures MainStep(s, DropAnalyzer).Some? && Inv(MainStep(s, DropAnalyzer).value)
  {
    hide RefsOk, RingOk, PigsOk, Entries, Analyzers, TokenOk;
    var i := s.place.idx;
    var p := s.pigs[i].(analyzer := None);
    ThePigIsOk(s, i);
    AnalyzersAt(s.pigs, i);
    assert EntriesOf(s.pigs[i]) == multiset{};
    hide EntriesOf, PigOk;
    SameEntriesNone(s.pigs, i, p);
    AnalyzersUpdate(s.pigs, i, p);
    DropPigs(s.pigs, i);
    DropRing(s.pigs, s.ring, i);
  }

  // ---- sending commands ----

  lemma AddEntry(pigs: seq<Pig>, i: nat, p: Pig, cmd: nat)
    requires i < |pigs| && EntriesOf(p) == EntriesOf(pigs[i]) + multiset{cmd}
    ensures Entries(pigs[i := p]) == Entries(pigs) + multiset{cmd}
  {
    EntriesUpdate(pigs, i, p);
    hide EntriesOf, Entries;
    var e, x := EntriesOf(pigs[i]), multiset{cmd};
    assert (Entries(pigs) + x) + e == Entries(pigs) + (e + x);
    Cancel(Entries(pigs[i := p]), Entries(pigs) + x, e);
  }

  /** All of the invariant but the reference counts. */
  ghost predicate DroveOk(s: State) {
    s.swine == Analyzers(s.pigs) && PigsOk(s.pigs, s.place) && RingOk(s.pigs, s.ring, s.place)
  }

  lemma QueueDrove(s: State, i: nat, cmd: nat)
    requires DroveOk(s) && HasAnalyzer(s, i) && s.pigs[i].thread && cmd in s.refs
    ensures var t := Queued(s, i, cmd).value;
            DroveOk(t) && Entries(t.pigs) == Entries(s.pigs) + multiset{cmd}
  {
    var a := s.pigs[i].analyzer.value;
    var p := s.pigs[i].(analyzer := Some(a.(pending := a.pending + [cmd])));
    AddEntry(s.pigs, i, p, cmd);
    AnalyzersUpdate(s.pigs, i, p);
    assert PigOk(s.pigs[i], s.place == Draining(i)) && TokenOk(s.pigs[i], Tokens(s.ring, s.place, i));
    hide Entries, Analyzers, EntriesOf;
    OnePigPigs(s.pigs, s.place, i, p);
    OnePigRing(s, i, p);
    hide PigsOk, RingOk;
  }

  lemma PlaceDrove(s: State, place: Place)
    requires DroveOk(s) && !s.place.Draining?
    requires !place.Draining? && !place.Handling? && !place.Prepping? && !place.RingEmpty?
    ensures DroveOk(s.(place := place))
  {
    hide PigsOk, RingOk;
    PlaceRing(s.pigs, s.ring, s.place, place);
    PlacePigs(s.pigs, s.place, place);
  }

  lemma BroadcastKeeps(s: State)
    requires Inv(s) && Control(s, BroadcastNew)
    ensures MainStep(s, BroadcastNew).Some? && Inv(MainStep(s, BroadcastNew).value)
  {
    hide RefsOk, PigsOk, RingOk, Entries, Analyzers;
    RefsNew(Entries(s.pigs), s.orphans, s.refs, s.made);
    PlaceDrove(s, Broadcasting(s.made, 0, 0, s.place.Servicing?));
  }

  lemma QueueOwnKeeps(s: State)
    requires Inv(s) && Control(s, QueueOwn)
    ensures MainStep(s, QueueOwn).Some? && Inv(MainStep(s, QueueOwn).value)
  {
    hide RefsOk, PigsOk, RingOk, Entries, Analyzers;
    var e := Entries(s.pigs);
    RefsNew(e, s.orphans, s.refs, s.made);
    PlaceDrove(s, AtLoop);
    var t := NewCommand(s).(place := AtLoop);
    if s.pigs[s.place.idx].thread {
      RefsSend(e, s.orphans, t.refs, t.made, s.made, 0);
      RefsSent(e + multiset{s.made}, s.orphans, t.refs[s.made := 1], t.made, s.made, 1);
      QueueDrove(t, s.place.idx, s.made);
    } else {
      RefsSent(e, s.orphans, t.refs, t.made, s.made, 0);
    }
  }

  lemma SendNextKeeps(s: State)
    requires Inv(s) && Control(s, SendNext)
    ensures MainStep(s, SendNext).Some? && Inv(MainStep(s, SendNext).value)
  {
    hide RefsOk, PigsOk, RingOk, Entries, Analyzers;
    var b := s.place;
    if HasAnalyzer(s, b.next) && s.pigs[b.next].thread {
      RefsSend(Entries(s.pigs), s.orphans, s.refs, s.made, b.cmd, b.sent);
      var place := b.(next := b.next + 1, sent := b.sent + 1);
      PlaceDrove(s, place);
      QueueDrove(s.(place := place), b.next, b.cmd);
    } else {
      PlaceDrove(s, b.(next := b.next + 1));
    }
  }

  lemma SendDoneKeeps(s: State)
    requires Inv(s) && Control(s, SendDone)
    ensures MainStep(s, SendDone).Some? && Inv(MainStep(s, SendDone).value)
  {
    hide RefsOk, PigsOk, RingOk, Entries, Analyzers;
    RefsSent(Entries(s.pigs), s.orphans, s.refs, s.made, s.place.cmd, s.place.sent);
    PlaceDrove(s, if s.place.inService then Servicing else AtLoop);
  }

  // ---- reaping commands ----

  lemma TakeEntry(pigs: seq<Pig>, i: nat, p: Pig, cmd: nat)
    requires i < |pigs| && EntriesOf(pigs[i]) == EntriesOf(p) + multiset{cmd}
    ensures cmd in Entries(pigs) && Entries(pigs[i := p]) == Entries(pigs) - multiset{cmd}
  {
    EntriesUpdate(pigs, i, p);
    hide EntriesOf, Entries;
    var e, x := EntriesOf(p), multiset{cmd};
    assert cmd in EntriesOf(pigs[i]);
    assert (Entries(pigs[i := p]) + x) + e == Entries(pigs[i := p]) + (e + x);
    Cancel(Entries(pigs[i := p]) + x, Entries(pigs), e);
  }

  lemma ReapKeeps(s: State, i: nat, p: Pig, cmd: nat)
    requires Inv(s) && !s.place.Broadcasting? && i < |s.pigs|
    requires EntriesOf(s.pigs[i]) == EntriesOf(p) + multiset{cmd}
    requires p.analyzer.Some? == s.pigs[i].analyzer.Some? && PigOk(p, s.place == Draining(i))
    requires TokenOk(p, Tokens(s.ring, s.place, i))
    ensures var t := Reaped(s.(pigs := s.pigs[i := p]), cmd); t.Some? && Inv(t.value)
  {
    hide RefsOk, RingOk, PigsOk, PigOk, TokenOk, Tokens, EntriesOf, Entries, Analyzers;
    TakeEntry(s.pigs, i, p, cmd);
    RefsReap(Entries(s.pigs), s.orphans, s.refs, s.made, cmd);
    AnalyzersUpdate(s.pigs, i, p);
    OnePigRing(s, i, p);
    OnePigPigs(s.pigs, s.place, i, p);
  }

  lemma ReapCompletedKeeps(s: State, i: nat)
    requires Inv(s) && !s.place.Broadcasting? && HasAnalyzer(s, i) && s.pigs[i].analyzer.value.completed != []
    ensures ReapCompleted(s, i).Some? && Inv(ReapCompleted(s, i).value)
  {
    hide Inv;
    var a := s.pigs[i].analyzer.value;
    var p := s.pigs[i].(analyzer := Some(a.(completed := a.completed[1..])));
    assert a.completed == [a.completed[0]] + a.completed[1..];
    ThePigIsOk(s, i);
    ReapKeeps(s, i, p, a.completed[0]);
  }

  lemma DrainPendingKeeps(s: State)
    requires Inv(s) && Control(s, DrainPending)
    ensures MainStep(s, DrainPending).Some? && Inv(MainStep(s, DrainPending).value)
  {
    hide Inv;
    var i := s.place.idx;
    var a := s.pigs[i].analyzer.value;
    var p := s.pigs[i].(analyzer := Some(a.(pending := a.pending[1..])));
    assert a.pending == [a.pending[0]] + a.pending[1..];
    ThePigIsOk(s, i);
    ReapKeeps(s, i, p, a.pending[0]);
  }

  lemma ReapOrphanKeeps(s: State)
    requires Inv(s) && Control(s, ReapOrphan)
    ensures MainStep(s, ReapOrphan).Some? && Inv(MainStep(s, ReapOrphan).value)
    ensures var t := MainStep(s, ReapOrphan).value; t.orphans == s.orphans[1..] && s.orphans[0] !in t.refs
  {
    hide RefsOk, PigsOk, RingOk, Entries, Analyzers;
    RefsOrphan(Entries(s.pigs), s.orphans, s.refs, s.made);
  }

  lemma PrepLazyKeeps(s: State)
    requires Inv(s) && Control(s, PrepLazy)
    ensures MainStep(s, PrepLazy).Some? && Inv(MainStep(s, PrepLazy).value)
  {
    hide RefsOk, PigsOk, Entries, Analyzers, LazyPig;
    LazyPigFound(s.pigs);
    PrepKeeps(s, LazyPig(s.pigs), AtLoop);
    hide Inv;
  }

  lemma PrepNextKeeps(s: State)
    requires Inv(s) && Control(s, PrepNext)
    ensures MainStep(s, PrepNext).Some? && Inv(MainStep(s, PrepNext).value)
  {
    hide RefsOk, PigsOk, Entries, Analyzers;
    PrepKeeps(s, s.place.next, Prepping(s.place.next + 1));
    hide Inv;
  }

  // ---- every step ----

  /**
    No step of any thread, in any order, starts a pig twice, stops one that has no thread, runs out of free
    pigs, or touches or deletes a command that is gone; and every step keeps the invariant.
   */
  lemma StepSafe(s: State, a: Action)
    requires Inv(s) && Control(s, a)
    ensures Step(s, a).Some? && Inv(Step(s, a).value)
  {
    hide Inv;
    match a
    case PrepNext => PrepNextKeeps(s);
    case PrepDone => MovesOn(s, AtLoop);
    case LoopExit => MovesOn(s, Exited);
    case Read => ReadKeeps(s);
    case HandleNothing => MovesOn(s, AtLoop);
    case StartPig => StartKeeps(s);
    case JoinPig => JoinKeeps(s);
    case QueueOwn => QueueOwnKeeps(s);
    case BroadcastNew => BroadcastKeeps(s);
    case SendNext => SendNextKeeps(s);
    case SendDone => SendDoneKeeps(s);
    case DrainCompleted => ReapCompletedKeeps(s, s.place.idx);
    case DrainPending => DrainPendingKeeps(s);
    case DropAnalyzer => DropKeeps(s);
    case PrepLazy => PrepLazyKeeps(s);
    case Serve => MovesOn(s, Servicing);
    case ServeDone => MovesOn(s, AtLoop);
    case ReapStart => MovesOn(s, ReapingPigs(0, false));
    case ReapOne =>
      var place := ReapingPigs(s.place.idx, |s.pigs[s.place.idx].analyzer.value.completed| == 1);
      MovesOn(s, place);
      ReapCompletedKeeps(s.(place := place), s.place.idx);
    case ReapNextPig =>
      MovesOn(s, if s.place.idx + 1 < |s.pigs| then ReapingPigs(s.place.idx + 1, false) else ReapingOrphans);
    case ReapOrphan => ReapOrphanKeeps(s);
    case ReapDone => MovesOn(s, Servicing);
    case SetStage(i, stage) => SetStageKeeps(s, i, stage);
    case Poke(i) => PokeKeeps(s, i);
    case Take(i) => TakeKeeps(s, i);
    case Complete(i) => CompleteKeeps(s, i);
  }

  // ---- whole runs ----

  function Drove(): Runs.System<State, Action> {
    Runs.System(Control, (s, a) => if Control(s, a) then Step(s, a) else None)
  }

  ghost predicate Legal(s: State, run: seq<Action>) {
    Runs.Legal(Drove(), s, run)
  }

  /** None if a step fails on the way. */
  ghost function Exec(s: State, run: seq<Action>): Option<State> {
    Runs.Exec(Drove(), s, run)
  }

  /** So in every run of all threads together. */
  lemma RunSafe(s: State, run: seq<Action>)
    requires Inv(s) && Legal(s, run)
    ensures Exec(s, run).Some? && Inv(Exec(s, run).value)
  {
    hide Control, Step;
    forall t, a | Inv(t) && Control(t, a) ensures Step(t, a).Some? && Inv(Step(t, a).value) { StepSafe(t, a); }
    Runs.RunKeeps(Drove(), t => Inv(t), s, run);
  }

  lemma {:induction false} NoneYet(pigs: seq<Pig>)
    requires forall i | 0 <= i < |pigs| :: pigs[i] == Pig(None, false)
    ensures Analyzers(pigs) == 0 && Entries(pigs) == multiset{}
  {
    if pigs != [] {
      NoneYet(pigs[..|pigs| - 1]);
    }
  }

  lemma InitialInv(max: nat, live: bool)
    ensures Inv(Initial(max, live))
  {
    NoneYet(Initial(max, live).pigs);
  }

  // ---- what the invariant means ----

  /** The main loop ends only when every analyzer is gone, every thread joined and no command queued. */
  lemma LoopEndsClean(s: State)
    requires Inv(s) && Control(s, LoopExit)
    ensures forall i | 0 <= i < |s.pigs| :: s.pigs[i] == Pig(None, false)
    ensures Entries(s.pigs) == multiset{}
    ensures forall c :: c in s.refs <==> c in s.orphans
  {
    hide RingOk, Entries;
    NoAnalyzers(s.pigs);
    forall i | 0 <= i < |s.pigs| ensures s.pigs[i] == Pig(None, false) {
      assert PigOk(s.pigs[i], s.place == Draining(i));
    }
  }

  /** A command's count is the number of queue entries that hold it; entries never outlive it. */
  lemma CountIsEntries(s: State, cmd: nat)
    requires Inv(s)
    ensures cmd in s.refs ==> s.refs[cmd] == Entries(s.pigs)[cmd]
    ensures cmd !in s.refs ==> cmd !in Entries(s.pigs) && cmd !in s.orphans
  {
    hide RingOk, PigsOk, Entries, Analyzers;
  }

  /** A step deletes a command only when nothing queues it any more, and never makes a deleted one again. */
  lemma DeletesUnqueued(s: State, a: Action, cmd: nat)
    requires Inv(s) && Control(s, a) && Step(s, a).Some?
    ensures var t := Step(s, a).value;
            && s.made <= t.made
            && (cmd !in s.refs && cmd < s.made ==> cmd !in t.refs)
            && (cmd in s.refs && cmd !in t.refs ==>
                  && cmd !in Entries(t.pigs) && cmd !in t.orphans
                  && (Entries(s.pigs)[cmd] == 1 || (cmd in s.orphans && cmd !in Entries(s.pigs))))
  {
    StepSafe(s, a);
    var t := Step(s, a).value;
    hide RingOk, PigsOk, Entries, Analyzers;
    KeysOf(s, a, cmd);
    if cmd in s.refs && cmd !in t.refs {
      CountIsEntries(t, cmd);
      CountIsEntries(s, cmd);
    }
  }

  lemma KeysOf(s: State, a: Action, cmd: nat)
    requires Control(s, a) && Step(s, a).Some?
    ensures var t := Step(s, a).value;
            && s.made <= t.made
            && (cmd in t.refs ==> cmd in s.refs || cmd == s.made)
            && (cmd in s.refs && cmd !in t.refs ==> s.refs[cmd] == 1 || (s.orphans != [] && cmd == s.orphans[0]))
  {
    hide LazyPig, Poked;
  }

  /** Once deleted, a command stays deleted: no run deletes or uses it again. */
  lemma {:induction false} DeletedForGood(s: State, run: seq<Action>, cmd: nat)
    requires Inv(s) && Legal(s, run) && cmd < s.made && cmd !in s.refs
    ensures Exec(s, run).Some? && cmd !in Exec(s, run).value.refs
    ensures cmd !in Entries(Exec(s, run).value.pigs) && cmd !in Exec(s, run).value.orphans
    decreases |run|
  {
    hide Inv, Control, Step, Entries;
    if run == [] {
      CountIsEntries(s, cmd);
    } else {
      StepSafe(s, run[0]);
      DeletesUnqueued(s, run[0], cmd);
      DeletedForGood(Step(s, run[0]).value, run[1..], cmd);
    }
  }

  /** The search loop behind `PrepLazy`. */
  method GetLazyPig(pigs: seq<Pig>) returns (i: nat)
    requires Analyzers(pigs) < |pigs|
    ensures i < |pigs| && pigs[i].analyzer.None? && i == LazyPig(pigs)
  {
    LazyPigFound(pigs);
    i := 0;
    while i < |pigs|
      invariant i <= LazyPig(pigs) && i + LazyPig(pigs[i..]) == LazyPig(pigs)
    {
      if pigs[i].analyzer.None? {
        return;
      }
      assert pigs[i..][1..] == pigs[i + 1..];
      i := i + 1;
    }
    assert false;
  }
}
