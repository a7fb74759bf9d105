/**
  The pool of detection contexts of one packet thread (src/detection/context_switcher.cc).  A context is
  named by the slot it is given when it is pushed, and at any time it is idle, busy or on hold.  Busy
  contexts form a stack; contexts on hold sit at their own slot and can be resumed in any order.
 */
module ContextSwitcher {
  import opened Basics

  datatype Slots = Slots(idle: seq<nat>, busy: seq<nat>, hold: seq<Option<nat>>)

  function HoldCount(hold: seq<Option<nat>>): nat {
    if hold == [] then 0
    else HoldCount(hold[..|hold| - 1]) + if hold[|hold| - 1].Some? then 1 else 0
  }

  predicate InRange(list: seq<nat>, hold: seq<Option<nat>>) {
    forall c | c in list :: 0 < c < |hold| && hold[c].None?
  }

  /** Every context is in exactly one place, and a slot holds no context but its own. */
  predicate Valid(s: Slots) {
    && |s.hold| > 0 && s.hold[0].None?
    && (forall i | 0 <= i < |s.hold| && s.hold[i].Some? :: s.hold[i].value == i)
    && NoRepeats(s.idle) && NoRepeats(s.busy)
    && InRange(s.idle, s.hold) && InRange(s.busy, s.hold)
    && (forall c | c in s.idle :: c !in s.busy)
    && (forall c | 0 < c < |s.hold| :: c in s.idle || c in s.busy || s.hold[c].Some?)
    && |s.idle| + |s.busy| + HoldCount(s.hold) == |s.hold| - 1
  }

  function Top(s: seq<nat>): (c: nat)
    requires s != []
    ensures c in s
  {
    s[|s| - 1]
  }

  predicate Held(s: Slots, c: nat) {
    c < |s.hold| && s.hold[c].Some?
  }

  function Interrupted(s: Slots): Slots
    requires s.idle != []
  {
    s.(idle := s.idle[..|s.idle| - 1], busy := s.busy + [Top(s.idle)])
  }

  function Completed(s: Slots): Slots
    requires s.busy != []
  {
    s.(idle := s.idle + [Top(s.busy)], busy := s.busy[..|s.busy| - 1])
  }

  function Suspended(s: Slots): Slots
    requires s.busy != [] && Top(s.busy) < |s.hold|
  {
    var c := Top(s.busy);
    s.(busy := s.busy[..|s.busy| - 1], hold := s.hold[c := Some(c)])
  }

  function Resumed(s: Slots, slot: nat): Slots
    requires Held(s, slot)
  {
    s.(busy := s.busy + [s.hold[slot].value], hold := s.hold[slot := None])
  }

  // ---- what the operations keep ----

  lemma {:induction false} HoldCountUpdate(hold: seq<Option<nat>>, slot: nat, v: Option<nat>)
    requires slot < |hold|
    ensures HoldCount(hold[slot := v]) ==
            HoldCount(hold) - (if hold[slot].Some? then 1 else 0) + (if v.Some? then 1 else 0)
  {
    var n := |hold| - 1;
    if slot == n {
      assert hold[slot := v][..n] == hold[..n];
    } else {
      HoldCountUpdate(hold[..n], slot, v);
      assert hold[slot := v][..n] == hold[..n][slot := v];
    }
  }

  lemma MoveLast(from: seq<nat>, to: seq<nat>)
    requires from != [] && NoRepeats(from) && NoRepeats(to)
    requires Top(from) !in to
    ensures NoRepeats(from[..|from| - 1]) && NoRepeats(to + [Top(from)])
    ensures forall c | c in from :: c in from[..|from| - 1] || c == Top(from)
    ensures forall c | c in from[..|from| - 1] :: c in from
    ensures Top(from) !in from[..|from| - 1]
  {
    var last := Top(from);
    assert from == from[..|from| - 1] + [last];
  }

  lemma InterruptKeeps(s: Slots)
    requires Valid(s) && s.idle != []
    ensures Valid(Interrupted(s))
  {
    hide HoldCount;
    MoveLast(s.idle, s.busy);
    var t := Interrupted(s);
    assert NoRepeats(t.idle) && NoRepeats(t.busy);
    forall c | c in t.idle ensures 0 < c < |t.hold| && t.hold[c].None? && c !in t.busy {
      assert c in s.idle && c != Top(s.idle);
    }
    assert InRange(t.busy, t.hold);
    assert forall c | 0 < c < |t.hold| :: c in t.idle || c in t.busy || t.hold[c].Some?;
  }

  lemma CompleteKeeps(s: Slots)
    requires Valid(s) && s.busy != []
    ensures Valid(Completed(s))
  {
    hide HoldCount;
    MoveLast(s.busy, s.idle);
    var t := Completed(s);
    assert NoRepeats(t.idle) && NoRepeats(t.busy);
    assert InRange(t.idle, t.hold);
    forall c | c in t.busy ensures 0 < c < |t.hold| && t.hold[c].None? {
      assert c in s.busy && c != Top(s.busy);
    }
    assert forall c | c in t.idle :: c !in t.busy;
    assert forall c | 0 < c < |t.hold| :: c in t.idle || c in t.busy || t.hold[c].Some?;
  }

  lemma SuspendKeeps(s: Slots)
    requires Valid(s) && s.busy != []
    ensures s.hold[Top(s.busy)].None?
    ensures Valid(Suspended(s))
    ensures HoldCount(Suspended(s).hold) == HoldCount(s.hold) + 1
  {
    hide HoldCount;
    var c := Top(s.busy);
    MoveLast(s.busy, s.idle);
    HoldCountUpdate(s.hold, c, Some(c));
    var t := Suspended(s);
    assert NoRepeats(t.busy);
    assert InRange(t.idle, t.hold);
    forall c | c in t.busy ensures 0 < c < |t.hold| && t.hold[c].None? {
      assert c in s.busy && c != Top(s.busy);
    }
    assert forall c | 0 < c < |t.hold| :: c in t.idle || c in t.busy || t.hold[c].Some?;
  }

  lemma ResumeKeeps(s: Slots, slot: nat)
    requires Valid(s) && Held(s, slot)
    ensures s.hold[slot].value == slot && slot !in s.busy && slot !in s.idle
    ensures Valid(Resumed(s, slot))
    ensures HoldCount(Resumed(s, slot).hold) == HoldCount(s.hold) - 1
  {
    hide HoldCount;
    HoldCountUpdate(s.hold, slot, None);
  }

  /** Suspending the current context and resuming its slot restores the pool. */
  lemma SuspendResume(s: Slots)
    requires Valid(s) && s.busy != []
    ensures Held(Suspended(s), Top(s.busy))
    ensures Resumed(Suspended(s), Top(s.busy)) == s
  {
    hide HoldCount;
    var c := Top(s.busy);
    assert Suspended(s).hold[c := None] == s.hold;
  }

  /** Completing the context that an interrupt has made current restores the pool. */
  lemma InterruptComplete(s: Slots)
    requires s.idle != []
    ensures Completed(Interrupted(s)) == s
  {
    assert s.idle[..|s.idle| - 1] + [Top(s.idle)] == s.idle;
    assert (s.busy + [Top(s.idle)])[..|s.busy|] == s.busy;
  }

  lemma HeldToIdle(s: Slots, slot: nat)
    requires Valid(s) && Held(s, slot)
    ensures s.hold[slot].value == slot
    ensures Valid(s.(idle := s.idle + [slot], hold := s.hold[slot := None]))
  {
    hide HoldCount;
    ResumeKeeps(s, slot);
    CompleteKeeps(Resumed(s, slot));
    assert (s.busy + [slot])[..|s.busy|] == s.busy;
  }

  lemma AllPlaced(s: Slots)
    requires Valid(s)
    ensures |s.hold| > 0 && |s.idle| + |s.busy| + HoldCount(s.hold) == |s.hold| - 1
  {
  }

  /** The contexts on hold, by slot. */
  function OnHoldList(hold: seq<Option<nat>>): seq<nat> {
    if hold == [] then []
    else OnHoldList(hold[..|hold| - 1]) +
         if hold[|hold| - 1].Some? then [hold[|hold| - 1].value] else []
  }

  function Backwards(s: seq<nat>): seq<nat> {
    if s == [] then [] else [s[|s| - 1]] + Backwards(s[..|s| - 1])
  }

  // ---- the class ----

  class Switcher {
    var idle: seq<nat>
    var busy: seq<nat>
    const hold: array<Option<nat>>

    ghost function View(): Slots
      reads this, hold
    {
      Slots(idle, busy, hold[..])
    }

    /** While contexts are being pushed: `n` of them, all idle, numbered from one. */
    ghost predicate SettingUp(n: nat)
      reads this, hold
    {
      && n < hold.Length && busy == [] && idle == seq(n, i => i + 1)
      && forall i | 0 <= i < hold.Length :: hold[i].None?
    }

    constructor (max: nat)
      ensures SettingUp(0) && hold.Length == max + 1 && fresh(hold)
    {
      idle, busy := [], [];
      hold := new Option<nat>[max + 1](_ => None);
    }

    method Push(ghost n: nat)
      requires SettingUp(n) && n + 1 < hold.Length
      modifies this
      ensures SettingUp(n + 1)
    {
      idle := idle + [|idle| + 1];
    }

    method Pop() returns (c: Option<nat>)
      modifies this
      ensures busy == old(busy)
      ensures c.None? <==> old(idle) == []
      ensures if c.Some? then old(idle) == idle + [c.value] else idle == []
    {
      if idle == [] {
        return None;
      }
      c := Some(Top(idle));
      idle := idle[..|idle| - 1];
    }

    method Start()
      requires Valid(View()) && busy == [] && idle != []
      modifies this
      ensures Valid(View()) && View() == Interrupted(old(View())) && |busy| == 1
    {
      InterruptKeeps(View());
      busy := busy + [Top(idle)];
      idle := idle[..|idle| - 1];
    }

    method Stop()
      requires Valid(View()) && |busy| == 1
      modifies this
      ensures Valid(View()) && View() == Completed(old(View())) && busy == []
    {
      CompleteKeeps(View());
      idle := idle + [Top(busy)];
      busy := busy[..|busy| - 1];
    }

    method Interrupt() returns (c: nat)
      requires Valid(View()) && idle != []
      modifies this
      ensures Valid(View()) && View() == Interrupted(old(View())) && c == Top(busy)
    {
      InterruptKeeps(View());
      busy := busy + [Top(idle)];
      idle := idle[..|idle| - 1];
      c := Top(busy);
    }

    method Complete() returns (current: Option<nat>)
      requires Valid(View()) && busy != []
      modifies this
      ensures Valid(View()) && View() == Completed(old(View()))
      ensures current == if busy == [] then None else Some(Top(busy))
    {
      CompleteKeeps(View());
      var c := Top(busy);
      idle := idle + [c];
      busy := busy[..|busy| - 1];
      current := if busy == [] then None else Some(Top(busy));
    }

    method Suspend() returns (slot: nat)
      requires Valid(View()) && busy != []
      modifies this, hold
      ensures Valid(View()) && Top(old(busy)) == slot < hold.Length
      ensures old(hold[slot]).None? && View() == Suspended(old(View()))
    {
      hide HoldCount;
      SuspendKeeps(View());
      slot := Top(busy);
      ghost var before := hold[..];
      busy := busy[..|busy| - 1];
      hold[slot] := Some(slot);
      assert hold[..] == before[slot := Some(slot)];
    }

    method Resume(slot: nat)
      requires Valid(View()) && Held(View(), slot)
      modifies this, hold
      ensures Valid(View()) && View() == Resumed(old(View()), slot)
      ensures busy == old(busy) + [slot]
    {
      hide HoldCount;
      ResumeKeeps(View(), slot);
      ghost var before := hold[..];
      busy := busy + [hold[slot].value];
      hold[slot] := None;
      assert hold[..] == before[slot := None];
    }

    method AbortHeld()
      requires Valid(View())
      modifies this, hold
      ensures Valid(View()) && busy == old(busy) && idle == old(idle) + OnHoldList(old(hold[..]))
      ensures forall k | 0 <= k < hold.Length :: hold[k].None?
    {
      hide HoldCount, Valid;
      ghost var held := hold[..];
      for i := 0 to hold.Length
        invariant Valid(View()) && busy == old(busy)
        invariant idle == old(idle) + OnHoldList(held[..i])
        invariant forall k | 0 <= k < hold.Length :: hold[k] == if k < i then None else held[k]
      {
        assert held[..i + 1][..i] == held[..i];
        if hold[i].Some? {
          ghost var before := View();
          HeldToIdle(before, i);
          idle := idle + [hold[i].value];
          hold[i] := None;
          assert hold[..] == before.hold[i := None];
        }
      }
      assert held[..|held|] == held;
    }

    /** Everything becomes idle again: first what was on hold, then the busy stack from its top. */
    method Abort()
      requires Valid(View())
      modifies this, hold
      ensures Valid(View()) && busy == [] && |idle| == hold.Length - 1
      ensures idle == old(idle) + OnHoldList(old(hold[..])) + Backwards(old(busy))
    {
      hide HoldCount, Valid;
      AbortHeld();
      ghost var middle, empty := idle, hold[..];
      while busy != []
        invariant Valid(View()) && hold[..] == empty
        invariant idle + Backwards(busy) == middle + Backwards(old(busy))
      {
        CompleteKeeps(View());
        idle := idle + [Top(busy)];
        busy := busy[..|busy| - 1];
      }
      NoneHeld(hold[..]);
      AllPlaced(View());
    }

    method CountHeld() returns (count: nat)
      ensures count == HoldCount(hold[..])
    {
      count := 0;
      for i := 0 to hold.Length
        invariant count == HoldCount(hold[..i])
      {
        assert hold[..i + 1][..i] == hold[..i];
        if hold[i].Some? {
          count := count + 1;
        }
      }
      assert hold[..hold.Length] == hold[..];
    }

    /** Whether a context on hold has a packet of this flow; `flows` gives the flow of each slot's packet. */
    method OnHold(flow: nat, flows: seq<Option<nat>>) returns (found: bool)
      requires Valid(View()) && |flows| == hold.Length
      ensures found <==> exists c: nat :: Held(View(), c) && flows[c] == Some(flow)
    {
      for i := 0 to hold.Length
        invariant forall c: nat | c < i :: !(Held(View(), c) && flows[c] == Some(flow))
      {
        assert hold[i].Some? ==> Held(View(), i) && hold[i].value == i;
        if hold[i].Some? && flows[hold[i].value] == Some(flow) {
          return true;
        }
      }
      return false;
    }
  }

  lemma {:induction false} NoneHeld(hold: seq<Option<nat>>)
    requires forall k | 0 <= k < |hold| :: hold[k].None?
    ensures HoldCount(hold) == 0
  {
    if hold != [] {
      NoneHeld(hold[..|hold| - 1]);
    }
  }

  lemma SetUpIsValid(s: Slots)
    requires |s.hold| > 0 && s.busy == [] && s.idle == seq(|s.hold| - 1, i => i + 1)
    requires forall i | 0 <= i < |s.hold| :: s.hold[i].None?
    ensures Valid(s)
  {
    NoneHeld(s.hold);
    forall c | 0 < c < |s.hold| ensures c in s.idle { assert s.idle[c - 1] == c; }
  }

  /** Thread start: a pool of `max` idle contexts with distinct slots. */
  method ThreadInit(max: nat) returns (sw: Switcher)
    ensures fresh(sw) && fresh(sw.hold) && sw.hold.Length == max + 1
    ensures Valid(sw.View()) && |sw.idle| == max
  {
    sw := new Switcher(max);
    for i := 0 to max
      invariant fresh(sw) && fresh(sw.hold) && sw.hold.Length == max + 1 && sw.SettingUp(i)
    {
      sw.Push(i);
    }
    SetUpIsValid(sw.View());
  }
}
