/**
  What evaluation reads of the state that earlier evaluations left in the nodes
  (src/detection/detection_options.cc, lines 374-394 and 585-668): nothing but checks made in the same packet
  context.  The result that a node keeps for its parent's retries is never read before it is written.
 */
module MemoUse {
  import opened Basics
  import opened ContentSearch
  import opened OptionTree
  import opened QueueExact
  import T = TreeFacts

  /** The same checks may be reused in both states, and say the same; all else may differ. */
  predicate Agree(env: Env, a: NodeState, b: NodeState)
    decreases a, 1
  {
    && Checked(env, a) == Checked(env, b) && (Checked(env, a) ==> a.memo == b.memo)
    && KidsAgree(env, a, b)
  }

  predicate KidsAgree(env: Env, a: NodeState, b: NodeState)
    decreases a, 0
  {
    |a.kids| == |b.kids| && forall i | 0 <= i < |a.kids| :: Agree(env, a.kids[i], b.kids[i])
  }

  /** The first `i` children have equal results. */
  predicate SameUpTo(a: NodeState, b: NodeState, i: nat) {
    i <= |a.kids| && i <= |b.kids| && forall j | 0 <= j < i :: a.kids[j].result == b.kids[j].result
  }

  ghost predicate Alike(env: Env, r: Evaluated, r': Evaluated) {
    r.result == r'.result && r.d == r'.d && Agree(env, r.s, r'.s)
  }

  /** A node while it is being evaluated: its own check has been opened. */
  predicate Open(env: Env, a: NodeState, b: NodeState) {
    a.stamp == b.stamp == Some(env.stamp) && a.flowbitFailed == b.flowbitFailed && KidsAgree(env, a, b)
  }

  /** Evaluation gives the same result and the same data, and states that agree again. */
  lemma {:induction false} EvaluateAlike(env: Env, n: Node, s: NodeState, s': NodeState, d: EvalData, cur: Cursor)
    requires Fits(n, s) && Fits(n, s') && Agree(env, s, s')
    ensures Alike(env, Evaluate(env, n, s, d, cur), Evaluate(env, n, s', d, cur))
    decreases n, 2 + Rank(env, n, Copy(cur)), 0
  {
    hide Loop;
    if n.isRelative || !Checked(env, s) {
      var t := s.(stamp := Some(env.stamp), flowbitFailed := false);
      var t' := s'.(stamp := Some(env.stamp), flowbitFailed := false);
      assert Open(env, t, t');
      LoopAlike(env, n, t, t', d, Copy(cur), 0, 0);
    }
  }

  /** In the loop the children's results are equal once the first iteration has written them. */
  lemma {:induction false} LoopAlike(
    env: Env, n: Node, s: NodeState, s': NodeState, d: EvalData, cur: Cursor, result: int, count: nat)
    requires Fits(n, s) && Fits(n, s') && Open(env, s, s')
    requires count > 0 ==> SameUpTo(s, s', |n.children|)
    ensures Alike(env, Loop(env, n, s, d, cur, result, count), Loop(env, n, s', d, cur, result, count))
    decreases n, 1 + Rank(env, n, cur), 0
  {
    hide Children, Try, TryAgain, Fits, HasRelativeChild, ToChar;
    var t := Try(env, n, d, cur, result);
    if t.status == MATCH || t.status == NO_ALERT {
      var d1 := if t.status == NO_ALERT then t.d.(noAlert := true) else t.d;
      ChildrenAlike(env, n, s, s', d1, t.cursor, d1.vars, 0, t.result, count);
      var k := Children(env, n, s, d1, t.cursor, d1.vars, 0, t.result, count);
      var k' := Children(env, n, s', d1, t.cursor, d1.vars, 0, t.result, count);
      var d2 := if t.status == NO_ALERT then k.d.(noAlert := t.d.noAlert) else k.d;
      if t.status == MATCH && TryAgain(env, n, t.cursor) {
        T.RetryAdvances(env, n, d, cur, result);
        LoopAlike(env, n, k.s, k'.s, d2, t.cursor, k.result, count + 1);
      }
      FinishAlike(env, n, k.s, k'.s, d2, t.cursor, k.result);
    } else {
      StoresAlike(env, s, s', ToChar(t.result), s.flowbitFailed || t.status == FAILED_BIT);
    }
  }

  lemma StoresAlike(env: Env, s: NodeState, s': NodeState, memo: int, failed: bool)
    requires Open(env, s, s')
    ensures Agree(env, s.(memo := memo, flowbitFailed := failed), s'.(memo := memo, flowbitFailed := failed))
  {
  }

  lemma FinishAlike(env: Env, n: Node, s: NodeState, s': NodeState, d: EvalData, cur: Cursor, result: int)
    requires Fits(n, s) && Fits(n, s') && Open(env, s, s')
    ensures Alike(env, Finish(env, n, s, d, cur, result), Finish(env, n, s', d, cur, result))
  {
    hide Fits, Agree, ToChar;
    var r := Finish(env, n, s, d, cur, result);
    StoresAlike(env, s, s', r.s.memo, r.s.flowbitFailed);
  }

  lemma {:induction false} ChildrenAlike(
    env: Env, n: Node, s: NodeState, s': NodeState, d: EvalData, cur: Cursor, saved: seq<nat>, i: nat, result: int,
    count: nat)
    requires Fits(n, s) && Fits(n, s') && Open(env, s, s') && i <= |n.children|
    requires SameUpTo(s, s', if count > 0 then |n.children| else i)
    ensures var r, r' := Children(env, n, s, d, cur, saved, i, result, count),
                         Children(env, n, s', d, cur, saved, i, result, count);
            r.result == r'.result && r.d == r'.d && Open(env, r.s, r'.s) && SameUpTo(r.s, r'.s, |n.children|)
    decreases n, 0, |n.children| - i
  {
    hide Evaluate, Skips, Counted, Checked;
    if i < |n.children| {
      var c, cs, cs', d0 := n.children[i], s.kids[i], s'.kids[i], d.(vars := saved);
      if count > 0 && Skips(c, cs.result) {
        var more := if cs.result == 0 && count == 1 then 1 else 0;
        ChildrenAlike(env, n, s, s', d0, cur, saved, i + 1, result + more, count);
      } else {
        EvaluateAlike(env, c, cs, cs', d0, cur);
        var e, e' := Evaluate(env, c, cs, d0, cur), Evaluate(env, c, cs', d0, cur);
        var t := s.(kids := s.kids[i := e.s.(result := e.result)]);
        var t' := s'.(kids := s'.kids[i := e'.s.(result := e.result)]);
        KeepsResult(env, e.s, e'.s, e.result);
        assert Open(env, t, t');
        ChildrenAlike(env, n, t, t', e.d, cur, saved, i + 1, result + Counted(c, e.result), count);
      }
    }
  }

  lemma KeepsResult(env: Env, a: NodeState, b: NodeState, r: int)
    requires Agree(env, a, b)
    ensures Agree(env, a.(result := r), b.(result := r))
  {
  }

  // ----- what other contexts leave -----

  /** Nothing in the state can be reused: the packet forbids it, or the check is another context's or failed. */
  predicate LeftOver(env: Env, s: NodeState) {
    && (env.multiple || env.secondPass || s.stamp != Some(env.stamp) || s.flowbitFailed)
    && forall i | 0 <= i < |s.kids| :: LeftOver(env, s.kids[i])
  }

  lemma {:induction false} LeftOversAgree(env: Env, n: Node, a: NodeState, b: NodeState)
    requires Fits(n, a) && Fits(n, b) && LeftOver(env, a) && LeftOver(env, b)
    ensures Agree(env, a, b)
    decreases n
  {
    forall i | 0 <= i < |n.children| ensures Agree(env, a.kids[i], b.kids[i]) {
      LeftOversAgree(env, n.children[i], a.kids[i], b.kids[i]);
    }
  }

  lemma {:induction false} HitsAlike(env: Env, n: Node, s: NodeState, s': NodeState, d: EvalData, hits: nat)
    requires Fits(n, s) && Fits(n, s') && Agree(env, s, s')
    ensures Alike(env, EvaluateHits(env, n, s, d, hits), EvaluateHits(env, n, s', d, hits))
  {
    hide Evaluate, Agree, Fits;
    if hits > 0 {
      HitsAlike(env, n, s, s', d, hits - 1);
      var r, r' := EvaluateHits(env, n, s, d, hits - 1), EvaluateHits(env, n, s', d, hits - 1);
      EvaluateAlike(env, n, r.s, r'.s, r.d, Cursor(0, 0));
    }
  }

  /** No check in the state was made in the context with this stamp. */
  predicate Unstamped(s: NodeState, stamp: Stamp) {
    s.stamp != Some(stamp) && forall i | 0 <= i < |s.kids| :: Unstamped(s.kids[i], stamp)
  }

  predicate KidsUnstamped(s: NodeState, stamp: Stamp) {
    forall i | 0 <= i < |s.kids| :: Unstamped(s.kids[i], stamp)
  }

  lemma {:induction false} UnstampedIsLeftOver(env: Env, n: Node, s: NodeState)
    requires Fits(n, s) && Unstamped(s, env.stamp)
    ensures LeftOver(env, s)
    decreases n
  {
    forall i | 0 <= i < |n.children| ensures LeftOver(env, s.kids[i]) {
      UnstampedIsLeftOver(env, n.children[i], s.kids[i]);
    }
  }

  /** Evaluation in one context makes no checks for another. */
  lemma {:induction false} EvaluateStamps(env: Env, n: Node, s: NodeState, d: EvalData, cur: Cursor, other: Stamp)
    requires Fits(n, s) && Unstamped(s, other) && other != env.stamp
    ensures Unstamped(Evaluate(env, n, s, d, cur).s, other)
    decreases n, 2 + Rank(env, n, Copy(cur)), 0
  {
    hide Loop;
    if n.isRelative || !Checked(env, s) {
      LoopStamps(env, n, s.(stamp := Some(env.stamp), flowbitFailed := false), d, Copy(cur), 0, 0, other);
    }
  }

  lemma {:induction false} LoopStamps(
    env: Env, n: Node, s: NodeState, d: EvalData, cur: Cursor, result: int, count: nat, other: Stamp)
    requires Fits(n, s) && KidsUnstamped(s, other) && s.stamp == Some(env.stamp) && other != env.stamp
    ensures Unstamped(Loop(env, n, s, d, cur, result, count).s, other)
    decreases n, 1 + Rank(env, n, cur), 0
  {
    hide Children, Try, TryAgain, Fits, HasRelativeChild, ToChar;
    var t := Try(env, n, d, cur, result);
    if t.status == MATCH || t.status == NO_ALERT {
      var d1 := if t.status == NO_ALERT then t.d.(noAlert := true) else t.d;
      ChildrenStamps(env, n, s, d1, t.cursor, d1.vars, 0, t.result, count, other);
      var k := Children(env, n, s, d1, t.cursor, d1.vars, 0, t.result, count);
      var d2 := if t.status == NO_ALERT then k.d.(noAlert := t.d.noAlert) else k.d;
      if t.status == MATCH && TryAgain(env, n, t.cursor) {
        T.RetryAdvances(env, n, d, cur, result);
        LoopStamps(env, n, k.s, d2, t.cursor, k.result, count + 1, other);
      }
    }
  }

  lemma {:induction false} ChildrenStamps(
    env: Env, n: Node, s: NodeState, d: EvalData, cur: Cursor, saved: seq<nat>, i: nat, result: int, count: nat,
    other: Stamp)
    requires Fits(n, s) && i <= |n.children|
    requires KidsUnstamped(s, other) && s.stamp == Some(env.stamp) && other != env.stamp
    ensures var r := Children(env, n, s, d, cur, saved, i, result, count);
            KidsUnstamped(r.s, other) && r.s.stamp == Some(env.stamp)
    decreases n, 0, |n.children| - i
  {
    hide Evaluate, Skips, Counted;
    if i < |n.children| {
      var c, cs, d0 := n.children[i], s.kids[i], d.(vars := saved);
      if count > 0 && Skips(c, cs.result) {
        var more := if cs.result == 0 && count == 1 then 1 else 0;
        ChildrenStamps(env, n, s, d0, cur, saved, i + 1, result + more, count, other);
      } else {
        EvaluateStamps(env, c, cs, d0, cur, other);
        var e := Evaluate(env, c, cs, d0, cur);
        var kid := e.s.(result := e.result);
        assert Unstamped(kid, other);
        ChildrenStamps(env, n, s.(kids := s.kids[i := kid]), e.d, cur, saved, i + 1,
                       result + Counted(c, e.result), count, other);
      }
    }
  }

  lemma {:induction false} HitsStamp(env: Env, n: Node, s: NodeState, d: EvalData, hits: nat, other: Stamp)
    requires Fits(n, s) && Unstamped(s, other) && other != env.stamp
    ensures Unstamped(EvaluateHits(env, n, s, d, hits).s, other)
  {
    hide Evaluate, Unstamped, Fits;
    if hits > 0 {
      HitsStamp(env, n, s, d, hits - 1, other);
      var r := EvaluateHits(env, n, s, d, hits - 1);
      EvaluateStamps(env, n, r.s, r.d, Cursor(0, 0), other);
    }
  }

  // ----- whole sessions -----

  /** A packet context in which the tree is evaluated `hits` times. */
  datatype Visit = Visit(env: Env, d: EvalData, hits: nat)

  /** The state of the tree after a sequence of packet contexts. */
  function AfterAll(n: Node, s: NodeState, visits: seq<Visit>): (t: NodeState)
    requires Fits(n, s)
    ensures Fits(n, t)
  {
    if visits == [] then s
    else
      var k := |visits| - 1;
      EvaluateHits(visits[k].env, n, AfterAll(n, s, visits[..k]), visits[k].d, visits[k].hits).s
  }

  lemma {:induction false} AllStamp(n: Node, s: NodeState, visits: seq<Visit>, other: Stamp)
    requires Fits(n, s) && Unstamped(s, other) && forall v | v in visits :: v.env.stamp != other
    ensures Unstamped(AfterAll(n, s, visits), other)
  {
    hide Fits, Unstamped, EvaluateHits;
    if visits != [] {
      var k := |visits| - 1;
      AllStamp(n, s, visits[..k], other);
      HitsStamp(visits[k].env, n, AfterAll(n, s, visits[..k]), visits[k].d, visits[k].hits, other);
    }
  }

  /**
    For any tree and any sequence of packet contexts, what is queued and returned in a context that has not been
    visited before is what is queued and returned on a tree that has never been used.
   */
  lemma ContextsDoNotMix(n: Node, s: NodeState, visits: seq<Visit>, v: Visit, unused: NodeState)
    requires Fits(n, s) && Fits(n, unused) && Unstamped(s, v.env.stamp) && Unstamped(unused, v.env.stamp)
    requires forall w | w in visits :: w.env.stamp != v.env.stamp
    ensures var r, r' := EvaluateHits(v.env, n, AfterAll(n, s, visits), v.d, v.hits),
                         EvaluateHits(v.env, n, unused, v.d, v.hits);
            r.result == r'.result && r.d == r'.d
  {
    hide Fits, Unstamped, EvaluateHits, LeftOver, Agree;
    var t := AfterAll(n, s, visits);
    AllStamp(n, s, visits, v.env.stamp);
    UnstampedIsLeftOver(v.env, n, t);
    UnstampedIsLeftOver(v.env, n, unused);
    LeftOversAgree(v.env, n, t, unused);
    HitsAlike(v.env, n, t, unused, v.d, v.hits);
  }

  /** If the packet forbids reuse, evaluation does not depend on the state of the tree at all. */
  lemma NoReuse(env: Env, n: Node, s: NodeState, s': NodeState, d: EvalData, cur: Cursor)
    requires Fits(n, s) && Fits(n, s') && (env.multiple || env.secondPass)
    ensures var r, r' := Evaluate(env, n, s, d, cur), Evaluate(env, n, s', d, cur);
            r.result == r'.result && r.d == r'.d
  {
    hide Fits, Evaluate, LeftOver, Agree;
    AllLeftOver(env, n, s);
    AllLeftOver(env, n, s');
    LeftOversAgree(env, n, s, s');
    EvaluateAlike(env, n, s, s', d, cur);
  }

  lemma {:induction false} AllLeftOver(env: Env, n: Node, s: NodeState)
    requires Fits(n, s) && (env.multiple || env.secondPass)
    ensures LeftOver(env, s)
    decreases n
  {
    forall i | 0 <= i < |n.children| ensures LeftOver(env, s.kids[i]) {
      AllLeftOver(env, n.children[i], s.kids[i]);
    }
  }
}
