/**
  Facts about evaluation of arbitrary option trees: the no-alert flag, the range of results, and
  what the one-byte memo does to large ones.
 */
module TreeFacts {
  import opened Basics
  import opened ContentSearch
  import opened OptionTree
  import Q = QueueExact

  // ----- the no-alert flag -----

  /** Evaluation leaves the flag as it found it, and queues nothing while it is set. */
  lemma {:induction false} NoAlertKept(env: Env, n: Node, s: NodeState, d: EvalData, cur: Cursor)
    requires Fits(n, s)
    ensures var r := Evaluate(env, n, s, d, cur);
            r.d.noAlert == d.noAlert && (d.noAlert ==> r.d.queue == d.queue)
    decreases n, 2 + Rank(env, n, Copy(cur)), 0
  {
    if n.isRelative || !Checked(env, s) {
      LoopNoAlert(env, n, s.(stamp := Some(env.stamp), flowbitFailed := false), d, Copy(cur), 0, 0);
    }
  }

  lemma {:induction false} LoopNoAlert(
    env: Env, n: Node, s: NodeState, d: EvalData, cur: Cursor, result: int, count: nat)
    requires Fits(n, s)
    ensures var r := Loop(env, n, s, d, cur, result, count);
            && r.d.noAlert == d.noAlert
            && (d.noAlert || Try(env, n, d, cur, result).status == NO_ALERT ==> r.d.queue == d.queue)
    decreases n, 1 + Rank(env, n, cur), 0
  {
    var t := Try(env, n, d, cur, result);
    if t.status == MATCH || t.status == NO_ALERT {
      var d1 := if t.status == NO_ALERT then t.d.(noAlert := true) else t.d;
      ChildrenNoAlert(env, n, s, d1, t.cursor, d1.vars, 0, t.result, count);
      var k := Children(env, n, s, d1, t.cursor, d1.vars, 0, t.result, count);
      if t.status == MATCH && TryAgain(env, n, t.cursor) {
        LoopNoAlert(env, n, k.s, k.d, t.cursor, k.result, count + 1);
      }
    }
  }

  lemma {:induction false} ChildrenNoAlert(
    env: Env, n: Node, s: NodeState, d: EvalData, cur: Cursor, saved: seq<nat>, i: nat, result: int, count: nat)
    requires Fits(n, s) && i <= |n.children|
    ensures var r := Children(env, n, s, d, cur, saved, i, result, count);
            r.d.noAlert == d.noAlert && (d.noAlert ==> r.d.queue == d.queue)
    decreases n, 0, |n.children| - i
  {
    if i < |n.children| {
      var child, cs, d0 := n.children[i], s.kids[i], d.(vars := saved);
      if count > 0 && Skips(child, cs.result) {
        var more := if cs.result == 0 && count == 1 then 1 else 0;
        ChildrenNoAlert(env, n, s, d0, cur, saved, i + 1, result + more, count);
      } else {
        var e := Evaluate(env, child, cs, d0, cur);
        NoAlertKept(env, child, cs, d0, cur);
        ChildrenNoAlert(env, n, s.(kids := s.kids[i := e.s.(result := e.result)]), e.d, cur, saved, i + 1,
                        result + Counted(child, e.result), count);
      }
    }
  }

  /** A node that answers NO_ALERT queues none of the rules below it, whatever its siblings do. */
  lemma NoAlertSilences(env: Env, n: Node, s: NodeState, d: EvalData, cur: Cursor)
    requires Fits(n, s)
    requires Try(env, n, d, Copy(cur), 0).status == NO_ALERT
    ensures Evaluate(env, n, s, d, cur).d.queue == d.queue
  {
    LoopNoAlert(env, n, s.(stamp := Some(env.stamp), flowbitFailed := false), d, Copy(cur), 0, 0);
  }

  // ----- the range of results -----

  /** Leaves have no children, options have some, and no flowbit is set. */
  predicate Proper(n: Node) {
    && (n.kind.Leaf? ==> n.children == [])
    && (!n.kind.Leaf? ==> n.children != [])
    && !(n.kind.Flowbit? && n.kind.sets)
    && (forall i | 0 <= i < |n.children| :: Proper(n.children[i]))
  }

  function Most(n: Node): nat {
    if n.kind.Leaf? then 1 else |n.children|
  }

  predicate InRange(n: Node, r: int) {
    0 <= r <= Most(n)
  }

  /** Every usable memo is a result in range, cut down to a byte; that of a leaf is whether its header matches. */
  ghost predicate MemoInRange(env: Env, n: Node, s: NodeState)
    requires Fits(n, s)
  {
    && (Checked(env, s) ==> exists r :: InRange(n, r) && s.memo == ToChar(r))
    && (n.kind.Leaf? && Checked(env, s) ==> s.memo == Header(env, n))
    && (forall i | 0 <= i < |n.children| :: MemoInRange(env, n.children[i], s.kids[i]))
  }

  function Header(env: Env, n: Node): int
    requires n.kind.Leaf?
  {
    if env.header(n.kind.rule) then 1 else 0
  }

  /** How a child's result tells whether its parent has counted it. */
  ghost predicate KidCount(env: Env, c: Node, cs: NodeState, flag: bool, count: nat)
    requires Fits(c, cs)
  {
    && MemoInRange(env, c, cs)
    && (if c.kind.Leaf? then cs.result == Header(env, c) && flag == (cs.result == 1)
        else
          && (cs.result == |c.children| ==> flag)
          && (flag ==> cs.result == |c.children| || (count >= 2 && cs.result == 0 && Skippable(c))))
  }

  ghost predicate KidCounts(env: Env, n: Node, s: NodeState, i: nat, flags: seq<bool>, count: nat)
    requires Fits(n, s) && i <= |n.children|
  {
    && |flags| == |n.children|
    && (forall j | 0 <= j < i :: KidCount(env, n.children[j], s.kids[j], flags[j], count + 1))
    && (forall j | i <= j < |n.children| ::
          if count == 0 then MemoInRange(env, n.children[j], s.kids[j]) && !flags[j]
          else KidCount(env, n.children[j], s.kids[j], flags[j], count))
  }

  ghost predicate FreshInRange(env: Env, n: Node, r: Evaluated)
    requires Fits(n, r.s)
  {
    && InRange(n, r.result) && MemoInRange(env, n, r.s)
    && (n.kind.Leaf? ==> r.result == Header(env, n))
  }

  /**
    A fresh evaluation returns a result between zero and the number of children (zero or one for a leaf):
    over all iterations each child adds at most one.  A reused check returns such a result cut down to a byte.
   */
  lemma {:induction false} ResultInRange(env: Env, n: Node, s: NodeState, d: EvalData, cur: Cursor)
    requires Proper(n) && Fits(n, s) && MemoInRange(env, n, s)
    ensures var r := Evaluate(env, n, s, d, cur);
            && MemoInRange(env, n, r.s)
            && (n.kind.Leaf? ==> r.result == Header(env, n))
            && (n.isRelative || !Checked(env, s) ==> FreshInRange(env, n, r))
            && (!n.isRelative && Checked(env, s) ==> exists k :: InRange(n, k) && r.result == ToChar(k))
    decreases n, 2 + Rank(env, n, Copy(cur)), 0
  {
    if n.isRelative || !Checked(env, s) {
      var s1 := s.(stamp := Some(env.stamp), flowbitFailed := false);
      if n.kind.Leaf? {
        LeafInRange(env, n, s1, d, Copy(cur));
      } else {
        var none := seq(|n.children|, _ => false);
        Q.CountNone(|n.children|);
        LoopInRange(env, n, s1, d, Copy(cur), 0, 0, none);
      }
    }
  }

  lemma LeafInRange(env: Env, n: Node, s: NodeState, d: EvalData, cur: Cursor)
    requires Proper(n) && n.kind.Leaf? && Fits(n, s)
    ensures FreshInRange(env, n, Loop(env, n, s, d, cur, 0, 0))
  {
    var t := Try(env, n, d, cur, 0);
    assert Children(env, n, s, t.d, t.cursor, t.d.vars, 0, t.result, 0) == Evaluated(t.result, s, t.d);
    assert ToChar(0) == 0 && ToChar(1) == 1;
    assert InRange(n, 0) && InRange(n, 1);
  }

  lemma MemoWritten(env: Env, n: Node, s: NodeState, r: int)
    requires Fits(n, s) && InRange(n, r) && !n.kind.Leaf?
    requires forall i | 0 <= i < |n.children| :: MemoInRange(env, n.children[i], s.kids[i])
    ensures Fits(n, s.(memo := ToChar(r))) && MemoInRange(env, n, s.(memo := ToChar(r)))
  {
    var s' := s.(memo := ToChar(r));
    forall i | 0 <= i < |n.children| ensures MemoInRange(env, n.children[i], s'.kids[i]) {}
  }

  lemma {:induction false} LoopInRange(
    env: Env, n: Node, s: NodeState, d: EvalData, cur: Cursor, result: int, count: nat, flags: seq<bool>)
    requires Proper(n) && !n.kind.Leaf? && Fits(n, s)
    requires KidCounts(env, n, s, 0, flags, count) && result == Q.CountTrue(flags)
    ensures FreshInRange(env, n, Loop(env, n, s, d, cur, result, count))
    decreases n, 1 + Rank(env, n, cur), 0
  {
    hide KidCounts, Q.CountTrue, MemoInRange, Children, Proper, ToChar, ContentSearch.Eval;
    var t := Try(env, n, d, cur, result);
    Q.CountAll(flags);
    KidMemosInRange(env, n, s, 0, flags, count);
    if t.status == NO_MATCH {
      MemoWritten(env, n, s, result);
    } else if t.status == FAILED_BIT {
      MemoWritten(env, n, s.(flowbitFailed := true), result);
    } else {
      var d1 := if t.status == NO_ALERT then t.d.(noAlert := true) else t.d;
      var flags' := ChildrenInRange(env, n, s, d1, t.cursor, d1.vars, 0, t.result, count, flags);
      var k := Children(env, n, s, d1, t.cursor, d1.vars, 0, t.result, count);
      var d2 := if t.status == NO_ALERT then k.d.(noAlert := t.d.noAlert) else k.d;
      Q.CountAll(flags');
      KidMemosInRange(env, n, k.s, |n.children|, flags', count);
      OptionHasChildren(n);
      if k.result != |n.children| && t.status == MATCH && HasRelativeChild(n) && TryAgain(env, n, t.cursor) {
        RetryAdvances(env, n, d, cur, result);
        LoopInRange(env, n, k.s, d2, t.cursor, k.result, count + 1, flags');
      } else {
        MemoWritten(env, n, k.s.(flowbitFailed := k.s.flowbitFailed || d2.flowbitFailed), k.result);
      }
    }
  }

  lemma OptionHasChildren(n: Node)
    requires Proper(n) && !n.kind.Leaf?
    ensures n.children != [] && !(n.kind.Flowbit? && n.kind.sets)
  {}

  lemma RetryAdvances(env: Env, n: Node, d: EvalData, cur: Cursor, result: int)
    requires Try(env, n, d, cur, result).status == MATCH && TryAgain(env, n, Try(env, n, d, cur, result).cursor)
    ensures Rank(env, n, Try(env, n, d, cur, result).cursor) < Rank(env, n, cur)
  {}

  lemma KidMemosInRange(env: Env, n: Node, s: NodeState, i: nat, flags: seq<bool>, count: nat)
    requires Fits(n, s) && i <= |n.children| && KidCounts(env, n, s, i, flags, count)
    ensures |flags| == |n.children|
    ensures forall j | 0 <= j < |n.children| :: MemoInRange(env, n.children[j], s.kids[j])
    ensures i == |n.children| ==> KidCounts(env, n, s, 0, flags, count + 1)
  {}

  lemma {:induction false} ChildrenInRange(
    env: Env, n: Node, s: NodeState, d: EvalData, cur: Cursor, saved: seq<nat>, i: nat, result: int, count: nat,
    flags: seq<bool>) returns (flags': seq<bool>)
    requires Proper(n) && Fits(n, s) && i <= |n.children|
    requires KidCounts(env, n, s, i, flags, count) && result == Q.CountTrue(flags)
    ensures var r := Children(env, n, s, d, cur, saved, i, result, count);
            KidCounts(env, n, r.s, |n.children|, flags', count) && r.result == Q.CountTrue(flags')
    decreases n, 0, |n.children| - i
  {
    hide KidCounts, Q.CountTrue, MemoInRange, Evaluate, Proper, Skips, Counted, FreshInRange;
    flags' := flags;
    if i < |n.children| {
      var c, cs, d0 := n.children[i], s.kids[i], d.(vars := saved);
      if count > 0 && Skips(c, cs.result) {
        var more := if cs.result == 0 && count == 1 then 1 else 0;
        var flag := SkipCounts(env, n, s, i, flags, count);
        flags' := ChildrenInRange(env, n, s, d0, cur, saved, i + 1, result + more, count, flags[i := flag]);
      } else {
        var e := Evaluate(env, c, cs, d0, cur);
        ChildIsProper(env, n, s, i, flags, count);
        ResultInRange(env, c, cs, d0, cur);
        var flag := EvalCounts(env, n, s, e, i, flags, count);
        flags' := ChildrenInRange(env, n, s.(kids := s.kids[i := e.s.(result := e.result)]), e.d, cur, saved, i + 1,
                                  result + Counted(c, e.result), count, flags[i := flag]);
      }
    }
  }

  lemma ChildIsProper(env: Env, n: Node, s: NodeState, i: nat, flags: seq<bool>, count: nat)
    requires Proper(n) && Fits(n, s) && i < |n.children| && KidCounts(env, n, s, i, flags, count)
    ensures Proper(n.children[i]) && MemoInRange(env, n.children[i], s.kids[i])
    ensures |flags| == |n.children|
  {}

  lemma SkipCounts(env: Env, n: Node, s: NodeState, i: nat, flags: seq<bool>, count: nat) returns (flag: bool)
    requires Proper(n) && Fits(n, s) && i < |n.children| && KidCounts(env, n, s, i, flags, count)
    requires count > 0 && Skips(n.children[i], s.kids[i].result)
    ensures |flags| == |n.children|
    ensures KidCounts(env, n, s, i + 1, flags[i := flag], count)
    ensures Q.CountTrue(flags[i := flag]) ==
            Q.CountTrue(flags) + (if s.kids[i].result == 0 && count == 1 then 1 else 0)
  {
    hide Q.CountTrue, MemoInRange;
    ChildIsProper(env, n, s, i, flags, count);
    assert KidCount(env, n.children[i], s.kids[i], flags[i], count);
    flag := flags[i] || (s.kids[i].result == 0 && count == 1);
    Q.FlagCount(flags, i, flag);
  }

  lemma EvalCounts(env: Env, n: Node, s: NodeState, e: Evaluated, i: nat, flags: seq<bool>, count: nat)
    returns (flag: bool)
    requires Proper(n) && Fits(n, s) && i < |n.children| && KidCounts(env, n, s, i, flags, count)
    requires count > 0 ==> !Skips(n.children[i], s.kids[i].result)
    requires Fits(n.children[i], e.s) && MemoInRange(env, n.children[i], e.s)
    requires n.children[i].kind.Leaf? ==> e.result == Header(env, n.children[i])
    ensures |flags| == |n.children|
    ensures var s' := s.(kids := s.kids[i := e.s.(result := e.result)]);
            Fits(n, s') && KidCounts(env, n, s', i + 1, flags[i := flag], count)
    ensures Q.CountTrue(flags[i := flag]) == Q.CountTrue(flags) + Counted(n.children[i], e.result)
  {
    hide Q.CountTrue, MemoInRange;
    var c := n.children[i];
    ChildIsProper(env, n, s, i, flags, count);
    assert count > 0 ==> KidCount(env, c, s.kids[i], flags[i], count);
    assert !flags[i];
    flag := Counted(c, e.result) == 1;
    ResultKept(env, c, e.s, e.result);
    Q.FlagCount(flags, i, flag);
  }

  lemma ResultKept(env: Env, n: Node, s: NodeState, r: int)
    requires Fits(n, s) && MemoInRange(env, n, s)
    ensures Fits(n, s.(result := r)) && MemoInRange(env, n, s.(result := r))
  {
    var s' := s.(result := r);
    forall i | 0 <= i < |n.children| ensures MemoInRange(env, n.children[i], s'.kids[i]) {}
  }

  /** What a loop stores is what it returns, unless a flowbit test failed. */
  lemma {:induction false} LoopStores(
    env: Env, n: Node, s: NodeState, d: EvalData, cur: Cursor, result: int, count: nat)
    requires Fits(n, s)
    ensures var r := Loop(env, n, s, d, cur, result, count);
            r.s.flowbitFailed || r.s.memo == ToChar(r.result)
    decreases Rank(env, n, cur)
  {
    hide Children, Fits, ToChar, ContentSearch.Eval;
    var t := Try(env, n, d, cur, result);
    if t.status == MATCH && TryAgain(env, n, t.cursor) {
      RetryAdvances(env, n, d, cur, result);
      var k := Children(env, n, s, t.d, t.cursor, t.d.vars, 0, t.result, count);
      LoopStores(env, n, k.s, k.d, t.cursor, k.result, count + 1);
    }
  }

  /**
    Asked again in the same context, a node answers with the byte it stored.  That is the same result for
    every node with at most 127 children; EvaluatorLimits.dfy has a node of any larger width that differs.
   */
  lemma MemoAnswers(env: Env, n: Node, s: NodeState, d: EvalData, cur: Cursor, d': EvalData, cur': Cursor)
    requires Proper(n) && !n.isRelative && Fits(n, s) && MemoInRange(env, n, s) && !Checked(env, s)
    ensures var r := Evaluate(env, n, s, d, cur);
            Checked(env, r.s) ==>
              var again := Evaluate(env, n, r.s, d', cur');
              again.result == ToChar(r.result) && (|n.children| <= 127 ==> again.result == r.result)
  {
    hide Loop, MemoInRange, Proper;
    ResultInRange(env, n, s, d, cur);
    LoopStores(env, n, s.(stamp := Some(env.stamp), flowbitFailed := false), d, Copy(cur), 0, 0);
  }
}
