/**
  Which checks may be reused after a flowbit test has failed (src/detection/detection_options.cc, lines 374-394,
  546-554 and 710-717).  A test that fails marks the evaluation data for good; a node that ends its evaluation with
  the mark set is evaluated again when it is checked again, unless its last try did not match.
 */
module FlowbitPaths {
  import opened Basics
  import opened ContentSearch
  import opened OptionTree
  import opened NoAlertPaths
  import T = TreeFacts

  // ----- the mark stays -----

  lemma {:induction false} EvaluateKeepsMark(env: Env, n: Node, s: NodeState, d: EvalData, cur: Cursor)
    requires Fits(n, s) && d.flowbitFailed
    ensures Evaluate(env, n, s, d, cur).d.flowbitFailed
    decreases n, 2 + Rank(env, n, Copy(cur)), 0
  {
    if Fresh(env, n, s) {
      LoopKeepsMark(env, n, Begin(env, s, d, cur));
    }
  }

  lemma TryKeepsMark(env: Env, n: Node, d: EvalData, cur: Cursor, result: int)
    ensures Try(env, n, d, cur, result).d.flowbitFailed == d.flowbitFailed
  {
  }

  lemma {:induction false} LoopKeepsMark(env: Env, n: Node, a: Turn)
    requires Fits(n, a.s) && a.d.flowbitFailed
    ensures LoopFrom(env, n, a).d.flowbitFailed
    decreases n, 1 + Rank(env, n, a.cur), 1
  {
    hide Try, Children, Fits, TryAgain, HasRelativeChild;
    var t := Try(env, n, a.d, a.cur, a.result);
    TryKeepsMark(env, n, a.d, a.cur, a.result);
    if t.status == MATCH || t.status == NO_ALERT {
      ChildrenKeepMark(env, n, a.s, Below(t), t.cursor, Below(t).vars, 0, t.result, a.count);
      KidsKeepMark(env, n, a);
    }
  }

  /** A mark that the children of an iteration leave is there in the end. */
  lemma {:induction false} KidsKeepMark(env: Env, n: Node, a: Turn)
    requires Fits(n, a.s)
    requires var t := Try(env, n, a.d, a.cur, a.result);
             (t.status == MATCH || t.status == NO_ALERT) && KidsOf(env, n, a, t).d.flowbitFailed
    ensures LoopFrom(env, n, a).d.flowbitFailed
    decreases n, 1 + Rank(env, n, a.cur), 0
  {
    hide Try, Children, Fits, TryAgain, HasRelativeChild;
    var b := NextTurn(env, n, a);
    if b.Some? {
      T.RetryAdvances(env, n, a.d, a.cur, a.result);
      NextTurnSame(env, n, a);
      LoopKeepsMark(env, n, b.value);
    } else {
      LastTurnMark(env, n, a);
    }
  }

  /** The last iteration, unless its try did not match: the state is marked exactly if the data are. */
  lemma LastTurnMark(env: Env, n: Node, a: Turn)
    requires Fits(n, a.s) && NextTurn(env, n, a).None?
    requires var st := Try(env, n, a.d, a.cur, a.result).status; st == MATCH || st == NO_ALERT
    ensures var r, k := LoopFrom(env, n, a), KidsOf(env, n, a, Try(env, n, a.d, a.cur, a.result));
            r.d.flowbitFailed == k.d.flowbitFailed && r.s.flowbitFailed == (k.s.flowbitFailed || k.d.flowbitFailed)
  {
    hide Fits, Try, Children, TryAgain, HasRelativeChild;
  }

  lemma {:induction false} ChildrenKeepMark(
    env: Env, n: Node, s: NodeState, d: EvalData, cur: Cursor, saved: seq<nat>, i: nat, result: int, count: nat)
    requires Fits(n, s) && i <= |n.children| && d.flowbitFailed
    ensures Children(env, n, s, d, cur, saved, i, result, count).d.flowbitFailed
    decreases n, 0, |n.children| - i
  {
    if i < |n.children| {
      var child, cs, d0 := n.children[i], s.kids[i], d.(vars := saved);
      if count > 0 && Skips(child, cs.result) {
        var more := if cs.result == 0 && count == 1 then 1 else 0;
        ChildrenKeepMark(env, n, s, d0, cur, saved, i + 1, result + more, count);
      } else {
        var e := Evaluate(env, child, cs, d0, cur);
        EvaluateKeepsMark(env, child, cs, d0, cur);
        ChildrenKeepMark(env, n, s.(kids := s.kids[i := e.s.(result := e.result)]), e.d, cur, saved, i + 1,
                         result + Counted(child, e.result), count);
      }
    }
  }

  // ----- a test that fails on a path leaves its mark -----

  /** In some iteration the node's own test fails. */
  ghost predicate TestFails(env: Env, n: Node, s: NodeState, d: EvalData, cur: Cursor)
    requires Fits(n, s)
  {
    Fresh(env, n, s) &&
    exists j :: FailsAt(env, n, Begin(env, s, d, cur), j)
  }

  predicate FailsAt(env: Env, n: Node, a: Turn, j: nat)
    requires Fits(n, a.s)
  {
    var b := TurnAt(env, n, a, j);
    b.Some? && Try(env, n, b.value.d, b.value.cur, b.value.result).status == FAILED_BIT
  }

  /** Evaluation takes the path to a node whose test fails. */
  ghost predicate FailsOn(env: Env, n: Node, s: NodeState, d: EvalData, cur: Cursor, path: seq<Hop>)
    requires Fits(n, s)
  {
    var r := Follow(env, n, s, d, cur, path);
    r.Some? && TestFails(env, r.value.node, r.value.s, r.value.d, r.value.cur)
  }

  lemma OwnTestMarks(env: Env, n: Node, s: NodeState, d: EvalData, cur: Cursor)
    requires Fits(n, s) && TestFails(env, n, s, d, cur)
    ensures Evaluate(env, n, s, d, cur).d.flowbitFailed
  {
    hide Try, TurnAt, Children;
    var a := Begin(env, s, d, cur);
    var j :| FailsAt(env, n, a, j);
    TurnSame(env, n, a, j);
    FailedTurn(env, n, TurnAt(env, n, a, j).value);
  }

  lemma FailedTurn(env: Env, n: Node, a: Turn)
    requires Fits(n, a.s) && Try(env, n, a.d, a.cur, a.result).status == FAILED_BIT
    ensures LoopFrom(env, n, a).d.flowbitFailed && LoopFrom(env, n, a).s.flowbitFailed
  {
    hide Fits, Try, Children;
  }

  lemma KidMarks(env: Env, n: Node, a: Turn, i: nat)
    requires Fits(n, a.s) && i < |n.children|
    requires var t := Try(env, n, a.d, a.cur, a.result);
             && ChildAt(env, n, a, t, i).Some?
             && var c := ChildAt(env, n, a, t, i).value; Evaluate(env, c.node, c.s, c.d, c.cur).d.flowbitFailed
    ensures KidsOf(env, n, a, Try(env, n, a.d, a.cur, a.result)).d.flowbitFailed
  {
    hide Try, Pass, Evaluate;
    var t := Try(env, n, a.d, a.cur, a.result);
    var d, saved := Below(t), Below(t).vars;
    PassSame(env, n, a.s, d, t.cursor, saved, i, t.result, a.count);
    var p := Pass(env, n, a.s, d, t.cursor, saved, i, t.result, a.count);
    var c := n.children[i];
    var e := Evaluate(env, c, p.s.kids[i], p.d.(vars := saved), t.cursor);
    ChildrenKeepMark(env, n, p.s.(kids := p.s.kids[i := e.s.(result := e.result)]), e.d, t.cursor, saved, i + 1,
                     p.result + Counted(c, e.result), a.count);
  }

  lemma ChildMarks(env: Env, n: Node, s: NodeState, d: EvalData, cur: Cursor, hop: Hop)
    requires Fits(n, s) && Fresh(env, n, s) && TurnAt(env, n, Begin(env, s, d, cur), hop.iteration).Some?
    requires hop.child < |n.children|
    requires var a := TurnAt(env, n, Begin(env, s, d, cur), hop.iteration).value;
             var t := Try(env, n, a.d, a.cur, a.result);
             && (t.status == MATCH || t.status == NO_ALERT) && ChildAt(env, n, a, t, hop.child).Some?
             && var c := ChildAt(env, n, a, t, hop.child).value;
                Evaluate(env, c.node, c.s, c.d, c.cur).d.flowbitFailed
    ensures Evaluate(env, n, s, d, cur).d.flowbitFailed
  {
    hide Try, TurnAt, Pass, Loop;
    var b := Begin(env, s, d, cur);
    TurnSame(env, n, b, hop.iteration);
    var a := TurnAt(env, n, b, hop.iteration).value;
    KidMarks(env, n, a, hop.child);
    KidsKeepMark(env, n, a);
  }

  lemma {:induction false} PathMarks(env: Env, n: Node, s: NodeState, d: EvalData, cur: Cursor, path: seq<Hop>)
    requires Fits(n, s) && FailsOn(env, n, s, d, cur, path)
    ensures Evaluate(env, n, s, d, cur).d.flowbitFailed
    decreases |path|
  {
    if path == [] {
      OwnTestMarks(env, n, s, d, cur);
    } else {
      hide Try, TurnAt, ChildAt, Fresh, Evaluate, TestFails;
      var a := TurnAt(env, n, Begin(env, s, d, cur), path[0].iteration).value;
      var t := Try(env, n, a.d, a.cur, a.result);
      var c := ChildAt(env, n, a, t, path[0].child).value;
      PathMarks(env, c.node, c.s, c.d, c.cur, path[1..]);
      ChildMarks(env, n, s, d, cur, path[0]);
    }
  }

  // ----- a new mark has a path -----

  lemma {:induction false} MarkHasPath(env: Env, n: Node, s: NodeState, d: EvalData, cur: Cursor)
    returns (path: seq<Hop>)
    requires Fits(n, s) && !d.flowbitFailed && Evaluate(env, n, s, d, cur).d.flowbitFailed
    ensures FailsOn(env, n, s, d, cur, path)
    decreases n, 2 + Rank(env, n, Copy(cur)), 0
  {
    path := TurnHasMark(env, n, s, d, cur, 0);
  }

  /** From iteration `j` on. */
  lemma {:induction false} TurnHasMark(env: Env, n: Node, s: NodeState, d: EvalData, cur: Cursor, j: nat)
    returns (path: seq<Hop>)
    requires Fits(n, s) && Fresh(env, n, s)
    requires var b := TurnAt(env, n, Begin(env, s, d, cur), j);
             b.Some? && !b.value.d.flowbitFailed && LoopFrom(env, n, b.value).d.flowbitFailed
    ensures FailsOn(env, n, s, d, cur, path)
    decreases n, 1 + Rank(env, n, TurnAt(env, n, Begin(env, s, d, cur), j).value.cur), 0
  {
    hide Try, KidsOf, LoopFrom, NextTurn, ChildAt, TryAgain, Fresh, Pass, FailsOn, TurnAt;
    var a := TurnAt(env, n, Begin(env, s, d, cur), j).value;
    var t := Try(env, n, a.d, a.cur, a.result);
    TryKeepsMark(env, n, a.d, a.cur, a.result);
    if t.status == FAILED_BIT {
      path := [];
      FailsHere(env, n, s, d, cur, j);
    } else {
      MarkMeansGoes(env, n, a);
      if KidsOf(env, n, a, t).d.flowbitFailed {
        NoMarkYet(env, n, a);
        var i, sub := KidHasMark(env, n, a, 0);
        path := [Hop(j, i)] + sub;
        MarkThrough(env, n, s, d, cur, j, i, sub);
      } else {
        OnlyLaterMark(env, n, a);
        T.RetryAdvances(env, n, a.d, a.cur, a.result);
        NextTurnSame(env, n, a);
        OneTurnOn(env, n, Begin(env, s, d, cur), j);
        path := TurnHasMark(env, n, s, d, cur, j + 1);
      }
    }
  }

  lemma OneTurnOn(env: Env, n: Node, a: Turn, j: nat)
    requires Fits(n, a.s) && TurnAt(env, n, a, j).Some?
    ensures TurnAt(env, n, a, j + 1) == NextTurn(env, n, TurnAt(env, n, a, j).value)
  {
    hide NextTurn;
  }

  lemma FailsHere(env: Env, n: Node, s: NodeState, d: EvalData, cur: Cursor, j: nat)
    requires Fits(n, s) && Fresh(env, n, s) && FailsAt(env, n, Begin(env, s, d, cur), j)
    ensures FailsOn(env, n, s, d, cur, [])
  {
    hide FailsAt, Fresh;
  }

  lemma NoMarkYet(env: Env, n: Node, a: Turn)
    requires Fits(n, a.s) && !Try(env, n, a.d, a.cur, a.result).d.flowbitFailed
    ensures var t := Try(env, n, a.d, a.cur, a.result);
            !Pass(env, n, a.s, Below(t), t.cursor, Below(t).vars, 0, t.result, a.count).d.flowbitFailed
  {
    hide Try;
  }

  lemma MarkMeansGoes(env: Env, n: Node, a: Turn)
    requires Fits(n, a.s) && !Try(env, n, a.d, a.cur, a.result).d.flowbitFailed
    requires LoopFrom(env, n, a).d.flowbitFailed && Try(env, n, a.d, a.cur, a.result).status != FAILED_BIT
    ensures var t := Try(env, n, a.d, a.cur, a.result); t.status == MATCH || t.status == NO_ALERT
  {
    hide Fits, Try, Children;
  }

  lemma OnlyLaterMark(env: Env, n: Node, a: Turn)
    requires Fits(n, a.s) && LoopFrom(env, n, a).d.flowbitFailed
    requires var t := Try(env, n, a.d, a.cur, a.result);
             (t.status == MATCH || t.status == NO_ALERT) && !KidsOf(env, n, a, t).d.flowbitFailed
    ensures var t, b := Try(env, n, a.d, a.cur, a.result), NextTurn(env, n, a);
            && b.Some? && !b.value.d.flowbitFailed && b.value.cur == t.cursor
            && t.status == MATCH && TryAgain(env, n, t.cursor)
  {
    hide Fits, Try, KidsOf, LoopFrom;
    if NextTurn(env, n, a).None? {
      LastTurnMark(env, n, a);
    }
  }

  lemma MarkThrough(env: Env, n: Node, s: NodeState, d: EvalData, cur: Cursor, j: nat, i: nat, sub: seq<Hop>)
    requires Fits(n, s) && Fresh(env, n, s) && i < |n.children|
    requires TurnAt(env, n, Begin(env, s, d, cur), j).Some?
    requires var a := TurnAt(env, n, Begin(env, s, d, cur), j).value;
             var t := Try(env, n, a.d, a.cur, a.result);
             && (t.status == MATCH || t.status == NO_ALERT) && ChildAt(env, n, a, t, i).Some?
             && var c := ChildAt(env, n, a, t, i).value; FailsOn(env, c.node, c.s, c.d, c.cur, sub)
    ensures FailsOn(env, n, s, d, cur, [Hop(j, i)] + sub)
  {
    hide Try, TurnAt, Pass, Fresh, TestFails;
    assert ([Hop(j, i)] + sub)[1..] == sub;
  }

  /** The child of an iteration, from number `i` on, below which a test failed. */
  lemma {:induction false} KidHasMark(env: Env, n: Node, a: Turn, i: nat) returns (k: nat, sub: seq<Hop>)
    requires Fits(n, a.s) && i <= |n.children|
    requires var t := Try(env, n, a.d, a.cur, a.result);
             && KidsOf(env, n, a, t).d.flowbitFailed
             && !Pass(env, n, a.s, Below(t), t.cursor, Below(t).vars, i, t.result, a.count).d.flowbitFailed
    ensures k < |n.children|
    ensures var t := Try(env, n, a.d, a.cur, a.result);
            && ChildAt(env, n, a, t, k).Some?
            && var c := ChildAt(env, n, a, t, k).value; FailsOn(env, c.node, c.s, c.d, c.cur, sub)
    decreases n, 0, |n.children| - i
  {
    hide Try, Evaluate, Loop, Children, Follow, TestFails;
    var t := Try(env, n, a.d, a.cur, a.result);
    var d, saved := Below(t), Below(t).vars;
    PassSame(env, n, a.s, d, t.cursor, saved, i, t.result, a.count);
    var p := Pass(env, n, a.s, d, t.cursor, saved, i, t.result, a.count);
    NotLastMark(env, n, p, t.cursor, saved, i, a.count);
    var c := ChildAt(env, n, a, t, i);
    if c.Some? && Evaluate(env, c.value.node, c.value.s, c.value.d, c.value.cur).d.flowbitFailed {
      k := i;
      sub := MarkHasPath(env, c.value.node, c.value.s, c.value.d, c.value.cur);
    } else {
      k, sub := KidHasMark(env, n, a, i + 1);
    }
  }

  lemma NotLastMark(env: Env, n: Node, p: Evaluated, cur: Cursor, saved: seq<nat>, i: nat, count: nat)
    requires Fits(n, p.s) && i <= |n.children| && !p.d.flowbitFailed
    requires Children(env, n, p.s, p.d, cur, saved, i, p.result, count).d.flowbitFailed
    ensures i < |n.children|
  {
  }

  /** The data are marked in the end exactly if they were before or evaluation takes a path to a test that fails. */
  lemma MarkedExactly(env: Env, n: Node, s: NodeState, d: EvalData, cur: Cursor)
    requires Fits(n, s)
    ensures Evaluate(env, n, s, d, cur).d.flowbitFailed <==>
            d.flowbitFailed || exists path :: FailsOn(env, n, s, d, cur, path)
  {
    hide Evaluate, FailsOn;
    if d.flowbitFailed {
      EvaluateKeepsMark(env, n, s, d, cur);
    } else if Evaluate(env, n, s, d, cur).d.flowbitFailed {
      var path := MarkHasPath(env, n, s, d, cur);
    } else if path :| FailsOn(env, n, s, d, cur, path) {
      PathMarks(env, n, s, d, cur, path);
    }
  }

  // ----- what the mark does to the node's own check -----

  /** What the node's option answers in the last iteration. */
  ghost function LastAnswer(env: Env, n: Node, a: Turn): EvalStatus
    requires Fits(n, a.s)
    decreases Rank(env, n, a.cur)
  {
    var t, b := Try(env, n, a.d, a.cur, a.result), NextTurn(env, n, a);
    if b.None? then t.status
    else
      assert Rank(env, n, b.value.cur) < Rank(env, n, a.cur) by { T.RetryAdvances(env, n, a.d, a.cur, a.result); }
      LastAnswer(env, n, b.value)
  }

  /** The children's evaluation leaves their parent's own check alone. */
  lemma {:induction false} ChildrenLeaveCheck(
    env: Env, n: Node, s: NodeState, d: EvalData, cur: Cursor, saved: seq<nat>, i: nat, result: int, count: nat)
    requires Fits(n, s) && i <= |n.children|
    ensures var r := Children(env, n, s, d, cur, saved, i, result, count);
            r.s.flowbitFailed == s.flowbitFailed && r.s.stamp == s.stamp
    decreases |n.children| - i
  {
    hide Evaluate, Skips, Counted;
    if i < |n.children| {
      var child, cs, d0 := n.children[i], s.kids[i], d.(vars := saved);
      if count > 0 && Skips(child, cs.result) {
        var more := if cs.result == 0 && count == 1 then 1 else 0;
        ChildrenLeaveCheck(env, n, s, d0, cur, saved, i + 1, result + more, count);
      } else {
        var e := Evaluate(env, child, cs, d0, cur);
        ChildrenLeaveCheck(env, n, s.(kids := s.kids[i := e.s.(result := e.result)]), e.d, cur, saved, i + 1,
                           result + Counted(child, e.result), count);
      }
    }
  }

  lemma {:induction false} LoopMarks(env: Env, n: Node, a: Turn)
    requires Fits(n, a.s) && !a.s.flowbitFailed
    ensures var r := LoopFrom(env, n, a);
            && r.s.flowbitFailed == (r.d.flowbitFailed && LastAnswer(env, n, a) != NO_MATCH)
            && r.s.stamp == a.s.stamp
    decreases Rank(env, n, a.cur)
  {
    hide Try, Children, Fits, TryAgain, HasRelativeChild;
    var t, b := Try(env, n, a.d, a.cur, a.result), NextTurn(env, n, a);
    ChildrenLeaveCheck(env, n, a.s, Below(t), t.cursor, Below(t).vars, 0, t.result, a.count);
    if b.Some? {
      T.RetryAdvances(env, n, a.d, a.cur, a.result);
      NextTurnSame(env, n, a);
      LoopMarks(env, n, b.value);
    }
  }

  /** A test failed before or below, and the node has not ended on a try that did not match. */
  ghost predicate Suspect(env: Env, n: Node, s: NodeState, d: EvalData, cur: Cursor)
    requires Fits(n, s)
  {
    && (d.flowbitFailed || exists path :: FailsOn(env, n, s, d, cur, path))
    && LastAnswer(env, n, Begin(env, s, d, cur)) != NO_MATCH
  }

  /**
    For any tree: a check made anew may be reused later in a context if and only if it is that of the check, the
    context's packet allows reuse at all, and the check is not suspect.
   */
  lemma ReusableExactly(env: Env, n: Node, s: NodeState, d: EvalData, cur: Cursor, later: Env)
    requires Fits(n, s) && Fresh(env, n, s)
    ensures Checked(later, Evaluate(env, n, s, d, cur).s) <==>
            && later.stamp == env.stamp && !later.multiple && !later.secondPass
            && !Suspect(env, n, s, d, cur)
  {
    hide LastAnswer, FailsOn, Loop;
    MarkedExactly(env, n, s, d, cur);
    LoopMarks(env, n, Begin(env, s, d, cur));
  }

  /** So a suspect node has its option tried again at the next check, in whatever context. */
  lemma SuspectIsTriedAgain(
    env: Env, n: Node, s: NodeState, d: EvalData, cur: Cursor, later: Env, d': EvalData, cur': Cursor)
    requires Fits(n, s) && Fresh(env, n, s) && Suspect(env, n, s, d, cur)
    ensures var t := Evaluate(env, n, s, d, cur).s;
            Evaluate(later, n, t, d', cur') == LoopFrom(later, n, Begin(later, t, d', cur'))
  {
    hide Suspect, Loop;
    ReusableExactly(env, n, s, d, cur, later);
  }
}
