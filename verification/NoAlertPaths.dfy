/**
  Exactly when evaluation queues a rule.  A path says, level by level, in which iteration of a node's loop
  which child is evaluated; a rule is queued if and only if such a path leads to one of its leaves, the
  leaf's header matches, and no node on the path answered NO_ALERT.
 */
module NoAlertPaths {
  import opened Basics
  import opened ContentSearch
  import opened OptionTree
  import T = TreeFacts

  datatype Hop = Hop(iteration: nat, child: nat)

  /** The evaluator's loop at the start of an iteration. */
  datatype Turn = Turn(s: NodeState, d: EvalData, cur: Cursor, result: int, count: nat)

  /** A node about to be evaluated, and whether a node above it answered NO_ALERT. */
  datatype Reached = Reached(node: Node, s: NodeState, d: EvalData, cur: Cursor, silenced: bool)

  predicate Fresh(env: Env, n: Node, s: NodeState) {
    n.isRelative || !Checked(env, s)
  }

  function Begin(env: Env, s: NodeState, d: EvalData, cur: Cursor): Turn {
    Turn(s.(stamp := Some(env.stamp), flowbitFailed := false), d, Copy(cur), 0, 0)
  }

  /** The data that a node hands to its children. */
  function Below(t: Tried): EvalData {
    if t.status == NO_ALERT then t.d.(noAlert := true) else t.d
  }

  function KidsOf(env: Env, n: Node, a: Turn, t: Tried): (r: Evaluated)
    requires Fits(n, a.s)
    ensures Fits(n, r.s)
  {
    Children(env, n, a.s, Below(t), t.cursor, Below(t).vars, 0, t.result, a.count)
  }

  function NextTurn(env: Env, n: Node, a: Turn): (b: Option<Turn>)
    requires Fits(n, a.s)
    ensures b.Some? ==> Fits(n, b.value.s)
  {
    var t := Try(env, n, a.d, a.cur, a.result);
    if t.status != MATCH then None
    else
      var k := KidsOf(env, n, a, t);
      var done := n.children != [] && k.result == |n.children|;
      if !done && HasRelativeChild(n) && TryAgain(env, n, t.cursor) then
        Some(Turn(k.s, k.d, t.cursor, k.result, a.count + 1))
      else None
  }

  function TurnAt(env: Env, n: Node, a: Turn, j: nat): (b: Option<Turn>)
    requires Fits(n, a.s)
    ensures b.Some? ==> Fits(n, b.value.s)
  {
    if j == 0 then Some(a)
    else
      var b := TurnAt(env, n, a, j - 1);
      if b.None? then None else NextTurn(env, n, b.value)
  }

  /** The first `i` children of one iteration. */
  function Pass(
    env: Env, n: Node, s: NodeState, d: EvalData, cur: Cursor, saved: seq<nat>, i: nat, result: int, count: nat)
    : (r: Evaluated)
    requires Fits(n, s) && i <= |n.children|
    ensures Fits(n, r.s)
    decreases i
  {
    if i == 0 then Evaluated(result, s, d)
    else
      var p := Pass(env, n, s, d, cur, saved, i - 1, result, count);
      var child, cs, d0 := n.children[i - 1], p.s.kids[i - 1], p.d.(vars := saved);
      if count > 0 && Skips(child, cs.result) then
        Evaluated(p.result + (if cs.result == 0 && count == 1 then 1 else 0), p.s, d0)
      else
        var e := Evaluate(env, child, cs, d0, cur);
        Evaluated(p.result + Counted(child, e.result), p.s.(kids := p.s.kids[i - 1 := e.s.(result := e.result)]), e.d)
  }

  /** Where child `i` of an iteration is evaluated; None if it is skipped. */
  function ChildAt(env: Env, n: Node, a: Turn, t: Tried, i: nat): (r: Option<Reached>)
    requires Fits(n, a.s) && i < |n.children|
    ensures r.Some? ==> r.value.node == n.children[i] && Fits(r.value.node, r.value.s)
  {
    var p := Pass(env, n, a.s, Below(t), t.cursor, Below(t).vars, i, t.result, a.count);
    if a.count > 0 && Skips(n.children[i], p.s.kids[i].result) then None
    else Some(Reached(n.children[i], p.s.kids[i], p.d.(vars := Below(t).vars), t.cursor, t.status == NO_ALERT))
  }

  /** The node evaluated at the end of a path, if evaluation takes that path. */
  function Follow(env: Env, n: Node, s: NodeState, d: EvalData, cur: Cursor, path: seq<Hop>): (r: Option<Reached>)
    requires Fits(n, s)
    ensures r.Some? ==> Fits(r.value.node, r.value.s)
    decreases |path|
  {
    if path == [] then Some(Reached(n, s, d, cur, false))
    else if !Fresh(env, n, s) then None
    else
      var a := TurnAt(env, n, Begin(env, s, d, cur), path[0].iteration);
      if a.None? then None
      else
        var t := Try(env, n, a.value.d, a.value.cur, a.value.result);
        if (t.status != MATCH && t.status != NO_ALERT) || path[0].child >= |n.children| then None
        else
          var c := ChildAt(env, n, a.value, t, path[0].child);
          if c.None? then None
          else
            var r := Follow(env, c.value.node, c.value.s, c.value.d, c.value.cur, path[1..]);
            if r.None? then None else Some(r.value.(silenced := r.value.silenced || c.value.silenced))
  }

  // ----- the flag along a path -----

  lemma {:induction false} PassKeepsFlag(
    env: Env, n: Node, s: NodeState, d: EvalData, cur: Cursor, saved: seq<nat>, i: nat, result: int, count: nat)
    requires Fits(n, s) && i <= |n.children|
    ensures Pass(env, n, s, d, cur, saved, i, result, count).d.noAlert == d.noAlert
    decreases i
  {
    if i > 0 {
      PassKeepsFlag(env, n, s, d, cur, saved, i - 1, result, count);
      var p := Pass(env, n, s, d, cur, saved, i - 1, result, count);
      T.NoAlertKept(env, n.children[i - 1], p.s.kids[i - 1], p.d.(vars := saved), cur);
    }
  }

  lemma TryKeepsFlag(env: Env, n: Node, d: EvalData, cur: Cursor, result: int)
    ensures Try(env, n, d, cur, result).d.noAlert == d.noAlert
  {
  }

  lemma {:induction false} TurnKeepsFlag(env: Env, n: Node, a: Turn, j: nat)
    requires Fits(n, a.s)
    ensures TurnAt(env, n, a, j).Some? ==> TurnAt(env, n, a, j).value.d.noAlert == a.d.noAlert
  {
    hide Fits, Try, Children;
    if j > 0 && TurnAt(env, n, a, j - 1).Some? {
      TurnKeepsFlag(env, n, a, j - 1);
      var b := TurnAt(env, n, a, j - 1).value;
      var t := Try(env, n, b.d, b.cur, b.result);
      TryKeepsFlag(env, n, b.d, b.cur, b.result);
      T.ChildrenNoAlert(env, n, b.s, Below(t), t.cursor, Below(t).vars, 0, t.result, b.count);
    }
  }

  lemma ChildKeepsFlag(env: Env, n: Node, a: Turn, i: nat)
    requires Fits(n, a.s) && i < |n.children|
    ensures var t := Try(env, n, a.d, a.cur, a.result);
            var c := ChildAt(env, n, a, t, i);
            c.Some? ==> c.value.d.noAlert == (a.d.noAlert || c.value.silenced)
  {
    hide Fits, Try, Pass;
    var t := Try(env, n, a.d, a.cur, a.result);
    TryKeepsFlag(env, n, a.d, a.cur, a.result);
    PassKeepsFlag(env, n, a.s, Below(t), t.cursor, Below(t).vars, i, t.result, a.count);
  }

  /**
    At the end of any path the flag is set if and only if it was set at the root or a node on the path
    answered NO_ALERT, whatever the nodes beside the path do.
   */
  lemma {:induction false} FlagOnPath(env: Env, n: Node, s: NodeState, d: EvalData, cur: Cursor, path: seq<Hop>)
    requires Fits(n, s)
    ensures var r := Follow(env, n, s, d, cur, path);
            r.Some? ==> r.value.d.noAlert == (d.noAlert || r.value.silenced)
    decreases |path|
  {
    hide Try, TurnAt, ChildAt, Fresh;
    if Follow(env, n, s, d, cur, path).Some? && path != [] {
      TurnKeepsFlag(env, n, Begin(env, s, d, cur), path[0].iteration);
      var a := TurnAt(env, n, Begin(env, s, d, cur), path[0].iteration).value;
      var t := Try(env, n, a.d, a.cur, a.result);
      ChildKeepsFlag(env, n, a, path[0].child);
      var c := ChildAt(env, n, a, t, path[0].child).value;
      FlagOnPath(env, c.node, c.s, c.d, c.cur, path[1..]);
    }
  }

  // ----- the evaluator in turns and passes -----

  /** The rest of a loop from a turn on. */
  function LoopFrom(env: Env, n: Node, a: Turn): (r: Evaluated)
    requires Fits(n, a.s)
    ensures Fits(n, r.s)
  {
    Loop(env, n, a.s, a.d, a.cur, a.result, a.count)
  }

  lemma NextTurnSame(env: Env, n: Node, a: Turn)
    requires Fits(n, a.s) && NextTurn(env, n, a).Some?
    ensures LoopFrom(env, n, a) == LoopFrom(env, n, NextTurn(env, n, a).value)
  {
    hide Fits, Try, Children, TryAgain, HasRelativeChild;
  }

  lemma {:induction false} TurnSame(env: Env, n: Node, a: Turn, j: nat)
    requires Fits(n, a.s) && TurnAt(env, n, a, j).Some?
    ensures LoopFrom(env, n, a) == LoopFrom(env, n, TurnAt(env, n, a, j).value)
  {
    hide Fits, LoopFrom, NextTurn;
    if j > 0 {
      TurnSame(env, n, a, j - 1);
      NextTurnSame(env, n, TurnAt(env, n, a, j - 1).value);
    }
  }

  lemma {:induction false} PassSame(
    env: Env, n: Node, s: NodeState, d: EvalData, cur: Cursor, saved: seq<nat>, i: nat, result: int, count: nat)
    requires Fits(n, s) && i <= |n.children|
    ensures var p := Pass(env, n, s, d, cur, saved, i, result, count);
            Children(env, n, s, d, cur, saved, 0, result, count) ==
            Children(env, n, p.s, p.d, cur, saved, i, p.result, count)
    decreases i
  {
    hide Fits, Evaluate, Counted, Skips;
    if i > 0 {
      PassSame(env, n, s, d, cur, saved, i - 1, result, count);
    }
  }

  // ----- a rule once queued stays queued -----

  predicate Has(d: EvalData, rule: nat) {
    rule in d.queue
  }

  lemma TryKeepsRule(env: Env, n: Node, d: EvalData, cur: Cursor, result: int, rule: nat)
    ensures Has(d, rule) ==> Has(Try(env, n, d, cur, result).d, rule)
    ensures Has(Try(env, n, d, cur, result).d, rule) && !Has(d, rule) ==>
              n.kind == Leaf(rule) && env.header(rule) && !d.noAlert
  {
  }

  lemma {:induction false} EvaluateKeepsRule(env: Env, n: Node, s: NodeState, d: EvalData, cur: Cursor, rule: nat)
    requires Fits(n, s) && Has(d, rule)
    ensures Has(Evaluate(env, n, s, d, cur).d, rule)
    decreases n, 2 + Rank(env, n, Copy(cur)), 0
  {
    if Fresh(env, n, s) {
      LoopKeepsRule(env, n, Begin(env, s, d, cur), rule);
    }
  }

  lemma {:induction false} LoopKeepsRule(env: Env, n: Node, a: Turn, rule: nat)
    requires Fits(n, a.s) && Has(a.d, rule)
    ensures Has(LoopFrom(env, n, a).d, rule)
    decreases n, 1 + Rank(env, n, a.cur), 1
  {
    var t := Try(env, n, a.d, a.cur, a.result);
    TryKeepsRule(env, n, a.d, a.cur, a.result, rule);
    if t.status == MATCH || t.status == NO_ALERT {
      ChildrenKeepRule(env, n, a.s, Below(t), t.cursor, Below(t).vars, 0, t.result, a.count, rule);
      KidsKeepRule(env, n, a, rule);
    }
  }

  /** What the children of an iteration have queued is queued in the end. */
  lemma {:induction false} KidsKeepRule(env: Env, n: Node, a: Turn, rule: nat)
    requires Fits(n, a.s)
    requires var t := Try(env, n, a.d, a.cur, a.result);
             (t.status == MATCH || t.status == NO_ALERT) && Has(KidsOf(env, n, a, t).d, rule)
    ensures Has(LoopFrom(env, n, a).d, rule)
    decreases n, 1 + Rank(env, n, a.cur), 0
  {
    var b := NextTurn(env, n, a);
    if b.Some? {
      T.RetryAdvances(env, n, a.d, a.cur, a.result);
      NextTurnSame(env, n, a);
      LoopKeepsRule(env, n, b.value, rule);
    } else {
      LastTurn(env, n, a);
    }
  }

  lemma LastTurn(env: Env, n: Node, a: Turn)
    requires Fits(n, a.s) && NextTurn(env, n, a).None?
    requires var st := Try(env, n, a.d, a.cur, a.result).status; st == MATCH || st == NO_ALERT
    ensures LoopFrom(env, n, a).d.queue == KidsOf(env, n, a, Try(env, n, a.d, a.cur, a.result)).d.queue
  {
    hide Fits, Try, Children, TryAgain, HasRelativeChild;
  }

  lemma {:induction false} ChildrenKeepRule(
    env: Env, n: Node, s: NodeState, d: EvalData, cur: Cursor, saved: seq<nat>, i: nat, result: int, count: nat,
    rule: nat)
    requires Fits(n, s) && i <= |n.children| && Has(d, rule)
    ensures Has(Children(env, n, s, d, cur, saved, i, result, count).d, rule)
    decreases n, 0, |n.children| - i
  {
    if i < |n.children| {
      var child, cs, d0 := n.children[i], s.kids[i], d.(vars := saved);
      if count > 0 && Skips(child, cs.result) {
        var more := if cs.result == 0 && count == 1 then 1 else 0;
        ChildrenKeepRule(env, n, s, d0, cur, saved, i + 1, result + more, count, rule);
      } else {
        var e := Evaluate(env, child, cs, d0, cur);
        EvaluateKeepsRule(env, child, cs, d0, cur, rule);
        ChildrenKeepRule(env, n, s.(kids := s.kids[i := e.s.(result := e.result)]), e.d, cur, saved, i + 1,
                         result + Counted(child, e.result), count, rule);
      }
    }
  }

  // ----- a path that alerts queues its rule -----

  /** The path leads to a leaf of the rule that is checked afresh, its header matches, and nothing silenced it. */
  predicate Alerts(env: Env, n: Node, s: NodeState, d: EvalData, cur: Cursor, path: seq<Hop>, rule: nat)
    requires Fits(n, s)
  {
    var r := Follow(env, n, s, d, cur, path);
    && r.Some? && r.value.node.kind == Leaf(rule) && env.header(rule)
    && Fresh(env, r.value.node, r.value.s) && !r.value.silenced
  }

  lemma LeafQueues(env: Env, n: Node, s: NodeState, d: EvalData, cur: Cursor, rule: nat)
    requires Fits(n, s) && n.kind == Leaf(rule) && env.header(rule) && Fresh(env, n, s) && !d.noAlert
    ensures Has(Evaluate(env, n, s, d, cur).d, rule)
  {
    var a := Begin(env, s, d, cur);
    var t := Try(env, n, a.d, a.cur, a.result);
    ChildrenKeepRule(env, n, a.s, Below(t), t.cursor, Below(t).vars, 0, t.result, a.count, rule);
    KidsKeepRule(env, n, a, rule);
  }

  /** A rule queued by a child in some iteration is queued by its parent. */
  lemma ChildQueues(env: Env, n: Node, s: NodeState, d: EvalData, cur: Cursor, hop: Hop, rule: nat)
    requires Fits(n, s) && Fresh(env, n, s) && TurnAt(env, n, Begin(env, s, d, cur), hop.iteration).Some?
    requires hop.child < |n.children|
    requires var a := TurnAt(env, n, Begin(env, s, d, cur), hop.iteration).value;
             var t := Try(env, n, a.d, a.cur, a.result);
             && (t.status == MATCH || t.status == NO_ALERT) && ChildAt(env, n, a, t, hop.child).Some?
             && var c := ChildAt(env, n, a, t, hop.child).value;
                Has(Evaluate(env, c.node, c.s, c.d, c.cur).d, rule)
    ensures Has(Evaluate(env, n, s, d, cur).d, rule)
  {
    hide Try, TurnAt, Pass, Loop;
    var b := Begin(env, s, d, cur);
    TurnSame(env, n, b, hop.iteration);
    var a := TurnAt(env, n, b, hop.iteration).value;
    KidQueues(env, n, a, hop.child, rule);
    KidsKeepRule(env, n, a, rule);
  }

  lemma KidQueues(env: Env, n: Node, a: Turn, i: nat, rule: nat)
    requires Fits(n, a.s) && i < |n.children|
    requires var t := Try(env, n, a.d, a.cur, a.result);
             && ChildAt(env, n, a, t, i).Some?
             && var c := ChildAt(env, n, a, t, i).value;
                Has(Evaluate(env, c.node, c.s, c.d, c.cur).d, rule)
    ensures Has(KidsOf(env, n, a, Try(env, n, a.d, a.cur, a.result)).d, rule)
  {
    hide Try, Pass, Evaluate;
    var t := Try(env, n, a.d, a.cur, a.result);
    var d, saved := Below(t), Below(t).vars;
    PassSame(env, n, a.s, d, t.cursor, saved, i, t.result, a.count);
    var p := Pass(env, n, a.s, d, t.cursor, saved, i, t.result, a.count);
    var c := n.children[i];
    var e := Evaluate(env, c, p.s.kids[i], p.d.(vars := saved), t.cursor);
    ChildrenKeepRule(env, n, p.s.(kids := p.s.kids[i := e.s.(result := e.result)]), e.d, t.cursor, saved, i + 1,
                     p.result + Counted(c, e.result), a.count, rule);
  }

  lemma {:induction false} PathQueues(
    env: Env, n: Node, s: NodeState, d: EvalData, cur: Cursor, path: seq<Hop>, rule: nat)
    requires Fits(n, s) && !d.noAlert && Alerts(env, n, s, d, cur, path, rule)
    ensures Has(Evaluate(env, n, s, d, cur).d, rule)
    decreases |path|
  {
    if path == [] {
      LeafQueues(env, n, s, d, cur, rule);
    } else {
      hide Try, TurnAt, ChildAt, Fresh, Evaluate;
      TurnKeepsFlag(env, n, Begin(env, s, d, cur), path[0].iteration);
      var a := TurnAt(env, n, Begin(env, s, d, cur), path[0].iteration).value;
      var t := Try(env, n, a.d, a.cur, a.result);
      ChildKeepsFlag(env, n, a, path[0].child);
      var c := ChildAt(env, n, a, t, path[0].child).value;
      PathQueues(env, c.node, c.s, c.d, c.cur, path[1..], rule);
      ChildQueues(env, n, s, d, cur, path[0], rule);
    }
  }

  // ----- a rule that is queued has a path -----

  lemma {:induction false} QueuedHasPath(env: Env, n: Node, s: NodeState, d: EvalData, cur: Cursor, rule: nat)
    returns (path: seq<Hop>)
    requires Fits(n, s) && !d.noAlert && !Has(d, rule) && Has(Evaluate(env, n, s, d, cur).d, rule)
    ensures Alerts(env, n, s, d, cur, path, rule)
    decreases n, 2 + Rank(env, n, Copy(cur)), 0
  {
    if n.kind == Leaf(rule) && env.header(rule) {
      path := [];
    } else {
      path := TurnHasPath(env, n, s, d, cur, 0, rule);
    }
  }

  /** From iteration `j` on. */
  lemma {:induction false} TurnHasPath(
    env: Env, n: Node, s: NodeState, d: EvalData, cur: Cursor, j: nat, rule: nat)
    returns (path: seq<Hop>)
    requires Fits(n, s) && Fresh(env, n, s) && !d.noAlert && !(n.kind == Leaf(rule) && env.header(rule))
    requires var b := TurnAt(env, n, Begin(env, s, d, cur), j);
             b.Some? && !Has(b.value.d, rule) && Has(LoopFrom(env, n, b.value).d, rule)
    ensures Alerts(env, n, s, d, cur, path, rule)
    decreases n, 1 + Rank(env, n, TurnAt(env, n, Begin(env, s, d, cur), j).value.cur), 0
  {
    hide Try, KidsOf, LoopFrom, NextTurn, Alerts, ChildAt, TryAgain, Fresh, Pass;
    var a := TurnAt(env, n, Begin(env, s, d, cur), j).value;
    var t := Try(env, n, a.d, a.cur, a.result);
    TurnKeepsFlag(env, n, Begin(env, s, d, cur), j);
    TryKeepsRule(env, n, a.d, a.cur, a.result, rule);
    QueuedMeansGoes(env, n, a, rule);
    if Has(KidsOf(env, n, a, t).d, rule) {
      NoPassYet(env, n, a, rule);
      var i, sub := KidHasPath(env, n, a, 0, rule);
      path := [Hop(j, i)] + sub;
      PathThrough(env, n, s, d, cur, j, i, sub, rule);
    } else {
      OnlyLater(env, n, a, rule);
      T.RetryAdvances(env, n, a.d, a.cur, a.result);
      NextTurnSame(env, n, a);
      path := TurnHasPath(env, n, s, d, cur, j + 1, rule);
    }
  }

  lemma NoPassYet(env: Env, n: Node, a: Turn, rule: nat)
    requires Fits(n, a.s) && !Has(Try(env, n, a.d, a.cur, a.result).d, rule)
    ensures var t := Try(env, n, a.d, a.cur, a.result);
            !Has(Pass(env, n, a.s, Below(t), t.cursor, Below(t).vars, 0, t.result, a.count).d, rule)
  {
    hide Try;
  }

  lemma QueuedMeansGoes(env: Env, n: Node, a: Turn, rule: nat)
    requires Fits(n, a.s) && !Has(Try(env, n, a.d, a.cur, a.result).d, rule) && Has(LoopFrom(env, n, a).d, rule)
    ensures var t := Try(env, n, a.d, a.cur, a.result); t.status == MATCH || t.status == NO_ALERT
  {
    hide Fits, Try, Children;
  }

  lemma OnlyLater(env: Env, n: Node, a: Turn, rule: nat)
    requires Fits(n, a.s) && Has(LoopFrom(env, n, a).d, rule)
    requires var t := Try(env, n, a.d, a.cur, a.result);
             (t.status == MATCH || t.status == NO_ALERT) && !Has(KidsOf(env, n, a, t).d, rule)
    ensures var t, b := Try(env, n, a.d, a.cur, a.result), NextTurn(env, n, a);
            && b.Some? && !Has(b.value.d, rule) && b.value.cur == t.cursor
            && t.status == MATCH && TryAgain(env, n, t.cursor)
  {
    hide Fits, Try, KidsOf, LoopFrom;
    if NextTurn(env, n, a).None? {
      LastTurn(env, n, a);
    }
  }

  lemma PathThrough(env: Env, n: Node, s: NodeState, d: EvalData, cur: Cursor, j: nat, i: nat, sub: seq<Hop>, rule: nat)
    requires Fits(n, s) && Fresh(env, n, s) && i < |n.children|
    requires TurnAt(env, n, Begin(env, s, d, cur), j).Some?
    requires var a := TurnAt(env, n, Begin(env, s, d, cur), j).value;
             var t := Try(env, n, a.d, a.cur, a.result);
             && t.status == MATCH && ChildAt(env, n, a, t, i).Some?
             && var c := ChildAt(env, n, a, t, i).value; Alerts(env, c.node, c.s, c.d, c.cur, sub, rule)
    ensures Alerts(env, n, s, d, cur, [Hop(j, i)] + sub, rule)
  {
    hide Try, TurnAt, Pass, Fresh;
    assert ([Hop(j, i)] + sub)[1..] == sub;
  }

  /** The child of an iteration, from number `i` on, that queued the rule. */
  lemma {:induction false} KidHasPath(env: Env, n: Node, a: Turn, i: nat, rule: nat) returns (k: nat, sub: seq<Hop>)
    requires Fits(n, a.s) && i <= |n.children| && !a.d.noAlert
    requires var t := Try(env, n, a.d, a.cur, a.result);
             && (t.status == MATCH || t.status == NO_ALERT) && Has(KidsOf(env, n, a, t).d, rule)
             && !Has(Pass(env, n, a.s, Below(t), t.cursor, Below(t).vars, i, t.result, a.count).d, rule)
             && !Has(t.d, rule)
    ensures k < |n.children|
    ensures var t := Try(env, n, a.d, a.cur, a.result);
            && t.status == MATCH && ChildAt(env, n, a, t, k).Some?
            && var c := ChildAt(env, n, a, t, k).value; Alerts(env, c.node, c.s, c.d, c.cur, sub, rule)
    decreases n, 0, |n.children| - i
  {
    hide Try, Evaluate, Loop, Children, Follow;
    var t := Try(env, n, a.d, a.cur, a.result);
    TryKeepsFlag(env, n, a.d, a.cur, a.result);
    var d, saved := Below(t), Below(t).vars;
    PassSame(env, n, a.s, d, t.cursor, saved, i, t.result, a.count);
    PassKeepsFlag(env, n, a.s, d, t.cursor, saved, i, t.result, a.count);
    SilentKids(env, n, a, rule);
    var p := Pass(env, n, a.s, d, t.cursor, saved, i, t.result, a.count);
    NotLast(env, n, p, t.cursor, saved, i, a.count, rule);
    var c := ChildAt(env, n, a, t, i);
    if c.Some? && Has(Evaluate(env, c.value.node, c.value.s, c.value.d, c.value.cur).d, rule) {
      k := i;
      sub := QueuedHasPath(env, c.value.node, c.value.s, c.value.d, c.value.cur, rule);
    } else {
      k, sub := KidHasPath(env, n, a, i + 1, rule);
    }
  }

  lemma NotLast(env: Env, n: Node, p: Evaluated, cur: Cursor, saved: seq<nat>, i: nat, count: nat, rule: nat)
    requires Fits(n, p.s) && i <= |n.children| && !Has(p.d, rule)
    requires Has(Children(env, n, p.s, p.d, cur, saved, i, p.result, count).d, rule)
    ensures i < |n.children|
  {
  }

  /** Under NO_ALERT the children queue nothing. */
  lemma SilentKids(env: Env, n: Node, a: Turn, rule: nat)
    requires Fits(n, a.s)
    requires var t := Try(env, n, a.d, a.cur, a.result);
             Has(KidsOf(env, n, a, t).d, rule) && !Has(t.d, rule)
    ensures Try(env, n, a.d, a.cur, a.result).status != NO_ALERT
  {
    hide Fits, Try, Children;
    var t := Try(env, n, a.d, a.cur, a.result);
    T.ChildrenNoAlert(env, n, a.s, Below(t), t.cursor, Below(t).vars, 0, t.result, a.count);
  }

  /**
    A rule not queued before is queued by the evaluation of any tree if and only if the flag is clear at the
    root and evaluation takes a path on which no node answers NO_ALERT to a leaf of the rule that matches.
   */
  lemma QueuedExactly(env: Env, n: Node, s: NodeState, d: EvalData, cur: Cursor, rule: nat)
    requires Fits(n, s) && !Has(d, rule)
    ensures Has(Evaluate(env, n, s, d, cur).d, rule) <==>
            !d.noAlert && exists path :: Alerts(env, n, s, d, cur, path, rule)
  {
    hide Evaluate, Alerts;
    if d.noAlert {
      T.NoAlertKept(env, n, s, d, cur);
    } else if Has(Evaluate(env, n, s, d, cur).d, rule) {
      var path := QueuedHasPath(env, n, s, d, cur, rule);
    } else if path :| Alerts(env, n, s, d, cur, path, rule) {
      PathQueues(env, n, s, d, cur, path, rule);
    }
  }
}
