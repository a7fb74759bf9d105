/**
  What evaluation of any option tree does step by step, said without the evaluator's own functions
  (src/detection/detection_options.cc, lines 415-720): when an option is tried again, which children are evaluated
  then and what they see, what setting a flowbit does, and that the queue only grows.
 */
module OptionLaws {
  import opened Basics
  import opened ContentSearch
  import opened OptionTree
  import opened NoAlertPaths
  import T = TreeFacts

  // ----- the queue -----

  /** The queue has grown at its end, by rules that were not in it, none twice. */
  predicate Grown(before: EvalData, after: EvalData) {
    before.queue <= after.queue && (NoRepeats(before.queue) ==> NoRepeats(after.queue))
  }

  lemma GrownOn(a: EvalData, b: EvalData, c: EvalData)
    requires Grown(a, b) && Grown(b, c)
    ensures Grown(a, c)
  {
  }

  lemma TryGrows(env: Env, n: Node, d: EvalData, cur: Cursor, result: int)
    ensures Grown(d, Try(env, n, d, cur, result).d)
  {
  }

  /** Evaluation of any tree only adds to the queue, and never what is in it. */
  lemma {:induction false} QueueGrows(env: Env, n: Node, s: NodeState, d: EvalData, cur: Cursor)
    requires Fits(n, s)
    ensures Grown(d, Evaluate(env, n, s, d, cur).d)
    decreases n, 2 + Rank(env, n, Copy(cur)), 0
  {
    hide Loop;
    if Fresh(env, n, s) {
      LoopGrows(env, n, Begin(env, s, d, cur));
    }
  }

  lemma {:induction false} LoopGrows(env: Env, n: Node, a: Turn)
    requires Fits(n, a.s)
    ensures Grown(a.d, LoopFrom(env, n, a).d)
    decreases n, 1 + Rank(env, n, a.cur), 0
  {
    hide Try, Children, Fits, TryAgain, HasRelativeChild, Grown;
    var t := Try(env, n, a.d, a.cur, a.result);
    TryGrows(env, n, a.d, a.cur, a.result);
    if t.status == MATCH || t.status == NO_ALERT {
      ChildrenGrow(env, n, a.s, Below(t), t.cursor, Below(t).vars, 0, t.result, a.count);
      SameQueue(t.d, Below(t));
      var k := KidsOf(env, n, a, t);
      GrownOn(t.d, Below(t), k.d);
      GrownOn(a.d, t.d, k.d);
      var b := NextTurn(env, n, a);
      if b.Some? {
        T.RetryAdvances(env, n, a.d, a.cur, a.result);
        NextTurnSame(env, n, a);
        LoopGrows(env, n, b.value);
        GrownOn(a.d, k.d, LoopFrom(env, n, a).d);
      } else {
        LastTurn(env, n, a);
        SameQueue(k.d, LoopFrom(env, n, a).d);
        GrownOn(a.d, k.d, LoopFrom(env, n, a).d);
      }
    } else {
      StopsWith(env, n, a);
      SameQueue(t.d, LoopFrom(env, n, a).d);
      GrownOn(a.d, t.d, LoopFrom(env, n, a).d);
    }
  }

  lemma SameQueue(a: EvalData, b: EvalData)
    requires a.queue == b.queue
    ensures Grown(a, b)
  {
  }

  /** A try that does not match, or a test that fails, ends the loop; the latter answers zero. */
  lemma StopsWith(env: Env, n: Node, a: Turn)
    requires Fits(n, a.s)
    requires var st := Try(env, n, a.d, a.cur, a.result).status; st == NO_MATCH || st == FAILED_BIT
    ensures var t, r := Try(env, n, a.d, a.cur, a.result), LoopFrom(env, n, a);
            && r.d.queue == t.d.queue && r.d.vars == t.d.vars && r.s.memo == ToChar(t.result)
            && r.result == if t.status == FAILED_BIT then 0 else t.result
  {
    hide Try, Children, Fits;
  }

  lemma {:induction false} ChildrenGrow(
    env: Env, n: Node, s: NodeState, d: EvalData, cur: Cursor, saved: seq<nat>, i: nat, result: int, count: nat)
    requires Fits(n, s) && i <= |n.children|
    ensures Grown(d, Children(env, n, s, d, cur, saved, i, result, count).d)
    decreases n, 0, |n.children| - i
  {
    hide Evaluate, Skips, Counted, Grown;
    var d0 := d.(vars := saved);
    var r := Children(env, n, s, d, cur, saved, i, result, count);
    SameQueue(d, d0);
    if i < |n.children| {
      var child, cs := n.children[i], s.kids[i];
      if count > 0 && Skips(child, cs.result) {
        var more := if cs.result == 0 && count == 1 then 1 else 0;
        ChildrenGrow(env, n, s, d0, cur, saved, i + 1, result + more, count);
        GrownOn(d, d0, r.d);
      } else {
        var e := Evaluate(env, child, cs, d0, cur);
        QueueGrows(env, child, cs, d0, cur);
        GrownOn(d, d0, e.d);
        ChildrenGrow(env, n, s.(kids := s.kids[i := e.s.(result := e.result)]), e.d, cur, saved, i + 1,
                     result + Counted(child, e.result), count);
        GrownOn(d, e.d, r.d);
      }
    } else {
      SameQueue(d, r.d);
    }
  }

  // ----- iterations -----

  /** The option itself allows another search behind its last match. */
  predicate AllowsRetry(env: Env, n: Node, cur: Cursor) {
    (n.kind.ContentOption? && ContentSearch.Retry(n.kind.cd, cur)) ||
    (n.kind.PatternOption? && env.retry(n.kind.option, cur))
  }

  /**
    An option is tried again if and only if it has matched, some branch below it is not done, a child depends on where
    it matched, and it is a content or a pattern that allows it; it goes on where it has matched.
   */
  lemma TriedAgainExactly(env: Env, n: Node, a: Turn)
    requires Fits(n, a.s)
    ensures var t, b := Try(env, n, a.d, a.cur, a.result), NextTurn(env, n, a);
            && (b.Some? <==>
                  && t.status == MATCH && !(n.children != [] && KidsOf(env, n, a, t).result == |n.children|)
                  && (exists i :: 0 <= i < |n.children| && n.children[i].isRelative)
                  && AllowsRetry(env, n, t.cursor))
            && (b.Some? ==> b.value.cur == t.cursor && LoopFrom(env, n, a) == LoopFrom(env, n, b.value))
  {
    hide Fits, Children, Try;
    if NextTurn(env, n, a).Some? {
      NextTurnSame(env, n, a);
    }
  }

  // ----- what a child sees -----

  /** Where an option leaves the cursor. */
  function CursorLeft(env: Env, n: Node, d: EvalData, cur: Cursor): Cursor {
    match n.kind
    case Leaf(_) => cur
    case ContentOption(cd) => Eval(cd, Buf(env, cur), cur).cursor
    case Flowbit(option, sets) => if sets then cur else env.answer(option, cur, d.vars).cursor
    case PatternOption(option, _) => env.answer(option, cur, d.vars).cursor
    case OtherOption(option) => env.answer(option, cur, d.vars).cursor
  }

  /** The rule variables as an option leaves them. */
  function VarsLeft(env: Env, n: Node, d: EvalData, cur: Cursor): seq<nat> {
    match n.kind
    case Leaf(_) => d.vars
    case ContentOption(_) => d.vars
    case Flowbit(option, sets) => if sets then d.vars else env.answer(option, cur, d.vars).vars
    case PatternOption(option, _) => env.answer(option, cur, d.vars).vars
    case OtherOption(option) => env.answer(option, cur, d.vars).vars
  }

  /** Whatever its siblings did, a child starts from the cursor and the variables that its parent's option has left. */
  lemma ChildSees(env: Env, n: Node, a: Turn, i: nat)
    requires Fits(n, a.s) && i < |n.children|
    requires var st := Try(env, n, a.d, a.cur, a.result).status; st == MATCH || st == NO_ALERT
    ensures var c := ChildAt(env, n, a, Try(env, n, a.d, a.cur, a.result), i);
            c.Some? ==> c.value.cur == CursorLeft(env, n, a.d, a.cur) && c.value.d.vars == VarsLeft(env, n, a.d, a.cur)
  {
    hide Pass, Eval, Fits;
  }

  /** What a child answered cannot change at another position, since it searches the whole buffer or all the rest. */
  predicate SearchesAll(c: Node) {
    match c.kind
    case ContentOption(cd) => !c.isRelative || cd.depth == 0
    case PatternOption(_, unbounded) => !c.isRelative || unbounded
    case Leaf(_) => false
    case Flowbit(_, _) => false
    case OtherOption(_) => false
  }

  /**
    In the first iteration every child is evaluated; later, exactly those that have neither succeeded altogether nor
    failed for good.
   */
  lemma EvaluatedExactly(env: Env, n: Node, a: Turn, i: nat)
    requires Fits(n, a.s) && i < |n.children|
    ensures var t, c := Try(env, n, a.d, a.cur, a.result), n.children[i];
            var last := Pass(env, n, a.s, Below(t), t.cursor, Below(t).vars, i, t.result, a.count).s.kids[i].result;
            ChildAt(env, n, a, t, i).Some? <==>
            || a.count == 0
            || (last == 0 && !SearchesAll(c))
            || (last != 0 && !c.kind.Leaf? && last != |c.children|)
  {
    hide Pass, Try, Fits;
  }

  // ----- setting flowbits -----

  /**
    An option that sets flowbits always lets its children be evaluated, once, and is performed after them if and only
    if their results add up to one; it then answers one, or the code of its own answer if that is not a match.
   */
  lemma SetterSets(env: Env, n: Node, s: NodeState, d: EvalData, cur: Cursor)
    requires Fits(n, s) && Fresh(env, n, s) && n.kind.Flowbit? && n.kind.sets
    ensures var k := Children(env, n, Begin(env, s, d, cur).s, d, Copy(cur), d.vars, 0, 0, 0);
            var a, r := env.answer(n.kind.option, Copy(cur), k.d.vars), Evaluate(env, n, s, d, cur);
            && r.d.queue == k.d.queue && r.d.noAlert == k.d.noAlert
            && if k.result == 1 then
                 && r.d.vars == a.vars
                 && (a.status == NO_MATCH ==> r.result == 0) && (a.status == MATCH ==> r.result == 1)
                 && (a.status == NO_ALERT ==> r.result == 2) && (a.status == FAILED_BIT ==> r.result == 3)
               else r.d.vars == k.d.vars && r.result == k.result
  {
    hide Children, Fits;
  }
}
