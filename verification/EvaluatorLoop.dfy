/**
  The evaluator as it runs: a do-while loop over the matches of a node and a loop over its children,
  updating the node's state and the evaluation data (src/detection/detection_options.cc, lines 344-721).
 */
module EvaluatorLoop {
  import opened Basics
  import opened ContentSearch
  import opened OptionTree

  method EvaluateNode(env: Env, n: Node, s: NodeState, d: EvalData, cur: Cursor) returns (r: Evaluated)
    requires Fits(n, s)
    ensures r == Evaluate(env, n, s, d, cur)
    decreases n, 1
  {
    if !n.isRelative && Checked(env, s) {
      return Evaluated(s.memo, s, d);
    }
    var state := s.(stamp := Some(env.stamp), flowbitFailed := false);
    var data, cursor := d, Copy(cur);
    var result: int, count: nat, again := 0, 0, true;
    while again
      invariant Fits(n, state)
      invariant again ==> Evaluate(env, n, s, d, cur) == Loop(env, n, state, data, cursor, result, count)
      invariant !again ==> Evaluate(env, n, s, d, cur) == Finish(env, n, state, data, cursor, result)
      decreases again, Rank(env, n, cursor)
    {
      var t := Try(env, n, data, cursor, result);
      result, data, cursor := t.result, t.d, t.cursor;
      if t.status == NO_MATCH {
        return Evaluated(result, state.(memo := ToChar(result)), data);
      }
      if t.status == FAILED_BIT {
        return Evaluated(0, state.(flowbitFailed := true, memo := ToChar(result)), data.(flowbitFailed := true));
      }
      var wasNoAlert := data.noAlert;
      if t.status == NO_ALERT {
        data := data.(noAlert := true);
      }
      state, data, result := EvaluateChildren(env, n, state, data, cursor, result, count);
      if n.children != [] && result == |n.children| {
        again := false;
      }
      if t.status == NO_ALERT {
        data := data.(noAlert := wasNoAlert);
      }
      again := again && t.status == MATCH && HasRelativeChild(n) && TryAgain(env, n, cursor);
      count := count + 1;
    }
    r := Finish(env, n, state, data, cursor, result);
  }

  method EvaluateChildren(
    env: Env, n: Node, s: NodeState, d: EvalData, cursor: Cursor, before: int, count: nat)
    returns (state: NodeState, data: EvalData, result: int)
    requires Fits(n, s)
    ensures Fits(n, state)
    ensures Evaluated(result, state, data) == Children(env, n, s, d, cursor, d.vars, 0, before, count)
    decreases n, 0
  {
    hide Evaluate;
    state, data, result := s, d, before;
    var saved := data.vars;
    var i := 0;
    while i < |n.children|
      invariant i <= |n.children| && Fits(n, state)
      invariant Children(env, n, s, d, cursor, d.vars, 0, before, count) ==
                Children(env, n, state, data, cursor, saved, i, result, count)
    {
      var child, childState := n.children[i], state.kids[i];
      data := data.(vars := saved);
      i := i + 1;
      if count > 0 {
        if childState.result == 0 {
          if Skippable(child) {
            if count == 1 {
              result := result + 1;
            }
            continue;
          }
        } else if child.kind.Leaf? {
          continue;
        } else if childState.result == |child.children| {
          continue;
        }
      }
      var e := EvaluateNode(env, child, childState, data, cursor);
      state := state.(kids := state.kids[i - 1 := e.s.(result := e.result)]);
      data := e.d;
      if child.kind.Leaf? {
        result := result + e.result;
      } else if e.result == |child.children| {
        result := result + 1;
      }
    }
  }
}
