/**
  The rule option tree and its evaluation (src/detection/detection_options.h, lines 49-111;
  src/detection/detection_options.cc, lines 344-721): a memo per node and packet context, a loop
  that tries an option again behind its last match, and shortcuts that skip children on a retry.
 */
module OptionTree {
  import opened Basics
  import opened ContentSearch

  datatype Kind =
    | Leaf(rule: nat)
    | ContentOption(cd: Content)
    | PatternOption(option: nat, unbounded: bool)
    | Flowbit(option: nat, sets: bool)
    | OtherOption(option: nat)

  datatype Node = Node(kind: Kind, isRelative: bool, children: seq<Node>)

  /** What identifies the packet context of a check. */
  datatype Stamp = Stamp(sec: nat, usec: nat, run: nat, context: nat, rebuilt: bool)

  /** Per-node state of one packet thread; `memo` is the one-byte result kept with the stamp. */
  datatype NodeState = NodeState(
    result: int, stamp: Option<Stamp>, flowbitFailed: bool, memo: int, kids: seq<NodeState>)

  /** Evaluation data shared along the recursion, with the rule variables and the queue of matched rules. */
  datatype EvalData = EvalData(noAlert: bool, flowbitFailed: bool, vars: seq<nat>, queue: seq<nat>)

  datatype Answer = Answer(status: EvalStatus, cursor: Cursor, vars: seq<nat>)

  /**
    One packet context: its buffers, which rule headers match, which negated contents the fast pattern
    matcher has already found, what the options answer whose code is not modelled, whether they may be
    retried and a measure of how much they still have to search, and the flags that disable the memo.
   */
  datatype Context = Context(
    bufs: nat -> bytes, header: nat -> bool, excluded: nat -> bool,
    answer: (nat, Cursor, seq<nat>) -> Answer, retry: (nat, Cursor) -> bool, left: (nat, Cursor) -> nat,
    stamp: Stamp, multiple: bool, secondPass: bool)

  /** A match that may be retried leaves less to search. */
  ghost predicate Advances(e: Context) {
    forall option, c, vars ::
      var a := e.answer(option, c, vars);
      a.status == MATCH && e.retry(option, a.cursor) ==> e.left(option, a.cursor) < e.left(option, c)
  }

  /** Retry loops end; PatternRetry.dfy says for which patterns there is such a measure. */
  type Env = e: Context | Advances(e)
    witness Context(_ => [], _ => false, _ => false, (_, c, v) => Answer(NO_MATCH, c, v), (_, _) => false,
                    (_, _) => 0, Stamp(0, 0, 0, 0, false), false, false)

  function Buf(env: Env, cur: Cursor): bytes {
    env.bufs(cur.buf)
  }

  /** A copy of a cursor starts its own searches (src/framework/cursor.cc, lines 36-40). */
  function Copy(cur: Cursor): Cursor {
    cur.(delta := 0)
  }

  datatype Evaluated = Evaluated(result: int, s: NodeState, d: EvalData)

  predicate Fits(n: Node, s: NodeState) {
    && |s.kids| == |n.children|
    && forall i | 0 <= i < |n.children| :: Fits(n.children[i], s.kids[i])
  }

  /** A result stored in a signed byte. */
  function ToChar(r: int): int {
    (r + 128) % 256 - 128
  }

  /** The last check was in this context and may be reused. */
  predicate Checked(env: Env, s: NodeState) {
    && s.stamp == Some(env.stamp) && !env.multiple
    && !s.flowbitFailed && !env.secondPass
  }

  predicate HasRelativeChild(n: Node) {
    exists i :: 0 <= i < |n.children| && n.children[i].isRelative
  }

  /** Queueing a rule that is already queued changes nothing. */
  function AddMatch(queue: seq<nat>, rule: nat): seq<nat> {
    if rule in queue then queue else queue + [rule]
  }

  /** One evaluation of the node's own option; a leaf queues its rule and sets the result. */
  datatype Tried = Tried(status: EvalStatus, cursor: Cursor, d: EvalData, result: int)

  function Try(env: Env, n: Node, d: EvalData, cur: Cursor, result: int): Tried {
    match n.kind
    case Leaf(rule) =>
      if env.header(rule) then
        Tried(MATCH, cur, if d.noAlert then d else d.(queue := AddMatch(d.queue, rule)), 1)
      else Tried(NO_MATCH, cur, d, result)
    case ContentOption(cd) =>
      if env.excluded(cd.id) then Tried(NO_MATCH, cur, d, result)
      else
        var e := Eval(cd, Buf(env, cur), cur);
        Tried(e.status, e.cursor, d, result)
    case Flowbit(option, sets) =>
      if sets then Tried(MATCH, cur, d, result)
      else
        var a := env.answer(option, cur, d.vars);
        Tried(a.status, a.cursor, d.(vars := a.vars), result)
    case PatternOption(option, _) =>
      var a := env.answer(option, cur, d.vars);
      Tried(a.status, a.cursor, d.(vars := a.vars), result)
    case OtherOption(option) =>
      var a := env.answer(option, cur, d.vars);
      Tried(a.status, a.cursor, d.(vars := a.vars), result)
  }

  predicate TryAgain(env: Env, n: Node, cur: Cursor) {
    match n.kind
    case ContentOption(cd) => ContentSearch.Retry(cd, cur)
    case PatternOption(option, _) => env.retry(option, cur)
    case _ => false
  }

  /** Children of content type that a retry never visits again once their result is zero. */
  predicate Skippable(child: Node) {
    match child.kind
    case ContentOption(cd) => !child.isRelative || cd.depth == 0
    case PatternOption(_, unbounded) => !child.isRelative || unbounded
    case _ => false
  }

  predicate Skips(child: Node, result: int) {
    if result == 0 then Skippable(child)
    else child.kind.Leaf? || result == |child.children|
  }

  /** How much of a buffer a content has still to search. */
  function Left(buf: bytes, cur: Cursor): nat {
    if cur.delta <= |buf| then |buf| + 1 - cur.delta else 0
  }

  function Rank(env: Env, n: Node, cur: Cursor): nat {
    match n.kind
    case ContentOption(_) => Left(Buf(env, cur), cur)
    case PatternOption(option, _) => env.left(option, cur)
    case _ => 0
  }

  function Evaluate(env: Env, n: Node, s: NodeState, d: EvalData, cur: Cursor): (r: Evaluated)
    requires Fits(n, s)
    ensures Fits(n, r.s)
    decreases n, 2 + Rank(env, n, Copy(cur)), 0
  {
    if !n.isRelative && Checked(env, s) then Evaluated(s.memo, s, d)
    else
      Loop(env, n, s.(stamp := Some(env.stamp), flowbitFailed := false), d, Copy(cur), 0, 0)
  }

  /** Iteration number `count`, entered with `result` so far. */
  function Loop(env: Env, n: Node, s: NodeState, d: EvalData, cur: Cursor, result: int, count: nat): (r: Evaluated)
    requires Fits(n, s)
    ensures Fits(n, r.s)
    decreases n, 1 + Rank(env, n, cur), 0
  {
    var t := Try(env, n, d, cur, result);
    if t.status == NO_MATCH then
      Evaluated(t.result, s.(memo := ToChar(t.result)), t.d)
    else if t.status == FAILED_BIT then
      Evaluated(0, s.(flowbitFailed := true, memo := ToChar(t.result)), t.d.(flowbitFailed := true))
    else
      var d1 := if t.status == NO_ALERT then t.d.(noAlert := true) else t.d;
      var k := Children(env, n, s, d1, t.cursor, d1.vars, 0, t.result, count);
      var d2 := if t.status == NO_ALERT then k.d.(noAlert := t.d.noAlert) else k.d;
      var done := n.children != [] && k.result == |n.children|;
      if !done && t.status == MATCH && HasRelativeChild(n) && TryAgain(env, n, t.cursor) then
        Loop(env, n, k.s, d2, t.cursor, k.result, count + 1)
      else Finish(env, n, k.s, d2, t.cursor, k.result)
  }

  /** The children from number `i` on, each with the variables as the node left them. */
  function Children(
    env: Env, n: Node, s: NodeState, d: EvalData, cur: Cursor, saved: seq<nat>, i: nat, result: int, count: nat)
    : (r: Evaluated)
    requires Fits(n, s) && i <= |n.children|
    ensures Fits(n, r.s)
    decreases n, 0, |n.children| - i
  {
    if i == |n.children| then Evaluated(result, s, d)
    else
      var child, cs, d0 := n.children[i], s.kids[i], d.(vars := saved);
      if count > 0 && Skips(child, cs.result) then
        var more := if cs.result == 0 && count == 1 then 1 else 0;
        Children(env, n, s, d0, cur, saved, i + 1, result + more, count)
      else
        var e := Evaluate(env, child, cs, d0, cur);
        Children(env, n, s.(kids := s.kids[i := e.s.(result := e.result)]), e.d, cur, saved, i + 1,
                 result + Counted(child, e.result), count)
  }

  /** What a child's result adds to its parent's. */
  function Counted(child: Node, result: int): int {
    if child.kind.Leaf? then result
    else if result == |child.children| then 1 else 0
  }

  /** After the loop: flowbits are set if exactly one child is done, and the memo is written. */
  function Finish(env: Env, n: Node, s: NodeState, d: EvalData, cur: Cursor, result: int): (r: Evaluated)
    requires Fits(n, s)
    ensures Fits(n, r.s)
  {
    var set' := n.kind.Flowbit? && n.kind.sets && result == 1;
    var a := if n.kind.Flowbit? then env.answer(n.kind.option, cur, d.vars) else Answer(MATCH, cur, d.vars);
    var r := if set' && a.status != MATCH then StatusCode(a.status) else result;
    var d' := if set' then d.(vars := a.vars) else d;
    Evaluated(r, s.(flowbitFailed := s.flowbitFailed || d'.flowbitFailed, memo := ToChar(r)), d')
  }

  function StatusCode(st: EvalStatus): int {
    match st
    case NO_MATCH => 0
    case MATCH => 1
    case NO_ALERT => 2
    case FAILED_BIT => 3
  }
}
