/**
  The evaluator with its memo, its early stop and its skipped children queues exactly the rules that
  plain evaluation queues: trying every option at every retry position and every child at every match.
 */
module QueueExact {
  import opened Basics
  import opened ContentSearch
  import opened OptionTree

  function Payload(env: Env): bytes {
    env.bufs(0)
  }

  /** The rules that plain evaluation queues from position `pos`. */
  function Plain(env: Env, n: Node, pos: nat): set<nat>
    decreases n, |Payload(env)| + 3, 0
  {
    match n.kind
    case Leaf(rule) => if env.header(rule) then {rule} else {}
    case ContentOption(cd) => if env.excluded(cd.id) then {} else PlainLoop(env, n, cd, Cursor(pos, 0))
    case _ => {}
  }

  function PlainLoop(env: Env, n: Node, cd: Content, cur: Cursor): set<nat>
    requires cur.buf == 0
    decreases n, 1 + Left(Payload(env), cur), 0
  {
    var e := Eval(cd, Payload(env), cur);
    if e.status != MATCH then {}
    else
      PlainKids(env, n, e.cursor.pos, 0) +
      (if ContentSearch.Retry(cd, e.cursor) then PlainLoop(env, n, cd, e.cursor) else {})
  }

  function PlainKids(env: Env, n: Node, pos: nat, i: nat): set<nat>
    requires i <= |n.children|
    decreases n, 0, |n.children| - i
  {
    if i == |n.children| then {}
    else Plain(env, n.children[i], pos) + PlainKids(env, n, pos, i + 1)
  }

  /** The depth leaves no room to try the content again behind any match in a buffer of this size. */
  ghost predicate TriedOnce(cd: Content, size: nat) {
    cd.depth > 0 && forall c: Cursor | cd.matchDelta <= c.delta <= size :: !ContentSearch.Retry(cd, c)
  }

  /** What a content must satisfy for the shortcuts to be harmless; EvaluatorLimits.dfy shows why. */
  ghost predicate Harmless(env: Env, n: Node, cd: Content) {
    if cd.negated then if cd.relative then cd.depth > 0 else !HasRelativeChild(n)
    else !env.excluded(cd.id) && (cd.relative ==> SafeJump(cd) || TriedOnce(cd, |Payload(env)|))
  }

  /** Trees of rules and harmless contents. */
  ghost predicate PlainTree(env: Env, n: Node) {
    match n.kind
    case Leaf(_) => !n.isRelative && n.children == []
    case ContentOption(cd) =>
      && n.isRelative == cd.relative && Harmless(env, n, cd) && n.children != []
      && (forall i | 0 <= i < |n.children| :: PlainTree(env, n.children[i]))
    case _ => false
  }

  predicate Positive(n: Node) {
    n.kind.ContentOption? && !n.kind.cd.negated
  }

  function Queued(d: EvalData): set<nat> {
    set r | r in d.queue
  }

  /** Nothing that this node could still queue from `pos` on is missing. */
  ghost predicate Exhausted(env: Env, n: Node, pos: nat, q: set<nat>) {
    forall p: nat | pos <= p :: Plain(env, n, p) <= q
  }

  /** Every occurrence from `lo` on has had all its children's rules queued. */
  ghost predicate Covered(env: Env, n: Node, cd: Content, lo: nat, q: set<nat>) {
    forall a: nat | lo <= a && At(cd, Payload(env), a) :: PlainKids(env, n, a + |cd.pattern|, 0) <= q
  }

  /** A usable memo vouches for a node all of whose rules are queued. */
  ghost predicate Memo(env: Env, n: Node, s: NodeState, q: set<nat>)
    requires Fits(n, s)
    decreases n, 1
  {
    && (!n.isRelative && Checked(env, s) ==> Plain(env, n, 0) <= q)
    && (n.kind.Leaf? && Checked(env, s) ==> s.memo == if env.header(n.kind.rule) then 1 else 0)
    && KidMemos(env, n, s, q)
  }

  ghost predicate KidMemos(env: Env, n: Node, s: NodeState, q: set<nat>)
    requires Fits(n, s)
    decreases n, 0
  {
    forall i | 0 <= i < |n.children| :: Memo(env, n.children[i], s.kids[i], q)
  }

  // ----- monotonicity -----

  lemma {:induction false} MemoGrows(env: Env, n: Node, s: NodeState, q: set<nat>, q': set<nat>)
    requires Fits(n, s) && Memo(env, n, s, q) && q <= q'
    ensures Memo(env, n, s, q')
  {
    forall i | 0 <= i < |n.children|
      ensures Memo(env, n.children[i], s.kids[i], q')
    {
      MemoGrows(env, n.children[i], s.kids[i], q, q');
    }
  }

  /** Children that are covered one by one are covered together, and back. */
  lemma {:induction false} KidsUnion(env: Env, n: Node, pos: nat, i: nat, q: set<nat>)
    requires i <= |n.children|
    ensures PlainKids(env, n, pos, i) <= q <==> forall j | i <= j < |n.children| :: Plain(env, n.children[j], pos) <= q
    decreases |n.children| - i
  {
    if i < |n.children| {
      KidsUnion(env, n, pos, i + 1, q);
    }
  }

  /** Full coverage covers every loop that starts behind it. */
  lemma {:induction false} CoveredLoop(env: Env, n: Node, cd: Content, lo: nat, q: set<nat>, cur: Cursor)
    requires cur.buf == 0 && !cd.negated && Covered(env, n, cd, lo, q) && lo <= Start(cd, cur)
    ensures PlainLoop(env, n, cd, cur) <= q
    decreases Left(Payload(env), cur)
  {
    var e := Eval(cd, Payload(env), cur);
    if e.status == MATCH {
      MatchIsFirst(cd, Payload(env), cur);
      if ContentSearch.Retry(cd, e.cursor) {
        CoveredLoop(env, n, cd, lo, q, e.cursor);
      }
    }
  }

  /** An unbounded loop visits every occurrence behind its start. */
  lemma {:induction false} UnboundedCovers(env: Env, n: Node, cd: Content, q: set<nat>, cur: Cursor)
    requires cur.buf == 0 && !cd.negated && cd.depth == 0 && SafeJump(cd) && PlainLoop(env, n, cd, cur) <= q
    ensures Covered(env, n, cd, Start(cd, cur), q)
    decreases Left(Payload(env), cur)
  {
    hide Eval, PlainKids, At;
    var e := Eval(cd, Payload(env), cur);
    if e.status == MATCH {
      MatchIsFirst(cd, Payload(env), cur);
      UnboundedCovers(env, n, cd, q, e.cursor);
      var at := e.cursor.delta - cd.matchDelta;
      CoveredFrom(env, n, cd, at, Start(cd, cur), q);
    } else {
      forall a: nat | Start(cd, cur) <= a && At(cd, Payload(env), a)
        ensures false
      {
        UnboundedFinds(cd, Payload(env), cur, a);
      }
    }
  }

  /** Coverage behind the jump from an occurrence, and of the occurrence itself, is coverage from the start. */
  lemma CoveredFrom(env: Env, n: Node, cd: Content, at: nat, start: nat, q: set<nat>)
    requires SafeJump(cd) && At(cd, Payload(env), at) && start <= at
    requires forall a | start <= a < at :: !At(cd, Payload(env), a)
    requires PlainKids(env, n, at + |cd.pattern|, 0) <= q
    requires Covered(env, n, cd, at + cd.matchDelta, q)
    ensures Covered(env, n, cd, start, q)
  {
    forall a: nat | start <= a && At(cd, Payload(env), a)
      ensures PlainKids(env, n, a + |cd.pattern|, 0) <= q
    {
      if at < a { NothingSkipped(cd, Payload(env), at, a); }
    }
  }

  /** A node that is not relative queues the same rules from everywhere. */
  lemma {:induction false} AnyPosition(env: Env, n: Node, p: nat, p': nat)
    requires PlainTree(env, n) && !n.isRelative
    ensures Plain(env, n, p) == Plain(env, n, p')
    decreases n, |n.children| + 1
  {
    if n.kind.ContentOption? {
      var cd := n.kind.cd;
      assert Start(cd, Cursor(p, 0)) == Start(cd, Cursor(p', 0));
      assert Eval(cd, Payload(env), Cursor(p, 0)).status == Eval(cd, Payload(env), Cursor(p', 0)).status;
      if cd.negated {
        AnyPositionKids(env, n, p, p', 0);
      }
    }
  }

  lemma {:induction false} AnyPositionKids(env: Env, n: Node, p: nat, p': nat, i: nat)
    requires i <= |n.children| && forall j | 0 <= j < |n.children| :: PlainTree(env, n.children[j])
    requires !HasRelativeChild(n)
    ensures PlainKids(env, n, p, i) == PlainKids(env, n, p', i)
    decreases n, |n.children| - i
  {
    if i < |n.children| {
      AnyPosition(env, n.children[i], p, p');
      AnyPositionKids(env, n, p, p', i + 1);
    }
  }

  lemma CoverageExhausts(env: Env, n: Node, pos: nat, q: set<nat>)
    requires PlainTree(env, n) && Positive(n)
    requires Covered(env, n, n.kind.cd, Start(n.kind.cd, Cursor(pos, 0)), q)
    ensures Exhausted(env, n, pos, q)
  {
    var cd := n.kind.cd;
    forall p: nat | pos <= p
      ensures Plain(env, n, p) <= q
    {
      CoveredLoop(env, n, cd, Start(cd, Cursor(pos, 0)), q, Cursor(p, 0));
    }
  }

  /** A child that a retry skips has nothing left to queue once it has been evaluated. */
  lemma EvaluatedSkippable(env: Env, n: Node, pos: nat, q: set<nat>)
    requires PlainTree(env, n) && Plain(env, n, pos) <= q
    requires Skippable(n) || n.kind.Leaf?
    ensures Exhausted(env, n, pos, q)
  {
    if !n.isRelative {
      forall p: nat | pos <= p ensures Plain(env, n, p) <= q { AnyPosition(env, n, p, pos); }
    } else {
      UnboundedCovers(env, n, n.kind.cd, q, Cursor(pos, 0));
      CoverageExhausts(env, n, pos, q);
    }
  }

  // ----- what a loop knows of one child -----

  /**
    A child after `count` iterations, the last at `pos`, with `flag` set if its parent has counted it:
    its rules at `pos` are queued, a counted or skippable child has nothing left to queue, and the
    result tells whether the child was counted.
   */
  ghost predicate KidInv(env: Env, c: Node, cs: NodeState, q: set<nat>, pos: nat, flag: bool, count: nat)
    requires Fits(c, cs)
  {
    && Memo(env, c, cs, q)
    && Plain(env, c, pos) <= q
    && (flag || Skippable(c) ==> Exhausted(env, c, pos, q))
    && (if c.kind.Leaf? then
          cs.result == (if env.header(c.kind.rule) then 1 else 0) && flag == (cs.result == 1)
        else
          && (cs.result == |c.children| ==> flag)
          && (flag ==> cs.result == |c.children| || (count >= 2 && cs.result == 0 && Skippable(c))))
  }

  lemma KidInvGrows(env: Env, c: Node, cs: NodeState, q: set<nat>, q': set<nat>, pos: nat, flag: bool, count: nat)
    requires Fits(c, cs) && KidInv(env, c, cs, q, pos, flag, count) && q <= q'
    ensures KidInv(env, c, cs, q', pos, flag, count)
  {
    MemoGrows(env, c, cs, q, q');
  }

  /** A skipped child: nothing is evaluated, and it is counted only the first time it is skipped with result zero. */
  lemma KidSkipped(env: Env, c: Node, cs: NodeState, q: set<nat>, pos: nat, pos': nat, flag: bool, count: nat)
    requires PlainTree(env, c) && Fits(c, cs) && KidInv(env, c, cs, q, pos, flag, count)
    requires pos <= pos' && 1 <= count && Skips(c, cs.result)
    ensures count == 1 && cs.result == 0 ==> !flag
    ensures KidInv(env, c, cs, q, pos', flag || (count == 1 && cs.result == 0), count + 1)
  {
    if c.kind.Leaf? { AnyPosition(env, c, pos, pos'); }
  }

  /** A child that is evaluated on a retry had not been counted. */
  lemma KidNotCounted(env: Env, c: Node, cs: NodeState, q: set<nat>, pos: nat, flag: bool, count: nat)
    requires PlainTree(env, c) && Fits(c, cs) && KidInv(env, c, cs, q, pos, flag, count)
    requires !Skips(c, cs.result)
    ensures !flag
  {}

  function CountTrue(flags: seq<bool>): nat {
    if flags == [] then 0 else CountTrue(flags[..|flags| - 1]) + (if flags[|flags| - 1] then 1 else 0)
  }

  lemma {:induction false} CountSet(flags: seq<bool>, i: nat)
    requires i < |flags| && !flags[i]
    ensures CountTrue(flags[i := true]) == CountTrue(flags) + 1
  {
    var n := |flags| - 1;
    if i == n {
      assert flags[i := true][..n] == flags[..n];
    } else {
      CountSet(flags[..n], i);
      assert flags[i := true][..n] == flags[..n][i := true];
    }
  }

  lemma {:induction false} CountAll(flags: seq<bool>)
    ensures CountTrue(flags) <= |flags|
    ensures CountTrue(flags) == |flags| ==> forall i | 0 <= i < |flags| :: flags[i]
  {
    if flags != [] { CountAll(flags[..|flags| - 1]); }
  }

  lemma {:induction false} CountNone(k: nat)
    ensures CountTrue(seq(k, _ => false)) == 0
  {
    if k > 0 {
      CountNone(k - 1);
      assert seq(k, _ => false)[..k - 1] == seq(k - 1, _ => false);
    }
  }

  /** The children in the middle of iteration `count`: those before `i` are done at `pos`, the rest stand at `prev`. */
  ghost predicate KidsInv(
    env: Env, n: Node, s: NodeState, q: set<nat>, pos: nat, prev: nat, i: nat, flags: seq<bool>, count: nat)
    requires Fits(n, s) && i <= |n.children|
  {
    && |flags| == |n.children|
    && (forall j | 0 <= j < i :: KidInv(env, n.children[j], s.kids[j], q, pos, flags[j], count + 1))
    && (forall j | i <= j < |n.children| ::
          if count == 0 then Memo(env, n.children[j], s.kids[j], q) && !flags[j]
          else KidInv(env, n.children[j], s.kids[j], q, prev, flags[j], count))
  }

  /** The rest of an iteration. */
  ghost predicate KidsDone(
    env: Env, n: Node, q: set<nat>, pos: nat, i: nat, flags: seq<bool>, count: nat, r: Evaluated)
    requires Fits(n, r.s) && i <= |n.children|
  {
    && !r.d.noAlert
    && Queued(r.d) == q + PlainKids(env, n, pos, i)
    && KidsInv(env, n, r.s, Queued(r.d), pos, pos, |n.children|, flags, count)
    && r.result == CountTrue(flags)
  }

  /** Updating one child leaves the others as they were, up to a larger queue. */
  lemma KidsStep(
    env: Env, n: Node, s: NodeState, cs: NodeState, q: set<nat>, q': set<nat>, pos: nat, prev: nat, i: nat,
    flags: seq<bool>, flag: bool, count: nat)
    requires Fits(n, s) && i < |n.children| && q <= q'
    requires KidsInv(env, n, s, q, pos, prev, i, flags, count)
    requires Fits(n.children[i], cs) && KidInv(env, n.children[i], cs, q', pos, flag, count + 1)
    ensures Fits(n, s.(kids := s.kids[i := cs]))
    ensures KidsInv(env, n, s.(kids := s.kids[i := cs]), q', pos, prev, i + 1, flags[i := flag], count)
  {
    forall j | 0 <= j < |n.children| && j != i
      ensures j < i ==> KidInv(env, n.children[j], s.kids[j], q', pos, flags[j], count + 1)
      ensures i < j && count > 0 ==> KidInv(env, n.children[j], s.kids[j], q', prev, flags[j], count)
      ensures i < j && count == 0 ==> Memo(env, n.children[j], s.kids[j], q')
    {
      if j < i { KidInvGrows(env, n.children[j], s.kids[j], q, q', pos, flags[j], count + 1); }
      else if count > 0 { KidInvGrows(env, n.children[j], s.kids[j], q, q', prev, flags[j], count); }
      else { MemoGrows(env, n.children[j], s.kids[j], q, q'); }
    }
  }

  lemma {:induction false} EvalExact(env: Env, n: Node, s: NodeState, d: EvalData, cur: Cursor)
    requires PlainTree(env, n) && Fits(n, s) && !d.noAlert && Memo(env, n, s, Queued(d)) && cur.buf == 0
    ensures Exact(env, n, Queued(d), cur.pos, Evaluate(env, n, s, d, cur))
    decreases n, 2 + Rank(env, n, Copy(cur)), 0
  {
    var q := Queued(d);
    if !n.isRelative && Checked(env, s) {
      AnyPosition(env, n, cur.pos, 0);
      EvaluatedSkippable(env, n, cur.pos, q);
    } else if n.kind.Leaf? {
      LeafExact(env, n, s, d, cur);
    } else if n.kind.cd.negated {
      NegatedExact(env, n, s, d, cur);
    } else {
      var s1 := s.(stamp := Some(env.stamp), flowbitFailed := false);
      var none := seq(|n.children|, _ => false);
      CountNone(|n.children|);
      LoopExact(env, n, s1, d, Copy(cur), 0, 0, none, 0);
      var r := Evaluate(env, n, s, d, cur);
      if !n.isRelative {
        AnyPosition(env, n, 0, cur.pos);
        EvaluatedSkippable(env, n, cur.pos, Queued(r.d));
      } else if r.result == |n.children| {
        CoverageExhausts(env, n, cur.pos, Queued(r.d));
      }
    }
  }

  lemma NegatedShape(env: Env, n: Node, s: NodeState, d: EvalData, cur: Cursor)
    requires n.kind.ContentOption? && n.kind.cd.negated && Fits(n, s) && cur.buf == 0
    requires n.isRelative || !Checked(env, s)
    ensures var s1 := s.(stamp := Some(env.stamp), flowbitFailed := false);
            var t := Try(env, n, d, Copy(cur), 0);
            && (t.status == NO_MATCH || (t.status == MATCH && t.cursor == Copy(cur))) && t.d == d
            && Evaluate(env, n, s, d, cur) ==
               if t.status == NO_MATCH then Evaluated(0, s1.(memo := ToChar(0)), d)
               else
                 var k := Children(env, n, s1, d, Copy(cur), d.vars, 0, 0, 0);
                 Finish(env, n, k.s, k.d, Copy(cur), k.result)
    ensures Plain(env, n, cur.pos) ==
            if Try(env, n, d, Copy(cur), 0).status == MATCH then PlainKids(env, n, cur.pos, 0) else {}
  {
    hide Children, Finish;
    assert Copy(cur) == Cursor(cur.pos, 0);
    assert !TryAgain(env, n, Copy(cur));
  }

  /** A negated content is tried once and leaves the cursor where it was. */
  lemma {:induction false} NegatedExact(env: Env, n: Node, s: NodeState, d: EvalData, cur: Cursor)
    requires PlainTree(env, n) && n.kind.ContentOption? && n.kind.cd.negated && Fits(n, s) && !d.noAlert
    requires Memo(env, n, s, Queued(d)) && cur.buf == 0 && (n.isRelative || !Checked(env, s))
    ensures Exact(env, n, Queued(d), cur.pos, Evaluate(env, n, s, d, cur))
    decreases n, 1 + Rank(env, n, Copy(cur)), 1
  {
    hide KidsInv, CountTrue, Evaluate, Try, Children, Plain, Exhausted, KidsDone;
    var s1 := s.(stamp := Some(env.stamp), flowbitFailed := false);
    var r := Evaluate(env, n, s, d, cur);
    NegatedShape(env, n, s, d, cur);
    if Try(env, n, d, Copy(cur), 0).status == NO_MATCH {
      FinishKeepsKids(env, n, s, r.s, Queued(d));
    } else {
      var none := seq(|n.children|, _ => false);
      CountNone(|n.children|);
      NoKidYet(env, n, s1, Queued(d), cur.pos, none);
      var flags := ChildrenExact(env, n, s1, d, Copy(cur), d.vars, 0, 0, 0, none, 0);
      var k := Children(env, n, s1, d, Copy(cur), d.vars, 0, 0, 0);
      NegatedEnds(env, n, Queued(d), cur.pos, k, flags);
      FinishKeepsKids(env, n, k.s, r.s, Queued(k.d));
    }
    if !n.isRelative {
      AnyPosition(env, n, 0, cur.pos);
    }
  }

  lemma NoKidYet(env: Env, n: Node, s: NodeState, q: set<nat>, pos: nat, none: seq<bool>)
    requires Fits(n, s) && KidMemos(env, n, s, q) && none == seq(|n.children|, _ => false)
    ensures KidsInv(env, n, s, q, pos, 0, 0, none, 0)
  {
  }

  lemma NegatedEnds(env: Env, n: Node, q: set<nat>, pos: nat, k: Evaluated, flags: seq<bool>)
    requires PlainTree(env, n) && n.kind.ContentOption? && n.kind.cd.negated && Fits(n, k.s)
    requires KidsDone(env, n, q, pos, 0, flags, 0, k)
    ensures !k.d.noAlert && Queued(k.d) == q + PlainKids(env, n, pos, 0) && KidMemos(env, n, k.s, Queued(k.d))
    ensures k.result == |n.children| ==> Exhausted(env, n, pos, Queued(k.d))
  {
    hide KidsInv, CountTrue, KidMemos, Exhausted, PlainKids;
    KidsInvMemos(env, n, k.s, Queued(k.d), pos, pos, |n.children|, flags, 0);
    CountAll(flags);
    if k.result == |n.children| {
      NegatedExhausts(env, n, k.s, Queued(k.d), pos, flags);
    }
  }

  lemma NegatedExhausts(env: Env, n: Node, s: NodeState, q: set<nat>, pos: nat, flags: seq<bool>)
    requires PlainTree(env, n) && n.kind.ContentOption? && n.kind.cd.negated && Fits(n, s)
    requires KidsInv(env, n, s, q, pos, pos, |n.children|, flags, 0) && forall i | 0 <= i < |flags| :: flags[i]
    ensures Exhausted(env, n, pos, q)
  {
    hide KidInv;
    forall p: nat | pos <= p ensures Plain(env, n, p) <= q {
      forall i | 0 <= i < |n.children| ensures Plain(env, n.children[i], p) <= q {
        StoppedKid(env, n.children[i], s.kids[i], q, pos, p, flags[i], 0);
      }
      KidsUnion(env, n, p, 0, q);
    }
  }

  lemma LeafExact(env: Env, n: Node, s: NodeState, d: EvalData, cur: Cursor)
    requires PlainTree(env, n) && n.kind.Leaf? && Fits(n, s) && !d.noAlert && !Checked(env, s)
    ensures var r := Evaluate(env, n, s, d, cur);
            && !r.d.noAlert
            && Queued(r.d) == Queued(d) + Plain(env, n, cur.pos)
            && Memo(env, n, r.s, Queued(r.d))
            && r.result == if env.header(n.kind.rule) then 1 else 0
  {
    var s1 := s.(stamp := Some(env.stamp), flowbitFailed := false);
    var t := Try(env, n, d, Copy(cur), 0);
    if t.status == MATCH {
      assert Children(env, n, s1, t.d, t.cursor, t.d.vars, 0, t.result, 0) == Evaluated(1, s1, t.d);
    }
  }

  lemma KidsInvMemos(
    env: Env, n: Node, s: NodeState, q: set<nat>, pos: nat, prev: nat, i: nat, flags: seq<bool>, count: nat)
    requires Fits(n, s) && i <= |n.children| && KidsInv(env, n, s, q, pos, prev, i, flags, count)
    ensures KidMemos(env, n, s, q)
    ensures |flags| == |n.children|
  {
    forall j | 0 <= j < |n.children| ensures Memo(env, n.children[j], s.kids[j], q) {}
  }

  /** The children done in one iteration stand ready for the next. */
  lemma NextIteration(env: Env, n: Node, s: NodeState, q: set<nat>, pos: nat, flags: seq<bool>, count: nat)
    requires Fits(n, s) && KidsInv(env, n, s, q, pos, pos, |n.children|, flags, count)
    ensures KidsInv(env, n, s, q, pos, pos, 0, flags, count + 1)
  {}

  lemma {:induction false} LoopExact(
    env: Env, n: Node, s: NodeState, d: EvalData, cur: Cursor, result: int, count: nat, flags: seq<bool>, prev: nat)
    requires PlainTree(env, n) && Positive(n) && cur.buf == 0 && Fits(n, s) && !d.noAlert
    requires KidsInv(env, n, s, Queued(d), prev, prev, 0, flags, count)
    requires result == CountTrue(flags) < |n.children|
    requires count > 0 ==> prev <= Start(n.kind.cd, cur) + |n.kind.cd.pattern|
    ensures var r := Loop(env, n, s, d, cur, result, count);
            LoopDone(env, n, Queued(d), cur, r)
    decreases n, 1 + Rank(env, n, cur), 0
  {
    hide KidsInv, KidMemos, Covered, CountTrue, Start;
    var cd := n.kind.cd;
    var e := Eval(cd, Payload(env), cur);
    KidsInvMemos(env, n, s, Queued(d), prev, prev, 0, flags, count);
    if e.status == NO_MATCH {
      FinishKeepsKids(env, n, s, Loop(env, n, s, d, cur, result, count).s, Queued(d));
    } else {
      MatchIsFirst(cd, Payload(env), cur);
      RepositionKids(env, n, s, Queued(d), prev, e.cursor.pos, flags, count);
      var flags' := ChildrenExact(env, n, s, d, e.cursor, d.vars, 0, result, count, flags, prev);
      var k := Children(env, n, s, d, e.cursor, d.vars, 0, result, count);
      AfterChildren(env, n, s, d, cur, result, count, flags', k);
    }
  }

  lemma RepositionKids(env: Env, n: Node, s: NodeState, q: set<nat>, prev: nat, pos: nat, flags: seq<bool>, count: nat)
    requires Fits(n, s) && KidsInv(env, n, s, q, prev, prev, 0, flags, count)
    ensures KidsInv(env, n, s, q, pos, prev, 0, flags, count)
  {}

  /** What a loop achieves from `cur` on. */
  ghost predicate LoopDone(env: Env, n: Node, q: set<nat>, cur: Cursor, r: Evaluated)
    requires Positive(n) && Fits(n, r.s) && cur.buf == 0
  {
    && !r.d.noAlert
    && Queued(r.d) == q + PlainLoop(env, n, n.kind.cd, cur)
    && KidMemos(env, n, r.s, Queued(r.d))
    && (n.isRelative && r.result == |n.children| ==>
          Covered(env, n, n.kind.cd, Start(n.kind.cd, cur), Queued(r.d)))
  }

  lemma {:induction false} AfterChildren(
    env: Env, n: Node, s: NodeState, d: EvalData, cur: Cursor, result: int, count: nat, flags: seq<bool>, k: Evaluated)
    requires PlainTree(env, n) && Positive(n) && cur.buf == 0 && Fits(n, s) && !d.noAlert
    requires var e := Eval(n.kind.cd, Payload(env), cur);
             && e.status == MATCH
             && k == Children(env, n, s, d, e.cursor, d.vars, 0, result, count)
             && KidsDone(env, n, Queued(d), e.cursor.pos, 0, flags, count, k)
    ensures LoopDone(env, n, Queued(d), cur, Loop(env, n, s, d, cur, result, count))
    decreases n, 1 + Rank(env, n, cur), 0, 0
  {
    hide KidsInv, KidMemos, Covered, CountTrue, Start;
    var cd := n.kind.cd;
    var e := Eval(cd, Payload(env), cur);
    var q := Queued(k.d);
    MatchIsFirst(cd, Payload(env), cur);
    KidsInvMemos(env, n, k.s, q, e.cursor.pos, e.cursor.pos, |n.children|, flags, count);
    CountAll(flags);
    var r := Loop(env, n, s, d, cur, result, count);
    if k.result == |n.children| || !HasRelativeChild(n) {
      StopCovers(env, n, k.s, q, cur, flags, count);
      LoopStops(env, n, s, d, cur, result, count, k);
    } else if ContentSearch.Retry(cd, e.cursor) {
      NextIteration(env, n, k.s, q, e.cursor.pos, flags, count);
      LaterStart(cd, Payload(env), cur);
      LoopExact(env, n, k.s, k.d, e.cursor, k.result, count + 1, flags, e.cursor.pos);
      LoopGoesOn(env, n, s, d, cur, result, count, k);
    } else {
      LoopStops(env, n, s, d, cur, result, count, k);
    }
  }

  lemma LaterStart(cd: Content, buf: bytes, cur: Cursor)
    requires !cd.negated && Eval(cd, buf, cur).status == MATCH
    ensures var c := Eval(cd, buf, cur).cursor;
            c.pos <= Start(cd, c) + |cd.pattern| && Start(cd, c) == c.delta
  {
    MatchIsFirst(cd, buf, cur);
  }

  /** The loop ends with this iteration. */
  lemma LoopStops(env: Env, n: Node, s: NodeState, d: EvalData, cur: Cursor, result: int, count: nat, k: Evaluated)
    requires PlainTree(env, n) && Positive(n) && cur.buf == 0 && Fits(n, s)
    requires var e := Eval(n.kind.cd, Payload(env), cur);
             && e.status == MATCH
             && k == Children(env, n, s, d, e.cursor, d.vars, 0, result, count)
             && !k.d.noAlert && KidMemos(env, n, k.s, Queued(k.d))
             && Queued(k.d) == Queued(d) + PlainKids(env, n, e.cursor.pos, 0)
             && (if k.result == |n.children| || !HasRelativeChild(n) then
                   && Covered(env, n, n.kind.cd, Start(n.kind.cd, cur), Queued(k.d))
                   && PlainLoop(env, n, n.kind.cd, cur) <= Queued(k.d)
                 else !ContentSearch.Retry(n.kind.cd, e.cursor))
    ensures LoopDone(env, n, Queued(d), cur, Loop(env, n, s, d, cur, result, count))
  {
    hide KidMemos, Covered, Start, Plain;
    var e := Eval(n.kind.cd, Payload(env), cur);
    var r := Loop(env, n, s, d, cur, result, count);
    assert r == Finish(env, n, k.s, k.d, e.cursor, k.result);
    FinishKeepsKids(env, n, k.s, r.s, Queued(k.d));
  }

  lemma FinishKeepsKids(env: Env, n: Node, s: NodeState, s': NodeState, q: set<nat>)
    requires Fits(n, s) && Fits(n, s') && s'.kids == s.kids && KidMemos(env, n, s, q)
    ensures KidMemos(env, n, s', q)
  {}

  /** The loop goes on behind this match. */
  lemma LoopGoesOn(env: Env, n: Node, s: NodeState, d: EvalData, cur: Cursor, result: int, count: nat, k: Evaluated)
    requires PlainTree(env, n) && Positive(n) && cur.buf == 0 && Fits(n, s)
    requires var e := Eval(n.kind.cd, Payload(env), cur);
             && e.status == MATCH && ContentSearch.Retry(n.kind.cd, e.cursor) && HasRelativeChild(n)
             && k == Children(env, n, s, d, e.cursor, d.vars, 0, result, count)
             && k.result != |n.children|
             && Queued(k.d) == Queued(d) + PlainKids(env, n, e.cursor.pos, 0)
             && LoopDone(env, n, Queued(k.d), e.cursor, Loop(env, n, k.s, k.d, e.cursor, k.result, count + 1))
    ensures LoopDone(env, n, Queued(d), cur, Loop(env, n, s, d, cur, result, count))
  {
    hide KidMemos, Covered, Start, Plain, Eval, Children, ContentSearch.Retry;
    var cd := n.kind.cd;
    var e := Eval(cd, Payload(env), cur);
    var r := Loop(env, n, k.s, k.d, e.cursor, k.result, count + 1);
    assert r == Loop(env, n, s, d, cur, result, count);
    MatchIsFirst(cd, Payload(env), cur);
    LaterStart(cd, Payload(env), cur);
    if n.isRelative && r.result == |n.children| {
      CoveredFrom(env, n, cd, e.cursor.delta - cd.matchDelta, Start(cd, cur), Queued(r.d));
    }
  }

  /** When every child is counted, or no child depends on the position, further matches add nothing. */
  lemma StopCovers(env: Env, n: Node, s: NodeState, q: set<nat>, cur: Cursor, flags: seq<bool>, count: nat)
    requires PlainTree(env, n) && Positive(n) && cur.buf == 0 && Fits(n, s)
    requires Eval(n.kind.cd, Payload(env), cur).status == MATCH
    requires var pos := Eval(n.kind.cd, Payload(env), cur).cursor.pos;
             KidsInv(env, n, s, q, pos, pos, |n.children|, flags, count)
    requires (forall i | 0 <= i < |flags| :: flags[i]) || !HasRelativeChild(n)
    ensures Covered(env, n, n.kind.cd, Start(n.kind.cd, cur), q)
    ensures PlainLoop(env, n, n.kind.cd, cur) <= q
  {
    hide Plain, PlainKids, PlainLoop, Eval, KidInv;
    var cd := n.kind.cd;
    MatchIsFirst(cd, Payload(env), cur);
    var pos := Eval(cd, Payload(env), cur).cursor.pos;
    forall a: nat | Start(cd, cur) <= a && At(cd, Payload(env), a)
      ensures PlainKids(env, n, a + |cd.pattern|, 0) <= q
    {
      forall i | 0 <= i < |n.children|
        ensures Plain(env, n.children[i], a + |cd.pattern|) <= q
      {
        StoppedKid(env, n.children[i], s.kids[i], q, pos, a + |cd.pattern|, flags[i], count);
      }
      KidsUnion(env, n, a + |cd.pattern|, 0, q);
    }
    CoveredLoop(env, n, cd, Start(cd, cur), q, cur);
  }

  lemma StoppedKid(env: Env, c: Node, cs: NodeState, q: set<nat>, pos: nat, pos': nat, flag: bool, count: nat)
    requires PlainTree(env, c) && Fits(c, cs) && KidInv(env, c, cs, q, pos, flag, count + 1)
    requires pos <= pos' && (flag || !c.isRelative)
    ensures Plain(env, c, pos') <= q
  {
    hide Plain;
    if !flag { AnyPosition(env, c, pos', pos); }
  }

  lemma ChildIsPlain(env: Env, n: Node, i: nat)
    requires PlainTree(env, n) && i < |n.children|
    ensures PlainTree(env, n.children[i])
  {}

  lemma {:induction false} ChildrenExact(
    env: Env, n: Node, s: NodeState, d: EvalData, cur: Cursor, saved: seq<nat>, i: nat, result: int, count: nat,
    flags: seq<bool>, prev: nat) returns (flags': seq<bool>)
    requires PlainTree(env, n) && n.kind.ContentOption? && cur.buf == 0 && Fits(n, s) && !d.noAlert && i <= |n.children|
    requires KidsInv(env, n, s, Queued(d), cur.pos, prev, i, flags, count)
    requires result == CountTrue(flags)
    requires count > 0 ==> prev <= cur.pos
    ensures var r := Children(env, n, s, d, cur, saved, i, result, count);
            KidsDone(env, n, Queued(d), cur.pos, i, flags', count, r)
    decreases n, 0, |n.children| - i
  {
    hide KidsInv, PlainTree, CountTrue, Evaluate, Plain, Skips, Memo, Counted;
    if i == |n.children| {
      flags' := flags;
      LastChild(env, n, s, Queued(d), cur.pos, prev, flags, count);
    } else {
      var c, cs, d0 := n.children[i], s.kids[i], d.(vars := saved);
      ChildIsPlain(env, n, i);
      var r := Children(env, n, s, d, cur, saved, i, result, count);
      if count > 0 && Skips(c, cs.result) {
        var more := if cs.result == 0 && count == 1 then 1 else 0;
        var flag := SkipStep(env, n, s, Queued(d), cur.pos, prev, i, flags, count);
        flags' := ChildrenExact(env, n, s, d0, cur, saved, i + 1, result + more, count, flags[i := flag], prev);
        KidsDoneEarlier(env, n, Queued(d), Queued(d), cur.pos, i, flags', count, r);
      } else {
        MemoOfKid(env, n, s, Queued(d), cur.pos, prev, i, flags, count);
        EvalExact(env, c, cs, d0, cur);
        var e := Evaluate(env, c, cs, d0, cur);
        var cs' := e.s.(result := e.result);
        var flag := EvalStep(env, n, s, e, Queued(d), cur.pos, prev, i, flags, count);
        flags' := ChildrenExact(env, n, s.(kids := s.kids[i := cs']), e.d, cur, saved, i + 1,
                                result + Counted(c, e.result), count, flags[i := flag], prev);
        KidsDoneEarlier(env, n, Queued(d), Queued(e.d), cur.pos, i, flags', count, r);
      }
    }
  }

  lemma LastChild(env: Env, n: Node, s: NodeState, q: set<nat>, pos: nat, prev: nat, flags: seq<bool>, count: nat)
    requires Fits(n, s) && KidsInv(env, n, s, q, pos, prev, |n.children|, flags, count)
    ensures KidsInv(env, n, s, q, pos, pos, |n.children|, flags, count)
  {}

  lemma MemoOfKid(
    env: Env, n: Node, s: NodeState, q: set<nat>, pos: nat, prev: nat, i: nat, flags: seq<bool>, count: nat)
    requires Fits(n, s) && i < |n.children| && KidsInv(env, n, s, q, pos, prev, i, flags, count)
    ensures Memo(env, n.children[i], s.kids[i], q)
  {}

  lemma KidsDoneEarlier(
    env: Env, n: Node, q: set<nat>, q': set<nat>, pos: nat, i: nat, flags: seq<bool>, count: nat, r: Evaluated)
    requires Fits(n, r.s) && i < |n.children|
    requires q' == q + Plain(env, n.children[i], pos) && KidsDone(env, n, q', pos, i + 1, flags, count, r)
    ensures KidsDone(env, n, q, pos, i, flags, count, r)
  {
    hide KidsInv, Plain;
  }

  lemma SkipStep(
    env: Env, n: Node, s: NodeState, q: set<nat>, pos: nat, prev: nat, i: nat, flags: seq<bool>, count: nat)
    returns (flag: bool)
    requires Fits(n, s) && i < |n.children| && PlainTree(env, n.children[i])
    requires KidsInv(env, n, s, q, pos, prev, i, flags, count)
    requires 1 <= count && prev <= pos && Skips(n.children[i], s.kids[i].result)
    ensures KidsInv(env, n, s, q, pos, prev, i + 1, flags[i := flag], count)
    ensures |flags| == |n.children|
    ensures CountTrue(flags[i := flag]) ==
            CountTrue(flags) + (if s.kids[i].result == 0 && count == 1 then 1 else 0)
    ensures q == q + Plain(env, n.children[i], pos)
  {
    hide Memo, Plain, CountTrue;
    var c, cs := n.children[i], s.kids[i];
    assert KidInv(env, c, cs, q, prev, flags[i], count);
    KidSkipped(env, c, cs, q, prev, pos, flags[i], count);
    flag := flags[i] || (cs.result == 0 && count == 1);
    KidsStep(env, n, s, cs, q, q, pos, prev, i, flags, flag, count);
    assert s.(kids := s.kids[i := cs]) == s;
    FlagCount(flags, i, flag);
  }

  /** What evaluation of a child has established. */
  ghost predicate Exact(env: Env, c: Node, q: set<nat>, pos: nat, e: Evaluated)
    requires Fits(c, e.s)
  {
    && !e.d.noAlert
    && Queued(e.d) == q + Plain(env, c, pos)
    && Memo(env, c, e.s, Queued(e.d))
    && (c.kind.Leaf? ==> e.result == if env.header(c.kind.rule) then 1 else 0)
    && (c.kind.ContentOption? && e.result == |c.children| ==> Exhausted(env, c, pos, Queued(e.d)))
  }

  lemma EvalStep(
    env: Env, n: Node, s: NodeState, e: Evaluated, q: set<nat>, pos: nat, prev: nat, i: nat, flags: seq<bool>,
    count: nat)
    returns (flag: bool)
    requires Fits(n, s) && i < |n.children| && PlainTree(env, n.children[i])
    requires KidsInv(env, n, s, q, pos, prev, i, flags, count)
    requires count > 0 ==> !Skips(n.children[i], s.kids[i].result)
    requires Fits(n.children[i], e.s) && Exact(env, n.children[i], q, pos, e)
    ensures |flags| == |n.children|
    ensures var s' := s.(kids := s.kids[i := e.s.(result := e.result)]);
            Fits(n, s') && KidsInv(env, n, s', Queued(e.d), pos, prev, i + 1, flags[i := flag], count)
    ensures CountTrue(flags[i := flag]) == CountTrue(flags) + Counted(n.children[i], e.result)
  {
    hide Memo, Plain, CountTrue, Exhausted;
    var c, cs := n.children[i], s.kids[i];
    if count > 0 { KidNotCounted(env, c, cs, q, prev, flags[i], count); }
    flag := Counted(c, e.result) == 1;
    KidEvaluated(env, c, e, q, pos, flag, count);
    KidsStep(env, n, s, e.s.(result := e.result), q, Queued(e.d), pos, prev, i, flags, flag, count);
    FlagCount(flags, i, flag);
  }

  lemma KidEvaluated(env: Env, c: Node, e: Evaluated, q: set<nat>, pos: nat, flag: bool, count: nat)
    requires PlainTree(env, c) && Fits(c, e.s) && Exact(env, c, q, pos, e)
    requires flag == (Counted(c, e.result) == 1)
    ensures Fits(c, e.s.(result := e.result))
    ensures KidInv(env, c, e.s.(result := e.result), Queued(e.d), pos, flag, count + 1)
  {
    hide Plain, Exhausted;
    if Skippable(c) || c.kind.Leaf? { EvaluatedSkippable(env, c, pos, Queued(e.d)); }
    MemoOfResult(env, c, e.s, e.result, Queued(e.d));
  }

  lemma FlagCount(flags: seq<bool>, i: nat, flag: bool)
    requires i < |flags| && (flags[i] ==> flag)
    ensures CountTrue(flags[i := flag]) == CountTrue(flags) + (if flag && !flags[i] then 1 else 0)
  {
    if flag && !flags[i] { CountSet(flags, i); } else { assert flags[i := flag] == flags; }
  }

  lemma MemoOfResult(env: Env, n: Node, s: NodeState, r: int, q: set<nat>)
    requires Fits(n, s) && Memo(env, n, s, q)
    ensures Fits(n, s.(result := r)) && Memo(env, n, s.(result := r), q)
  {
    var s' := s.(result := r);
    forall i | 0 <= i < |n.children| ensures Memo(env, n.children[i], s'.kids[i], q) {}
  }

  // ----- the theorem -----

  /** No node has been checked in this packet context. */
  predicate Unchecked(env: Env, n: Node, s: NodeState)
    requires Fits(n, s)
  {
    !Checked(env, s) && forall i | 0 <= i < |n.children| :: Unchecked(env, n.children[i], s.kids[i])
  }

  lemma {:induction false} UncheckedMemo(env: Env, n: Node, s: NodeState, q: set<nat>)
    requires Fits(n, s) && Unchecked(env, n, s)
    ensures Memo(env, n, s, q)
  {
    forall i | 0 <= i < |n.children|
      ensures Memo(env, n.children[i], s.kids[i], q)
    {
      UncheckedMemo(env, n.children[i], s.kids[i], q);
    }
  }

  /** The tree evaluated `hits` times in one packet context, as when its fast pattern occurs repeatedly. */
  function EvaluateHits(env: Env, n: Node, s: NodeState, d: EvalData, hits: nat): (r: Evaluated)
    requires Fits(n, s)
    ensures Fits(n, r.s)
  {
    if hits == 0 then Evaluated(0, s, d)
    else
      var r := EvaluateHits(env, n, s, d, hits - 1);
      Evaluate(env, n, r.s, r.d, Cursor(0, 0))
  }

  /**
    In a new packet context, however often the tree is evaluated, the rules queued are those that plain
    evaluation of the tree queues.
   */
  lemma {:induction false} QueueIsExact(env: Env, n: Node, s: NodeState, d: EvalData, hits: nat)
    requires PlainTree(env, n) && Fits(n, s) && Unchecked(env, n, s) && !d.noAlert
    ensures var r := EvaluateHits(env, n, s, d, hits);
            && !r.d.noAlert && Memo(env, n, r.s, Queued(r.d))
            && Queued(r.d) == if hits == 0 then Queued(d) else Queued(d) + Plain(env, n, 0)
  {
    if hits == 0 {
      UncheckedMemo(env, n, s, Queued(d));
    } else {
      QueueIsExact(env, n, s, d, hits - 1);
      var r := EvaluateHits(env, n, s, d, hits - 1);
      EvalExact(env, n, r.s, r.d, Cursor(0, 0));
    }
  }
}
