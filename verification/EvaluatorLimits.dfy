/**
  Where the shortcuts of the evaluator do lose rules.  Three kinds of content that the theorem in QueueExact.dfy
  excludes have, for every pattern and every offset, a tree and a payload on which plain evaluation queues a rule
  that the evaluator does not: positive relative ones with an unsafe jump and room for a second match, relative
  negated ones without depth, and negated ones that are not relative but have a relative child.  A node too wide
  for its memo forgets its result.
 */
module EvaluatorLimits {
  import opened Basics
  import opened ContentSearch
  import opened OptionTree
  import opened QueueExact

  const NOTHING := EvalData(false, false, [], [])

  /** A packet context with this payload in which every rule header matches. */
  function Always(buf: bytes): Env {
    Context(i => if i == 0 then buf else [], _ => true, _ => false, (_, c, v) => Answer(MATCH, c, v), (_, _) => false,
            (_, _) => 0, Stamp(0, 0, 0, 1, false), false, false)
  }

  /** A state in which nothing has been checked. */
  function Blank(n: Node): (s: NodeState)
    ensures Fits(n, s)
  {
    NodeState(0, None, false, 0, seq(|n.children|, i requires 0 <= i < |n.children| => Blank(n.children[i])))
  }

  const RULE := 7

  function Rule(): Node {
    Node(Leaf(RULE), false, [])
  }

  function One(cd: Content, child: Node): Node {
    Node(ContentOption(cd), cd.relative, [child])
  }

  /** The byte anywhere, each occurrence in turn. */
  function Anywhere(b: byte): Content {
    ContentData(1, [b], false, false, false, 0, 0, 1)
  }

  /** The byte right behind the last match. */
  function Next(b: byte): Content {
    ContentData(4, [b], false, false, true, 0, 1, 1)
  }

  /** The rule is lost: plain evaluation queues it, the evaluator nothing. */
  ghost predicate Loses(buf: bytes, n: Node) {
    && Evaluate(Always(buf), n, Blank(n), NOTHING, Cursor(0, 0)).d.queue == []
    && RULE in Plain(Always(buf), n, 0)
  }

  /** The same, with this content directly below the root. */
  ghost predicate LosesBelow(cd: Content, buf: bytes, n: Node) {
    |n.children| == 1 && n.children[0].kind == ContentOption(cd) && Loses(buf, n)
  }

  // ----- the root: one byte, found first at the start -----

  lemma ByteAt(cd: Content, buf: bytes, a: nat)
    requires |cd.pattern| == 1 && !cd.noCase
    ensures At(cd, buf, a) <==> a < |buf| && buf[a] == cd.pattern[0]
  {
    if a < |buf| && buf[a] == cd.pattern[0] {
      assert forall k | 0 <= k < |cd.pattern| :: Same(cd.noCase, buf[a + k], cd.pattern[k]);
    }
    if At(cd, buf, a) {
      assert Same(cd.noCase, buf[a + 0], cd.pattern[0]);
    }
  }

  lemma RootMatches(b: byte, buf: bytes)
    requires buf != [] && buf[0] == b
    ensures Eval(Anywhere(b), buf, Cursor(0, 0)) == Searched(MATCH, Cursor(1, 1))
  {
    ByteAt(Anywhere(b), buf, 0);
  }

  /** If the child fails behind the first byte, nothing is queued, however often the byte recurs. */
  lemma RootGivesUp(b: byte, buf: bytes, c: Node)
    requires buf != [] && buf[0] == b
    requires c.isRelative ==> Skippable(c)
    requires !c.kind.Leaf? && |c.children| == 1
    requires var e := Evaluate(Always(buf), c, Blank(c), NOTHING, Cursor(1, 1)); e.result == 0 && e.d == NOTHING
    ensures var n := One(Anywhere(b), c); Evaluate(Always(buf), n, Blank(n), NOTHING, Cursor(0, 0)).d.queue == []
  {
    hide Eval, Fits;
    var env, n := Always(buf), One(Anywhere(b), c);
    RootMatches(b, buf);
    var s1 := Blank(n).(stamp := Some(env.stamp));
    var e := Evaluate(env, c, Blank(c), NOTHING, Cursor(1, 1));
    assert Blank(n).kids == [Blank(c)];
    var s2 := s1.(kids := [e.s.(result := 0)]);
    assert s1.kids[0 := e.s.(result := 0)] == s2.kids;
    SameKidsFit(c, e.s, e.s.(result := 0));
    RootFits(b, c, s1);
    RootFits(b, c, s2);
    var k := Children(env, n, s1, NOTHING, Cursor(1, 1), [], 0, 0, 0);
    assert k == Children(env, n, s2, NOTHING, Cursor(1, 1), [], 1, 0, 0) == Evaluated(0, s2, NOTHING);
    if c.isRelative {
      SecondTurn(b, buf, c, s2);
    }
  }

  lemma SameKidsFit(n: Node, s: NodeState, s': NodeState)
    requires Fits(n, s) && s'.kids == s.kids
    ensures Fits(n, s')
  {
  }

  lemma RootFits(b: byte, c: Node, s: NodeState)
    requires |s.kids| == 1 && Fits(c, s.kids[0])
    ensures Fits(One(Anywhere(b), c), s)
  {
  }

  lemma SecondTurn(b: byte, buf: bytes, c: Node, s: NodeState)
    requires |s.kids| == 1 && Fits(c, s.kids[0]) && s.kids[0].result == 0 && Skippable(c)
    ensures Fits(One(Anywhere(b), c), s)
    ensures Loop(Always(buf), One(Anywhere(b), c), s, NOTHING, Cursor(1, 1), 0, 1).d.queue == []
  {
    hide Eval;
    var env, n := Always(buf), One(Anywhere(b), c);
    RootFits(b, c, s);
    var t := Try(env, n, NOTHING, Cursor(1, 1), 0);
    if t.status == MATCH {
      var k := Children(env, n, s, t.d, t.cursor, t.d.vars, 0, 0, 1);
      assert k == Children(env, n, s, t.d.(vars := t.d.vars), t.cursor, t.d.vars, 1, 1, 1);
    }
  }

  /** Plain evaluation tries the child behind every occurrence of the byte. */
  lemma PlainTriesAll(b: byte, buf: bytes, c: Node, a: nat)
    requires a < |buf| && buf[a] == b
    ensures Plain(Always(buf), c, a + 1) <= Plain(Always(buf), One(Anywhere(b), c), 0)
  {
    hide Plain, Eval;
    var env, n, cd := Always(buf), One(Anywhere(b), c), Anywhere(b);
    var q := PlainLoop(env, n, cd, Cursor(0, 0));
    UnboundedCovers(env, n, cd, q, Cursor(0, 0));
    ByteAt(cd, buf, a);
    assert PlainKids(env, n, a + 1, 0) <= q;
    KidsUnion(env, n, a + 1, 0, q);
    PlainRoot(b, buf, c);
  }

  lemma PlainRoot(b: byte, buf: bytes, c: Node)
    ensures Plain(Always(buf), One(Anywhere(b), c), 0) ==
            PlainLoop(Always(buf), One(Anywhere(b), c), Anywhere(b), Cursor(0, 0))
  {
  }

  // ----- a relative content with an unsafe jump -----

  lemma LeastOverlap(cd: Content) returns (d: nat)
    requires !SafeJump(cd)
    ensures 0 < d < cd.matchDelta && Overlaps(cd, d) && forall e | 0 < e < d :: !Overlaps(cd, e)
  {
    var some: nat :| 0 < some < cd.matchDelta && Overlaps(cd, some);
    d := 1;
    while !Overlaps(cd, d)
      invariant 0 < d <= some && forall e | 0 < e < d :: !Overlaps(cd, e)
      decreases some - d
    {
      d := d + 1;
    }
  }

  lemma AtBoth(cd: Content, buf: bytes, a: nat)
    requires At(cd, buf, a)
    ensures Same(cd.noCase, buf[a], cd.pattern[0])
    ensures |cd.pattern| > 1 ==> Same(cd.noCase, buf[a + 1], cd.pattern[1])
  {
    assert Same(cd.noCase, buf[a + 0], cd.pattern[0]);
  }


  /** Two occurrences closer than the pattern is long make it overlap itself. */
  lemma Shifted(cd: Content, buf: bytes, a: nat, b: nat)
    requires At(cd, buf, a) && At(cd, buf, b) && a < b < a + |cd.pattern|
    ensures Overlaps(cd, b - a)
  {
    var d := b - a;
    forall k | 0 <= k < |cd.pattern| - d ensures Same(cd.noCase, cd.pattern[k + d], cd.pattern[k]) {
      assert Same(cd.noCase, buf[a + (k + d)], cd.pattern[k + d]);
      assert Same(cd.noCase, buf[b + k], cd.pattern[k]);
    }
  }

  lemma OneFits(n: Node, c: Node, s: NodeState)
    requires n.children == [c] && Fits(n, s)
    ensures |s.kids| == 1 && Fits(c, s.kids[0])
  {
    assert n.children[0] == c;
  }

  lemma OneFitsBack(n: Node, c: Node, s: NodeState)
    requires n.children == [c] && |s.kids| == 1 && Fits(c, s.kids[0])
    ensures Fits(n, s)
  {
  }

  lemma PlainOnce(cd: Content, buf: bytes, c: Node, pos: nat)
    requires Eval(cd, buf, Cursor(pos, 0)).status == MATCH
    ensures Plain(Always(buf), c, Eval(cd, buf, Cursor(pos, 0)).cursor.pos) <= Plain(Always(buf), One(cd, c), pos)
  {
    hide Eval;
    var env, n, at := Always(buf), One(cd, c), Eval(cd, buf, Cursor(pos, 0)).cursor.pos;
    assert PlainKids(env, n, at, 0) == Plain(env, c, at) + PlainKids(env, n, at, 1);
  }

  // ----- counting modulo the overlap -----

  function Phase(k: nat, d: nat): (r: nat)
    requires d > 0
    ensures r < d && r <= k
  {
    if k < d then k else Phase(k - d, d)
  }

  lemma {:induction false} PhaseAdd(x: nat, k: nat, d: nat)
    requires d > 0 && Phase(x, d) == 0
    ensures Phase(x + k, d) == Phase(k, d)
  {
    if x > 0 {
      PhaseAdd(x - d, k, d);
    }
  }

  /** The first multiple of `d` from `m` on. */
  lemma NextMultiple(m: nat, d: nat) returns (q: nat)
    requires 0 < d < m
    ensures Phase(q, d) == 0 && m <= q < m + d && 2 * d <= q
    ensures Phase(q - d, d) == 0 && Phase(2 * q, d) == 0 && Phase(2 * q - d, d) == 0
  {
    q := d;
    while q < m
      invariant Phase(q, d) == 0 && d <= q < m + d && (q > d ==> 2 * d <= q)
      decreases m + d - q
    {
      q := q + d;
    }
    PhaseAdd(q, q, d);
    PhaseAdd(q, q - d, d);
  }

  /** A pattern that overlaps itself at distance `d` repeats its first `d` bytes. */
  lemma {:induction false} Repeats(cd: Content, d: nat, k: nat)
    requires 0 < d && Overlaps(cd, d) && k < |cd.pattern|
    ensures Same(cd.noCase, cd.pattern[Phase(k, d)], cd.pattern[k])
  {
    if k >= d {
      Repeats(cd, d, k - d);
      assert Same(cd.noCase, cd.pattern[(k - d) + d], cd.pattern[k - d]);
    }
  }

  // ----- the payload: the pattern over and over, and marks far behind -----

  function Periodic(cd: Content, d: nat, len: nat): bytes
    requires 0 < d <= |cd.pattern|
  {
    seq(len, i requires 0 <= i < len => cd.pattern[Phase(i, d)])
  }

  /** Behind the second occurrence `zG`, behind the last one visited `zz`. */
  function Marks(d: nat, q: nat): bytes {
    seq(2 * q + 2, i requires 0 <= i < 2 * q + 2 =>
      if i == d || i >= 2 * q then 'z' else if i == d + 1 then 'G' else '.')
  }

  function Long(pre: bytes, cd: Content, d: nat, q: nat, more: nat): bytes
    requires 0 < d <= |cd.pattern|
  {
    pre + Periodic(cd, d, 2 * q + |cd.pattern| + more) + Marks(d, q)
  }

  lemma MarkAt(pre: bytes, cd: Content, d: nat, q: nat, more: nat, i: nat)
    requires 0 < d <= |cd.pattern| && i < 2 * q + 2
    ensures var buf := Long(pre, cd, d, q, more);
            var b := |pre| + 2 * q + |cd.pattern| + more;
            |buf| == b + 2 * q + 2 && buf[b + i] == Marks(d, q)[i]
  {
    var text := Periodic(cd, d, 2 * q + |cd.pattern| + more);
    var buf := Long(pre, cd, d, q, more);
    assert |pre + text| == |pre| + 2 * q + |cd.pattern| + more;
    assert buf[|pre + text| + i] == Marks(d, q)[i];
  }

  lemma TextAt(pre: bytes, cd: Content, d: nat, q: nat, more: nat, i: nat)
    requires 0 < d <= |cd.pattern| && i < 2 * q + |cd.pattern| + more
    ensures var buf := Long(pre, cd, d, q, more);
            |pre| + i < |buf| && buf[|pre| + i] == cd.pattern[Phase(i, d)]
  {
    var text := Periodic(cd, d, 2 * q + |cd.pattern| + more);
    assert (pre + text)[|pre| + i] == text[i];
  }

  lemma Occurs(pre: bytes, cd: Content, d: nat, q: nat, more: nat, x: nat)
    requires 0 < d <= |cd.pattern| && Overlaps(cd, d) && Phase(x, d) == 0 && x <= 2 * q
    ensures At(cd, Long(pre, cd, d, q, more), |pre| + x)
  {
    hide Overlaps, Long, Same;
    var buf, n := Long(pre, cd, d, q, more), |cd.pattern|;
    TextAt(pre, cd, d, q, more, x + (n - 1));
    forall k | 0 <= k < n ensures Same(cd.noCase, buf[|pre| + x + k], cd.pattern[k]) {
      TextAt(pre, cd, d, q, more, x + k);
      PhaseAdd(x, k, d);
      Repeats(cd, d, k);
    }
  }

  /** Between two occurrences at the least distance there is none. */
  lemma NoneBetween(cd: Content, buf: bytes, d: nat, a: nat, b: nat)
    requires At(cd, buf, a) && a < b < a + d && d <= |cd.pattern|
    requires forall e | 0 < e < d :: !Overlaps(cd, e)
    ensures !At(cd, buf, b)
  {
    hide At, Overlaps;
    if At(cd, buf, b) {
      Shifted(cd, buf, a, b);
    }
  }

  // ----- searches -----

  lemma FindsAt(cd: Content, buf: bytes, c: Cursor, at: nat)
    requires !cd.negated && Start(cd, c) <= at && At(cd, buf, at)
    requires forall a | Start(cd, c) <= a < at :: !At(cd, buf, a)
    requires cd.depth == 0 || at + |cd.pattern| <= Start(cd, c) + cd.depth
    ensures Eval(cd, buf, c) == Searched(MATCH, c.(pos := at + |cd.pattern|, delta := at + cd.matchDelta))
  {
  }

  /** The mark `z`, some way behind the last match and within `d` bytes. */
  function Far(away: nat, d: nat): Content {
    ContentData(4, ['z'], false, false, true, away, d, 1)
  }

  /** The mark `G` anywhere behind. */
  function Later(): Content {
    ContentData(5, ['G'], false, false, true, 0, 0, 1)
  }

  lemma FarMisses(away: nat, d: nat, buf: bytes, c: Cursor)
    requires d > 0 && forall i | Start(Far(away, d), c) <= i < Start(Far(away, d), c) + d && i < |buf| :: buf[i] != 'z'
    ensures Eval(Far(away, d), buf, c).status == NO_MATCH
  {
    var cd := Far(away, d);
    forall a | Start(cd, c) <= a < Start(cd, c) + d ensures !At(cd, buf, a) { ByteAt(cd, buf, a); }
  }

  lemma FarFinds(away: nat, d: nat, buf: bytes, c: Cursor)
    requires d > 0 && Start(Far(away, d), c) < |buf| && buf[Start(Far(away, d), c)] == 'z'
    ensures var at := Start(Far(away, d), c);
            Eval(Far(away, d), buf, c) == Searched(MATCH, c.(pos := at + 1, delta := at + 1))
  {
    var cd := Far(away, d);
    ByteAt(cd, buf, Start(cd, c));
    FindsAt(cd, buf, c, Start(cd, c));
  }

  lemma LaterMisses(buf: bytes, c: Cursor)
    requires forall i | Start(Later(), c) <= i < |buf| :: buf[i] != 'G'
    ensures Eval(Later(), buf, c).status == NO_MATCH
  {
    var cd := Later();
    forall a: nat | Start(cd, c) <= a ensures !At(cd, buf, a) { ByteAt(cd, buf, a); }
  }

  lemma LaterFinds(buf: bytes, c: Cursor)
    requires Start(Later(), c) < |buf| && buf[Start(Later(), c)] == 'G'
    ensures Eval(Later(), buf, c).status == MATCH
  {
    var cd := Later();
    ByteAt(cd, buf, Start(cd, c));
    FindsAt(cd, buf, c, Start(cd, c));
  }

  // ----- turns of a node with one child -----

  lemma Misses(buf: bytes, cd: Content, c: Node, s: NodeState, cur: Cursor, count: nat)
    requires Fits(One(cd, c), s) && cur.buf == 0 && Eval(cd, buf, cur).status == NO_MATCH
    ensures var r := Loop(Always(buf), One(cd, c), s, NOTHING, cur, 0, count); r.result == 0 && r.d == NOTHING
  {
    hide Eval, Fits;
  }

  /** One turn: the content matches, and its child has been evaluated to `e`. */
  lemma Turn(buf: bytes, cd: Content, c: Node, s: NodeState, cur: Cursor, count: nat) returns (s': NodeState)
    requires Fits(One(cd, c), s) && cur.buf == 0 && !c.kind.Leaf? && |c.children| == 1
    requires Eval(cd, buf, cur).status == MATCH
    requires count > 0 ==> s.kids[0].result == 0 && !Skippable(c)
    requires var e := Evaluate(Always(buf), c, s.kids[0], NOTHING, Eval(cd, buf, cur).cursor);
             (e.result == 0 || e.result == 1) && e.d == NOTHING
    ensures var e := Evaluate(Always(buf), c, s.kids[0], NOTHING, Eval(cd, buf, cur).cursor);
            var cursor := Eval(cd, buf, cur).cursor;
            var env, n := Always(buf), One(cd, c);
            && Fits(n, s') && s'.kids[0].result == e.result
            && Children(env, n, s, NOTHING, cursor, [], 0, 0, count) == Evaluated(e.result, s', NOTHING)
  {
    hide Eval, Fits, Evaluate;
    var env, n, cursor := Always(buf), One(cd, c), Eval(cd, buf, cur).cursor;
    OneFits(n, c, s);
    var e := Evaluate(env, c, s.kids[0], NOTHING, cursor);
    s' := s.(kids := s.kids[0 := e.s.(result := e.result)]);
    SameKidsFit(c, e.s, e.s.(result := e.result));
    OneFitsBack(n, c, s');
    assert Children(env, n, s, NOTHING, cursor, [], 0, 0, count) ==
           Children(env, n, s', NOTHING, cursor, [], 1, e.result, count);
  }

  /** The child fails and the content is tried again. */
  lemma GoesOn(buf: bytes, cd: Content, c: Node, s: NodeState, cur: Cursor, count: nat) returns (s': NodeState)
    requires Fits(One(cd, c), s) && cur.buf == 0 && !c.kind.Leaf? && |c.children| == 1 && c.isRelative
    requires Eval(cd, buf, cur).status == MATCH && ContentSearch.Retry(cd, Eval(cd, buf, cur).cursor)
    requires count > 0 ==> s.kids[0].result == 0 && !Skippable(c)
    requires var e := Evaluate(Always(buf), c, s.kids[0], NOTHING, Eval(cd, buf, cur).cursor);
             e.result == 0 && e.d == NOTHING
    ensures Fits(One(cd, c), s') && s'.kids[0].result == 0
    ensures Loop(Always(buf), One(cd, c), s, NOTHING, cur, 0, count) ==
            Loop(Always(buf), One(cd, c), s', NOTHING, Eval(cd, buf, cur).cursor, 0, count + 1)
  {
    hide Eval, Fits, Evaluate, Children, ContentSearch.Retry;
    s' := Turn(buf, cd, c, s, cur, count);
    assert One(cd, c).children[0].isRelative;
  }

  /** The child is finished, and so is the node. */
  lemma Stops(buf: bytes, cd: Content, c: Node, s: NodeState, cur: Cursor, count: nat)
    requires Fits(One(cd, c), s) && cur.buf == 0 && !c.kind.Leaf? && |c.children| == 1
    requires Eval(cd, buf, cur).status == MATCH
    requires count > 0 ==> s.kids[0].result == 0 && !Skippable(c)
    requires var e := Evaluate(Always(buf), c, s.kids[0], NOTHING, Eval(cd, buf, cur).cursor);
             e.result == 1 && e.d == NOTHING
    ensures var r := Loop(Always(buf), One(cd, c), s, NOTHING, cur, 0, count); r.result == 1 && r.d == NOTHING
  {
    hide Eval, Fits, Evaluate, Children, ContentSearch.Retry;
    var s' := Turn(buf, cd, c, s, cur, count);
  }

  /** On the first retry a child that failed and may be skipped counts as finished. */
  lemma SkipsAndStops(buf: bytes, cd: Content, c: Node, s: NodeState, cur: Cursor)
    requires Fits(One(cd, c), s) && cur.buf == 0 && Skippable(c) && s.kids[0].result == 0
    requires Eval(cd, buf, cur).status == MATCH
    ensures var r := Loop(Always(buf), One(cd, c), s, NOTHING, cur, 0, 1); r.result == 1 && r.d == NOTHING
  {
    hide Eval, Fits, ContentSearch.Retry;
    var env, n, cursor := Always(buf), One(cd, c), Eval(cd, buf, cur).cursor;
    assert NOTHING.(vars := []) == NOTHING;
    assert Children(env, n, s, NOTHING, cursor, [], 0, 0, 1) == Children(env, n, s, NOTHING, cursor, [], 1, 1, 1);
  }

  lemma Begins(buf: bytes, cd: Content, c: Node, s: NodeState, cur: Cursor) returns (s1: NodeState)
    requires Fits(One(cd, c), s) && cd.relative
    ensures Fits(One(cd, c), s1) && s1.kids == s.kids
    ensures Evaluate(Always(buf), One(cd, c), s, NOTHING, cur) ==
            Loop(Always(buf), One(cd, c), s1, NOTHING, Copy(cur), 0, 0)
  {
    hide Fits, Loop;
    s1 := s.(stamp := Some(Always(buf).stamp), flowbitFailed := false);
    SameKidsFit(One(cd, c), s, s1);
  }

  // ----- the children of the content -----

  function LaterRule(): Node {
    One(Later(), Rule())
  }

  function FarRule(away: nat, d: nat): Node {
    One(Far(away, d), LaterRule())
  }

  lemma FarFails(away: nat, d: nat, buf: bytes, s: NodeState, cur: Cursor)
    requires d > 0 && cur.buf == 0 && Fits(FarRule(away, d), s)
    requires forall i | cur.pos + away <= i < cur.pos + away + d && i < |buf| :: buf[i] != 'z'
    ensures var e := Evaluate(Always(buf), FarRule(away, d), s, NOTHING, cur); e.result == 0 && e.d == NOTHING
  {
    hide Eval, Fits, Loop;
    var s1 := Begins(buf, Far(away, d), LaterRule(), s, cur);
    FarMisses(away, d, buf, Copy(cur));
    Misses(buf, Far(away, d), LaterRule(), s1, Copy(cur), 0);
  }

  lemma LaterFails(buf: bytes, s: NodeState, cur: Cursor)
    requires cur.buf == 0 && Fits(LaterRule(), s) && forall i | cur.pos <= i < |buf| :: buf[i] != 'G'
    ensures var e := Evaluate(Always(buf), LaterRule(), s, NOTHING, cur); e.result == 0 && e.d == NOTHING
  {
    hide Eval, Fits, Loop;
    var s1 := Begins(buf, Later(), Rule(), s, cur);
    LaterMisses(buf, Copy(cur));
    Misses(buf, Later(), Rule(), s1, Copy(cur), 0);
  }

  /** Two marks and nothing behind: the child fails at the first and is skipped, and counted, at the second. */
  lemma FarFinishes(away: nat, d: nat, buf: bytes, s: NodeState, cur: Cursor)
    requires 0 < d && 0 < away && cur.buf == 0 && Fits(FarRule(away, d), s)
    requires |buf| + away + d < UINT32 && cur.pos + away + 2 == |buf|
    requires buf[|buf| - 2] == 'z' && buf[|buf| - 1] == 'z'
    ensures var e := Evaluate(Always(buf), FarRule(away, d), s, NOTHING, cur); e.result == 1 && e.d == NOTHING
  {
    hide Eval, Fits, Loop, Evaluate;
    var cd := Far(away, d);
    var s1 := Begins(buf, cd, LaterRule(), s, cur);
    FarFinds(away, d, buf, Copy(cur));
    var first := Eval(cd, buf, Copy(cur)).cursor;
    OneFits(FarRule(away, d), LaterRule(), s1);
    LaterFails(buf, s1.kids[0], first);
    var s2 := GoesOn(buf, cd, LaterRule(), s1, Copy(cur), 0);
    FarFinds(away, d, buf, first);
    SkipsAndStops(buf, cd, LaterRule(), s2, first);
  }

  lemma PlainFar(away: nat, d: nat, buf: bytes, pos: nat)
    requires 0 < d && pos + away + 1 < |buf| && buf[pos + away] == 'z' && buf[pos + away + 1] == 'G'
    ensures RULE in Plain(Always(buf), FarRule(away, d), pos)
  {
    hide Eval, Plain;
    FarFinds(away, d, buf, Cursor(pos, 0));
    PlainOnce(Far(away, d), buf, LaterRule(), pos);
    LaterFinds(buf, Cursor(pos + away + 1, 0));
    PlainOnce(Later(), buf, Rule(), pos + away + 1);
    PlainRule(buf, Eval(Later(), buf, Cursor(pos + away + 1, 0)).cursor.pos);
  }

  // ----- the content itself -----

  /** There is room for a second match, and the numbers are as configuration admits them. */
  predicate Retriable(cd: Content) {
    && -65535 <= cd.offset <= 65535 && cd.depth <= 65535 && |cd.pattern| < 0x1000_0000
    && (cd.depth > 0 ==>
          && |cd.pattern| + cd.matchDelta <= cd.depth && |cd.pattern| + cd.matchDelta <= cd.offset + cd.depth)
  }

  lemma RetriedAt(cd: Content, c: Cursor)
    requires !cd.negated && Retriable(cd) && cd.matchDelta <= c.delta < 0xA000_0000
    ensures ContentSearch.Retry(cd, c)
  {
  }

  /** The root has been satisfied: its child counts as finished. */
  lemma RootSatisfied(b: byte, buf: bytes, c: Node)
    requires buf != [] && buf[0] == b && !c.kind.Leaf? && |c.children| == 1
    requires var e := Evaluate(Always(buf), c, Blank(c), NOTHING, Cursor(1, 1)); e.result == 1 && e.d == NOTHING
    ensures var n := One(Anywhere(b), c); Evaluate(Always(buf), n, Blank(n), NOTHING, Cursor(0, 0)).d.queue == []
  {
    hide Eval, Fits, Evaluate;
    var env, n := Always(buf), One(Anywhere(b), c);
    RootMatches(b, buf);
    var s1 := Blank(n).(stamp := Some(env.stamp), flowbitFailed := false);
    assert Blank(n).kids == [Blank(c)];
    SameKidsFit(n, Blank(n), s1);
    Stops(buf, Anywhere(b), c, s1, Cursor(0, 0), 0);
    RootBegins(b, buf, c);
  }

  lemma RootBegins(b: byte, buf: bytes, c: Node)
    ensures var env, n := Always(buf), One(Anywhere(b), c);
            var s1 := Blank(n).(stamp := Some(env.stamp), flowbitFailed := false);
            && Fits(n, s1)
            && Evaluate(env, n, Blank(n), NOTHING, Cursor(0, 0)) == Loop(env, n, s1, NOTHING, Cursor(0, 0), 0, 0)
  {
    hide Loop;
    var n := One(Anywhere(b), c);
    SameKidsFit(n, Blank(n), Blank(n).(stamp := Some(Always(buf).stamp), flowbitFailed := false));
  }

  /**
    The payload as the searches see it: occurrences at `t`, `t + d`, `t + q` and `t + 2 * q`, none found
    before them, and the marks at distance `away` behind each.
   */
  ghost predicate Laid(cd: Content, buf: bytes, t: nat, d: nat, q: nat, away: nat) {
    && 0 < d < cd.matchDelta <= q < cd.matchDelta + d && 2 * d <= q
    && At(cd, buf, t) && At(cd, buf, t + d) && At(cd, buf, t + q) && At(cd, buf, t + 2 * q)
    && (forall a | t < a < t + d || t + cd.matchDelta <= a < t + q || t + q + cd.matchDelta <= a < t + 2 * q ::
          !At(cd, buf, a))
    && 2 * q <= away && |buf| == t + |cd.pattern| + away + 2 * q + 2
    && (forall i | 0 <= i < 2 * q + 2 :: buf[t + |cd.pattern| + away + i] == Marks(d, q)[i])
    && |buf| < 0x9800_0000 && |buf| + away + d < UINT32
  }

  /** Behind the first occurrence and behind the next one visited no mark is near. */
  lemma VisitFails(cd: Content, buf: bytes, t: nat, d: nat, q: nat, away: nat, x: nat, s: NodeState, cur: Cursor)
    requires Laid(cd, buf, t, d, q, away) && (x == 0 || x == q) && Fits(FarRule(away, d), s)
    requires cur.buf == 0 && cur.pos == t + x + |cd.pattern|
    ensures var e := Evaluate(Always(buf), FarRule(away, d), s, NOTHING, cur); e.result == 0 && e.d == NOTHING
  {
    hide Evaluate, At, Fits;
    var b := t + |cd.pattern| + away;
    forall i | cur.pos + away <= i < cur.pos + away + d && i < |buf| ensures buf[i] != 'z' {
      assert buf[b + (i - b)] == Marks(d, q)[i - b];
    }
    FarFails(away, d, buf, s, cur);
  }

  lemma VisitFinishes(cd: Content, buf: bytes, t: nat, d: nat, q: nat, away: nat, s: NodeState, cur: Cursor)
    requires Laid(cd, buf, t, d, q, away) && Fits(FarRule(away, d), s)
    requires cur.buf == 0 && cur.pos == t + 2 * q + |cd.pattern|
    ensures var e := Evaluate(Always(buf), FarRule(away, d), s, NOTHING, cur); e.result == 1 && e.d == NOTHING
  {
    hide Evaluate, At, Fits;
    var b := t + |cd.pattern| + away;
    assert buf[b + 2 * q] == Marks(d, q)[2 * q] && buf[b + (2 * q + 1)] == Marks(d, q)[2 * q + 1];
    FarFinishes(away, d, buf, s, cur);
  }

  /** The content visits the occurrences at `t`, `t + q` and `t + 2 * q` and is then finished. */
  lemma UnsafeFinishes(cd: Content, buf: bytes, t: nat, d: nat, q: nat, away: nat, s: NodeState, cur: Cursor)
    requires !cd.negated && cd.relative && Retriable(cd) && Laid(cd, buf, t, d, q, away)
    requires Fits(One(cd, FarRule(away, d)), s) && cur.buf == 0
    requires Eval(cd, buf, Copy(cur)) ==
             Searched(MATCH, Copy(cur).(pos := t + |cd.pattern|, delta := t + cd.matchDelta))
    ensures var e := Evaluate(Always(buf), One(cd, FarRule(away, d)), s, NOTHING, cur);
            e.result == 1 && e.d == NOTHING
  {
    hide Eval, Fits, Loop, Evaluate, Laid, ContentSearch.Retry, At;
    var c, m, size := FarRule(away, d), cd.matchDelta, |cd.pattern|;
    var s1 := Begins(buf, cd, c, s, cur);
    Visits(cd, buf, t, d, q, away);
    LaidFirst(cd, buf, t, d, q, away);
    var c1 := Cursor(t + size, t + m);
    var c2 := Cursor(t + q + size, t + q + m);
    OneFits(One(cd, c), c, s1);
    VisitFails(cd, buf, t, d, q, away, 0, s1.kids[0], c1);
    var s2 := GoesOn(buf, cd, c, s1, Copy(cur), 0);
    OneFits(One(cd, c), c, s2);
    VisitFails(cd, buf, t, d, q, away, q, s2.kids[0], c2);
    var s3 := GoesOn(buf, cd, c, s2, c1, 1);
    OneFits(One(cd, c), c, s3);
    VisitFinishes(cd, buf, t, d, q, away, s3.kids[0], Cursor(t + 2 * q + size, t + 2 * q + m));
    Stops(buf, cd, c, s3, c2, 2);
  }

  /** The two retries of the content. */
  lemma Visits(cd: Content, buf: bytes, t: nat, d: nat, q: nat, away: nat)
    requires !cd.negated && Retriable(cd) && Laid(cd, buf, t, d, q, away)
    ensures var m, size := cd.matchDelta, |cd.pattern|;
            var c1, c2 := Cursor(t + size, t + m), Cursor(t + q + size, t + q + m);
            && ContentSearch.Retry(cd, c1) && ContentSearch.Retry(cd, c2)
            && Eval(cd, buf, c1) == Searched(MATCH, c2)
            && Eval(cd, buf, c2) == Searched(MATCH, Cursor(t + 2 * q + size, t + 2 * q + m))
  {
    hide Eval, At, Marks, ContentSearch.Retry;
    var m, size := cd.matchDelta, |cd.pattern|;
    var c1, c2 := Cursor(t + size, t + m), Cursor(t + q + size, t + q + m);
    RetriedAt(cd, c1);
    RetriedAt(cd, c2);
    FindsAt(cd, buf, c1, t + q);
    FindsAt(cd, buf, c2, t + 2 * q);
  }

  /** Searched from between the first two occurrences, the content finds the second and the marks behind it. */
  lemma PlainFinds(cd: Content, buf: bytes, t: nat, d: nat, q: nat, away: nat, pos: nat)
    requires !cd.negated && cd.relative && Retriable(cd) && Laid(cd, buf, t, d, q, away)
    requires Start(cd, Cursor(pos, 0)) == t + 1
    ensures RULE in Plain(Always(buf), One(cd, FarRule(away, d)), pos)
  {
    hide Eval, Plain, At;
    FindsAt(cd, buf, Cursor(pos, 0), t + d);
    var b := t + |cd.pattern| + away;
    assert buf[b + d] == Marks(d, q)[d] && buf[b + (d + 1)] == Marks(d, q)[d + 1];
    PlainFar(away, d, buf, t + d + |cd.pattern|);
    PlainOnce(cd, buf, FarRule(away, d), pos);
  }

  lemma LaidOut(pre: bytes, cd: Content, d: nat, q: nat, more: nat)
    requires 0 < d < cd.matchDelta <= q < cd.matchDelta + d && 2 * d <= q && Overlaps(cd, d)
    requires Phase(q, d) == 0 && Phase(q - d, d) == 0 && Phase(2 * q, d) == 0 && Phase(2 * q - d, d) == 0
    requires forall e | 0 < e < d :: !Overlaps(cd, e)
    requires |pre| <= 65537 && more <= 65535 && |cd.pattern| < 0x1000_0000
    ensures Laid(cd, Long(pre, cd, d, q, more), |pre|, d, q, 2 * q + more)
  {
    hide At, Overlaps, Long;
    var buf, t := Long(pre, cd, d, q, more), |pre|;
    Occurs(pre, cd, d, q, more, 0);
    Occurs(pre, cd, d, q, more, d);
    Occurs(pre, cd, d, q, more, q - d);
    Occurs(pre, cd, d, q, more, q);
    Occurs(pre, cd, d, q, more, 2 * q - d);
    Occurs(pre, cd, d, q, more, 2 * q);
    forall a | t < a < t + d || t + cd.matchDelta <= a < t + q || t + q + cd.matchDelta <= a < t + 2 * q
      ensures !At(cd, buf, a)
    {
      NoneBetween(cd, buf, d, if a < t + d then t else if a < t + q then t + (q - d) else t + (2 * q - d), a);
    }
    MarkAt(pre, cd, d, q, more, 0);
    forall i | 0 <= i < 2 * q + 2 ensures buf[t + |cd.pattern| + (2 * q + more) + i] == Marks(d, q)[i] {
      MarkAt(pre, cd, d, q, more, i);
    }
  }

  function AtLeastZero(k: int): nat {
    if k > 0 then k else 0
  }

  /** A byte that neither of the first two bytes of the pattern can be taken for. */
  function Filler(cd: Content): byte
    requires |cd.pattern| > 1
  {
    var p, r := cd.pattern[0], cd.pattern[1];
    if p != '0' && r != '0' then '0' else if p != '1' && r != '1' then '1' else '2'
  }

  /** The byte that the root looks for, and what stands before the pattern. */
  function RootByte(cd: Content, d: nat): byte
    requires 0 < d <= |cd.pattern|
  {
    if cd.offset >= 0 then cd.pattern[0] else cd.pattern[Phase(-cd.offset, d)]
  }

  function Front(cd: Content, d: nat): bytes
    requires 0 < d < |cd.pattern|
  {
    if cd.offset >= 0 then Fill(cd.pattern[0], 1 + cd.offset) else [RootByte(cd, d), Filler(cd)]
  }

  /** Behind the root's first match the content finds its first occurrence. */
  lemma FrontFinds(cd: Content, d: nat, q: nat)
    requires !cd.negated && cd.relative && Retriable(cd) && 0 < d < cd.matchDelta
    requires var pre := Front(cd, d); At(cd, Long(pre, cd, d, q, AtLeastZero(-cd.offset)), |pre|)
    ensures var pre := Front(cd, d);
            var buf := Long(pre, cd, d, q, AtLeastZero(-cd.offset));
            && buf[0] == RootByte(cd, d)
            && Eval(cd, buf, Cursor(1, 0)) ==
               Searched(MATCH, Cursor(|pre| + |cd.pattern|, |pre| + cd.matchDelta))
  {
    hide Eval, Long;
    var pre, more := Front(cd, d), AtLeastZero(-cd.offset);
    var buf := Long(pre, cd, d, q, more);
    FrontIs(pre, cd, d, q, more, 0);
    forall a | Start(cd, Cursor(1, 0)) <= a < |pre| ensures !At(cd, buf, a) {
      FrontIs(pre, cd, d, q, more, 1);
      if At(cd, buf, a) {
        AtBoth(cd, buf, a);
      }
    }
    hide At;
    FindsAt(cd, buf, Cursor(1, 0), |pre|);
  }

  lemma FrontIs(pre: bytes, cd: Content, d: nat, q: nat, more: nat, i: nat)
    requires 0 < d <= |cd.pattern|
    ensures i < |pre| ==> i < |Long(pre, cd, d, q, more)| && Long(pre, cd, d, q, more)[i] == pre[i]
  {
  }

  /** The root matches again where the content then searches from between its first two occurrences. */
  lemma FrontAgain(cd: Content, d: nat, q: nat) returns (a: nat)
    requires !cd.negated && cd.relative && Retriable(cd) && 0 < d < cd.matchDelta
    ensures var pre := Front(cd, d);
            var buf := Long(pre, cd, d, q, AtLeastZero(-cd.offset));
            && a < |buf| && buf[a] == RootByte(cd, d)
            && Start(cd, Cursor(a + 1, 0)) == |pre| + 1
  {
    hide Long;
    var pre, more := Front(cd, d), AtLeastZero(-cd.offset);
    if cd.offset >= 0 {
      a := 1;
      if cd.offset == 0 {
        TextAt(pre, cd, d, q, more, 0);
      } else {
        FrontIs(pre, cd, d, q, more, 1);
      }
    } else {
      a := |pre| - cd.offset;
      TextAt(pre, cd, d, q, more, -cd.offset);
    }
  }

  /**
    Every positive relative content with an unsafe jump and room for a second match loses a rule: while it
    finishes at the occurrences it visits, the one that its jump leaps over is never looked at.
   */
  lemma UnsafeJumpLosesRule(cd: Content) returns (buf: bytes, n: Node)
    requires !cd.negated && cd.relative && Retriable(cd) && !SafeJump(cd)
    ensures LosesBelow(cd, buf, n)
  {
    hide Eval, Evaluate, Plain, At, Overlaps, SafeJump, Long, Laid, Retriable, Start;
    var d := LeastOverlap(cd);
    var q := NextMultiple(cd.matchDelta, d);
    var pre, more := Front(cd, d), AtLeastZero(-cd.offset);
    buf := Long(pre, cd, d, q, more);
    OffsetIsSmall(cd);
    LaidOut(pre, cd, d, q, more);
    LaidFirst(cd, buf, |pre|, d, q, 2 * q + more);
    FrontFinds(cd, d, q);
    var c := One(cd, FarRule(2 * q + more, d));
    n := One(Anywhere(RootByte(cd, d)), c);
    UnsafeFinishes(cd, buf, |pre|, d, q, 2 * q + more, Blank(c), Cursor(1, 1));
    RootSatisfied(RootByte(cd, d), buf, c);
    var a := FrontAgain(cd, d, q);
    PlainFinds(cd, buf, |pre|, d, q, 2 * q + more, a + 1);
    PlainTriesAll(RootByte(cd, d), buf, c, a);
  }

  lemma OffsetIsSmall(cd: Content)
    requires Retriable(cd)
    ensures -65535 <= cd.offset <= 65535 && |cd.pattern| < 0x1000_0000
  {
  }

  lemma LaidFirst(cd: Content, buf: bytes, t: nat, d: nat, q: nat, away: nat)
    requires Laid(cd, buf, t, d, q, away)
    ensures At(cd, buf, t) && buf != [] && 0 < d
  {
  }

  /** Without a positive offset there is no third way: a content is tried once in the payload, or is retriable. */
  lemma TriedOnceOrRetriable(cd: Content, size: nat)
    requires cd.offset <= 0 <= cd.offset + cd.depth && cd.depth <= 65535
    requires |cd.pattern| < 0x1000_0000 && size < 0x1000_0000
    ensures TriedOnce(cd, size) || Retriable(cd)
  {
    if cd.depth > 0 && cd.offset + cd.depth < |cd.pattern| + cd.matchDelta {
      forall c: Cursor | cd.matchDelta <= c.delta <= size ensures !ContentSearch.Retry(cd, c) {
        assert 0 <= c.delta - cd.matchDelta + cd.offset + cd.depth < c.delta + |cd.pattern| < UINT32;
      }
    }
  }

  /** The jump that configuration computes for `aabaaab` is unsafe. */
  lemma ComputedJumpLosesRule(cd: Content) returns (buf: bytes, n: Node)
    requires cd.pattern == "aabaaab" && cd.matchDelta == MaxJump(cd.pattern, 1, 0)
    requires !cd.negated && cd.relative && Retriable(cd)
    ensures LosesBelow(cd, buf, n)
  {
    hide Loses;
    MaxJumpIsUnsafe(cd);
    buf, n := UnsafeJumpLosesRule(cd);
  }

  // ----- negated contents -----

  lemma NextFinds(z: byte, buf: bytes, pos: nat)
    requires pos < |buf|
    ensures Eval(Next(z), buf, Cursor(pos, 0)).status == if buf[pos] == z then MATCH else NO_MATCH
    ensures Eval(Next(z), buf, Cursor(pos, 0)).cursor.buf == 0
  {
    ByteAt(Next(z), buf, pos);
  }

  /** The mark is not there: neither result nor queue. */
  lemma NextFails(z: byte, buf: bytes, cur: Cursor, s: NodeState, d: EvalData)
    requires cur.pos < |buf| && buf[cur.pos] != z && cur.buf == 0 && Fits(One(Next(z), Rule()), s)
    ensures var e := Evaluate(Always(buf), One(Next(z), Rule()), s, d, cur);
            e.result == 0 && e.d == d
  {
    hide Eval;
    assert Copy(cur) == Cursor(cur.pos, 0);
    NextFinds(z, buf, cur.pos);
  }

  lemma PlainNext(z: byte, buf: bytes, pos: nat)
    requires pos < |buf| && buf[pos] == z
    ensures RULE in Plain(Always(buf), One(Next(z), Rule()), pos)
  {
    hide Eval;
    var env, n := Always(buf), One(Next(z), Rule());
    NextFinds(z, buf, pos);
    var e := Eval(Next(z), buf, Cursor(pos, 0));
    assert Plain(env, Rule(), e.cursor.pos) == {RULE};
    assert PlainKids(env, n, e.cursor.pos, 0) == Plain(env, Rule(), e.cursor.pos) + PlainKids(env, n, e.cursor.pos, 1);
  }

  function Other(b: byte): byte {
    if b == '0' then '1' else '0'
  }

  /** A negated content that fails leaves neither result nor queue. */
  lemma NegatedFails(cd: Content, buf: bytes, c: Node, cur: Cursor, s: NodeState)
    requires cd.negated && Fits(One(cd, c), s) && cur.buf == 0 && Eval(cd, buf, Copy(cur)).status == NO_MATCH
    requires cd.relative || !Checked(Always(buf), s)
    ensures var r := Evaluate(Always(buf), One(cd, c), s, NOTHING, cur);
            r.result == 0 && r.d == NOTHING
  {
    hide Eval, Fits;
  }

  lemma OutOfReach(cd: Content, buf: bytes, c: Cursor)
    requires cd.negated && Start(cd, c) < |buf| && forall a: nat | Start(cd, c) <= a :: !At(cd, buf, a)
    ensures Eval(cd, buf, c) == Searched(MATCH, c)
  {
  }

  lemma InReach(cd: Content, buf: bytes, c: Cursor, a: nat)
    requires cd.negated && cd.depth == 0 && Start(cd, c) <= a && At(cd, buf, a)
    ensures Eval(cd, buf, c).status == NO_MATCH
  {
  }

  function Fill(b: byte, k: nat): bytes {
    seq(k, _ => b)
  }

  /** The pattern between other bytes, which cannot begin it. */
  function Between(cd: Content, before: nat, behind: nat): bytes {
    Fill(Other(cd.pattern[0]), before) + cd.pattern + Fill(Other(cd.pattern[0]), behind)
  }

  lemma BetweenOccurs(cd: Content, before: nat, behind: nat, a: nat)
    ensures At(cd, Between(cd, before, behind), before)
    ensures before + |cd.pattern| <= a ==> !At(cd, Between(cd, before, behind), a)
  {
    var b := Other(cd.pattern[0]);
    PatternInside(cd, Fill(b, before), Fill(b, behind));
    if before + |cd.pattern| <= a && At(cd, Between(cd, before, behind), a) {
      AtBoth(cd, Between(cd, before, behind), a);
    }
  }

  /**
    Every relative negated content without depth loses a rule: once it has failed it is not looked at again,
    although further on nothing forbidden follows.
   */
  lemma NegatedContentIsSkipped(cd: Content) returns (buf: bytes, n: Node)
    requires cd.negated && cd.relative && cd.depth == 0
    ensures LosesBelow(cd, buf, n)
  {
    hide Eval, Evaluate, Plain, At;
    var o, size, b := cd.offset, |cd.pattern|, Other(cd.pattern[0]);
    var before, behind := 1 + AtLeastZero(o), 2 + AtLeastZero(o) + AtLeastZero(-o);
    buf, n := Between(cd, before, behind), One(Anywhere(b), One(cd, Rule()));
    var c := n.children[0];
    BetweenOccurs(cd, before, behind, 0);
    InReach(cd, buf, Cursor(1, 0), before);
    NegatedFails(cd, buf, Rule(), Cursor(1, 1), Blank(c));
    RootGivesUp(b, buf, c);
    var i := if o >= 0 then before + size else |buf| - 1;
    forall a: nat | Start(cd, Cursor(i + 1, 0)) <= a ensures !At(cd, buf, a) { BetweenOccurs(cd, before, behind, a); }
    OutOfReach(cd, buf, Cursor(i + 1, 0));
    PlainOnce(cd, buf, Rule(), i + 1);
    PlainRule(buf, i + 1);
    PlainTriesAll(b, buf, c, i);
  }

  lemma PatternInside(cd: Content, before: bytes, behind: bytes)
    ensures At(cd, before + cd.pattern + behind, |before|)
  {
    var buf := before + cd.pattern + behind;
    assert forall k | 0 <= k < |cd.pattern| :: buf[|before| + k] == cd.pattern[k];
  }

  lemma PlainRule(buf: bytes, pos: nat)
    ensures Plain(Always(buf), Rule(), pos) == {RULE}
  {
  }

  /**
    Every negated content that is not relative loses a rule when it has a relative child: it is checked once,
    and the child is tried only behind the first match above it.
   */
  lemma FixedNegatedHidesChild(cd: Content) returns (buf: bytes, n: Node)
    requires cd.negated && !cd.relative
    ensures LosesBelow(cd, buf, n) && HasRelativeChild(n.children[0])
  {
    hide Eval, Evaluate, Plain;
    var b := Other(cd.pattern[0]);
    var z := if cd.pattern[0] != '2' then '2' else '3';
    var follow := One(Next(z), Rule());
    buf, n := [b, b, b, z] + Fill(b, AtLeastZero(cd.offset)), One(Anywhere(b), One(cd, follow));
    var c := n.children[0];
    assert c.children[0].isRelative;
    forall a: nat ensures !At(cd, buf, a) {
      if At(cd, buf, a) {
        AtBoth(cd, buf, a);
      }
    }
    OutOfReach(cd, buf, Cursor(1, 0));
    OutOfReach(cd, buf, Cursor(3, 0));
    NegatedChildFails(cd, z, buf, Cursor(1, 1), Blank(c));
    RootGivesUp(b, buf, c);
    PlainNext(z, buf, 3);
    PlainOnce(cd, buf, follow, 3);
    PlainTriesAll(b, buf, c, 2);
  }

  /** A negated content that matches while its child fails. */
  lemma NegatedChildFails(cd: Content, z: byte, buf: bytes, cur: Cursor, s: NodeState)
    requires cd.negated && Fits(One(cd, One(Next(z), Rule())), s) && cur.buf == 0
    requires cd.relative || !Checked(Always(buf), s)
    requires Eval(cd, buf, Copy(cur)) == Searched(MATCH, Copy(cur)) && cur.pos < |buf| && buf[cur.pos] != z
    ensures var r := Evaluate(Always(buf), One(cd, One(Next(z), Rule())), s, NOTHING, cur);
            r.result == 0 && r.d == NOTHING
  {
    hide Eval, Fits;
    var env, c := Always(buf), One(Next(z), Rule());
    var n := One(cd, c);
    var s1 := s.(stamp := Some(env.stamp), flowbitFailed := false);
    OneFits(n, c, s);
    NextFails(z, buf, Copy(cur), s.kids[0], NOTHING);
    var x := Evaluate(env, c, s.kids[0], NOTHING, Copy(cur));
    var s2 := s1.(kids := s1.kids[0 := x.s.(result := 0)]);
    SameKidsFit(c, x.s, x.s.(result := 0));
    OneFitsBack(n, c, s1);
    OneFitsBack(n, c, s2);
    var k := Children(env, n, s1, NOTHING, Copy(cur), [], 0, 0, 0);
    assert k == Children(env, n, s2, NOTHING, Copy(cur), [], 1, 0, 0) == Evaluated(0, s2, NOTHING);
  }

  // ----- more finished children than a byte can hold -----

  function Wide(k: nat): Node {
    Node(OtherOption(0), false, seq(k, (i: nat) => Node(Leaf(i), false, [])))
  }

  lemma {:induction false} LeavesAllCount(
    env: Env, n: Node, s: NodeState, d: EvalData, cur: Cursor, i: nat, result: int)
    requires Fits(n, s) && i <= |n.children|
    requires forall j | i <= j < |n.children| ::
               && n.children[j].kind.Leaf? && n.children[j].children == []
               && env.header(n.children[j].kind.rule) && !Checked(env, s.kids[j])
    ensures var r := Children(env, n, s, d, cur, d.vars, i, result, 0);
            && r.result == result + |n.children| - i
            && r.d.flowbitFailed == d.flowbitFailed && r.s == s.(kids := r.s.kids)
    decreases |n.children| - i
  {
    if i < |n.children| {
      var c, cs := n.children[i], s.kids[i];
      var e := Evaluate(env, c, cs, d.(vars := d.vars), cur);
      LeafMatches(env, c, cs, d.(vars := d.vars), cur);
      LeavesAllCount(env, n, s.(kids := s.kids[i := e.s.(result := e.result)]), e.d, cur, i + 1, result + 1);
    }
  }

  lemma LeafMatches(env: Env, c: Node, cs: NodeState, d: EvalData, cur: Cursor)
    requires c.kind.Leaf? && c.children == [] && Fits(c, cs) && env.header(c.kind.rule) && !Checked(env, cs)
    ensures var e := Evaluate(env, c, cs, d, cur);
            e.result == 1 && e.d.vars == d.vars && e.d.flowbitFailed == d.flowbitFailed
  {
    var s1 := cs.(stamp := Some(env.stamp), flowbitFailed := false);
    var t := Try(env, c, d, Copy(cur), 0);
    assert Children(env, c, s1, t.d, t.cursor, t.d.vars, 0, 1, 0) == Evaluated(1, s1, t.d);
  }

  /** An option over `k` matching rules answers `k`, and on the next check the same if and only if `k` fits a byte. */
  lemma WideNodeForgets(k: nat)
    ensures var env, n := Always([]), Wide(k);
            var r := Evaluate(env, n, Blank(n), NOTHING, Cursor(0, 0));
            var again := Evaluate(env, n, r.s, NOTHING, Cursor(0, 0));
            r.result == k && again.result == ToChar(k) && (again.result == k <==> k <= 127)
  {
    hide Children, ToChar;
    var env, n := Always([]), Wide(k);
    var s := Blank(n);
    var s1 := s.(stamp := Some(env.stamp), flowbitFailed := false);
    SameKidsFit(n, s, s1);
    forall j | 0 <= j < k ensures s1.kids[j] == Blank(n.children[j]) && !Checked(env, s1.kids[j]) {}
    LeavesAllCount(env, n, s1, NOTHING, Cursor(0, 0), 0, 0);
    var kids := Children(env, n, s1, NOTHING, Cursor(0, 0), NOTHING.vars, 0, 0, 0);
    assert kids.result == k;
    var r := Evaluate(env, n, s, NOTHING, Cursor(0, 0));
    assert !Checked(env, s) && !TryAgain(env, n, Cursor(0, 0));
    assert Try(env, n, NOTHING, Cursor(0, 0), 0) == Tried(MATCH, Cursor(0, 0), NOTHING, 0);
    assert r == Loop(env, n, s1, NOTHING, Cursor(0, 0), 0, 0);
    assert r == Finish(env, n, kids.s, kids.d, Cursor(0, 0), k);
    ByteHolds(k);
  }

  lemma ByteHolds(k: nat)
    ensures ToChar(k) == k <==> k <= 127
  {
  }
}
