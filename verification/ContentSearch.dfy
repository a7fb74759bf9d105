/**
  The content option: searching a pattern from a cursor, searching again for the next occurrence,
  and how far the next search may jump (src/ips_options/ips_content.cc, lines 85-104, 167-182 and
  296-406; src/framework/cursor.h, lines 60-110; src/framework/cursor.cc, lines 36-40).
 */
module ContentSearch {
  import opened Basics

  /**
    A position in a buffer; buffer zero is the packet's payload.  `delta` is where the next search of the
    same option starts; zero means that there was none yet.
   */
  datatype Cursor = Cursor(pos: nat, delta: nat, buf: nat := 0)

  datatype ContentData = ContentData(
    id: nat, pattern: bytes, noCase: bool, negated: bool, relative: bool,
    offset: int, depth: nat, matchDelta: nat)

  /** A pattern is not empty and the jump is between one and its size. */
  type Content = cd: ContentData | 1 <= cd.matchDelta <= |cd.pattern|
    witness ContentData(0, "a", false, false, false, 0, 0, 1)

  datatype EvalStatus = NO_MATCH | MATCH | NO_ALERT | FAILED_BIT

  datatype Searched = Searched(status: EvalStatus, cursor: Cursor)

  function Upper(c: byte): byte {
    if 'a' <= c <= 'z' then (c as int - 32) as char else c
  }

  predicate Same(noCase: bool, a: byte, b: byte) {
    if noCase then Upper(a) == Upper(b) else a == b
  }

  /** Without regard to case, bytes are the same if they differ at most as an ASCII letter and its capital. */
  lemma SameMeans(a: byte, b: byte)
    ensures Same(false, a, b) <==> a == b
    ensures Same(true, a, b) <==>
            a == b || ('a' <= a <= 'z' && b as int + 32 == a as int) || ('a' <= b <= 'z' && a as int + 32 == b as int)
  {
  }

  /** The pattern occurs at `a`. */
  predicate At(cd: Content, buf: bytes, a: nat) {
    a + |cd.pattern| <= |buf| && forall k | 0 <= k < |cd.pattern| :: Same(cd.noCase, buf[a + k], cd.pattern[k])
  }

  /** The first occurrence in `from..last`. */
  function First(cd: Content, buf: bytes, from: nat, last: int): (r: Option<nat>)
    ensures r.Some? ==> from <= r.value <= last && At(cd, buf, r.value)
    ensures forall a | from <= a <= last && (r.Some? ==> a < r.value) :: !At(cd, buf, a)
    decreases last - from
  {
    if from > last then None
    else if At(cd, buf, from) then Some(from)
    else First(cd, buf, from + 1, last)
  }

  /** Where a search starts. */
  function Start(cd: Content, c: Cursor): nat {
    if c.delta != 0 then c.delta
    else
      var p := (if cd.relative then c.pos else 0) + cd.offset;
      if p < 0 then 0 else p
  }

  /** How many bytes a search may look at. */
  function Window(cd: Content, buf: bytes, start: nat): int {
    var len := |buf| - start;
    if cd.depth == 0 || len < cd.depth then len else cd.depth
  }

  function Eval(cd: Content, buf: bytes, c: Cursor): (r: Searched)
    ensures (r.status == MATCH || r.status == NO_MATCH) && r.cursor.buf == c.buf
    ensures r.status == MATCH && !cd.negated ==> Start(cd, c) < r.cursor.delta <= |buf| && c.delta < r.cursor.delta
  {
    var pos, size := Start(cd, c), |cd.pattern|;
    var depth := Window(cd, buf, pos);
    if pos + size > |buf| || size > depth then
      if cd.negated && depth > 0 then Searched(MATCH, c) else Searched(NO_MATCH, c)
    else
      match First(cd, buf, pos, pos + depth - size)
      case None => Searched(if cd.negated then MATCH else NO_MATCH, c)
      case Some(at) =>
        Searched(if cd.negated then NO_MATCH else MATCH, c.(pos := at + size, delta := at + cd.matchDelta))
  }

  /** Whether the option may be tried again behind its last match; the sums are unsigned. */
  predicate Retry(cd: Content, c: Cursor) {
    !cd.negated &&
    (cd.depth == 0 ||
     (c.delta + |cd.pattern|) % UINT32 <= (c.delta - cd.matchDelta + cd.offset + cd.depth) % UINT32)
  }

  // ----- what a search finds -----

  /** A positive match is the first occurrence at or after the start. */
  lemma MatchIsFirst(cd: Content, buf: bytes, c: Cursor)
    requires !cd.negated && Eval(cd, buf, c).status == MATCH
    ensures var at := Eval(cd, buf, c).cursor.delta - cd.matchDelta;
            && 0 <= at && Start(cd, c) <= at && At(cd, buf, at)
            && Eval(cd, buf, c).cursor == c.(pos := at + |cd.pattern|, delta := at + cd.matchDelta)
            && (forall a | Start(cd, c) <= a < at :: !At(cd, buf, a))
  {}

  /** Without a depth, a positive search fails only if nothing is left to find. */
  lemma UnboundedFinds(cd: Content, buf: bytes, c: Cursor, a: nat)
    requires !cd.negated && cd.depth == 0 && Start(cd, c) <= a && At(cd, buf, a)
    ensures Eval(cd, buf, c).status == MATCH
  {}

  /** The pattern occurs at `a` within what a search from the cursor may look at. */
  predicate Within(cd: Content, buf: bytes, c: Cursor, a: nat) {
    && Start(cd, c) <= a && At(cd, buf, a)
    && (cd.depth > 0 ==> a + |cd.pattern| <= Start(cd, c) + cd.depth)
  }

  /**
    A positive content matches if and only if the pattern occurs within reach; a negated one if and only if it does
    not and there is at least one byte to look at.
   */
  lemma EvalExactly(cd: Content, buf: bytes, c: Cursor)
    ensures Eval(cd, buf, c).status == MATCH <==>
            if cd.negated then Start(cd, c) < |buf| && forall a: nat :: !Within(cd, buf, c, a)
            else exists a: nat :: Within(cd, buf, c, a)
  {
    var pos, size := Start(cd, c), |cd.pattern|;
    var depth := Window(cd, buf, pos);
    if pos + size <= |buf| && size <= depth {
      var r := First(cd, buf, pos, pos + depth - size);
      forall a: nat ensures Within(cd, buf, c, a) <==> pos <= a <= pos + depth - size && At(cd, buf, a) {}
      if r.Some? {
        assert Within(cd, buf, c, r.value);
      }
    }
  }

  // ----- jumping to the next search -----

  /** The pattern fits over itself when shifted by `d`. */
  predicate Overlaps(cd: Content, d: nat) {
    forall k | 0 <= k < |cd.pattern| - d :: Same(cd.noCase, cd.pattern[k + d], cd.pattern[k])
  }

  /** No shift shorter than the jump lets the pattern overlap itself. */
  ghost predicate SafeJump(cd: Content) {
    forall d: nat | 0 < d < cd.matchDelta :: !Overlaps(cd, d)
  }

  /** With a safe jump the next search starts before or at the next occurrence, in every buffer. */
  lemma NothingSkipped(cd: Content, buf: bytes, a: nat, b: nat)
    requires SafeJump(cd) && At(cd, buf, a) && At(cd, buf, b) && a < b
    ensures a + cd.matchDelta <= b
  {
    if b < a + cd.matchDelta {
      var d := b - a;
      forall k | 0 <= k < |cd.pattern| - d
        ensures Same(cd.noCase, cd.pattern[k + d], cd.pattern[k])
      {
        assert Same(cd.noCase, buf[a + (k + d)], cd.pattern[k + d]);
        assert Same(cd.noCase, buf[b + k], cd.pattern[k]);
      }
      assert Overlaps(cd, d);
    }
  }

  /** The condition is exact: an unsafe jump skips an occurrence in some buffer. */
  lemma UnsafeJumpSkips(cd: Content, d: nat) returns (buf: bytes)
    requires 0 < d < cd.matchDelta && Overlaps(cd, d)
    ensures At(cd, buf, 0) && At(cd, buf, d) && d < cd.matchDelta
  {
    buf := cd.pattern[..d] + cd.pattern;
    forall k | 0 <= k < |cd.pattern|
      ensures Same(cd.noCase, buf[k], cd.pattern[k])
    {
      if k >= d {
        assert Same(cd.noCase, cd.pattern[(k - d) + d], cd.pattern[k - d]);
      }
    }
    forall k | 0 <= k < |cd.pattern|
      ensures Same(cd.noCase, buf[d + k], cd.pattern[k])
    {
      assert buf[d + k] == cd.pattern[k];
    }
  }

  /** The jump as configuration computes it: a border of the pattern found by one naive pass. */
  function MaxJump(pattern: bytes, i: nat, j: nat): nat
    requires 1 <= i && j < i
    decreases |pattern| - i
  {
    if i >= |pattern| then |pattern|
    else if pattern[j] != pattern[i] then MaxJump(pattern, i + 1, 0)
    else if i == |pattern| - 1 then |pattern| - j - 1
    else MaxJump(pattern, i + 1, j + 1)
  }

  method SetMaxJumpSize(pattern: bytes) returns (matchDelta: nat)
    requires pattern != []
    ensures matchDelta == MaxJump(pattern, 1, 0)
    ensures 1 <= matchDelta <= |pattern|
    ensures forall k | 0 <= k < |pattern| - matchDelta :: pattern[k + matchDelta] == pattern[k]
  {
    var j := 0;
    for i := 1 to |pattern|
      invariant j < i <= |pattern|
      invariant forall k | 0 <= k < j :: pattern[i - j + k] == pattern[k]
      invariant MaxJump(pattern, 1, 0) == MaxJump(pattern, i, j)
    {
      if pattern[j] != pattern[i] {
        j := 0;
        continue;
      }
      if i == |pattern| - 1 {
        matchDelta := |pattern| - j - 1;
        return;
      }
      j := j + 1;
    }
    matchDelta := |pattern|;
  }

  /** How much of the pattern's beginning the pass has matched just before index `i`. */
  function Matched(pattern: bytes, i: nat): (j: nat)
    requires i <= |pattern|
    ensures i > 0 ==> j < i
  {
    if i <= 1 then 0
    else
      var j := Matched(pattern, i - 1);
      if pattern[j] == pattern[i - 1] then j + 1 else 0
  }

  /** The pass yields where the match that it ends with began. */
  lemma {:induction false} PassYields(pattern: bytes, i: nat)
    requires 1 <= i <= |pattern|
    ensures MaxJump(pattern, i, Matched(pattern, i)) == |pattern| - Matched(pattern, |pattern|) || i == |pattern|
    ensures i == |pattern| ==> MaxJump(pattern, i, Matched(pattern, i)) == |pattern|
    decreases |pattern| - i
  {
    if i < |pattern| {
      PassYields(pattern, i + 1);
    }
  }

  lemma {:induction false} MatchedAgrees(pattern: bytes, i: nat, k: nat)
    requires i <= |pattern| && k < Matched(pattern, i)
    ensures pattern[i - Matched(pattern, i) + k] == pattern[k]
    decreases i
  {
    if k < Matched(pattern, i) - 1 {
      MatchedAgrees(pattern, i - 1, k);
    }
  }

  /** The bytes of the pattern as written fit over themselves when shifted by `d`. */
  predicate BytesOverlap(written: bytes, d: nat) {
    forall k | 0 <= k < |written| - d :: written[k + d] == written[k]
  }

  /** From the beginning of an overlap on, a pass that has nothing matched yet matches to the end. */
  lemma {:induction false} MatchesOn(written: bytes, d: nat, i: nat)
    requires 0 < d <= i <= |written| && BytesOverlap(written, d) && Matched(written, d) == 0
    ensures Matched(written, i) == i - d
    decreases i
  {
    if i > d {
      MatchesOn(written, d, i - 1);
      assert written[(i - 1 - d) + d] == written[i - 1 - d];
    }
  }

  ghost predicate LeastOverlap(cd: Content, d: nat) {
    0 < d < |cd.pattern| && Overlaps(cd, d) && forall e: nat | 0 < e < d :: !Overlaps(cd, e)
  }

  /** The pattern is what was written, in capitals if case does not matter (ips_content.cc, lines 457 and 697-703). */
  predicate WrittenAs(cd: Content, written: bytes) {
    && |written| == |cd.pattern| && cd.matchDelta == MaxJump(written, 1, 0)
    && forall i | 0 <= i < |written| :: cd.pattern[i] == if cd.noCase then Upper(written[i]) else written[i]
  }

  /**
    The jump that configuration computes is safe if and only if the least overlap of the pattern, if there is one, is
    an overlap of the bytes as written, and the pass has nothing matched when it comes to it.  Otherwise the pass is in
    the middle of a match that will break, or takes two cases of a letter for different, and overlooks it.
   */
  lemma JumpIsSafeExactly(cd: Content, written: bytes)
    requires WrittenAs(cd, written)
    ensures SafeJump(cd) <==>
            forall d: nat | LeastOverlap(cd, d) :: BytesOverlap(written, d) && Matched(written, d) == 0
    ensures SafeJump(cd) ==> cd.matchDelta == |cd.pattern| || LeastOverlap(cd, cd.matchDelta)
  {
    JumpOverlaps(cd, written);
    forall d: nat | LeastOverlap(cd, d) && BytesOverlap(written, d) && Matched(written, d) == 0
      ensures cd.matchDelta == d
    {
      MatchesOn(written, d, |written|);
    }
    if !SafeJump(cd) {
      var d: nat :| 0 < d < cd.matchDelta && Overlaps(cd, d);
      var e := LeastBelow(cd, d);
    } else {
      forall d: nat | LeastOverlap(cd, d) ensures BytesOverlap(written, d) && Matched(written, d) == 0 {
        SafeStarts(cd, written, d);
      }
    }
  }

  lemma LeastBelow(cd: Content, d: nat) returns (e: nat)
    requires 0 < d < |cd.pattern| && Overlaps(cd, d)
    ensures e <= d && LeastOverlap(cd, e)
  {
    e := 1;
    while !Overlaps(cd, e)
      invariant 0 < e <= d && forall k: nat | 0 < k < e :: !Overlaps(cd, k)
      decreases d - e
    {
      e := e + 1;
    }
  }

  /** The jump is where the pattern overlaps itself as written, or its size. */
  lemma JumpOverlaps(cd: Content, written: bytes)
    requires WrittenAs(cd, written)
    ensures |written| > 1 ==> cd.matchDelta == |written| - Matched(written, |written|)
    ensures BytesOverlap(written, cd.matchDelta) && Overlaps(cd, cd.matchDelta)
  {
    PassYields(written, 1);
    forall k | 0 <= k < |written| - cd.matchDelta ensures written[k + cd.matchDelta] == written[k] {
      MatchedAgrees(written, |written|, k);
    }
  }

  /** A safe jump stops at the least overlap, and there its match begins. */
  lemma SafeStarts(cd: Content, written: bytes, d: nat)
    requires WrittenAs(cd, written) && SafeJump(cd) && LeastOverlap(cd, d)
    ensures cd.matchDelta == d && BytesOverlap(written, d) && Matched(written, d) == 0
  {
    JumpOverlaps(cd, written);
    assert cd.matchDelta <= d;
    BeganEmpty(written, |written|);
  }

  /** What is matched at `i` began where nothing was matched. */
  lemma {:induction false} BeganEmpty(pattern: bytes, i: nat)
    requires 0 < i <= |pattern|
    ensures Matched(pattern, i - Matched(pattern, i)) == 0
    decreases i
  {
    if Matched(pattern, i) > 0 {
      BeganEmpty(pattern, i - 1);
    }
  }

  /** So it is safe for patterns whose first byte does not come again before the least overlap. */
  lemma {:induction false} NoFalseStart(pattern: bytes, d: nat)
    requires d <= |pattern| && forall k | 0 < k < d :: pattern[k] != pattern[0]
    ensures Matched(pattern, d) == 0
  {
    if d > 1 {
      NoFalseStart(pattern, d - 1);
    }
  }

  /** Case is overlooked: `abAB`, if case does not matter, overlaps itself at distance two, and the jump is four. */
  lemma CaseIsOverlooked(cd: Content)
    requires WrittenAs(cd, "abAB") && cd.noCase
    ensures cd.matchDelta == 4 && Overlaps(cd, 2) && !SafeJump(cd)
  {
    assert MaxJump("abAB", 3, 0) == 4;
    assert cd.pattern == "ABAB";
    assert Overlaps(cd, 2);
  }

  /**
    The naive pass is not always safe: after a failed comparison it restarts without reconsidering the
    current byte, and so misses the overlap of `aabaaab` with itself at distance four.
   */
  lemma MaxJumpIsUnsafe(cd: Content)
    requires cd.pattern == "aabaaab" && cd.matchDelta == MaxJump(cd.pattern, 1, 0)
    ensures cd.matchDelta == 7 && Overlaps(cd, 4) && !SafeJump(cd)
  {
    var p := cd.pattern;
    assert MaxJump(p, 6, 0) == 7;
    assert MaxJump(p, 4, 1) == 7;
    assert MaxJump(p, 3, 0) == 7;
    assert Overlaps(cd, 4);
  }
}
