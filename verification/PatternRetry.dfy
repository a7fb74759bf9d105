/**
  When a retried pattern ends (src/ips_options/ips_pcre.cc, lines 550-599; src/ips_options/ips_regex.cc,
  lines 167-199).  The evaluator retries a pattern behind its last match as long as it matches and children
  are unfinished, so the loop ends only if some search fails.  The search engines are any functions.
 */
module PatternRetry {
  import opened Basics
  import opened ContentSearch
  import opened OptionTree

  // ----- turns of the retry loop -----

  /** The cursor after `k` matches in a row; None once a search has failed. */
  function Turns(step: Cursor -> Option<Cursor>, c: Cursor, k: nat): Option<Cursor> {
    if k == 0 then Some(c)
    else
      match Turns(step, c, k - 1)
      case None => None
      case Some(b) => step(b)
  }

  ghost predicate Ends(step: Cursor -> Option<Cursor>, c: Cursor) {
    exists k: nat :: Turns(step, c, k).None?
  }

  lemma {:induction false} EarlierTurn(step: Cursor -> Option<Cursor>, c: Cursor, j: nat, k: nat)
    requires j <= k && Turns(step, c, k).Some?
    ensures Turns(step, c, j).Some?
  {
    if j < k {
      EarlierTurn(step, c, j, k - 1);
    }
  }

  lemma {:induction false} TurnsAdd(step: Cursor -> Option<Cursor>, c: Cursor, i: nat, m: nat)
    requires Turns(step, c, i).Some?
    ensures Turns(step, c, i + m) == Turns(step, Turns(step, c, i).value, m)
  {
    if m > 0 {
      TurnsAdd(step, c, i, m - 1);
    }
  }

  /** A cursor that comes back comes back for ever. */
  lemma {:induction false} RepeatsForever(step: Cursor -> Option<Cursor>, c: Cursor, i: nat, j: nat, k: nat)
    requires i < j && Turns(step, c, i).Some? && Turns(step, c, j) == Turns(step, c, i)
    ensures Turns(step, c, k).Some?
    decreases k
  {
    if k <= j {
      EarlierTurn(step, c, k, j);
    } else {
      RepeatsForever(step, c, i, j, i + (k - j));
      TurnsAdd(step, c, i, k - j);
      TurnsAdd(step, c, j, k - j);
    }
  }

  // ----- pcre -----

  datatype Pcre = Pcre(relative: bool, inverted: bool, anchored: bool)

  /** Where the match ends, counted from the start of the subject; no match; or an error. */
  datatype Hit = Found(end: nat) | Absent | Broken

  /** `search(adj, start)` looks from `start` on in the buffer without its first `adj` bytes. */
  ghost predicate Sound(search: (nat, nat) -> Hit, size: nat) {
    forall adj: nat, start: nat | adj + start <= size && search(adj, start).Found? ::
      start <= search(adj, start).end <= size - adj
  }

  function Adjust(p: Pcre, c: Cursor): nat {
    if c.delta == 0 && p.relative then c.pos else 0
  }

  function PcreEval(p: Pcre, search: (nat, nat) -> Hit, size: nat, c: Cursor): Searched {
    if c.delta > size then Searched(NO_MATCH, c)
    else
      match search(Adjust(p, c), c.delta)
      case Found(end) =>
        if p.inverted then Searched(NO_MATCH, c)
        else Searched(MATCH, if end > 0 then c.(pos := end, delta := end) else c)
      case Absent => Searched(if p.inverted then MATCH else NO_MATCH, c)
      case Broken => Searched(NO_MATCH, c)
  }

  predicate PcreRetry(p: Pcre) {
    !p.inverted && !p.anchored
  }

  function PcreStep(p: Pcre, search: (nat, nat) -> Hit, size: nat): Cursor -> Option<Cursor> {
    (c: Cursor) => var r := PcreEval(p, search, size, c); if r.status == MATCH then Some(r.cursor) else None
  }

  /** The match found from here is empty and right here. */
  predicate EmptyHere(p: Pcre, search: (nat, nat) -> Hit, size: nat, c: Cursor) {
    c.delta <= size && search(Adjust(p, c), c.delta) == Found(c.delta)
  }

  /** Matches that are not empty move the cursor forward inside the buffer, as the evaluator needs. */
  lemma PcreAdvances(p: Pcre, search: (nat, nat) -> Hit, size: nat, c: Cursor)
    requires Sound(search, size) && c.pos <= size && PcreRetry(p) && !EmptyHere(p, search, size, c)
    ensures var r := PcreEval(p, search, size, c);
            r.status == MATCH ==> c.delta < r.cursor.delta == r.cursor.pos <= size && r.cursor.buf == c.buf
  {
  }

  lemma StepAdvances(p: Pcre, search: (nat, nat) -> Hit, size: nat, c: Cursor)
    requires Sound(search, size) && c.pos <= size && PcreRetry(p) && !EmptyHere(p, search, size, c)
    ensures var b := PcreStep(p, search, size)(c); b.Some? ==> c.delta < b.value.delta == b.value.pos <= size
  {
    hide Sound, EmptyHere, PcreEval;
    PcreAdvances(p, search, size, c);
  }

  lemma {:induction false} TurnsAdvance(p: Pcre, search: (nat, nat) -> Hit, size: nat, c: Cursor, k: nat)
    requires Sound(search, size) && c.pos <= size && c.delta == 0 && PcreRetry(p)
    requires forall j: nat | j < k && Turns(PcreStep(p, search, size), c, j).Some? ::
               !EmptyHere(p, search, size, Turns(PcreStep(p, search, size), c, j).value)
    ensures var b := Turns(PcreStep(p, search, size), c, k);
            b.Some? ==> k <= b.value.delta && (k > 0 ==> b.value.delta <= size) && b.value.pos <= size
  {
    hide PcreStep, EmptyHere, Sound;
    if k > 0 {
      TurnsAdvance(p, search, size, c, k - 1);
      var b := Turns(PcreStep(p, search, size), c, k - 1);
      if b.Some? {
        StepAdvances(p, search, size, b.value);
      }
    }
  }

  lemma OneStep(p: Pcre, search: (nat, nat) -> Hit, size: nat, c: Cursor)
    requires PcreRetry(p) && (c.delta > 0 ==> c.pos == c.delta)
    ensures var b := PcreStep(p, search, size)(c);
            && (b.Some? && b.value.delta > 0 ==> b.value.pos == b.value.delta)
            && (EmptyHere(p, search, size, c) ==> b == Some(c))
  {
  }

  lemma {:induction false} TurnsInStep(p: Pcre, search: (nat, nat) -> Hit, size: nat, c: Cursor, k: nat)
    requires c.delta == 0 && PcreRetry(p)
    ensures var b := Turns(PcreStep(p, search, size), c, k);
            b.Some? && b.value.delta > 0 ==> b.value.pos == b.value.delta
  {
    hide PcreStep;
    if k > 0 {
      TurnsInStep(p, search, size, c, k - 1);
      var b := Turns(PcreStep(p, search, size), c, k - 1);
      if b.Some? {
        OneStep(p, search, size, b.value);
      }
    }
  }

  /**
    A retried pcre whose children stay unfinished ends if and only if no search of the loop finds an empty
    match where it starts: such a match leaves the cursor where it is, and the same search follows.
   */
  lemma PcreEnds(p: Pcre, search: (nat, nat) -> Hit, size: nat, c: Cursor)
    requires Sound(search, size) && c.pos <= size && c.delta == 0 && PcreRetry(p)
    ensures Ends(PcreStep(p, search, size), c) <==>
            forall k: nat | Turns(PcreStep(p, search, size), c, k).Some? ::
              !EmptyHere(p, search, size, Turns(PcreStep(p, search, size), c, k).value)
  {
    hide PcreStep, EmptyHere, Sound;
    var step := PcreStep(p, search, size);
    if k: nat :| Turns(step, c, k).Some? && EmptyHere(p, search, size, Turns(step, c, k).value) {
      TurnsInStep(p, search, size, c, k);
      OneStep(p, search, size, Turns(step, c, k).value);
      assert Turns(step, c, k + 1) == Turns(step, c, k);
      forall m: nat ensures Turns(step, c, m).Some? { RepeatsForever(step, c, k, k + 1, m); }
    } else {
      TurnsAdvance(p, search, size, c, size + 1);
      assert Turns(step, c, size + 1).None?;
    }
  }

  /** A search that finds an empty match where it starts is repeated for ever. */
  lemma PcreSpins(p: Pcre, search: (nat, nat) -> Hit, size: nat, c: Cursor)
    requires Sound(search, size) && c.pos <= size && c.delta == 0 && PcreRetry(p)
    requires search(Adjust(p, c), 0) == Found(0)
    ensures !Ends(PcreStep(p, search, size), c)
  {
    hide PcreStep;
    PcreEnds(p, search, size, c);
    assert Turns(PcreStep(p, search, size), c, 0) == Some(c);
  }

  // ----- regex -----

  /** `scan(pos)` is where the first match behind `pos` ends, counted from `pos`; it is not zero. */
  ghost predicate ScanSound(scan: nat -> Option<nat>, size: nat) {
    forall pos: nat | pos <= size && scan(pos).Some? :: 0 < scan(pos).value <= size - pos
  }

  /** A regex that is not relative, as only those are retried; the offset found is taken as a position. */
  function RegexStep(scan: nat -> Option<nat>, size: nat): Cursor -> Option<Cursor> {
    (c: Cursor) =>
      if c.delta > size then None
      else
        match scan(c.delta)
        case None => None
        case Some(to) => Some(c.(pos := to, delta := to))
  }

  /** Every match found from a position has an offset behind that position. */
  ghost predicate Forward(scan: nat -> Option<nat>, size: nat) {
    forall at: nat | at <= size && scan(at).Some? :: at < scan(at).value
  }

  lemma {:induction false} RegexAdvances(scan: nat -> Option<nat>, size: nat, c: Cursor, k: nat)
    requires ScanSound(scan, size) && Forward(scan, size)
    ensures var b := Turns(RegexStep(scan, size), c, k);
            b.Some? ==> k <= b.value.delta && (k > 0 ==> b.value.delta <= size)
  {
    if k > 0 {
      RegexAdvances(scan, size, c, k - 1);
    }
  }

  /** A retried regex ends from every cursor if its offsets grow. */
  lemma RegexForwardEnds(scan: nat -> Option<nat>, size: nat, c: Cursor)
    requires ScanSound(scan, size) && Forward(scan, size)
    ensures Ends(RegexStep(scan, size), c)
  {
    RegexAdvances(scan, size, c, size + 1);
    assert Turns(RegexStep(scan, size), c, size + 1).None?;
  }

  /** Positions from which every search succeeds and leads to another of them. */
  ghost predicate Closed(scan: nat -> Option<nat>, size: nat, s: set<nat>) {
    forall at | at in s :: at <= size && scan(at).Some? && scan(at).value in s
  }

  lemma {:induction false} StaysClosed(scan: nat -> Option<nat>, size: nat, c: Cursor, s: set<nat>, k: nat)
    requires Closed(scan, size, s) && c.delta in s
    ensures var b := Turns(RegexStep(scan, size), c, k); b.Some? && b.value.delta in s
  {
    if k > 0 {
      StaysClosed(scan, size, c, s, k - 1);
    }
  }

  ghost predicate Visits(step: Cursor -> Option<Cursor>, c: Cursor, at: nat) {
    exists k: nat :: Turns(step, c, k).Some? && Turns(step, c, k).value.delta == at
  }

  lemma VisitedNext(scan: nat -> Option<nat>, size: nat, c: Cursor, at: nat)
    requires !Ends(RegexStep(scan, size), c) && Visits(RegexStep(scan, size), c, at)
    ensures at <= size && scan(at).Some? && Visits(RegexStep(scan, size), c, scan(at).value)
  {
    var step := RegexStep(scan, size);
    var k: nat :| Turns(step, c, k).Some? && Turns(step, c, k).value.delta == at;
    assert Turns(step, c, k + 1).Some?;
  }

  /**
    A retried regex whose children stay unfinished never ends if and only if the position where it starts lies
    in a closed set of positions.
   */
  lemma RegexNeverEnds(scan: nat -> Option<nat>, size: nat, c: Cursor)
    ensures !Ends(RegexStep(scan, size), c) <==> exists s: set<nat> :: c.delta in s && Closed(scan, size, s)
  {
    var step := RegexStep(scan, size);
    if s: set<nat> :| c.delta in s && Closed(scan, size, s) {
      forall k: nat ensures Turns(step, c, k).Some? { StaysClosed(scan, size, c, s, k); }
    } else if !Ends(step, c) {
      var s := set at: nat | at <= size && Visits(step, c, at);
      forall at: nat | Visits(step, c, at) ensures at in s && scan(at).Some? && scan(at).value in s {
        VisitedNext(scan, size, c, at);
        VisitedNext(scan, size, c, scan(at).value);
      }
      assert Turns(step, c, 0) == Some(c);
      assert Visits(step, c, c.delta);
      assert Closed(scan, size, s);
    }
  }

  /** Two adjacent matches of one byte are enough: the offset of the second is its own position. */
  lemma RegexSpins(scan: nat -> Option<nat>, size: nat, c: Cursor)
    requires c.delta == 0 && size >= 1
    requires scan(0) == Some(1) && scan(1) == Some(1)
    ensures !Ends(RegexStep(scan, size), c)
  {
    assert Closed(scan, size, {0, 1});
    RegexNeverEnds(scan, size, c);
  }

  // ----- what this means for the evaluator -----

  /** How the retry loop of an option goes on while the rule variables stay as they are. */
  ghost function LoopStep(e: Context, option: nat, vars: seq<nat>): Cursor -> Option<Cursor> {
    (c: Cursor) =>
      var a := e.answer(option, c, vars);
      if a.status == MATCH && e.retry(option, a.cursor) then Some(a.cursor) else None
  }

  /** Answers that do not depend on rule variables, as those of pcre and regex. */
  ghost predicate IgnoresVars(e: Context) {
    forall option, c, vars, vars' ::
      && e.answer(option, c, vars).status == e.answer(option, c, vars').status
      && e.answer(option, c, vars).cursor == e.answer(option, c, vars').cursor
  }

  /** The first turn that fails, given one that does. */
  function FirstFailure(step: Cursor -> Option<Cursor>, c: Cursor, k: nat): (r: nat)
    requires Turns(step, c, k).None?
    ensures r <= k && Turns(step, c, r).None? && forall j: nat | j < r :: Turns(step, c, j).Some?
  {
    if Turns(step, c, k - 1).None? then FirstFailure(step, c, k - 1)
    else
      assert forall j: nat | j < k :: Turns(step, c, j).Some? by {
        forall j: nat | j < k ensures Turns(step, c, j).Some? { EarlierTurn(step, c, j, k - 1); }
      }
      k
  }

  ghost function TurnsLeft(step: Cursor -> Option<Cursor>, c: Cursor): (r: nat)
    ensures Ends(step, c) ==> Turns(step, c, r).None? && forall j: nat | j < r :: Turns(step, c, j).Some?
  {
    if Ends(step, c) then
      var k: nat :| Turns(step, c, k).None?;
      FirstFailure(step, c, k)
    else 0
  }

  /** A turn leaves one turn less. */
  lemma OneTurnLess(step: Cursor -> Option<Cursor>, c: Cursor)
    requires step(c).Some? && Ends(step, c) && Ends(step, step(c).value)
    ensures TurnsLeft(step, step(c).value) < TurnsLeft(step, c)
  {
    var b, n := step(c).value, TurnsLeft(step, c);
    assert Turns(step, c, 0) == Some(c);
    assert Turns(step, c, 1) == Some(b);
    TurnsAdd(step, c, 1, n - 1);
  }

  /** A measure that every turn lowers bounds the turns. */
  lemma {:induction false} MeasureBounds(step: Cursor -> Option<Cursor>, left: Cursor -> nat, c: Cursor, k: nat)
    requires forall b | step(b).Some? :: left(step(b).value) < left(b)
    ensures var b := Turns(step, c, k); b.Some? ==> left(b.value) + k <= left(c)
  {
    if k > 0 {
      MeasureBounds(step, left, c, k - 1);
    }
  }

  lemma LowersAdvances(e: Context, left: (nat, Cursor) -> nat)
    requires forall option: nat, c, vars | LoopStep(e, option, vars)(c).Some? ::
               left(option, LoopStep(e, option, vars)(c).value) < left(option, c)
    ensures Advances(e.(left := left))
  {
    var e' := e.(left := left);
    forall option: nat, c, vars
      ensures var a := e'.answer(option, c, vars);
              a.status == MATCH && e'.retry(option, a.cursor) ==> left(option, a.cursor) < left(option, c)
    {
      assert LoopStep(e, option, vars)(c).Some? ==>
          left(option, LoopStep(e, option, vars)(c).value) < left(option, c);
    }
  }

  lemma AdvancesEnds(e: Context, option: nat, c: Cursor)
    requires Advances(e)
    ensures Ends(LoopStep(e, option, []), c)
  {
    var step, left := LoopStep(e, option, []), (b: Cursor) => e.left(option, b);
    forall b | step(b).Some? ensures left(step(b).value) < left(b) {
      assert e.answer(option, b, []).cursor == step(b).value;
    }
    MeasureBounds(step, left, c, left(c) + 1);
    assert Turns(step, c, left(c) + 1).None?;
  }

  /**
    The evaluator's contexts are exactly those in which every retry loop ends: there is a measure that retried
    matches lower if and only if no loop of any option goes on for ever from any cursor.
   */
  lemma MeasureIfEnds(e: Context)
    requires IgnoresVars(e)
    ensures (exists left :: Advances(e.(left := left))) <==> forall option, c :: Ends(LoopStep(e, option, []), c)
  {
    if left :| Advances(e.(left := left)) {
      forall option, c ensures Ends(LoopStep(e, option, []), c) { AdvancesEnds(e.(left := left), option, c); }
    }
    if forall option, c :: Ends(LoopStep(e, option, []), c) {
      var left := (option: nat, c: Cursor) => TurnsLeft(LoopStep(e, option, []), c);
      forall option: nat, c, vars | LoopStep(e, option, vars)(c).Some?
        ensures left(option, LoopStep(e, option, vars)(c).value) < left(option, c)
      {
        assert LoopStep(e, option, vars)(c) == LoopStep(e, option, [])(c);
        OneTurnLess(LoopStep(e, option, []), c);
      }
      LowersAdvances(e, left);
    }
  }

  datatype Pattern = PcrePattern(p: Pcre, search: (nat, nat) -> Hit) | RegexPattern(scan: nat -> Option<nat>)

  function PatternStep(pattern: Pattern, size: nat): Cursor -> Option<Cursor> {
    match pattern
    case PcrePattern(p, search) => PcreStep(p, search, size)
    case RegexPattern(scan) => RegexStep(scan, size)
  }

  /** No search finds an empty match where it starts, or an offset that is not behind its position. */
  ghost predicate Progresses(pattern: Pattern, size: nat) {
    match pattern
    case PcrePattern(p, search) => PcreRetry(p) && Sound(search, size) && forall c :: !EmptyHere(p, search, size, c)
    case RegexPattern(scan) => ScanSound(scan, size) && Forward(scan, size)
  }

  /** Retried matches are those of patterns, one for each option and buffer. */
  ghost predicate Answers(e: Context, patterns: (nat, nat) -> Pattern) {
    forall option, c, vars | LoopStep(e, option, vars)(c).Some? ::
      LoopStep(e, option, vars)(c) == PatternStep(patterns(option, c.buf), |e.bufs(c.buf)|)(c)
  }

  lemma ProgressLowers(pattern: Pattern, buf: bytes, c: Cursor)
    requires Progresses(pattern, |buf|) && PatternStep(pattern, |buf|)(c).Some?
    ensures var b := PatternStep(pattern, |buf|)(c).value; b.buf == c.buf && Left(buf, b) < Left(buf, c)
  {
    if pattern.PcrePattern? {
      assert !EmptyHere(pattern.p, pattern.search, |buf|, c);
    }
  }

  /** What is left of the buffer behind the cursor. */
  function BufferLeft(e: Context): (nat, Cursor) -> nat {
    (_: nat, c: Cursor) => Left(e.bufs(c.buf), c)
  }

  /** Patterns that progress have a measure, so the evaluator's results hold of them. */
  lemma ProgressAdvances(e: Context, patterns: (nat, nat) -> Pattern)
    requires Answers(e, patterns)
    requires forall option, buf :: Progresses(patterns(option, buf), |e.bufs(buf)|)
    ensures Advances(e.(left := BufferLeft(e)))
  {
    forall option: nat, c, vars | LoopStep(e, option, vars)(c).Some?
      ensures BufferLeft(e)(option, LoopStep(e, option, vars)(c).value) < BufferLeft(e)(option, c)
    {
      ProgressLowers(patterns(option, c.buf), e.bufs(c.buf), c);
    }
    LowersAdvances(e, BufferLeft(e));
  }
}
