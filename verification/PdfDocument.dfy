/**
  Whole documents: the parser over everything that happens to it from the start of the file, that is bytes
  it consumes, streams decompressed behind its back and closed again, and alerts of the decoder
  (src/decompress/file_decomp_pdf.cc, lines 827-1144).
 */
module PdfDocument {
  import opened Basics
  import opened PdfFilter
  import opened PdfGrammar
  import opened PdfInvariant
  import opened PdfFilterName
  import opened ByteMachine
  import opened PdfStreaming

  /** The answers of `inflate` that the session tells apart. */
  datatype ZCode = Z_OK | Z_STREAM_END | Z_OTHER

  /**
    A byte copied through; a decoder initialised or not; bytes taken and made by it, with its answer; an alert; the
    end of its stream.
   */
  datatype Event =
    | Copied(c: byte) | Opened | Unready | Inflated(input: bytes, output: bytes, code: ZCode) | Alarmed | Closed

  function Begin(): Parser {
    Initial(Types(NONE, NONE, []))
  }

  function WithAlarm(p: Parser): Parser {
    p.(types := p.types.(alerts := p.types.alerts + [DEFL_FAILURE]))
  }

  /** What an event makes of the parser; None if it cannot happen there or the byte is rejected. */
  function After(p: Parser, e: Event): Option<Parser> {
    match e
    case Copied(c) =>
      if p.state != STREAM && Step(p, c).Ok? then Some(Step(p, c).p) else None
    case Opened => if p.state == STREAM then Some(p) else None
    case Unready => if p.state == STREAM then Some(p) else None
    case Inflated(_, _, _) => if p.state == STREAM then Some(p) else None
    case Alarmed => Some(WithAlarm(p))
    case Closed => if p.state == STREAM && CloseStream(p).Ok? then Some(CloseStream(p).p) else None
  }

  /** The parser after a document's events so far. */
  function Replay(log: seq<Event>): Option<Parser> {
    if log == [] then Some(Begin())
    else
      match Replay(log[..|log| - 1])
      case None => None
      case Some(p) => After(p, log[|log| - 1])
  }

  function Consumed(log: seq<Event>): bytes {
    if log == [] then []
    else
      Consumed(log[..|log| - 1]) +
      match log[|log| - 1]
      case Copied(c) => [c]
      case Inflated(input, _, _) => input
      case _ => []
  }

  function Produced(log: seq<Event>): bytes {
    if log == [] then []
    else
      Produced(log[..|log| - 1]) +
      match log[|log| - 1]
      case Copied(c) => [c]
      case Inflated(_, output, _) => output
      case _ => []
  }

  lemma Snoc(log: seq<Event>, e: Event)
    ensures (log + [e])[..|log|] == log
    ensures Replay(log + [e]) == if Replay(log).None? then None else After(Replay(log).value, e)
  {
  }

  lemma SnocBytes(log: seq<Event>, e: Event)
    ensures e.Copied? ==> Consumed(log + [e]) == Consumed(log) + [e.c] && Produced(log + [e]) == Produced(log) + [e.c]
    ensures e.Inflated? ==> Consumed(log + [e]) == Consumed(log) + e.input
    ensures e.Inflated? ==> Produced(log + [e]) == Produced(log) + e.output
    ensures !e.Copied? && !e.Inflated? ==> Consumed(log + [e]) == Consumed(log) && Produced(log + [e]) == Produced(log)
  {
    assert (log + [e])[..|log|] == log;
  }

  /** Every prefix of what can happen can happen. */
  lemma {:induction false} Prefix(log: seq<Event>, i: nat)
    requires Replay(log).Some? && i <= |log|
    ensures Replay(log[..i]).Some?
  {
    if i < |log| {
      Prefix(log[..|log| - 1], i);
      assert log[..|log| - 1][..i] == log[..i];
    } else {
      assert log[..i] == log;
    }
  }

  // ----- documents and byte machines -----

  function Copies(data: bytes): seq<Event> {
    seq(|data|, i requires 0 <= i < |data| => Copied(data[i]))
  }

  lemma AfterIsAdvance(p: Parser, c: byte)
    ensures After(p, Copied(c)) ==
            if p.state == STREAM || Advance(p, c).Reject? then None else Some(Advance(p, c).s)
  {
    hide Step;
  }

  /** Copying bytes through is running the byte machine on them. */
  lemma {:induction false} ReplayCopies(log: seq<Event>, data: bytes)
    requires Replay(log).Some?
    ensures Replay(log + Copies(data)) == Run(Pdf(), Replay(log).value, data)
  {
    hide After, Advance;
    if data == [] {
      assert log + Copies(data) == log;
    } else {
      var n := |data| - 1;
      ReplayCopies(log, data[..n]);
      assert log + Copies(data) == (log + Copies(data[..n])) + [Copied(data[n])];
      Snoc(log + Copies(data[..n]), Copied(data[n]));
      var before := Run(Pdf(), Replay(log).value, data[..n]);
      if before.Some? {
        AfterIsAdvance(before.value, data[n]);
      }
    }
  }

  // ----- the invariant of documents -----

  lemma CloseAgrees(p: Parser)
    requires Valid(p) && FilterAgrees(p) && p.state == STREAM
    ensures FilterAgrees(CloseStream(p).p)
  {
    CloseStreamKeeps(p);
  }

  lemma {:induction false} ReplayKeeps(log: seq<Event>)
    requires Replay(log).Some?
    ensures Valid(Replay(log).value) && FilterAgrees(Replay(log).value)
  {
    hide Valid, FilterAgrees, Step, CloseStream;
    if log == [] {
      BeginIsValid();
    } else {
      var n := |log| - 1;
      ReplayKeeps(log[..n]);
      EventKeeps(Replay(log[..n]).value, log[n]);
    }
  }

  lemma BeginIsValid()
    ensures Valid(Begin()) && FilterAgrees(Begin())
  {
    InitialIsValid(Types(NONE, NONE, []));
  }

  lemma EventKeeps(p: Parser, e: Event)
    requires Valid(p) && FilterAgrees(p) && After(p, e).Some?
    ensures Valid(After(p, e).value) && FilterAgrees(After(p, e).value)
  {
    hide Step, CloseStream;
    match e
    case Copied(c) =>
      StepKeeps(p, c);
      StepAgrees(p, c);
    case Alarmed => AlarmKeeps(p);
    case Closed =>
      CloseStreamKeeps(p);
      CloseAgrees(p);
    case _ =>
  }

  lemma AlarmKeeps(p: Parser)
    ensures Valid(p) ==> Valid(WithAlarm(p))
    ensures FilterAgrees(p) ==> FilterAgrees(WithAlarm(p))
    ensures Leaked(p) == Leaked(WithAlarm(p))
  {
  }

  // ----- xref blocks -----

  /** Number of xref blocks that end within a document. */
  function Xrefs(log: seq<Event>): nat {
    if log == [] then 0
    else
      var n := |log| - 1;
      var p := Replay(log[..n]);
      Xrefs(log[..n]) + if p.Some? && log[n].Copied? && EndsXref(p.value, log[n].c) then 1 else 0
  }

  lemma CloseLeaks(p: Parser)
    requires Valid(p) && p.state == STREAM
    ensures Leaked(CloseStream(p).p) == Leaked(p)
  {
    CloseStreamKeeps(p);
    var n := |p.stack| - 1;
    assert p.stack == p.stack[..n] + [p.stack[n]];
    GroundSnoc(p.stack[..n], p.stack[n]);
  }

  /** The stack never forgets an xref block, whatever streams lie between: ground entries count them. */
  lemma {:induction false} GroundCountsXrefs(log: seq<Event>)
    requires Replay(log).Some?
    ensures Leaked(Replay(log).value) == Xrefs(log)
    ensures Replay(log).value.state == START ==> |Replay(log).value.stack| == Xrefs(log)
  {
    hide Valid, Step, Leaked, CloseStream;
    if log == [] {
      NothingLeaked();
    } else {
      var n := |log| - 1;
      GroundCountsXrefs(log[..n]);
      ReplayKeeps(log[..n]);
      LeakedByEvent(Replay(log[..n]).value, log[n]);
    }
    ReplayKeeps(log);
    AtGround(Replay(log).value);
  }

  lemma NothingLeaked()
    ensures Leaked(Begin()) == 0
  {
  }

  lemma AtGround(p: Parser)
    requires Valid(p)
    ensures p.state == START ==> |p.stack| == Leaked(p)
  {
    if p.state == START {
      AllGround(p.stack);
    }
  }

  lemma LeakedByEvent(p: Parser, e: Event)
    requires Valid(p) && After(p, e).Some?
    ensures Leaked(After(p, e).value) ==
            Leaked(p) + if e.Copied? && EndsXref(p, e.c) then 1 else 0
  {
    hide Step, CloseStream, Valid, Leaked;
    match e
    case Copied(c) => LeakedByStep(p, c);
    case Alarmed => AlarmKeeps(p);
    case Closed => CloseLeaks(p);
    case _ =>
  }

  /** No document has more than eleven xref blocks, and after eleven nothing more opens at ground level. */
  lemma XrefLimit(log: seq<Event>, c: byte)
    requires Replay(log).Some?
    ensures Xrefs(log) <= PARSE_STACK_LEN - 1
    ensures Replay(log).value.state == START && Xrefs(log) == PARSE_STACK_LEN - 1 && !IsWhitespace(c) && c != '%'
            ==> Replay(log + [Copied(c)]).None?
  {
    GroundCountsXrefs(log);
    ReplayKeeps(log);
    var p := Replay(log).value;
    LeakedBound(p);
    Snoc(log, Copied(c));
    if p.state != STREAM { RejectsExactly(p, c); }
  }

  // ----- what precedes a stream -----

  /** The bytes copied since the last stream was closed, or since the start of the file. */
  function Since(log: seq<Event>): bytes {
    if log == [] then []
    else
      match log[|log| - 1]
      case Copied(c) => Since(log[..|log| - 1]) + [c]
      case Closed => []
      case _ => Since(log[..|log| - 1])
  }

  /** A dictionary that is about to close has just seen the first of its two closing brackets. */
  lemma {:induction false} CloseHistory(log: seq<Event>)
    requires Replay(log).Some?
    requires Replay(log).value.state == DICT_OBJECT && Replay(log).value.sub == DICT_CLOSE_TOK
    ensures Since(log) != [] && Since(log)[|Since(log)| - 1] == '>'
  {
    var n := |log| - 1;
    var q := Replay(log[..n]).value;
    ReplayKeeps(log[..n]);
    match log[n]
    case Copied(c) => EntersHeader(q, c);
    case Alarmed => CloseHistory(log[..n]);
    case Closed => CloseStreamKeeps(q); assert false;
    case _ => assert false;
  }

  /** The bytes of the dictionary that the parser is in or has just left, nested ones included. */
  function DictBytes(log: seq<Event>): bytes {
    if log == [] then []
    else
      var front := log[..|log| - 1];
      match log[|log| - 1]
      case Copied(c) =>
        if Replay(front).Some? && Replay(front).value.state == DICT_OBJECT then DictBytes(front) + [c] else []
      case Alarmed => DictBytes(front)
      case _ => []
  }

  /** In every document the buffered specification was read behind the name in the dictionary at hand. */
  lemma {:induction false} DictHistory(log: seq<Event>)
    requires Replay(log).Some? && Replay(log).value.state == DICT_OBJECT
    ensures Knows(Replay(log).value, DictBytes(log))
  {
    hide Valid, Knows, StepDict, CloseStream;
    var n := |log| - 1;
    var q := Replay(log[..n]).value;
    ReplayKeeps(log[..n]);
    match log[n]
    case Copied(c) =>
      if q.state == DICT_OBJECT {
        DictHistory(log[..n]);
        DictKnows(q, DictBytes(log[..n]), c);
      } else {
        OpensUnread(q, c);
      }
    case Alarmed =>
      DictHistory(log[..n]);
      AlarmKnows(q, DictBytes(log));
    case Closed => CloseStreamKeeps(q); assert false;
    case _ => assert false;
  }

  lemma AlarmKnows(p: Parser, w: bytes)
    requires Knows(p, w)
    ensures Knows(WithAlarm(p), w)
  {
  }

  /** In every document a dictionary that opens with `<<ter` has its name read. */
  lemma StaleNamePasses(log: seq<Event>)
    requires Replay(log).Some? && Replay(log).value.state == DICT_OBJECT && Replay(log).value.sub == DICT_OPEN
    ensures Replay(log + [Copied('<')] + [Copied('<')] + [Copied('t')] + [Copied('e')] + [Copied('r')]) ==
            Some(Replay(log).value.(sub := DICT_FILTER, nesting := 1, elem := 6))
  {
    hide Step, Valid, Behind, PartlyNamed;
    var p := Replay(log).value;
    DictHistory(log);
    StaleSteps(p);
    var l1 := log + [Copied('<')];
    var l2 := l1 + [Copied('<')];
    var l3 := l2 + [Copied('t')];
    var l4 := l3 + [Copied('e')];
    Snoc(log, Copied('<'));
    Snoc(l1, Copied('<'));
    Snoc(l2, Copied('t'));
    Snoc(l3, Copied('e'));
    Snoc(l4, Copied('r'));
  }

  /**
    The document has just closed a dictionary that may be followed by a stream, with an accepted filter that was
    read behind its name in this dictionary.
   */
  ghost predicate DictClosed(log: seq<Event>) {
    && Replay(log).Some? && InHeader(Replay(log).value) && Accepted(Replay(log).value.spec)
    && Behind(DictBytes(log), Replay(log).value.spec)
    && |Since(log)| >= 2 && Since(log)[|Since(log)| - 2..] == ">>"
  }

  /** An empty specification selects nothing. */
  lemma NothingIsRefused(spec: bytes)
    requires Accepted(spec)
    ensures spec != []
  {
  }

  lemma ClosesKnown(log: seq<Event>, q: Parser)
    requires Replay(log) == Some(q) && q.state == DICT_OBJECT
    requires Replay(log + [Copied('>')]).Some? && Accepted(Replay(log + [Copied('>')]).value.spec)
    ensures Behind(DictBytes(log + [Copied('>')]), Replay(log + [Copied('>')]).value.spec)
  {
    hide Valid, StepDict, Accepted, Behind, Replay;
    var more := log + [Copied('>')];
    Snoc(log, Copied('>'));
    assert DictBytes(more) == DictBytes(log) + ['>'];
    DictHistory(log);
    ReplayKeeps(log);
    DictKnows(q, DictBytes(log), '>');
    NothingIsRefused(Replay(more).value.spec);
  }

  lemma HeaderIsAccepted(p: Parser)
    requires Valid(p) && FilterAgrees(p) && InHeader(p)
    ensures Accepted(p.spec)
  {
  }

  lemma DictCloses(log: seq<Event>, q: Parser)
    requires Replay(log) == Some(q) && q.state == DICT_OBJECT && q.sub == DICT_CLOSE_TOK
    requires Replay(log + [Copied('>')]).Some? && InHeader(Replay(log + [Copied('>')]).value)
    ensures DictClosed(log + [Copied('>')])
  {
    hide Valid, Accepted, Behind, DictBytes, Step;
    var more := log + [Copied('>')];
    CloseHistory(log);
    ReplayKeeps(more);
    HeaderIsAccepted(Replay(more).value);
    assert more[..|log|] == log;
    ClosesKnown(log, q);
    assert Since(more) == Since(log) + ['>'];
  }

  /** In the header of a stream: a closed dictionary, a gap, and as much of the header as the sub-state says. */
  lemma {:induction false} HeaderHistory(log: seq<Event>) returns (k: nat, gap: bytes)
    requires Replay(log).Some? && InHeader(Replay(log).value)
    ensures k <= |log| && DictClosed(log[..k]) && Gap(gap)
    ensures Since(log) == Since(log[..k]) + gap + HeaderSoFar(Replay(log).value)
  {
    hide Valid, DictClosed, Step, Gap, HeaderSoFar, CloseStream;
    var n := |log| - 1;
    var q, p := Replay(log[..n]).value, Replay(log).value;
    ReplayKeeps(log[..n]);
    match log[n]
    case Copied(c) =>
      EntersHeader(q, c);
      if q.state == DICT_OBJECT {
        k, gap := |log|, [];
        assert log[..k] == log;
        assert log == log[..n] + [Copied('>')];
        DictCloses(log[..n], q);
        FreshHeader(p);
      } else {
        k, gap := HeaderHistory(log[..n]);
        assert log[..n][..k] == log[..k];
        gap := HeaderExtends(Since(log[..k]), gap, q, c, p);
      }
    case Alarmed =>
      k, gap := HeaderHistory(log[..n]);
      assert log[..n][..k] == log[..k];
      SameHeader(q);
    case Closed => CloseStreamKeeps(q); assert false;
    case _ => assert false;
  }

  lemma FreshHeader(p: Parser)
    requires InHeader(p) && p.sub == STREAM_TOKEN && p.elem == 0
    ensures Gap([]) && HeaderSoFar(p) == []
  {
  }

  lemma SameHeader(p: Parser)
    requires InHeader(p)
    ensures InHeader(WithAlarm(p)) && HeaderSoFar(WithAlarm(p)) == HeaderSoFar(p)
  {
  }

  lemma LineEnd(front: bytes, gap: bytes, q: Parser) returns (eol: bytes)
    requires InHeader(q) && q.sub != STREAM_TOKEN
    ensures eol == "\n" || eol == "\r\n"
    ensures (front + gap + HeaderSoFar(q)) + ['\n'] == front + gap + "stream" + eol
  {
    eol := if q.sub == STREAM_EOL then "\n" else "\r\n";
    assert HeaderSoFar(q) + ['\n'] == "stream" + eol;
  }

  /**
    At every stream of a document, not only the first, the bytes copied since the previous one end in the
    close of a dictionary with an accepted filter, a gap of white space and abandoned beginnings of the
    keyword, `stream`, and LF or CR LF, as section 7.3.8 of ISO 32000-1 requires.
   */
  lemma {:induction false} StreamHeader(log: seq<Event>) returns (k: nat, gap: bytes, eol: bytes)
    requires Replay(log).Some? && Replay(log).value.state == STREAM
    ensures k <= |log| && DictClosed(log[..k]) && Gap(gap) && (eol == "\n" || eol == "\r\n")
    ensures Since(log) == Since(log[..k]) + gap + "stream" + eol
  {
    hide Valid, DictClosed, Step, Gap, CloseStream, HeaderSoFar;
    var n := |log| - 1;
    var q := Replay(log[..n]).value;
    ReplayKeeps(log[..n]);
    match log[n]
    case Copied(c) =>
      EntersHeader(q, c);
      k, gap := HeaderHistory(log[..n]);
      assert log[..n][..k] == log[..k];
      eol := LineEnd(Since(log[..k]), gap, q);
    case Alarmed =>
      k, gap, eol := StreamHeader(log[..n]);
      assert log[..n][..k] == log[..k];
    case Closed => CloseStreamKeeps(q); assert false;
    case _ =>
      k, gap, eol := StreamHeader(log[..n]);
      assert log[..n][..k] == log[..k];
  }

  /** Whatever the decoder is given lies behind such a header. */
  lemma InflatedHasHeader(log: seq<Event>, i: nat) returns (k: nat, gap: bytes, eol: bytes)
    requires Replay(log).Some? && i < |log| && log[i].Inflated?
    ensures k <= i && DictClosed(log[..k]) && Gap(gap) && (eol == "\n" || eol == "\r\n")
    ensures Since(log[..i]) == Since(log[..k]) + gap + "stream" + eol
  {
    hide Valid, DictClosed, Step, Gap, CloseStream, Since;
    Prefix(log, i + 1);
    assert log[..i + 1][..i] == log[..i];
    k, gap, eol := StreamHeader(log[..i]);
    assert log[..i][..k] == log[..k];
  }
}
