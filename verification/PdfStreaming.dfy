/**
  The PDF parser as a byte machine, and what single steps say about xref blocks, filters and the
  header of a stream.  Whole documents are in PdfDocument.dfy.
 */
module PdfStreaming {
  import opened Basics
  import opened PdfFilter
  import opened PdfGrammar
  import opened PdfInvariant
  import opened ByteMachine

  /** The parser as a byte machine: it halts at a stream; a rejection keeps the alerts raised on the way. */
  function Advance(p: Parser, c: byte): Move<Parser> {
    if p.state == STREAM then Reject(p)
    else
      match Step(p, c)
      case Ok(q) => Next(q)
      case Fail(a) => Reject(p.(types := p.types.(alerts := a)))
  }

  function Pdf(): Machine<Parser> {
    Machine((p: Parser) => p.state == STREAM, Advance)
  }

  /** Every state of every run is valid. */
  lemma ReachableIsValid(p: Parser, input: bytes)
    requires Valid(p)
    ensures Run(Pdf(), p, input).Some? ==> Valid(Run(Pdf(), p, input).value)
  {
    forall t, c | Valid(t) && t.state != STREAM && Advance(t, c).Next?
      ensures Valid(Advance(t, c).s)
    {
      StepKeeps(t, c);
    }
    RunKeeps(Pdf(), Valid, p, input);
  }

  lemma GroundAtMostLength(stack: seq<Entry>)
    ensures GroundEntries(stack) <= |stack|
  {}

  lemma LeakedBound(p: Parser)
    requires Valid(p)
    ensures Leaked(p) <= PARSE_STACK_LEN - 1
  {
    GroundAtMostLength(p.stack);
  }

  // ----- the filter behind a decompression type -----

  ghost predicate Accepted(spec: bytes) {
    WellBracketed(spec) && FlateTail(Names(spec)) % 2 == 1
  }

  /** A selected type always comes from the whole of the buffered filter specification. */
  ghost predicate FilterAgrees(p: Parser) {
    p.types.session == DEFLATE && !(p.state == DICT_OBJECT && p.sub == DICT_FILTER) ==> Accepted(p.spec)
  }

  lemma DictFilterAgrees(p: Parser, c: byte)
    requires Valid(p) && FilterAgrees(p) && p.state == DICT_OBJECT
    ensures StepDict(p, c).Ok? ==> FilterAgrees(StepDict(p, c).p)
  {
    match p.sub {
      case DICT_OPEN =>
      case DICT_OPEN_TOK =>
      case DICT_SKIP =>
      case DICT_ACTIVE =>
      case DICT_FILTER => FilterMeaning(p.spec, p.types);
      case DICT_CLOSE_TOK => DictCloseKeeps(p, c); PopFromDict(p);
    }
  }

  lemma IndObjAgrees(p: Parser, c: byte)
    requires Valid(p) && FilterAgrees(p) && p.state == IND_OBJ
    ensures StepIndObj(p, c).Ok? ==> FilterAgrees(StepIndObj(p, c).p)
  {
    if p.sub == ENDOBJ_TOKEN { PopToGround(p); }
  }

  lemma StepAgrees(p: Parser, c: byte)
    requires Valid(p) && FilterAgrees(p) && p.state != STREAM
    ensures Step(p, c).Ok? ==> FilterAgrees(Step(p, c).p)
  {
    match p.state {
      case START =>
      case COMMENT =>
      case IND_OBJ => IndObjAgrees(p, c);
      case DICT_OBJECT => DictFilterAgrees(p, c);
      case XREF =>
    }
  }

  // ----- what precedes a stream -----

  predicate InHeader(p: Parser) {
    p.state == IND_OBJ && p.sub in {STREAM_TOKEN, STREAM_EOL, STREAM_LF}
  }

  /** A dictionary is left only into the object that contains it. */
  lemma LeavesDict(q: Parser, c: byte)
    requires Valid(q) && q.state == DICT_OBJECT && Step(q, c).Ok?
    ensures var p := Step(q, c).p;
            || p.state == DICT_OBJECT
            || (p.state == IND_OBJ && p.elem == 0 &&
                (p.sub == ENDOBJ_TOKEN || (p.sub == STREAM_TOKEN && q.sub == DICT_CLOSE_TOK && c == '>')))
    ensures var p := Step(q, c).p;
            p.state == DICT_OBJECT && p.sub == DICT_CLOSE_TOK ==> c == '>'
  {
    match q.sub {
      case DICT_OPEN => PopFromDict(q);
      case DICT_OPEN_TOK => PopFromDict(q);
      case DICT_SKIP =>
      case DICT_ACTIVE =>
      case DICT_FILTER =>
      case DICT_CLOSE_TOK => PopFromDict(q); PopFromDict(Pop(q).p);
    }
  }

  /** The ways into the sub-states between `>>` and the stream data. */
  predicate HeaderEntry(q: Parser, c: byte, p: Parser) {
    || (q.state == DICT_OBJECT && q.sub == DICT_CLOSE_TOK && c == '>' && p.sub == STREAM_TOKEN && p.elem == 0)
    || (InHeader(q) && q.sub == STREAM_TOKEN && q.elem < 6 && c == "stream"[q.elem] &&
        (if q.elem == 5 then p.sub == STREAM_EOL else p.sub == STREAM_TOKEN && p.elem == q.elem + 1))
    || (InHeader(q) && q.sub == STREAM_TOKEN && q.elem < 6 && IsWhitespace(c) && p.sub == STREAM_TOKEN && p.elem == 0)
    || (InHeader(q) && q.sub == STREAM_EOL && c == '\r' && p.sub == STREAM_LF)
  }

  predicate HeaderMove(q: Parser, c: byte, p: Parser) {
    && (p.state == DICT_OBJECT && p.sub == DICT_CLOSE_TOK ==> c == '>')
    && (p.state == STREAM ==> InHeader(q) && q.sub != STREAM_TOKEN && c == '\n')
    && (InHeader(p) ==> HeaderEntry(q, c, p))
  }

  lemma IndObjMoves(q: Parser, c: byte)
    requires Valid(q) && q.state == IND_OBJ && Step(q, c).Ok?
    ensures HeaderMove(q, c, Step(q, c).p)
  {
    match q.sub {
      case STREAM_TOKEN =>
      case STREAM_EOL =>
      case STREAM_LF =>
      case ENDOBJ_TOKEN => PopToGround(q);
      case _ =>
    }
  }

  lemma EntersHeader(q: Parser, c: byte)
    requires Valid(q) && q.state != STREAM && Step(q, c).Ok?
    ensures HeaderMove(q, c, Step(q, c).p)
  {
    match q.state {
      case START =>
      case COMMENT =>
      case IND_OBJ => IndObjMoves(q, c);
      case DICT_OBJECT => LeavesDict(q, c);
      case XREF =>
    }
  }

  /** White space, and beginnings of `stream` that white space cut short. */
  predicate Gap(gap: bytes) {
    && (forall i | 0 <= i < |gap| :: IsWhitespace(gap[i]) || gap[i] in "stream")
    && (gap != [] ==> IsWhitespace(gap[|gap| - 1]))
  }

  /** What of the header has been consumed in each of its sub-states. */
  function HeaderSoFar(p: Parser): string
    requires InHeader(p)
  {
    match p.sub
    case STREAM_TOKEN => if p.elem <= 6 then "stream"[..p.elem] else []
    case STREAM_EOL => "stream"
    case STREAM_LF => "stream\r"
    case _ => []
  }

  lemma HeaderGrows(q: Parser, c: byte, p: Parser)
    requires InHeader(q) && InHeader(p) && HeaderEntry(q, c, p)
    ensures HeaderSoFar(p) == HeaderSoFar(q) + [c] || (q.sub == STREAM_TOKEN && IsWhitespace(c) && HeaderSoFar(p) == [])
  {}

  lemma GapGrows(gap: bytes, part: bytes, c: byte)
    requires Gap(gap) && IsWhitespace(c)
    requires forall i | 0 <= i < |part| :: part[i] in "stream"
    ensures Gap(gap + part + [c])
  {}

  lemma ExtendHeader(a: string, h: string, c: char)
    ensures (a + h) + [c] == a + (h + [c])
  {}

  lemma ExtendGap(a: string, gap: string, h: string, c: char)
    ensures (a + gap + h) + [c] == a + (gap + h + [c]) + []
  {}

  /** One more byte of the header, or of the gap before it. */
  lemma HeaderExtends(front: bytes, gap: bytes, q: Parser, c: byte, p: Parser) returns (gap': bytes)
    requires InHeader(q) && InHeader(p) && HeaderEntry(q, c, p) && Gap(gap)
    ensures front + gap + HeaderSoFar(q) + [c] == front + gap' + HeaderSoFar(p)
    ensures Gap(gap')
  {
    HeaderGrows(q, c, p);
    var part := HeaderSoFar(q);
    if HeaderSoFar(p) == part + [c] {
      gap' := gap;
      ExtendHeader(front + gap, part, c);
    } else {
      gap' := gap + part + [c];
      GapGrows(gap, part, c);
      ExtendGap(front, gap, part, c);
    }
  }
}
