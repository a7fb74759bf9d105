/**
  The PDF parser as a transition function: one byte takes a parser state to the next one
  or fails (src/decompress/file_decomp_pdf.cc, lines 83-134 and 280-819).  The class in
  PdfSession.dfy performs the same transitions in place.
 */
module PdfGrammar {
  import opened Basics
  import opened PdfFilter

  const PARSE_STACK_LEN := 12
  const FILTER_SPEC_BUF_LEN := 40
  const ELEM_BUF_LEN := 12

  datatype State = START | COMMENT | IND_OBJ | XREF | DICT_OBJECT | STREAM

  /** The sub-states of all states; each is read only in the state that sets it. */
  datatype SubState =
    | NO_SUB
    | XREF_TOKEN | XREF_END_TOKEN
    | DICT_OPEN | DICT_OPEN_TOK | DICT_CLOSE_TOK | DICT_FILTER | DICT_SKIP | DICT_ACTIVE
    | OBJ_NUMBER | GEN_NUMBER | OBJ_TOKEN | OBJ_EOL
    | STREAM_TOKEN | STREAM_EOL | STREAM_LF | ENDSTREAM_TOKEN | ENDOBJ_TOKEN

  datatype Entry = Entry(state: State, sub: SubState)

  /**
    The parser: `nesting` is an 8-bit counter, `elem` the index into the current token,
    `spec` the buffered filter specification, `xref` the token an xref block opened with.
   */
  datatype Parser = Parser(
    state: State, sub: SubState, stack: seq<Entry>,
    nesting: nat, elem: nat, spec: bytes, xref: bytes, types: Types)

  datatype Outcome = Ok(p: Parser) | Fail(alerts: seq<Alert>)

  predicate IsWhitespace(c: byte) { c == '\0' || c in "\t\n\U{0C}\r " }
  predicate IsEol(c: byte) { c == '\r' || c == '\n' }
  predicate IsDigit(c: byte) { '0' <= c <= '9' }

  /** Reading a C string: the terminator follows the last character. */
  predicate Hit(tok: string, i: nat, c: byte) {
    if i < |tok| then c == tok[i] else i == |tok| && c == '\0'
  }

  function Initial(types: Types): Parser {
    Parser(COMMENT, NO_SUB, [], 0, 0, [], "startxref", types)
  }

  function Failed(p: Parser): Outcome { Fail(p.types.alerts) }

  function Push(p: Parser): Outcome {
    if |p.stack| >= PARSE_STACK_LEN - 1 then Failed(p)
    else Ok(p.(stack := p.stack + [Entry(p.state, p.sub)]))
  }

  function Pop(p: Parser): Outcome {
    if p.stack == [] then Failed(p)
    else
      var n := |p.stack| - 1;
      Ok(p.(elem := 0, state := p.stack[n].state, sub := p.stack[n].sub, stack := p.stack[..n]))
  }

  function EnterDict(p: Parser): Parser {
    p.(sub := DICT_OPEN, nesting := 0, state := DICT_OBJECT, spec := [],
       types := p.types.(session := NONE))
  }

  function DictOpen(p: Parser, c: byte): Outcome {
    if c == '<' then Ok(p.(sub := DICT_OPEN_TOK))
    else if IsWhitespace(c) then Ok(p)
    else Pop(p)
  }

  function DictOpenTok(p: Parser, c: byte): Outcome {
    if c == '<' then
      Ok(p.(nesting := (p.nesting + 1) % 256, sub := if p.nesting == 0 then DICT_ACTIVE else DICT_SKIP))
    else Pop(p)
  }

  function DictBody(p: Parser, c: byte): Outcome {
    if p.sub == DICT_ACTIVE && Hit("Filter", p.elem, c) then
      Ok(p.(elem := p.elem + 1, sub := if p.elem + 1 == 6 then DICT_FILTER else DICT_ACTIVE))
    else
      var q := p.(elem := 0);
      if c == '<' || c == '>' then
        match Push(q)
        case Fail(a) => Fail(a)
        case Ok(r) => Ok(r.(sub := if c == '<' then DICT_OPEN_TOK else DICT_CLOSE_TOK))
      else Ok(q)
  }

  function EndFilter(p: Parser): Outcome {
    var f := ProcessFilterSpec(p.spec, p.types);
    if f.ok then Ok(p.(types := f.types)) else Fail(f.types.alerts)
  }

  function DictFilter(p: Parser, c: byte): Outcome {
    if c == '>' then
      match Push(p)
      case Fail(a) => Fail(a)
      case Ok(q) => EndFilter(q.(sub := DICT_CLOSE_TOK))
    else if c == '/' && p.nesting == 3 then
      EndFilter(p.(sub := DICT_SKIP))
    else
      var n := if c == '/' && p.nesting == 1 then 3
               else if c == '[' && p.nesting == 1 then 2
               else if c == ']' && p.nesting == 2 then 3
               else p.nesting;
      if |p.spec| < FILTER_SPEC_BUF_LEN - 1 then Ok(p.(nesting := n, spec := p.spec + [c]))
      else Failed(p)
  }

  /** With a filter accepted, the enclosing object is told to look for its stream. */
  function AwaitStream(p: Parser): Parser
    requires p.stack != []
  {
    var n := |p.stack| - 1;
    if p.stack[n] == Entry(IND_OBJ, ENDOBJ_TOKEN) then p.(stack := p.stack[n := Entry(IND_OBJ, STREAM_TOKEN)])
    else p
  }

  function DictCloseTok(p: Parser, c: byte): Outcome {
    match Pop(p)
    case Fail(a) => Fail(a)
    case Ok(q) =>
      if c != '>' then Ok(q)
      else if q.types.session == NONE then Pop(q)
      else if q.stack == [] then Failed(q)
      else Pop(AwaitStream(q))
  }

  function StepDict(p: Parser, c: byte): Outcome {
    match p.sub
    case DICT_OPEN => DictOpen(p, c)
    case DICT_OPEN_TOK => DictOpenTok(p, c)
    case DICT_SKIP => DictBody(p, c)
    case DICT_ACTIVE => DictBody(p, c)
    case DICT_FILTER => DictFilter(p, c)
    case DICT_CLOSE_TOK => DictCloseTok(p, c)
    case _ => Failed(p)
  }

  function ProcessStream(p: Parser): Outcome {
    match Push(p.(sub := ENDSTREAM_TOKEN, state := IND_OBJ))
    case Fail(a) => Fail(a)
    case Ok(q) => Ok(q.(state := STREAM, sub := NO_SUB))
  }

  function ObjNumber(p: Parser, c: byte): Outcome {
    if IsDigit(c) then
      if p.elem < ELEM_BUF_LEN - 1 then Ok(p.(elem := p.elem + 1)) else Failed(p)
    else if c == ' ' then
      Ok(p.(sub := if p.sub == OBJ_NUMBER then GEN_NUMBER else OBJ_TOKEN, elem := 0))
    else Ok(p)
  }

  function ObjEol(p: Parser, c: byte): Outcome {
    if IsEol(c) then
      match Push(p.(sub := ENDOBJ_TOKEN))
      case Fail(a) => Fail(a)
      case Ok(q) => Ok(EnterDict(q))
    else Ok(p)
  }

  function ObjToken(p: Parser, c: byte): Outcome {
    if !Hit("obj", p.elem, c) then Failed(p)
    else
      var q := p.(elem := p.elem + 1);
      if q.elem == 3 then Ok(q.(sub := OBJ_EOL)) else ObjEol(q, c)
  }

  function StreamToken(p: Parser, c: byte): Outcome {
    if Hit("stream", p.elem, c) then
      Ok(p.(elem := p.elem + 1, sub := if p.elem + 1 == 6 then STREAM_EOL else STREAM_TOKEN))
    else if IsWhitespace(c) then Ok(p.(elem := 0))
    else Failed(p)
  }

  function StreamEol(p: Parser, c: byte): Outcome {
    if c == '\r' then Ok(p.(sub := STREAM_LF))
    else if c == '\n' then ProcessStream(p)
    else Failed(p)
  }

  function StreamLf(p: Parser, c: byte): Outcome {
    if c == '\n' then ProcessStream(p) else Failed(p)
  }

  function EndstreamToken(p: Parser, c: byte): Outcome {
    if Hit("endstream", p.elem, c) then
      if p.elem + 1 == 9 then Ok(p.(sub := ENDOBJ_TOKEN, elem := 0)) else Ok(p.(elem := p.elem + 1))
    else Ok(p.(elem := 0))
  }

  function EndobjToken(p: Parser, c: byte): Outcome {
    if Hit("endobj", p.elem, c) then
      if p.elem + 1 == 6 then Pop(p) else Ok(p.(elem := p.elem + 1))
    else Ok(p.(elem := 0))
  }

  function StepIndObj(p: Parser, c: byte): Outcome {
    match p.sub
    case OBJ_NUMBER => ObjNumber(p, c)
    case GEN_NUMBER => ObjNumber(p, c)
    case OBJ_TOKEN => ObjToken(p, c)
    case OBJ_EOL => ObjEol(p, c)
    case STREAM_TOKEN => StreamToken(p, c)
    case STREAM_EOL => StreamEol(p, c)
    case STREAM_LF => StreamLf(p, c)
    case ENDSTREAM_TOKEN => EndstreamToken(p, c)
    case ENDOBJ_TOKEN => EndobjToken(p, c)
    case _ => Failed(p)
  }

  function StepXref(p: Parser, c: byte): Outcome {
    match p.sub
    case XREF_TOKEN =>
      if !Hit(p.xref, p.elem, c) then Failed(p)
      else if p.elem + 1 == |p.xref| then Ok(p.(elem := 0, sub := XREF_END_TOKEN))
      else Ok(p.(elem := p.elem + 1))
    case XREF_END_TOKEN =>
      if !Hit("%%EOF", p.elem, c) then Ok(p.(elem := 0))
      else if p.elem + 1 == 5 then Ok(p.(elem := 5, state := START))
      else Ok(p.(elem := p.elem + 1))
    case _ => Failed(p)
  }

  function StepStart(p: Parser, c: byte): Outcome {
    if IsWhitespace(c) then Ok(p)
    else if c == '%' then Ok(p.(state := COMMENT))
    else if IsDigit(c) then
      match Push(p)
      case Fail(a) => Fail(a)
      case Ok(q) => Ok(q.(state := IND_OBJ, sub := OBJ_NUMBER, elem := 1))
    else if c == 'x' || c == 's' then
      match Push(p)
      case Fail(a) => Fail(a)
      case Ok(q) =>
        Ok(q.(sub := XREF_TOKEN, elem := 1, state := XREF, xref := if c == 'x' then "xref" else "startxref"))
    else Failed(p)
  }

  /** The parser consumes one byte; it never does so once a stream has been located. */
  function Step(p: Parser, c: byte): Outcome
    requires p.state != STREAM
  {
    match p.state
    case START => StepStart(p, c)
    case COMMENT => Ok(if IsEol(c) then p.(state := START) else p)
    case IND_OBJ => StepIndObj(p, c)
    case DICT_OBJECT => StepDict(p, c)
    case XREF => StepXref(p, c)
  }

  /** After a stream has been decompressed the parser returns to where it was interrupted. */
  function CloseStream(p: Parser): Outcome {
    Pop(p)
  }
}
