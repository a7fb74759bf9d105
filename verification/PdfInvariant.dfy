/**
  What every byte keeps: the shape of the parse stack, the ranges of all indices, and the
  decompression type, from the initial state up to the first error.
 */
module PdfInvariant {
  import opened Basics
  import opened PdfFilter
  import opened PdfGrammar

  /** Every entry of the stack is the ground state. */
  predicate AllStart(stack: seq<Entry>) {
    forall i | 0 <= i < |stack| :: stack[i].state == START
  }

  /** Ground entries, then one object entry in sub-state `sub`. */
  predicate ObjectOnTop(stack: seq<Entry>, sub: SubState) {
    && |stack| >= 2
    && stack[|stack| - 1] == Entry(IND_OBJ, sub)
    && AllStart(stack[..|stack| - 1])
  }

  predicate DictEntry(e: Entry) {
    e.state == DICT_OBJECT && e.sub in {DICT_ACTIVE, DICT_SKIP, DICT_FILTER}
  }

  /** Ground entries, one object entry waiting for its end, then any number of dictionary entries. */
  predicate DictStack(stack: seq<Entry>)
    decreases |stack|
  {
    ObjectOnTop(stack, ENDOBJ_TOKEN) ||
    (stack != [] && DictEntry(stack[|stack| - 1]) && DictStack(stack[..|stack| - 1]))
  }

  predicate Full(p: Parser) {
    |p.stack| >= PARSE_STACK_LEN - 1
  }

  predicate DictShape(p: Parser) {
    && DictStack(p.stack)
    && (match p.sub
        case DICT_OPEN => ObjectOnTop(p.stack, ENDOBJ_TOKEN) && p.elem < 6
        case DICT_OPEN_TOK => p.elem < 6
        case DICT_ACTIVE => p.elem < 6
        case DICT_SKIP => p.elem <= 6
        case DICT_FILTER => p.elem <= 6
        case DICT_CLOSE_TOK => DictEntry(p.stack[|p.stack| - 1])
        case _ => false)
  }

  predicate IndObjShape(p: Parser) {
    && AllStart(p.stack) && p.stack != []
    && (match p.sub
        case OBJ_NUMBER => p.elem < ELEM_BUF_LEN
        case GEN_NUMBER => p.elem < ELEM_BUF_LEN
        case OBJ_TOKEN => p.elem < 3
        case OBJ_EOL => p.elem == 3
        case STREAM_TOKEN => p.elem < 6 && p.types.session == DEFLATE && !Full(p)
        case STREAM_EOL => p.types.session == DEFLATE && !Full(p)
        case STREAM_LF => p.types.session == DEFLATE && !Full(p)
        case ENDSTREAM_TOKEN => p.elem < 9
        case ENDOBJ_TOKEN => p.elem < 6
        case _ => false)
  }

  predicate XrefShape(p: Parser) {
    && AllStart(p.stack) && p.stack != []
    && (p.xref == "xref" || p.xref == "startxref")
    && (match p.sub
        case XREF_TOKEN => 1 <= p.elem < |p.xref|
        case XREF_END_TOKEN => p.elem < 5
        case _ => false)
  }

  predicate Shape(p: Parser) {
    match p.state
    case START => AllStart(p.stack)
    case COMMENT => AllStart(p.stack)
    case IND_OBJ => IndObjShape(p)
    case XREF => XrefShape(p)
    case DICT_OBJECT => DictShape(p)
    case STREAM => ObjectOnTop(p.stack, ENDSTREAM_TOKEN) && p.types.session == DEFLATE
  }

  predicate Valid(p: Parser) {
    && |p.stack| < PARSE_STACK_LEN
    && p.nesting < 256
    && p.elem < 256
    && |p.spec| < FILTER_SPEC_BUF_LEN
    && (p.types.session == DEFLATE ==> p.types.pdf == DEFLATE)
    && Shape(p)
  }

  lemma InitialIsValid(t: Types)
    requires t.session == NONE
    ensures Valid(Initial(t))
  {}

  // ----- one lemma per group of transitions -----

  lemma DictStackNotEmpty(stack: seq<Entry>)
    requires DictStack(stack)
    ensures stack != []
  {}

  /** Popping a dictionary stack lands in the object or in the enclosing dictionary. */
  lemma PopFromDict(p: Parser)
    requires Valid(p) && p.state == DICT_OBJECT
    ensures Pop(p).Ok? && Valid(Pop(p).p)
    ensures Pop(p).p.state == IND_OBJ <==> ObjectOnTop(p.stack, ENDOBJ_TOKEN)
    ensures Pop(p).p.state == IND_OBJ ==> Pop(p).p.sub == ENDOBJ_TOKEN
    ensures Pop(p).p.state != IND_OBJ ==>
              Pop(p).p.state == DICT_OBJECT && Pop(p).p.sub in {DICT_ACTIVE, DICT_SKIP, DICT_FILTER}
  {
    DictStackNotEmpty(p.stack);
  }

  lemma PushInDict(p: Parser)
    requires Valid(p) && p.state == DICT_OBJECT && p.sub in {DICT_ACTIVE, DICT_SKIP, DICT_FILTER}
    ensures Push(p).Ok? ==> DictStack(Push(p).p.stack) && |Push(p).p.stack| < PARSE_STACK_LEN
    ensures Push(p).Ok? ==> DictEntry(Push(p).p.stack[|Push(p).p.stack| - 1])
  {
    if Push(p).Ok? {
      var s := Push(p).p.stack;
      assert s[..|s| - 1] == p.stack;
    }
  }

  lemma EndFilterKeeps(p: Parser)
    requires Valid(p)
    requires p.state == DICT_OBJECT
    ensures EndFilter(p).Ok? ==> Valid(EndFilter(p).p)
    ensures EndFilter(p).Ok? ==> EndFilter(p).p.state == DICT_OBJECT && EndFilter(p).p.sub == p.sub
  {
    FilterMeaning(p.spec, p.types);
  }

  lemma DictBodyPushes(p: Parser, sub: SubState)
    requires Valid(p) && p.state == DICT_OBJECT && p.sub in {DICT_ACTIVE, DICT_SKIP}
    requires Push(p).Ok? && p.elem == 0 && sub in {DICT_OPEN_TOK, DICT_CLOSE_TOK}
    ensures Valid(Push(p).p.(sub := sub))
  {
    PushInDict(p);
    assert DictShape(Push(p).p.(sub := sub));
  }

  lemma DictBodyKeeps(p: Parser, c: byte)
    requires Valid(p) && p.state == DICT_OBJECT && p.sub in {DICT_ACTIVE, DICT_SKIP}
    ensures DictBody(p, c).Ok? ==> Valid(DictBody(p, c).p)
  {
    var q := p.(elem := 0);
    assert Valid(q);
    if c == '<' && Push(q).Ok? { DictBodyPushes(q, DICT_OPEN_TOK); }
    if c == '>' && Push(q).Ok? { DictBodyPushes(q, DICT_CLOSE_TOK); }
  }

  lemma DictFilterKeeps(p: Parser, c: byte)
    requires Valid(p) && p.state == DICT_OBJECT && p.sub == DICT_FILTER
    ensures DictFilter(p, c).Ok? ==> Valid(DictFilter(p, c).p)
  {
    if c == '>' {
      PushInDict(p);
      if Push(p).Ok? {
        EndFilterKeeps(Push(p).p.(sub := DICT_CLOSE_TOK));
      }
    } else if c == '/' && p.nesting == 3 {
      EndFilterKeeps(p.(sub := DICT_SKIP));
    }
  }

  /** Both pops of a closing `>>` succeed, and the check of the enclosing entry never meets an empty stack. */
  lemma DictCloseKeeps(p: Parser, c: byte)
    requires Valid(p) && p.state == DICT_OBJECT && p.sub == DICT_CLOSE_TOK
    ensures DictCloseTok(p, c).Ok? && Valid(DictCloseTok(p, c).p)
  {
    PopFromDict(p);
    var q := Pop(p).p;
    DictStackNotEmpty(q.stack);
    if c == '>' {
      if q.types.session == NONE || !ObjectOnTop(q.stack, ENDOBJ_TOKEN) {
        if q.types.session != NONE { NotObjectIsDict(q.stack); }
        PopFromDict(q);
      } else {
        var n := |q.stack| - 1;
        assert AwaitStream(q).stack[..n] == q.stack[..n];
      }
    }
  }

  lemma NotObjectIsDict(stack: seq<Entry>)
    requires DictStack(stack) && !ObjectOnTop(stack, ENDOBJ_TOKEN)
    ensures stack != [] && DictEntry(stack[|stack| - 1])
  {}

  lemma DictKeeps(p: Parser, c: byte)
    requires Valid(p) && p.state == DICT_OBJECT
    ensures StepDict(p, c).Ok? ==> Valid(StepDict(p, c).p)
  {
    match p.sub {
      case DICT_OPEN => PopFromDict(p);
      case DICT_OPEN_TOK => PopFromDict(p);
      case DICT_SKIP => DictBodyKeeps(p, c);
      case DICT_ACTIVE => DictBodyKeeps(p, c);
      case DICT_FILTER => DictFilterKeeps(p, c);
      case DICT_CLOSE_TOK => DictCloseKeeps(p, c);
    }
  }

  lemma ObjEolKeeps(p: Parser, c: byte)
    requires |p.stack| < PARSE_STACK_LEN && p.nesting < 256 && p.elem < 6 && |p.spec| < FILTER_SPEC_BUF_LEN
    requires p.state == IND_OBJ && AllStart(p.stack) && p.stack != []
    ensures IsEol(c) && ObjEol(p, c).Ok? ==> Valid(ObjEol(p, c).p)
    ensures !IsEol(c) ==> ObjEol(p, c) == Ok(p)
  {
    var q := p.(sub := ENDOBJ_TOKEN);
    if Push(q).Ok? {
      var s := Push(q).p.stack;
      assert s[..|s| - 1] == p.stack;
    }
  }

  lemma ProcessStreamKeeps(p: Parser)
    requires Valid(p) && p.state == IND_OBJ && p.types.session == DEFLATE
    requires !Full(p)
    ensures ProcessStream(p).Ok? && Valid(ProcessStream(p).p) && ProcessStream(p).p.state == STREAM
  {
    var r := ProcessStream(p).p;
    assert r == p.(stack := p.stack + [Entry(IND_OBJ, ENDSTREAM_TOKEN)], state := STREAM, sub := NO_SUB);
    assert r.stack[..|p.stack|] == p.stack;
    assert ObjectOnTop(r.stack, ENDSTREAM_TOKEN);
  }

  lemma PopToGround(p: Parser)
    requires Valid(p) && p.state == IND_OBJ
    ensures Pop(p).Ok? && Valid(Pop(p).p) && Pop(p).p.state == START
  {}

  lemma TokenKeeps(p: Parser, c: byte)
    requires Valid(p) && p.state == IND_OBJ
    requires p.sub in {OBJ_NUMBER, GEN_NUMBER, STREAM_TOKEN, ENDSTREAM_TOKEN}
    ensures StepIndObj(p, c).Ok? ==> Valid(StepIndObj(p, c).p)
  {}

  lemma IndObjKeeps(p: Parser, c: byte)
    requires Valid(p) && p.state == IND_OBJ
    ensures StepIndObj(p, c).Ok? ==> Valid(StepIndObj(p, c).p)
  {
    match p.sub {
      case OBJ_NUMBER => TokenKeeps(p, c);
      case GEN_NUMBER => TokenKeeps(p, c);
      case OBJ_TOKEN => ObjEolKeeps(p.(elem := p.elem + 1), c);
      case OBJ_EOL => ObjEolKeeps(p, c);
      case STREAM_TOKEN => TokenKeeps(p, c);
      case STREAM_EOL => if c == '\n' { ProcessStreamKeeps(p); }
      case STREAM_LF => if c == '\n' { ProcessStreamKeeps(p); }
      case ENDSTREAM_TOKEN => TokenKeeps(p, c);
      case ENDOBJ_TOKEN => PopToGround(p);
    }
  }

  lemma StartKeeps(p: Parser, c: byte)
    requires Valid(p) && p.state == START
    ensures StepStart(p, c).Ok? ==> Valid(StepStart(p, c).p)
  {}

  lemma XrefKeeps(p: Parser, c: byte)
    requires Valid(p) && p.state == XREF
    ensures StepXref(p, c).Ok? ==> Valid(StepXref(p, c).p)
  {}

  /** Every byte keeps the invariant, unless the parser reports an error. */
  lemma StepKeeps(p: Parser, c: byte)
    requires Valid(p) && p.state != STREAM
    ensures Step(p, c).Ok? ==> Valid(Step(p, c).p)
  {
    match p.state {
      case START => StartKeeps(p, c);
      case COMMENT =>
      case IND_OBJ => IndObjKeeps(p, c);
      case DICT_OBJECT => DictKeeps(p, c);
      case XREF => XrefKeeps(p, c);
    }
  }

  /** A located stream always has a type to decompress, and closing it resumes the search for `endstream`. */
  lemma CloseStreamKeeps(p: Parser)
    requires Valid(p) && p.state == STREAM
    ensures p.types.session == DEFLATE && p.types.pdf == DEFLATE
    ensures CloseStream(p).Ok?
    ensures var q := CloseStream(p).p;
            Valid(q) && q.state == IND_OBJ && q.sub == ENDSTREAM_TOKEN && q.elem == 0 && q.types == p.types
  {}

  // ----- exactly when the parser gives up -----

  predicate RejectsStart(p: Parser, c: byte) {
    !IsWhitespace(c) && c != '%' && (Full(p) || !(IsDigit(c) || c == 'x' || c == 's'))
  }

  predicate RejectsIndObj(p: Parser, c: byte) {
    match p.sub
    case OBJ_NUMBER => IsDigit(c) && p.elem == ELEM_BUF_LEN - 1
    case GEN_NUMBER => IsDigit(c) && p.elem == ELEM_BUF_LEN - 1
    case OBJ_TOKEN => p.elem < 3 && c != "obj"[p.elem]
    case OBJ_EOL => IsEol(c) && Full(p)
    case STREAM_TOKEN => p.elem < 6 && c != "stream"[p.elem] && !IsWhitespace(c)
    case STREAM_EOL => c != '\r' && c != '\n'
    case STREAM_LF => c != '\n'
    case _ => false
  }

  ghost predicate RejectsDict(p: Parser, c: byte) {
    match p.sub
    case DICT_ACTIVE => p.elem < 6 && c != "Filter"[p.elem] && (c == '<' || c == '>') && Full(p)
    case DICT_SKIP => (c == '<' || c == '>') && Full(p)
    case DICT_FILTER =>
      if c == '>' then Full(p) || !WellBracketed(p.spec)
      else if c == '/' && p.nesting == 3 then !WellBracketed(p.spec)
      else |p.spec| == FILTER_SPEC_BUF_LEN - 1
    case _ => false
  }

  ghost predicate Rejects(p: Parser, c: byte) {
    match p.state
    case START => RejectsStart(p, c)
    case COMMENT => false
    case IND_OBJ => RejectsIndObj(p, c)
    case DICT_OBJECT => RejectsDict(p, c)
    case XREF => p.sub == XREF_TOKEN && p.elem < |p.xref| && c != p.xref[p.elem]
    case STREAM => false
  }

  lemma DictRejects(p: Parser, c: byte)
    requires Valid(p) && p.state == DICT_OBJECT
    ensures StepDict(p, c).Fail? <==> RejectsDict(p, c)
  {
    match p.sub {
      case DICT_OPEN => PopFromDict(p);
      case DICT_OPEN_TOK => PopFromDict(p);
      case DICT_SKIP =>
      case DICT_ACTIVE =>
      case DICT_FILTER => FilterMeaning(p.spec, p.types);
      case DICT_CLOSE_TOK => DictCloseKeeps(p, c);
    }
  }

  lemma IndObjRejects(p: Parser, c: byte)
    requires Valid(p) && p.state == IND_OBJ
    ensures StepIndObj(p, c).Fail? <==> RejectsIndObj(p, c)
  {
    match p.sub {
      case OBJ_TOKEN => ObjEolKeeps(p.(elem := p.elem + 1), c);
      case STREAM_EOL => ProcessStreamKeeps(p);
      case STREAM_LF => ProcessStreamKeeps(p);
      case _ =>
    }
  }

  /**
    The errors of a valid parser are exactly these: a byte that fits no token, a number, stack or
    filter buffer that is full, or a malformed filter.  No pop ever meets an empty stack and no
    sub-state is ever foreign to its state.
   */
  lemma RejectsExactly(p: Parser, c: byte)
    requires Valid(p) && p.state != STREAM
    ensures Step(p, c).Fail? <==> Rejects(p, c)
  {
    match p.state {
      case START =>
      case COMMENT =>
      case IND_OBJ => IndObjRejects(p, c);
      case DICT_OBJECT => DictRejects(p, c);
      case XREF =>
    }
  }

  // ----- xref blocks leave their entry behind -----

  /** Entries of the stack that belong to the ground state. */
  function GroundEntries(stack: seq<Entry>): nat {
    if stack == [] then 0
    else GroundEntries(stack[..|stack| - 1]) + (if stack[|stack| - 1].state == START then 1 else 0)
  }

  /** Ground entries that belong to nothing that is still open. */
  function Leaked(p: Parser): int {
    GroundEntries(p.stack) - (if p.state == START || p.state == COMMENT then 0 else 1)
  }

  predicate EndsXref(p: Parser, c: byte) {
    p.state == XREF && p.sub == XREF_END_TOKEN && p.elem == 4 && c == 'F'
  }

  lemma GroundSnoc(stack: seq<Entry>, e: Entry)
    ensures GroundEntries(stack + [e]) == GroundEntries(stack) + (if e.state == START then 1 else 0)
  {
    assert (stack + [e])[..|stack|] == stack;
  }

  lemma GroundPush(p: Parser)
    ensures Push(p).Ok? ==>
              GroundEntries(Push(p).p.stack) == GroundEntries(p.stack) + (if p.state == START then 1 else 0)
  {
    GroundSnoc(p.stack, Entry(p.state, p.sub));
  }

  lemma AllGround(stack: seq<Entry>)
    requires AllStart(stack)
    ensures GroundEntries(stack) == |stack|
  {
    if stack != [] { AllGround(stack[..|stack| - 1]); }
  }

  lemma LeakedByClose(p: Parser, c: byte)
    requires Valid(p) && p.state == DICT_OBJECT && p.sub == DICT_CLOSE_TOK
    ensures DictCloseTok(p, c).Ok? ==> Leaked(DictCloseTok(p, c).p) == Leaked(p)
  {
    PopFromDict(p);
    var q := Pop(p).p;
    assert GroundEntries(q.stack) == GroundEntries(p.stack);
    DictStackNotEmpty(q.stack);
    PopFromDict(q);
    var n := |q.stack| - 1;
    assert AwaitStream(q).stack[..n] == q.stack[..n];
    assert Pop(q).p.state != START;
  }

  lemma LeakedByDict(p: Parser, c: byte)
    requires Valid(p) && p.state == DICT_OBJECT
    ensures StepDict(p, c).Ok? ==> Leaked(StepDict(p, c).p) == Leaked(p)
  {
    match p.sub {
      case DICT_OPEN => PopFromDict(p);
      case DICT_OPEN_TOK => PopFromDict(p);
      case DICT_SKIP => GroundPush(p.(elem := 0));
      case DICT_ACTIVE => GroundPush(p.(elem := 0));
      case DICT_FILTER => GroundPush(p);
      case DICT_CLOSE_TOK => LeakedByClose(p, c);
    }
  }

  lemma LeakedByIndObj(p: Parser, c: byte)
    requires Valid(p) && p.state == IND_OBJ
    ensures StepIndObj(p, c).Ok? ==> Leaked(StepIndObj(p, c).p) == Leaked(p)
  {
    match p.sub {
      case OBJ_TOKEN => ObjEolKeeps(p.(elem := p.elem + 1), c);
      case OBJ_EOL => GroundPush(p.(sub := ENDOBJ_TOKEN));
      case STREAM_EOL => GroundPush(p.(sub := ENDSTREAM_TOKEN));
      case STREAM_LF => GroundPush(p.(sub := ENDSTREAM_TOKEN));
      case ENDOBJ_TOKEN => PopToGround(p);
      case _ =>
    }
  }

  /** Finishing an xref block is the only thing that leaks, and it leaks exactly one entry. */
  lemma LeakedByStep(p: Parser, c: byte)
    requires Valid(p) && p.state != STREAM
    ensures Step(p, c).Ok? ==>
              Leaked(Step(p, c).p) == Leaked(p) + (if EndsXref(p, c) then 1 else 0)
  {
    match p.state {
      case START => GroundPush(p);
      case COMMENT =>
      case IND_OBJ => LeakedByIndObj(p, c);
      case DICT_OBJECT => LeakedByDict(p, c);
      case XREF =>
    }
  }
}
