/**
  The PDF decompression session as the program keeps it: a parse struct updated in place byte by
  byte, input and output windows, and the loops that run the parser and the decoder
  (src/decompress/file_decomp_pdf.cc, lines 280-1144).  zlib is any decoder that makes progress
  whenever it answers OK.
 */
module PdfSession {
  import opened Basics
  import opened PdfFilter
  import opened PdfGrammar
  import opened PdfInvariant
  import opened ByteMachine
  import opened PdfStreaming
  import opened PdfDocument
  import opened PdfStages

  /** The parse struct (src/decompress/file_decomp_pdf.h, lines 50-64) with the types it sets. */
  class ParseStruct {
    var state: State
    var sub: SubState
    var stackIndex: nat
    const stack: array<Entry>
    var nesting: nat
    var elem: nat
    const elemBuf: array<byte>
    var specIndex: nat
    const spec: array<byte>
    var xrefTok: bytes
    var types: Types

    ghost predicate Wf()
      reads this
    {
      && stack.Length == PARSE_STACK_LEN && stackIndex < PARSE_STACK_LEN
      && spec.Length == FILTER_SPEC_BUF_LEN + 1 && specIndex < FILTER_SPEC_BUF_LEN
      && elemBuf.Length == ELEM_BUF_LEN && elemBuf != spec
    }

    ghost function Model(): Parser
      reads this, stack, spec
      requires Wf()
    {
      Parser(state, sub, stack[..stackIndex], nesting, elem, spec[..specIndex], xrefTok, types)
    }

    constructor (t: Types)
      requires t.session == NONE
      ensures Wf() && Model() == Initial(t)
      ensures fresh(stack) && fresh(spec) && fresh(elemBuf)
    {
      state, sub, stackIndex := COMMENT, NO_SUB, 0;
      stack := new Entry[PARSE_STACK_LEN](_ => Entry(START, NO_SUB));
      nesting, elem, specIndex := 0, 0, 0;
      elemBuf := new byte[ELEM_BUF_LEN](_ => '\0');
      spec := new byte[FILTER_SPEC_BUF_LEN + 1](_ => '\0');
      xrefTok := "startxref";
      types := t;
    }

    method PushState() returns (ok: bool)
      requires Wf()
      modifies this`stackIndex, stack
      ensures Wf()
      ensures ok == Push(old(Model())).Ok?
      ensures Model() == if ok then Push(old(Model())).p else old(Model())
    {
      if stackIndex >= PARSE_STACK_LEN - 1 {
        return false;
      }
      stack[stackIndex] := Entry(state, sub);
      assert stack[..stackIndex] == old(stack[..stackIndex]);
      stackIndex := stackIndex + 1;
      assert stack[..stackIndex] == old(stack[..stackIndex]) + [Entry(state, sub)];
      ok := true;
    }

    method PopState() returns (ok: bool)
      requires Wf()
      modifies this`stackIndex, this`elem, this`state, this`sub
      ensures Wf()
      ensures ok == Pop(old(Model())).Ok?
      ensures Model() == if ok then Pop(old(Model())).p else old(Model())
    {
      if stackIndex == 0 {
        return false;
      }
      stackIndex := stackIndex - 1;
      elem := 0;
      state, sub := stack[stackIndex].state, stack[stackIndex].sub;
      assert stack[..stackIndex] == old(stack[..stackIndex])[..stackIndex];
      ok := true;
    }

    /** What a handler promises: the transition of the model, or its failure. */
    ghost predicate Performs(o: Outcome, ok: bool)
      reads this, stack, spec
    {
      && Wf()
      && ok == o.Ok?
      && (ok ==> Model() == o.p)
      && (!ok ==> types.alerts == o.alerts)
    }

    method DictBodyByte(c: byte) returns (ok: bool)
      requires Wf() && Valid(Model()) && state == DICT_OBJECT && sub in {DICT_SKIP, DICT_ACTIVE}
      modifies this, stack
      ensures Performs(DictBody(old(Model()), c), ok)
    {
      var hit := false;
      if sub == DICT_ACTIVE {
        hit := c == "Filter"[elem];
        elem := elem + 1;
      }
      if hit {
        if elem == |"Filter"| {
          sub := DICT_FILTER;
        }
      } else {
        elem := 0;
        if c == '<' || c == '>' {
          var pushed := PushState();
          if !pushed {
            return false;
          }
          sub := if c == '<' then DICT_OPEN_TOK else DICT_CLOSE_TOK;
        }
      }
      ok := true;
    }

    method EndFilterSpec() returns (ok: bool)
      requires Wf()
      modifies this`types
      ensures Performs(EndFilter(old(Model())), ok)
    {
      var f := RunFilterSpec(spec, specIndex, types);
      types := f.types;
      ok := f.ok;
    }

    method DictFilterByte(c: byte) returns (ok: bool)
      requires Wf() && Valid(Model()) && state == DICT_OBJECT && sub == DICT_FILTER
      modifies this, stack, spec
      ensures Performs(DictFilter(old(Model()), c), ok)
    {
      if c == '>' {
        var pushed := PushState();
        if !pushed {
          return false;
        }
        sub := DICT_CLOSE_TOK;
        ok := EndFilterSpec();
      } else if c == '/' && nesting == 3 {
        sub := DICT_SKIP;
        ok := EndFilterSpec();
      } else {
        if c == '/' && nesting == 1 {
          nesting := 3;
        } else if c == '[' && nesting == 1 {
          nesting := 2;
        } else if c == ']' && nesting == 2 {
          nesting := 3;
        }
        if specIndex < FILTER_SPEC_BUF_LEN - 1 {
          spec[specIndex] := c;
          assert spec[..specIndex] == old(spec[..specIndex]);
          specIndex := specIndex + 1;
          assert spec[..specIndex] == old(spec[..specIndex]) + [c];
          ok := true;
        } else {
          ok := false;
        }
      }
    }

    method DictCloseByte(c: byte) returns (ok: bool)
      requires Wf()
      modifies this, stack
      ensures Performs(DictCloseTok(old(Model()), c), ok)
    {
      var popped := PopState();
      if !popped {
        return false;
      }
      if c == '>' {
        if types.session != NONE {
          if stackIndex == 0 {
            return false;
          }
          ghost var q := Model();
          if stack[stackIndex - 1] == Entry(IND_OBJ, ENDOBJ_TOKEN) {
            stack[stackIndex - 1] := Entry(IND_OBJ, STREAM_TOKEN);
          }
          assert Model().stack == AwaitStream(q).stack;
        }
        ok := PopState();
      } else {
        ok := true;
      }
    }

    method HandleDict(c: byte) returns (ok: bool)
      requires Wf() && Valid(Model()) && state == DICT_OBJECT
      modifies this, stack, spec
      ensures Performs(StepDict(old(Model()), c), ok)
    {
      ok := true;
      match sub
      case DICT_OPEN =>
        if c == '<' {
          sub := DICT_OPEN_TOK;
        } else if !IsWhitespace(c) {
          ok := PopState();
        }
      case DICT_OPEN_TOK =>
        if c == '<' {
          sub := if nesting == 0 then DICT_ACTIVE else DICT_SKIP;
          nesting := (nesting + 1) % 256;
        } else {
          ok := PopState();
        }
      case DICT_SKIP => ok := DictBodyByte(c);
      case DICT_ACTIVE => ok := DictBodyByte(c);
      case DICT_FILTER => ok := DictFilterByte(c);
      case DICT_CLOSE_TOK => ok := DictCloseByte(c);
    }

    method EnterStream() returns (ok: bool)
      requires Wf()
      modifies this`sub, this`state, this`stackIndex, stack
      ensures Performs(ProcessStream(old(Model())), ok)
    {
      sub, state := ENDSTREAM_TOKEN, IND_OBJ;
      ok := PushState();
      if ok {
        state, sub := STREAM, NO_SUB;
      }
    }

    method ObjEolByte(c: byte) returns (ok: bool)
      requires Wf()
      modifies this, stack
      ensures Performs(ObjEol(old(Model()), c), ok)
    {
      ok := true;
      if IsEol(c) {
        sub := ENDOBJ_TOKEN;
        ok := PushState();
        if ok {
          sub, nesting, state, specIndex := DICT_OPEN, 0, DICT_OBJECT, 0;
          types := types.(session := NONE);
        }
      }
    }

    method ObjNumberByte(c: byte) returns (ok: bool)
      requires Wf() && Valid(Model()) && state == IND_OBJ && sub in {OBJ_NUMBER, GEN_NUMBER}
      modifies this, elemBuf
      ensures Performs(ObjNumber(old(Model()), c), ok)
    {
      ok := true;
      if IsDigit(c) {
        if elem < ELEM_BUF_LEN - 1 {
          elemBuf[elem] := c;
          elem := elem + 1;
        } else {
          ok := false;
        }
      } else if c == ' ' {
        elemBuf[elem] := '\0';
        sub := if sub == OBJ_NUMBER then GEN_NUMBER else OBJ_TOKEN;
        elem := 0;
      }
      assert spec[..specIndex] == old(spec[..specIndex]);
    }

    method ObjTokenByte(c: byte) returns (ok: bool)
      requires Wf() && Valid(Model()) && state == IND_OBJ && sub == OBJ_TOKEN
      modifies this, stack
      ensures Performs(ObjToken(old(Model()), c), ok)
    {
      if c != "obj"[elem] {
        return false;
      }
      elem := elem + 1;
      if elem == |"obj"| {
        sub := OBJ_EOL;
        return true;
      }
      ok := ObjEolByte(c);
    }

    method StreamTokenByte(c: byte) returns (ok: bool)
      requires Wf() && Valid(Model()) && state == IND_OBJ && sub == STREAM_TOKEN
      modifies this
      ensures Performs(StreamToken(old(Model()), c), ok)
    {
      if c == "stream"[elem] {
        elem := elem + 1;
        if elem == |"stream"| {
          sub := STREAM_EOL;
        }
      } else if IsWhitespace(c) {
        elem := 0;
      } else {
        return false;
      }
      ok := true;
    }

    method EndTokenByte(c: byte) returns (ok: bool)
      requires Wf() && Valid(Model()) && state == IND_OBJ && sub in {ENDSTREAM_TOKEN, ENDOBJ_TOKEN}
      modifies this
      ensures Performs(StepIndObj(old(Model()), c), ok)
    {
      var tok := if sub == ENDSTREAM_TOKEN then "endstream" else "endobj";
      if c == tok[elem] {
        elem := elem + 1;
        if elem == |tok| {
          if sub == ENDOBJ_TOKEN {
            ok := PopState();
            return;
          }
          sub, elem := ENDOBJ_TOKEN, 0;
        }
      } else {
        elem := 0;
      }
      ok := true;
    }

    method HandleIndObj(c: byte) returns (ok: bool)
      requires Wf() && Valid(Model()) && state == IND_OBJ
      modifies this, stack, elemBuf
      ensures Performs(StepIndObj(old(Model()), c), ok)
    {
      match sub
      case OBJ_NUMBER => ok := ObjNumberByte(c);
      case GEN_NUMBER => ok := ObjNumberByte(c);
      case OBJ_TOKEN => ok := ObjTokenByte(c);
      case OBJ_EOL => ok := ObjEolByte(c);
      case STREAM_TOKEN => ok := StreamTokenByte(c);
      case STREAM_EOL =>
        if c == '\r' {
          sub := STREAM_LF;
          ok := true;
        } else if c == '\n' {
          ok := EnterStream();
        } else {
          ok := false;
        }
      case STREAM_LF =>
        if c == '\n' {
          ok := EnterStream();
        } else {
          ok := false;
        }
      case ENDSTREAM_TOKEN => ok := EndTokenByte(c);
      case ENDOBJ_TOKEN => ok := EndTokenByte(c);
    }

    method HandleXref(c: byte) returns (ok: bool)
      requires Wf() && Valid(Model()) && state == XREF
      modifies this
      ensures Performs(StepXref(old(Model()), c), ok)
    {
      ok := true;
      if sub == XREF_TOKEN {
        if c == xrefTok[elem] {
          elem := elem + 1;
          if elem == |xrefTok| {
            elem, sub := 0, XREF_END_TOKEN;
          }
        } else {
          ok := false;
        }
      } else if c == "%%EOF"[elem] {
        elem := elem + 1;
        if elem == |"%%EOF"| {
          state := START;
        }
      } else {
        elem := 0;
      }
    }

    method HandleStart(c: byte) returns (ok: bool)
      requires Wf() && Valid(Model()) && state == START
      modifies this, stack, elemBuf
      ensures Performs(StepStart(old(Model()), c), ok)
    {
      ok := true;
      if IsWhitespace(c) {
      } else if c == '%' {
        state := COMMENT;
      } else if IsDigit(c) {
        ok := PushState();
        if ok {
          state, sub, elem := IND_OBJ, OBJ_NUMBER, 1;
          elemBuf[0] := c;
        }
      } else if c == 'x' || c == 's' {
        ok := PushState();
        if ok {
          sub, elem, state := XREF_TOKEN, 1, XREF;
          xrefTok := if c == 'x' then "xref" else "startxref";
        }
      } else {
        ok := false;
      }
    }

    /** One byte through the parser: the transition of the model, and the invariant with it. */
    method Feed(c: byte) returns (ok: bool)
      requires Wf() && Valid(Model()) && state != STREAM
      modifies this, stack, spec, elemBuf
      ensures Performs(Step(old(Model()), c), ok)
      ensures ok ==> Valid(Model())
    {
      StepKeeps(Model(), c);
      match state
      case START => ok := HandleStart(c);
      case COMMENT =>
        if IsEol(c) {
          state := START;
        }
        ok := true;
      case IND_OBJ => ok := HandleIndObj(c);
      case DICT_OBJECT => ok := HandleDict(c);
      case XREF => ok := HandleXref(c);
    }
  }

  datatype PdfState = LOCATE_STREAM | INIT_STREAM | PROCESS_STREAM

  /** Answers of a session call; DECOMP_ERROR reports a parse failure. */
  datatype Answer = BLOCK_IN | BLOCK_OUT | DECOMP_ERROR | ERROR

  lemma WrapAdd(a: nat, b: nat)
    ensures (a % UINT32 + b) % UINT32 == (a + b) % UINT32
  {
    var q := a / UINT32;
    assert a == q * UINT32 + a % UINT32;
    var r := (a % UINT32 + b) / UINT32;
    assert a + b == (q + r) * UINT32 + (a % UINT32 + b) % UINT32;
  }

  /** What zlib may answer: it stays within its windows, and OK means that it made progress. */
  predicate ZlibAnswer(input: bytes, room: nat, code: ZCode, used: nat, made: bytes) {
    && used <= |input| && |made| <= room
    && (code == Z_OK ==> used + |made| > 0)
  }

  /** Any legal answer of `inflate`. */
  method Inflate(input: bytes, room: nat) returns (code: ZCode, used: nat, made: bytes)
    ensures ZlibAnswer(input, room, code, used, made)
  {
    code, used, made := *, *, *;
    if !ZlibAnswer(input, room, code, used, made) {
      code, used, made := Z_STREAM_END, 0, [];
    }
  }

  /**
    A session (src/decompress/file_decomp.h, lines 97-133): `nextIn` is the input window, so its length
    is Avail_In; `out` collects what was written, `availOut` is the room left; the totals wrap at 32 bits.
    `log` records all that has happened since the session began.
   */
  class Session {
    const parse: ParseStruct
    var pdfState: PdfState
    var nextIn: bytes
    var out: bytes
    var availOut: nat
    var totalIn: nat
    var totalOut: nat
    var endFailed: bool
    ghost var log: seq<Event>
    ghost var fed: bytes

    ghost predicate Wf()
      reads this, parse
    {
      && parse.Wf()
      && fed == Consumed(log) && out == Produced(log) && Replay(log).Some?
      && totalIn == |fed| % UINT32 && totalOut == |out| % UINT32
    }

    /** The parser is where the log leads, and it stands at a stream while one is being decompressed. */
    ghost predicate Ready()
      reads this, parse, parse.stack, parse.spec
    {
      && Wf() && Replay(log) == Some(parse.Model()) && Valid(parse.Model())
      && (pdfState != LOCATE_STREAM ==> parse.state == STREAM)
    }

    /** Between calls: the stage that the log leads to is that of the session. */
    ghost predicate Settled()
      reads this, parse, parse.stack, parse.spec
    {
      && Ready() && pdfState != INIT_STREAM
      && StageOf(log) == Some(if pdfState == PROCESS_STREAM then Decoding else Seeking)
    }

    constructor ()
      ensures Settled() && pdfState == LOCATE_STREAM && log == [] && parse.Model() == Begin()
    {
      parse := new ParseStruct(Types(NONE, NONE, []));
      pdfState := LOCATE_STREAM;
      nextIn, out, availOut, totalIn, totalOut, endFailed := [], [], 0, 0, 0, false;
      log, fed := [], [];
      new;
      InitialIsValid(Types(NONE, NONE, []));
    }

    /** Consumes `used` bytes of input and writes `made`, keeping the totals. */
    method Account(used: nat, made: bytes, ghost e: Event)
      requires Wf() && used <= |nextIn| && |made| <= availOut && Replay(log + [e]).Some?
      requires || (e.Inflated? && e.input == nextIn[..used] && e.output == made)
               || (used == 1 && e == Copied(nextIn[0]) && made == nextIn[..1])
      modifies this`nextIn, this`out, this`availOut, this`totalIn, this`totalOut, this`log, this`fed
      ensures Wf() && log == old(log) + [e]
      ensures nextIn == old(nextIn)[used..] && availOut == old(availOut) - |made|
      ensures fed == old(fed) + old(nextIn)[..used] && out == old(out) + made
    {
      hide Replay, Consumed, Produced;
      SnocBytes(log, e);
      WrapAdd(|fed|, used);
      WrapAdd(|out|, |made|);
      fed := fed + nextIn[..used];
      out := out + made;
      totalIn, totalOut := (totalIn + used) % UINT32, (totalOut + |made|) % UINT32;
      nextIn, availOut := nextIn[used..], availOut - |made|;
      log := log + [e];
    }

    /** Parses the next byte and, if it is accepted, moves it from the input to the output. */
    method MoveByte() returns (ok: bool)
      requires Ready() && pdfState == LOCATE_STREAM
      requires nextIn != [] && availOut > 0 && parse.state != STREAM
      modifies this`nextIn, this`out, this`availOut, this`totalIn, this`totalOut, this`log, this`fed
      modifies parse, parse.stack, parse.spec, parse.elemBuf
      ensures Wf()
      ensures var c := old(nextIn)[0];
              var a := Advance(old(parse.Model()), c);
              && ok == a.Next?
              && (ok ==> Ready() && parse.Model() == a.s)
              && (ok ==> nextIn == old(nextIn)[1..] && availOut == old(availOut) - 1)
              && (ok ==> fed == old(fed) + [c] && out == old(out) + [c])
              && log == (if ok then old(log) + [Copied(c)] else old(log))
              && (!ok ==> parse.types.alerts == a.s.types.alerts)
              && (!ok ==> nextIn == old(nextIn) && availOut == old(availOut) && fed == old(fed) && out == old(out))
    {
      hide Step, Valid, Consumed, Produced, Replay;
      Snoc(log, Copied(nextIn[0]));
      ok := parse.Feed(nextIn[0]);
      if ok {
        Account(1, nextIn[..1], Copied(nextIn[0]));
      }
    }

    /** The stream locator: one call of the byte machine, performed in place. */
    method LocateStreamBeginning() returns (status: Status)
      requires Ready() && pdfState == LOCATE_STREAM
      modifies this`nextIn, this`out, this`availOut, this`totalIn, this`totalOut, this`log, this`fed
      modifies parse, parse.stack, parse.spec, parse.elemBuf
      ensures Wf()
      ensures var r := Locate(Pdf(), old(parse.Model()), old(nextIn), old(availOut));
              && status == r.status
              && nextIn == old(nextIn)[r.used..] && availOut == old(availOut) - r.used
              && fed == old(fed) + old(nextIn)[..r.used]
              && out == old(out) + old(nextIn)[..r.used]
              && log == old(log) + Copies(old(nextIn)[..r.used])
              && (status != Error ==> parse.Model() == r.s && Ready())
              && (status == Error ==> parse.types.alerts == r.s.types.alerts)
      ensures old(parse.state) != STREAM && status == Complete ==> |nextIn| < old(|nextIn|)
    {
      hide Advance, Valid, Consumed, Produced, Locate, Replay;
      ghost var m0, in0, room0 := parse.Model(), nextIn, availOut;
      ghost var r0 := Locate(Pdf(), m0, in0, room0);
      ghost var k := 0;
      while true
        invariant Ready() && pdfState == LOCATE_STREAM
        invariant k <= |in0| && k <= room0
        invariant nextIn == in0[k..] && availOut == room0 - k
        invariant fed == old(fed) + in0[..k] && out == old(out) + in0[..k]
        invariant log == old(log) + Copies(in0[..k])
        invariant r0 == Earlier(k, Locate(Pdf(), parse.Model(), nextIn, availOut))
        invariant k == 0 ==> parse.Model() == m0
        decreases |nextIn|
      {
        ByteMachine.LocateTurn(Pdf(), parse.Model(), nextIn, availOut);
        if |nextIn| == 0 {
          return BlockIn;
        }
        if availOut == 0 {
          return BlockOut;
        }
        if parse.state == STREAM {
          return Complete;
        }
        var ok := MoveByte();
        if !ok {
          return Error;
        }
        assert in0[..k + 1] == in0[..k] + [in0[k]];
        assert Copies(in0[..k + 1]) == Copies(in0[..k]) + [Copied(in0[k])];
        k := k + 1;
      }
    }

    method Alarm()
      requires Ready()
      modifies this`log, parse`types
      ensures Ready() && log == old(log) + [Alarmed]
      ensures parse.Model() == WithAlarm(old(parse.Model()))
    {
      hide Valid, Consumed, Produced, Replay;
      Snoc(log, Alarmed);
      SnocBytes(log, Alarmed);
      AlarmKeeps(parse.Model());
      log := log + [Alarmed];
      parse.types := parse.types.(alerts := parse.types.alerts + [DEFL_FAILURE]);
    }

    /** inflateEnd, which may fail. */
    method EndStream() returns (ok: bool)
      requires Ready() && pdfState != LOCATE_STREAM
      modifies this`endFailed, this`log, parse`types
      ensures Ready() && parse.state == STREAM
      ensures ok == !endFailed && log == if ok then old(log) else old(log) + [Alarmed]
    {
      hide Valid, Consumed, Produced, Replay;
      endFailed := *;
      ok := !endFailed;
      if !ok {
        Alarm();
      }
    }

    /** Returns the parser to where the stream interrupted it; this never fails. */
    method CloseAndResume() returns (ok: bool)
      requires Ready() && parse.state == STREAM
      modifies this`pdfState, this`log, parse`stackIndex, parse`elem, parse`state, parse`sub
      ensures ok && Ready() && pdfState == LOCATE_STREAM && log == old(log) + [Closed]
      ensures parse.state == IND_OBJ && parse.sub == ENDSTREAM_TOKEN
    {
      hide Valid, Consumed, Produced, Replay;
      CloseStreamKeeps(parse.Model());
      Snoc(log, Closed);
      SnocBytes(log, Closed);
      ok := parse.PopState();
      log := log + [Closed];
      pdfState := LOCATE_STREAM;
    }

    /** A failed initialisation or a decoder error: give the stream up and go on parsing behind it. */
    method AbandonStream()
      requires Ready() && pdfState != LOCATE_STREAM && StageOf(log) == Some(Leaving)
      modifies this`pdfState, this`endFailed, this`log, parse
      ensures Settled() && pdfState == LOCATE_STREAM && old(log) <= log
      ensures parse.state == IND_OBJ && parse.sub == ENDSTREAM_TOKEN
    {
      hide Valid, Consumed, Produced, Replay, StageOf;
      SnocStage(log, Alarmed);
      var _ := EndStream();
      SnocStage(log, Closed);
      var _ := CloseAndResume();
      SnocStage(log, Alarmed);
      Alarm();
    }

    /** One turn of the decoder. */
    method DecompStream() returns (code: ZCode, blocked: bool, why: Answer)
      requires Settled() && pdfState == PROCESS_STREAM
      modifies this`nextIn, this`out, this`availOut, this`totalIn, this`totalOut, this`log, this`fed, parse`types
      ensures Ready() && parse.state == STREAM && old(log) <= log
      ensures StageOf(log) == Some(match code case Z_OK => Decoding case Z_STREAM_END => Ended case Z_OTHER => Leaving)
      ensures code != Z_OTHER ==> parse.Model() == old(parse.Model())
      ensures blocked ==> code == Z_OK && log == old(log)
      ensures !blocked ==> |log| > |old(log)| && log[|old(log)|].Inflated? && log[|old(log)|].code == code
      ensures blocked ==> (why == BLOCK_IN && |nextIn| == 0) || (why == BLOCK_OUT && availOut == 0)
      ensures |nextIn| + availOut <= old(|nextIn| + availOut)
      ensures !blocked && code == Z_OK ==> |nextIn| + availOut < old(|nextIn| + availOut)
      ensures fed + nextIn == old(fed) + old(nextIn)
      ensures availOut + |out| == old(availOut + |out|) && old(out) <= out
    {
      hide Valid, Consumed, Produced, Replay, StageOf;
      code, blocked, why := Z_OK, true, BLOCK_IN;
      if |nextIn| == 0 {
        return;
      }
      if availOut == 0 {
        why := BLOCK_OUT;
        return;
      }
      blocked := false;
      var used, made;
      code, used, made := Inflate(nextIn, availOut);
      assert nextIn == nextIn[..used] + nextIn[used..];
      Snoc(log, Inflated(nextIn[..used], made, code));
      SnocStage(log, Inflated(nextIn[..used], made, code));
      Account(used, made, Inflated(nextIn[..used], made, code));
      if code == Z_OTHER {
        SnocStage(log, Alarmed);
        Alarm();
      }
    }

    /** Everything consumed and produced so far, with what is still available, is what there was. */
    twostate predicate Conserves()
      reads this
    {
      && fed + nextIn == old(fed) + old(nextIn)
      && availOut + |out| == old(availOut + |out|)
      && old(out) <= out && old(log) <= log
    }

    /** The parser that the log leads to rejects the first byte that is left. */
    ghost predicate Rejected()
      reads this
    {
      && Replay(log).Some? && Replay(log).value.state != STREAM
      && nextIn != [] && Rejects(Replay(log).value, nextIn[0])
    }

    /** Locating from any state conserves; it fails at the first byte that the bytes before it lead to reject. */
    method FindStream() returns (status: Status)
      requires Settled() && pdfState == LOCATE_STREAM
      modifies this`nextIn, this`out, this`availOut, this`totalIn, this`totalOut, this`log, this`fed
      modifies parse, parse.stack, parse.spec, parse.elemBuf
      ensures Wf() && Conserves() && StageOf(log) == Some(Seeking)
      ensures status != Error ==> Ready()
      ensures status == BlockIn ==> |nextIn| == 0
      ensures status == BlockOut ==> availOut == 0
      ensures status == Complete ==> parse.state == STREAM
      ensures status == Complete ==>
                if old(parse.state) == STREAM then |nextIn| + availOut == old(|nextIn| + availOut)
                else |nextIn| + availOut < old(|nextIn| + availOut)
      ensures status == Error ==>
                && Rejected() && |nextIn| <= |old(nextIn)|
                && Replay(log) == Run(Pdf(), old(parse.Model()), old(nextIn)[..|old(nextIn)| - |nextIn|])
    {
      hide Advance, Valid, Consumed, Produced, Locate, Rejects, Replay, Run, StageOf;
      ghost var p, input, room := parse.Model(), nextIn, availOut;
      status := LocateStreamBeginning();
      ghost var r := Locate(Pdf(), p, input, room);
      assert input == input[..r.used] + input[r.used..];
      CopiesSeek(old(log), input[..r.used]);
      ByteMachine.LocateTurn(Pdf(), p, input, room);
      if status == Error {
        RejectedBy(p, input, room);
        ReplayCopies(old(log), input[..r.used]);
      }
    }

    /** How a turn at a stream ends: with an answer, or with less to do or the stream behind us. */
    twostate predicate TurnOver(done: bool, answer: Answer)
      reads this, parse, parse.stack, parse.spec
    {
      && Wf() && Conserves()
      && (!done ==> Settled() && |nextIn| + availOut <= old(|nextIn| + availOut))
      && (!done ==>
            || (pdfState == PROCESS_STREAM && |nextIn| + availOut < old(|nextIn| + availOut))
            || (pdfState == LOCATE_STREAM && parse.state == IND_OBJ && parse.sub == ENDSTREAM_TOKEN))
      && (done && answer == BLOCK_IN ==> Settled() && pdfState == PROCESS_STREAM && |nextIn| == 0)
      && (done && answer == BLOCK_OUT ==> Settled() && pdfState == PROCESS_STREAM && availOut == 0)
      && (done && answer == ERROR ==> endFailed && StageOf(log) == Some(Broken))
      && (done ==> answer != DECOMP_ERROR)
    }

    /**
      A turn of decompression.  If the decoder answers OK or is blocked, the session goes on with the stream, the
      parser as it was; otherwise the stream is closed, unless the decoder cannot be.
     */
    method ProcessTurn() returns (done: bool, answer: Answer)
      requires Settled() && pdfState == PROCESS_STREAM
      modifies this, parse
      ensures TurnOver(done, answer)
      ensures pdfState == PROCESS_STREAM && !(done && answer == ERROR) ==> parse.Model() == old(parse.Model())
      ensures !done ==>
                && |log| > |old(log)| && log[|old(log)|].Inflated?
                && (pdfState == PROCESS_STREAM <==> log[|old(log)|].code == Z_OK)
    {
      hide Valid, Consumed, Produced, Replay, StageOf;
      var code, blocked, why := DecompStream();
      done, answer := blocked, why;
      if blocked {
        return;
      }
      if code == Z_OTHER {
        AbandonStream();
      } else if code == Z_STREAM_END {
        SnocStage(log, Alarmed);
        var ended := EndStream();
        if !ended {
          return true, ERROR;
        }
        SnocStage(log, Closed);
        var _ := CloseAndResume();
      }
    }

    /** Initialises the decoder if that is still to be done; a stream without decoder is given up. */
    method InitTurn() returns (ok: bool)
      requires Ready() && pdfState == INIT_STREAM && StageOf(log) == Some(Seeking)
      modifies this`pdfState, this`endFailed, this`log, parse
      ensures Settled() && old(log) <= log
      ensures ok ==> pdfState == PROCESS_STREAM && log == old(log) + [Opened] && parse.Model() == old(parse.Model())
      ensures !ok ==>
                && pdfState == LOCATE_STREAM && parse.state == IND_OBJ && parse.sub == ENDSTREAM_TOKEN
                && old(log) + [Unready] <= log
    {
      hide Valid, Consumed, Produced, Replay, StageOf;
      ok := *;
      ghost var e := if ok then Opened else Unready;
      Snoc(log, e);
      SnocBytes(log, e);
      SnocStage(log, e);
      log := log + [e];
      if ok {
        pdfState := PROCESS_STREAM;
      } else {
        SnocStage(log, Alarmed);
        Alarm();
        AbandonStream();
      }
    }

    /** Initialises the decoder if that is still to be done, then lets it work. */
    method StreamTurn() returns (done: bool, answer: Answer)
      requires Ready() && pdfState != LOCATE_STREAM
      requires StageOf(log) == Some(if pdfState == PROCESS_STREAM then Decoding else Seeking)
      modifies this, parse
      ensures TurnOver(done, answer)
    {
      hide Valid, Consumed, Produced, Replay, StageOf;
      done, answer := false, BLOCK_IN;
      if pdfState == INIT_STREAM {
        var ok := InitTurn();
        if !ok {
          return;
        }
      }
      done, answer := ProcessTurn();
    }

    /** Looks for a stream; unless that is answered, the decoder is to be initialised next. */
    method LocateTurn() returns (done: bool, answer: Answer)
      requires Settled() && pdfState == LOCATE_STREAM
      modifies this, parse, parse.stack, parse.spec, parse.elemBuf
      ensures Wf() && Conserves() && StageOf(log) == Some(Seeking)
      ensures !done ==> Ready() && pdfState == INIT_STREAM
      ensures !done ==>
                if old(parse.state) == STREAM then |nextIn| + availOut == old(|nextIn| + availOut)
                else |nextIn| + availOut < old(|nextIn| + availOut)
      ensures done ==> answer != ERROR
      ensures done && answer == BLOCK_IN ==> Settled() && |nextIn| == 0
      ensures done && answer == BLOCK_OUT ==> Settled() && availOut == 0
      ensures done && answer == DECOMP_ERROR ==> Rejected()
    {
      hide Valid, Consumed, Produced, Rejects, Replay, Run, StageOf;
      var status := FindStream();
      if status == Error {
        return true, DECOMP_ERROR;
      }
      if status != Complete {
        return true, if status == BlockIn then BLOCK_IN else BLOCK_OUT;
      }
      StreamHasType(parse.Model());
      done, answer := false, BLOCK_IN;
      if parse.types.session == NONE {
        assert false;
      } else {
        pdfState := INIT_STREAM;
      }
    }

    /**
      The session loop.  It terminates for every input and every decoder, since whenever the parser stops
      at a stream there is a type to decompress, so that the answer `no compression` that would spin does
      not occur.  A blocked session is ready for the next call; the only hard error is a decoder that
      cannot be closed; a parse failure means that the parser to which everything logged since the session
      began has led rejects the next byte.  The log is in order: a stream is closed exactly when the decoder has
      answered other than OK, or could not be initialised.
     */
    method Decompress() returns (answer: Answer)
      requires Settled()
      modifies this, parse, parse.stack, parse.spec, parse.elemBuf
      ensures Wf() && Conserves()
      ensures answer == BLOCK_IN ==> Settled() && |nextIn| == 0
      ensures answer == BLOCK_OUT ==> Settled() && availOut == 0
      ensures answer == DECOMP_ERROR ==> Rejected() && StageOf(log) == Some(Seeking)
      ensures answer == ERROR ==> endFailed && StageOf(log) == Some(Broken)
    {
      hide Valid, Consumed, Produced, Rejects, Replay, StageOf;
      while true
        invariant Settled() && Conserves()
        decreases |nextIn| + availOut, Rank()
      {
        if pdfState == LOCATE_STREAM {
          var found, reply := LocateTurn();
          if found {
            return reply;
          }
        }
        var done, why := StreamTurn();
        if done {
          return why;
        }
      }
    }

    /** Position in the cycle: about to decompress, decompressing, looking for a stream. */
    ghost function Rank(): nat
      reads this, parse
    {
      if pdfState != LOCATE_STREAM then 1 else if parse.state == STREAM then 2 else 0
    }
  }

  lemma StreamHasType(p: Parser)
    requires Valid(p) && p.state == STREAM
    ensures p.types.session == DEFLATE
  {
    CloseStreamKeeps(p);
  }

  /** A locating call fails at the first byte that the state its bytes have led to rejects. */
  lemma RejectedBy(p: Parser, input: bytes, room: nat)
    requires Valid(p) && Locate(Pdf(), p, input, room).status == Error
    ensures var r := Locate(Pdf(), p, input, room);
            && r.used < |input| && Run(Pdf(), p, input[..r.used]).Some?
            && var q := Run(Pdf(), p, input[..r.used]).value;
               q.state != STREAM && Valid(q) && Rejects(q, input[r.used])
  {
    hide Valid, Rejects, Step, Locate;
    LocateIsRun(Pdf(), p, input, room);
    var r := Locate(Pdf(), p, input, room);
    ReachableIsValid(p, input[..r.used]);
    var q := Run(Pdf(), p, input[..r.used]).value;
    NotAtStream(p, input, room, q);
    RejectsExactly(q, input[r.used]);
  }

  /** A byte is only ever rejected by a parser that is not at a stream. */
  lemma {:induction false} NotAtStream(p: Parser, input: bytes, room: nat, q: Parser)
    requires Locate(Pdf(), p, input, room).status == Error
    requires Run(Pdf(), p, input[..Locate(Pdf(), p, input, room).used]) == Some(q)
    ensures q.state != STREAM
    decreases |input|
  {
    hide Step;
    var r := Locate(Pdf(), p, input, room);
    if r.used > 0 {
      RunHead(Pdf(), p, input[..r.used]);
      assert input[..r.used][1..] == input[1..][..r.used - 1];
      NotAtStream(Advance(p, input[0]).s, input[1..], room - 1, q);
    }
  }
}
