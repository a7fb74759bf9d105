/**
  What the PDF parser recognises (src/decompress/file_decomp_pdf.cc, lines 336-819): whole objects with a compressed
  stream, from the digits of their number to the first byte of the stream, what ends them, and xref blocks.
 */
module PdfRecognise {
  import opened Basics
  import opened PdfFilter
  import opened PdfGrammar
  import opened PdfInvariant
  import opened PdfFilterName
  import opened ByteMachine
  import opened PdfStreaming
  import opened PdfDocument
  import opened PdfTokens

  // ----- the head of an object -----

  /** Up to eleven digits fit into the number of an object. */
  lemma {:induction false} ReadsDigits(p: Parser, w: bytes)
    requires p.state == IND_OBJ && p.sub in {OBJ_NUMBER, GEN_NUMBER} && AllDigits(w)
    requires p.elem + |w| < ELEM_BUF_LEN
    ensures Read(p, w) == Some(p.(elem := p.elem + |w|))
  {
    if w != [] {
      var n := |w| - 1;
      ReadsDigits(p, w[..n]);
      assert w == w[..n] + [w[n]];
      DigitByte(p.(elem := p.elem + n), w[n]);
      hide Step, Run;
      ReadLast(p, w[..n], w[n]);
    } else {
      assert p.(elem := p.elem + |w|) == p;
    }
  }

  lemma DigitByte(p: Parser, c: byte)
    requires p.state == IND_OBJ && p.sub in {OBJ_NUMBER, GEN_NUMBER} && IsDigit(c) && p.elem < ELEM_BUF_LEN - 1
    ensures Step(p, c) == Ok(p.(elem := p.elem + 1))
  {
  }

  function Opened1(p: Parser): Parser {
    p.(stack := p.stack + [Entry(START, p.sub)], state := IND_OBJ, sub := OBJ_TOKEN, elem := 0)
  }

  lemma ReadsNumbers(p: Parser, num: bytes, gen: bytes)
    requires p.state == START && |p.stack| < PARSE_STACK_LEN - 1
    requires AllDigits(num) && AllDigits(gen) && 0 < |num| < ELEM_BUF_LEN && |gen| < ELEM_BUF_LEN
    ensures Read(p, num + " " + gen + " ") == Some(Opened1(p))
  {
    var q := p.(stack := p.stack + [Entry(START, p.sub)], state := IND_OBJ, sub := OBJ_NUMBER, elem := 1);
    ReadOne(p, num[0]);
    assert num == [num[0]] + num[1..];
    ReadOn(p, [num[0]], num[1..]);
    ReadsDigits(q, num[1..]);
    ReadLast(p, num, ' ');
    var g := q.(sub := GEN_NUMBER, elem := 0);
    assert Read(p, num + " ") == Some(g);
    ReadOn(p, num + " ", gen);
    ReadsDigits(g, gen);
    ReadLast(p, num + " " + gen, ' ');
  }

  /** `obj` and the end of its line, after anything on the line, open a dictionary. */
  function Opened2(p: Parser): Parser {
    EnterDict(p.(sub := DICT_OPEN, elem := 3, stack := p.stack + [Entry(IND_OBJ, ENDOBJ_TOKEN)]))
  }

  lemma ReadsObj(p: Parser)
    requires p.state == IND_OBJ && p.sub == OBJ_TOKEN && p.elem == 0
    ensures Read(p, "obj") == Some(p.(sub := OBJ_EOL, elem := 3))
  {
    var tok := "obj";
    CountsNone(p, tok);
    CountsOne(p, tok, 0);
    CountsOne(p, tok, 1);
    CountsAll(p, tok);
  }

  lemma ReadsObjLine(p: Parser, line: bytes, eol: byte)
    requires p.state == IND_OBJ && p.sub == OBJ_TOKEN && p.elem == 0
    requires (forall i | 0 <= i < |line| :: !IsEol(line[i])) && IsEol(eol)
    ensures Read(p, "obj" + line + [eol]) == if |p.stack| < PARSE_STACK_LEN - 1 then Some(Opened2(p)) else None
  {
    var q := p.(sub := OBJ_EOL, elem := 3);
    ReadsObj(p);
    ReadOn(p, "obj", line);
    ReadsIdly(q, line);
    ReadLast(p, "obj" + line, eol);
  }

  lemma ReadsOpen(p: Parser, space: bytes)
    requires p.state == DICT_OBJECT && p.sub == DICT_OPEN && p.nesting == 0 && AllSpace(space)
    ensures Read(p, space + "<<") == Some(p.(sub := DICT_ACTIVE, nesting := 1))
  {
    assert Idles(p, space);
    var q := p.(sub := DICT_OPEN_TOK);
    assert Step(p, '<') == Ok(q) && Step(q, '<') == Ok(p.(sub := DICT_ACTIVE, nesting := 1));
    hide Step, Run;
    ReadsIdly(p, space);
    ReadLast(p, space, '<');
    ReadLast(p, space + ['<'], '<');
    assert space + ['<'] + ['<'] == space + "<<";
  }

  // ----- the body of the dictionary -----

  /** Neither the name nor, at the start, what a stale index takes for it. */
  predicate Nameless(w: bytes) {
    forall i | 0 <= i <= |w| :: !EndsIn(w[..i], "Filter") && w[..i] != "ter"
  }

  lemma OnlyStale(v: bytes)
    requires Without(v, '<') && EndsIn("<<" + v, "<<ter")
    ensures v == "ter"
  {
    var x := "<<" + v;
    assert x[|x| - 4] == "<<ter"[1] == '<';
    assert forall i | 2 <= i < |x| :: x[i] == v[i - 2] && x[i] != '<';
    assert v == x[2..];
  }

  lemma OnlyWhole(v: bytes)
    requires EndsIn("<<" + v, "Filter")
    ensures EndsIn(v, "Filter")
  {
    var x := "<<" + v;
    assert x[|x| - 6] == "Filter"[0] == 'F' && x[|x| - 5] == "Filter"[1] == 'i';
    assert v[|v| - 6..] == x[|x| - 6..];
  }

  lemma StaysNameless(w: bytes, i: nat)
    requires Nameless(w) && Without(w, '<') && i <= |w|
    ensures !Named("<<" + w[..i])
  {
    var v := w[..i];
    assert !EndsIn(v, "Filter") && v != "ter";
    hide EndsIn;
    if Named("<<" + v) {
      if EndsIn("<<" + v, "Filter") { OnlyWhole(v); } else { OnlyStale(v); }
      assert false;
    }
  }

  lemma {:induction false} ReadsBody(p: Parser, w: bytes)
    requires p.state == DICT_OBJECT && p.sub == DICT_ACTIVE && p.elem == 3
    requires Nameless(w) && Without(w, '<') && Without(w, '>')
    ensures var r := Read(p, w);
            r.Some? && r.value == p.(elem := r.value.elem) && r.value.elem < 6 && PartlyNamed("<<" + w, r.value.elem)
  {
    hide PartlyNamed, Named, Nameless, EndsIn;
    if w == [] {
      StaleStart();
      assert p.(elem := 3) == p;
      assert "<<" + w == "<<";
    } else {
      var n, c := |w| - 1, w[|w| - 1];
      NamelessFront(w);
      ReadsBody(p, w[..n]);
      assert w == w[..n] + [c];
      ReadLast(p, w[..n], c);
      var q := Read(p, w[..n]).value;
      assert "<<" + w == ("<<" + w[..n]) + [c];
      StaysNameless(w, |w|);
      assert w[..|w|] == w;
      BodyByte(q, "<<" + w[..n], c);
    }
  }

  lemma StaleStart()
    ensures PartlyNamed("<<", 3)
  {
    assert "<<" + "Filter"[3..3] == "<<";
  }

  lemma NamelessFront(w: bytes)
    requires Nameless(w) && w != []
    ensures Nameless(w[..|w| - 1])
  {
    var v := w[..|w| - 1];
    forall i | 0 <= i <= |v| ensures !EndsIn(v[..i], "Filter") && v[..i] != "ter" {
      assert v[..i] == w[..i];
    }
  }

  /** A byte of the body moves the index only, as long as the name is not complete. */
  lemma BodyByte(p: Parser, w: bytes, c: byte)
    requires p.state == DICT_OBJECT && p.sub == DICT_ACTIVE && p.elem < 6 && PartlyNamed(w, p.elem)
    requires c != '<' && c != '>' && !Named(w + [c])
    ensures Step(p, c).Ok?
    ensures var q := Step(p, c).p; q == p.(elem := q.elem) && q.elem < 6 && PartlyNamed(w + [c], q.elem)
  {
    hide PartlyNamed, Named;
    if c == "Filter"[p.elem] {
      PartOfName(w, p.elem, c);
    } else {
      NoName(w + [c]);
    }
  }

  /** `/Filter` in the dictionary is always recognised: the slash resets the index. */
  lemma ReadsName(p: Parser)
    requires p.state == DICT_OBJECT && p.sub == DICT_ACTIVE && p.elem < 6
    ensures Read(p, "/Filter") == Some(p.(elem := 6, sub := DICT_FILTER))
  {
    ReadOne(p, '/');
    assert Step(p, '/') == Ok(p.(elem := 0));
    NameExactly(p.(elem := 0));
    ReadOn(p, "/", "Filter");
    assert "/" + "Filter" == "/Filter";
  }

  // ----- the specification -----

  /** One for nothing yet, two inside an array, three behind a name or an array. */
  function NestingOf(w: bytes): nat {
    if w == [] then 1
    else
      var k, c := NestingOf(w[..|w| - 1]), w[|w| - 1];
      if c == '/' && k == 1 then 3 else if c == '[' && k == 1 then 2 else if c == ']' && k == 2 then 3 else k
  }

  /** A specification that fits the buffer and is not over before its end. */
  predicate OneSpec(w: bytes) {
    && |w| < FILTER_SPEC_BUF_LEN && Without(w, '>')
    && forall i | 0 <= i < |w| :: w[i] == '/' ==> NestingOf(w[..i]) != 3
  }

  lemma {:induction false} ReadsSpec(p: Parser, w: bytes)
    requires p.state == DICT_OBJECT && p.sub == DICT_FILTER && p.nesting == 1 && p.spec == [] && OneSpec(w)
    ensures Read(p, w) == Some(p.(nesting := NestingOf(w), spec := w))
  {
    if w == [] {
      assert p.(nesting := 1, spec := w) == p;
    } else {
      var n := |w| - 1;
      assert w == w[..n] + [w[n]];
      assert forall i | 0 <= i < n :: w[..n][..i] == w[..i];
      ReadsSpec(p, w[..n]);
      SpecByte(p.(nesting := NestingOf(w[..n]), spec := w[..n]), w[n]);
      StepsFilter(p.(nesting := NestingOf(w[..n]), spec := w[..n]), w[n]);
      hide Step, Run;
      ReadLast(p, w[..n], w[n]);
    }
  }

  lemma SpecByte(p: Parser, c: byte)
    requires p.state == DICT_OBJECT && p.sub == DICT_FILTER && |p.spec| < FILTER_SPEC_BUF_LEN - 1
    requires c != '>' && (c == '/' ==> p.nesting != 3) && p.nesting == NestingOf(p.spec)
    ensures DictFilter(p, c) == Ok(p.(nesting := NestingOf(p.spec + [c]), spec := p.spec + [c]))
  {
    hide ProcessFilterSpec;
    assert (p.spec + [c])[..|p.spec|] == p.spec;
  }

  lemma StepsFilter(p: Parser, c: byte)
    requires p.state == DICT_OBJECT && p.sub == DICT_FILTER
    ensures Step(p, c) == DictFilter(p, c)
  {
    hide DictFilter;
  }

  // ----- the end of the dictionary -----

  /** The object that a closed dictionary with an accepted filter returns to. */
  function Awaits(p: Parser, t: Types): Parser
    requires p.stack != []
  {
    p.(types := t, stack := p.stack[..|p.stack| - 1], state := IND_OBJ, sub := STREAM_TOKEN, elem := 0)
  }

  lemma ReadsClose(p: Parser, t: Types)
    requires p.state == DICT_OBJECT && (p.sub == DICT_FILTER || p.sub == DICT_SKIP) && t.session == DEFLATE
    requires p.stack != [] && p.stack[|p.stack| - 1] == Entry(IND_OBJ, ENDOBJ_TOKEN)
    requires if p.sub == DICT_FILTER then ProcessFilterSpec(p.spec, p.types) == Filtered(true, t) else p.types == t
    ensures Read(p, ">>") == if |p.stack| < PARSE_STACK_LEN - 1 then Some(Awaits(p, t)) else None
  {
    hide ProcessFilterSpec;
    ReadOne(p, '>');
    ReadLast(p, ">", '>');
    assert ">" + ['>'] == ">>";
    if |p.stack| < PARSE_STACK_LEN - 1 {
      var q := p.(stack := p.stack + [Entry(DICT_OBJECT, p.sub)], types := t, sub := DICT_CLOSE_TOK,
                  elem := if p.sub == DICT_SKIP then 0 else p.elem);
      assert Read(p, ">") == Some(q);
      ClosesTwice(p, q, t);
    }
  }

  lemma ClosesTwice(p: Parser, q: Parser, t: Types)
    requires p.state == DICT_OBJECT && p.stack != [] && p.stack[|p.stack| - 1] == Entry(IND_OBJ, ENDOBJ_TOKEN)
    requires q == p.(stack := p.stack + [Entry(DICT_OBJECT, p.sub)], types := t, sub := DICT_CLOSE_TOK, elem := q.elem)
    requires t.session == DEFLATE
    ensures Step(q, '>') == Ok(Awaits(p, t))
  {
    var r := Pop(q).p;
    assert r == p.(types := t, elem := 0);
    var n := |p.stack| - 1;
    assert AwaitStream(r).stack[..n] == p.stack[..n];
  }

  /** What may follow the specification before the dictionary closes: nothing, or other entries. */
  predicate Tail(spec: bytes, tail: bytes) {
    tail == [] || (NestingOf(spec) == 3 && tail[0] == '/' && Without(tail, '<') && Without(tail, '>'))
  }

  lemma ReadsTail(p: Parser, tail: bytes, t: Types)
    requires p.state == DICT_OBJECT && p.sub == DICT_FILTER && t.session == DEFLATE && p.nesting == NestingOf(p.spec)
    requires ProcessFilterSpec(p.spec, p.types) == Filtered(true, t) && Tail(p.spec, tail)
    requires p.stack != [] && p.stack[|p.stack| - 1] == Entry(IND_OBJ, ENDOBJ_TOKEN)
    ensures Read(p, tail + ">>") == if |p.stack| < PARSE_STACK_LEN - 1 then Some(Awaits(p, t)) else None
  {
    hide ProcessFilterSpec, NestingOf, Step, Run;
    if tail == [] {
      assert tail + ">>" == ">>";
      ReadsClose(p, t);
    } else {
      var q := p.(types := t, sub := DICT_SKIP);
      var e := if |tail| == 1 then p.elem else 0;
      SkipsRest(p, tail, q);
      ReadOn(p, tail, ">>");
      ReadsClose(q.(elem := e), t);
    }
  }

  lemma SkipsRest(p: Parser, tail: bytes, q: Parser)
    requires p.state == DICT_OBJECT && p.sub == DICT_FILTER && p.nesting == 3
    requires tail != [] && tail[0] == '/' && Without(tail, '<') && Without(tail, '>')
    requires q == p.(types := q.types, sub := DICT_SKIP)
    requires ProcessFilterSpec(p.spec, p.types) == Filtered(true, q.types)
    ensures Read(p, tail) == Some(q.(elem := if |tail| == 1 then p.elem else 0))
  {
    hide ProcessFilterSpec;
    ReadOne(p, '/');
    assert tail == ['/'] + tail[1..];
    ReadOn(p, ['/'], tail[1..]);
    assert Read(p, ['/']) == Some(q);
    if |tail| > 1 {
      ReadOne(q, tail[1]);
      assert tail[1..] == [tail[1]] + tail[2..];
      ReadOn(q, [tail[1]], tail[2..]);
      ReadsIdly(q.(elem := 0), tail[2..]);
    } else {
      assert tail[1..] == [];
      assert q.(elem := p.elem) == q;
    }
  }

  // ----- the start of the stream -----

  function Located(p: Parser): Parser {
    p.(elem := 6, state := STREAM, sub := NO_SUB, stack := p.stack + [Entry(IND_OBJ, ENDSTREAM_TOKEN)])
  }

  lemma ReadsHeader(p: Parser, gap: bytes, eol: bytes)
    requires p.state == IND_OBJ && p.sub == STREAM_TOKEN && p.elem == 0 && |p.stack| < PARSE_STACK_LEN - 1
    requires AllSpace(gap) && (eol == "\n" || eol == "\r\n")
    ensures Read(p, gap + "stream" + eol) == Some(Located(p))
  {
    assert Idles(p, gap);
    hide Step;
    ReadsIdly(p, gap);
    ReadOn(p, gap, "stream");
    ReadsStream(p);
    ReadOn(p, gap + "stream", eol);
    ReadsLineEnd(p.(elem := 6, sub := STREAM_EOL), eol);
  }

  lemma ReadsLineEnd(p: Parser, eol: bytes)
    requires p.state == IND_OBJ && p.sub == STREAM_EOL && p.elem == 6 && |p.stack| < PARSE_STACK_LEN - 1
    requires eol == "\n" || eol == "\r\n"
    ensures Read(p, eol) == Some(Located(p))
  {
    if eol == "\n" {
      ReadOne(p, '\n');
    } else {
      ReadOne(p, '\r');
      ReadLast(p, "\r", '\n');
      assert "\r" + ['\n'] == eol;
    }
  }

  // ----- whole objects -----

  /** An indirect object with a filter among its entries, up to the first byte of its stream. */
  datatype Object = Object(
    num: bytes, gen: bytes, line: bytes, eol: byte, space: bytes, body: bytes, spec: bytes, tail: bytes, gap: bytes,
    end: bytes)

  ghost predicate WellFormed(o: Object) {
    && AllDigits(o.num) && AllDigits(o.gen) && 0 < |o.num| < ELEM_BUF_LEN && |o.gen| < ELEM_BUF_LEN
    && (forall i | 0 <= i < |o.line| :: !IsEol(o.line[i])) && IsEol(o.eol) && AllSpace(o.space)
    && Nameless(o.body) && Without(o.body, '<') && Without(o.body, '>')
    && OneSpec(o.spec) && Accepted(o.spec) && Tail(o.spec, o.tail)
    && AllSpace(o.gap) && (o.end == "\n" || o.end == "\r\n")
  }

  /** Such objects are what writers of PDF files write, with either name of the filter. */
  lemma OrdinaryIsWellFormed(name: bytes, tail: bytes)
    requires name == "FlateDecode" || name == "Fl"
    requires tail == [] || (tail[0] == '/' && Without(tail, '<') && Without(tail, '>'))
    ensures WellFormed(Object("1", "0", "", '\n', "", "/Length 9", ['/'] + name, tail, "\n", "\n"))
  {
    hide Nameless, OneSpec, Accepted, NestingOf;
    BothAreFlate(name);
    PlainFlate(name);
    PlainBody("/Length 9");
  }

  lemma BothAreFlate(name: bytes)
    requires name == "FlateDecode" || name == "Fl"
    ensures PlainName(name) && IsFlate(name)
  {
  }

  lemma PlainBody(body: bytes)
    requires body != [] && body[0] == '/' && Without(body, 'F')
    ensures Nameless(body)
  {
    forall i | 0 <= i <= |body| ensures !EndsIn(body[..i], "Filter") && body[..i] != "ter" {
      var v := body[..i];
      assert i > 0 ==> v[0] == '/';
      if EndsIn(v, "Filter") { HasF(v); }
    }
  }

  lemma HasF(v: bytes)
    requires EndsIn(v, "Filter")
    ensures !Without(v, 'F')
  {
    assert v[|v| - 6] == "Filter"[0];
  }

  /** A name without delimiters, as of a filter. */
  predicate PlainName(name: bytes) {
    0 < |name| < 30 && Without(name, '>') && forall i | 0 <= i < |name| :: !IsDelim(name[i])
  }

  lemma PlainFlate(name: bytes)
    requires PlainName(name) && IsFlate(name)
    ensures var spec := ['/'] + name; OneSpec(spec) && Accepted(spec) && NestingOf(spec) == 3
  {
    hide IsFlate, NestingOf, Accepted;
    var spec := ['/'] + name;
    PlainNesting(spec, |spec|);
    assert spec[..|spec|] == spec;
    PlainAccepted(name);
    NoNesting(spec[..0]);
  }

  lemma NoNesting(w: bytes)
    requires w == []
    ensures NestingOf(w) == 1
  {
  }

  lemma PlainAccepted(name: bytes)
    requires PlainName(name) && IsFlate(name)
    ensures Accepted(['/'] + name)
  {
    hide Names, FlateTail, Depth, IsFlate;
    var spec := ['/'] + name;
    PlainNames(name);
    forall i | 0 <= i <= |spec| ensures Depth(spec[..i]) == 0 { NoBrackets(spec[..i]); }
    assert spec[..|spec|] == spec;
  }

  lemma PlainNames(name: bytes)
    requires PlainName(name) && IsFlate(name)
    ensures FlateTail(Names(['/'] + name)) == 1
  {
    hide IsFlate;
    var spec := ['/'] + name;
    assert spec[1..] == name && [] + name == name;
    OneName(spec, 1, []);
    assert Names(spec) == [] + [name] == [name];
    assert [name][..0] == [];
  }

  lemma {:induction false} OneName(spec: bytes, i: nat, cur: bytes)
    requires i <= |spec| && (forall j | i <= j < |spec| :: !IsDelim(spec[j])) && cur + spec[i..] != []
    ensures NamesFrom(spec, i, cur) == [cur + spec[i..]]
    decreases |spec| - i
  {
    if i < |spec| {
      assert cur + spec[i..] == (cur + [spec[i]]) + spec[i + 1..];
      OneName(spec, i + 1, cur + [spec[i]]);
    } else {
      assert cur + spec[i..] == cur;
    }
  }

  lemma {:induction false} PlainNesting(spec: bytes, i: nat)
    requires 0 < i <= |spec| && spec[0] == '/'
    ensures NestingOf(spec[..i]) == 3
  {
    var k := i - 1;
    assert spec[..i][..k] == spec[..k];
    if k > 0 {
      PlainNesting(spec, k);
    }
  }

  lemma {:induction false} NoBrackets(s: bytes)
    requires Without(s, '[') && Without(s, ']')
    ensures Depth(s) == 0
  {
    if s != [] {
      NoBrackets(s[..|s| - 1]);
    }
  }

  function Head(o: Object): bytes { o.num + " " + o.gen + " " }
  function Line(o: Object): bytes { "obj" + o.line + [o.eol] }
  function Entries(o: Object): bytes { (o.space + "<<") + o.body + "/Filter" + o.spec }
  function Header(o: Object): bytes { o.gap + "stream" + o.end }

  /** For example `1 0 obj`, a line end, `<</Length 9/Filter/FlateDecode>>`, a line end, `stream`, a line end. */
  function Text(o: Object): bytes {
    Head(o) + Line(o) + Entries(o) + (o.tail + ">>") + Header(o)
  }

  lemma ReadsEntries(p: Parser, o: Object)
    requires WellFormed(o) && p.state == DICT_OBJECT && p.sub == DICT_OPEN && p.nesting == 0 && p.elem == 3
    requires p.spec == []
    ensures Read(p, Entries(o)) == Some(p.(sub := DICT_FILTER, elem := 6, nesting := NestingOf(o.spec), spec := o.spec))
  {
    hide Nameless, OneSpec, Accepted, Tail, NestingOf, PartlyNamed, Step;
    ReadsOpen(p, o.space);
    var q := p.(sub := DICT_ACTIVE, nesting := 1);
    ReadsBody(q, o.body);
    ReadOn(p, o.space + "<<", o.body);
    var r := Read(q, o.body).value;
    ReadsName(r);
    ReadOn(p, (o.space + "<<") + o.body, "/Filter");
    ReadsSpec(r.(elem := 6, sub := DICT_FILTER), o.spec);
    ReadOn(p, (o.space + "<<") + o.body + "/Filter", o.spec);
  }

  /**
    From ground level every such object is read up to its stream, with the filter buffered, if and only if there are
    at most eight entries on the stack.
   */
  lemma ReadsObject(p: Parser, o: Object)
    requires Valid(p) && p.state == START && WellFormed(o)
    ensures Read(p, Text(o)).Some? <==> |p.stack| <= PARSE_STACK_LEN - 4
    ensures var r := Read(p, Text(o));
            r.Some? ==>
              && r.value.state == STREAM && r.value.spec == o.spec && r.value.types.session == DEFLATE
              && r.value.stack == p.stack + [Entry(START, p.sub), Entry(IND_OBJ, ENDSTREAM_TOKEN)]
  {
    hide WellFormed, Step, Text;
    if |p.stack| < PARSE_STACK_LEN - 1 {
      FromHead(p, o);
    } else {
      NoRoom(p, o);
    }
  }

  /** A number at ground level needs room on the stack. */
  lemma NoRoom(p: Parser, o: Object)
    requires p.state == START && |p.stack| >= PARSE_STACK_LEN - 1 && WellFormed(o)
    ensures Read(p, Text(o)).None?
  {
    var c := o.num[0];
    assert Text(o) == [c] + Text(o)[1..];
    ReadOne(p, c);
    ReadOn(p, [c], Text(o)[1..]);
  }

  lemma FromHead(p: Parser, o: Object)
    requires p.state == START && |p.stack| < PARSE_STACK_LEN - 1 && WellFormed(o)
    ensures Read(p, Text(o)) ==
            if |p.stack| <= PARSE_STACK_LEN - 4 then
              Some(Located(Awaits(Dictionary(p, o), ProcessFilterSpec(o.spec, Dictionary(p, o).types).types)))
            else None
    ensures ProcessFilterSpec(o.spec, Dictionary(p, o).types).types.session == DEFLATE
  {
    hide Nameless, OneSpec, Tail, NestingOf, PartlyNamed, Step, ProcessFilterSpec, WellBracketed, Names, FlateTail;
    var h := Opened1(p);
    ReadsNumbers(p, o.num, o.gen);
    ReadsObjLine(h, o.line, o.eol);
    ReadOn(p, Head(o), Line(o));
    var a, b, c := Head(o) + Line(o), Entries(o), o.tail + ">>";
    FilterMeaning(o.spec, Dictionary(p, o).types);
    var t := ProcessFilterSpec(o.spec, Dictionary(p, o).types).types;
    ReadOn(p, a, b);
    ReadOn(p, a + b, c);
    ReadOn(p, a + b + c, Header(o));
    if |h.stack| < PARSE_STACK_LEN - 1 {
      ReadsEntries(Opened2(h), o);
      var d := Dictionary(p, o);
      ReadsTail(d, o.tail, t);
      if |d.stack| < PARSE_STACK_LEN - 1 {
        ReadsHeader(Awaits(d, t), o.gap, o.end);
      }
    }
  }

  /** The parser at the end of the specification. */
  function Dictionary(p: Parser, o: Object): Parser {
    Opened2(Opened1(p)).(sub := DICT_FILTER, elem := 6, nesting := NestingOf(o.spec), spec := o.spec)
  }

  /**
    In every document, at ground level: such an object leads to its stream if and only if at most eight xref blocks
    have gone before.
   */
  lemma DocumentReadsObject(log: seq<Event>, o: Object)
    requires Replay(log).Some? && Replay(log).value.state == START && WellFormed(o)
    ensures Replay(log + Copies(Text(o))).Some? <==> Xrefs(log) <= PARSE_STACK_LEN - 4
    ensures var r := Replay(log + Copies(Text(o))); r.Some? ==> r.value.state == STREAM && r.value.spec == o.spec
  {
    hide Valid, WellFormed, Text, Run;
    ReplayKeeps(log);
    GroundCountsXrefs(log);
    ReplayCopies(log, Text(o));
    ReadsObject(Replay(log).value, o);
  }

  // ----- what ends an object or an xref block -----

  /** Behind its stream an object ends at `endstream` and `endobj`, whatever bytes but `e` lie before these. */
  lemma ReadsObjectEnd(p: Parser, a: bytes, b: bytes)
    requires p.state == IND_OBJ && p.sub == ENDSTREAM_TOKEN && p.elem == 0 && p.stack != []
    requires Without(a, 'e') && Without(b, 'e')
    ensures Read(p, a + "endstream" + b + "endobj") == Some(Pop(p).p)
  {
    var q := p.(sub := ENDOBJ_TOKEN);
    assert Idles(p, a) && Idles(q, b);
    hide Step;
    ReadsIdly(p, a);
    ReadOn(p, a, "endstream");
    ReadsEndstream(p);
    ReadsIdly(q, b);
    ReadOn(p, a + "endstream", b);
    ReadsEndobj(q);
    ReadOn(p, a + "endstream" + b, "endobj");
    assert Pop(q) == Pop(p);
  }

  /** An xref block of either kind, up to `%%EOF`, is read if there is room, and leaves an entry on the stack. */
  lemma ReadsXref(p: Parser, tok: bytes, table: bytes)
    requires p.state == START && (tok == "xref" || tok == "startxref") && Without(table, '%')
    ensures Read(p, tok + table + "%%EOF") ==
            if |p.stack| < PARSE_STACK_LEN - 1 then
              Some(p.(stack := p.stack + [Entry(START, p.sub)], sub := XREF_END_TOKEN, xref := tok, elem := 5))
            else None
  {
    hide Step, Run;
    OpensXref(p, tok);
    ReadOne(p, tok[0]);
    ReadOn(p, [tok[0]], tok[1..]);
    assert [tok[0]] + tok[1..] == tok;
    ReadOn(p, tok, table);
    ReadOn(p, tok + table, "%%EOF");
    if |p.stack| < PARSE_STACK_LEN - 1 {
      var q := p.(stack := p.stack + [Entry(START, p.sub)], state := XREF, sub := XREF_TOKEN, elem := 1, xref := tok);
      var r := q.(sub := XREF_END_TOKEN, elem := 0);
      if tok == "xref" { ReadsShortXref(q); } else { ReadsLongXref(q); }
      XrefIdles(r, table);
      ReadsIdly(r, table);
      ReadsEof(r);
    }
  }

  lemma OpensXref(p: Parser, tok: bytes)
    requires p.state == START && (tok == "xref" || tok == "startxref")
    ensures var o := Step(p, tok[0]);
            && (o.Ok? <==> |p.stack| < PARSE_STACK_LEN - 1)
            && (o.Ok? ==> o.p == p.(stack := p.stack + [Entry(START, p.sub)], state := XREF, sub := XREF_TOKEN,
                                    elem := 1, xref := tok))
  {
  }

  lemma XrefIdles(p: Parser, table: bytes)
    requires p.state == XREF && p.sub == XREF_END_TOKEN && p.elem == 0 && Without(table, '%')
    ensures Idles(p, table)
  {
  }

  lemma ReadsShortXref(p: Parser)
    requires p.state == XREF && p.sub == XREF_TOKEN && p.xref == "xref" && p.elem == 1
    ensures Read(p, "xref"[1..]) == Some(p.(sub := XREF_END_TOKEN, elem := 0))
  {
    var tok := "xref";
    CountsNone(p, tok);
    CountsOne(p, tok, 1);
    CountsOne(p, tok, 2);
    CountsLast(p, tok);
  }

  lemma ReadsLongXref(p: Parser)
    requires p.state == XREF && p.sub == XREF_TOKEN && p.xref == "startxref" && p.elem == 1
    ensures Read(p, "startxref"[1..]) == Some(p.(sub := XREF_END_TOKEN, elem := 0))
  {
    var tok := "startxref";
    CountsNone(p, tok);
    CountsOne(p, tok, 1);
    CountsOne(p, tok, 2);
    CountsOne(p, tok, 3);
    CountsOne(p, tok, 4);
    CountsOne(p, tok, 5);
    CountsOne(p, tok, 6);
    CountsOne(p, tok, 7);
    CountsLast(p, tok);
  }

  // ----- nested dictionaries -----

  /** Inside a dictionary nested in the one at hand. */
  function Nested(p: Parser): Parser {
    p.(elem := 0, stack := p.stack + [Entry(DICT_OBJECT, p.sub)], sub := DICT_SKIP, nesting := p.nesting + 1)
  }

  /** A nested dictionary is passed over, whatever names it contains. */
  lemma ReadsNested(p: Parser, body: bytes)
    requires p.state == DICT_OBJECT && p.sub in {DICT_ACTIVE, DICT_SKIP} && p.types.session == NONE
    requires 0 < p.nesting < 255 && p.elem <= 6 && |p.stack| < PARSE_STACK_LEN - 2
    requires Without(body, '<') && Without(body, '>')
    ensures Read(p, "<<" + body + ">>") == Some(p.(elem := 0, nesting := p.nesting + 1))
  {
    var q := Nested(p);
    hide Step, Run;
    OpensNested(p, q);
    SkipIdles(q, body);
    ReadsIdly(q, body);
    ReadOn(p, "<<", body);
    ClosesNested(p, q);
    ReadOn(p, "<<" + body, ">>");
  }

  lemma SkipIdles(p: Parser, body: bytes)
    requires p.state == DICT_OBJECT && p.sub == DICT_SKIP && p.elem == 0
    requires Without(body, '<') && Without(body, '>')
    ensures Idles(p, body)
  {
  }

  lemma OpensNested(p: Parser, q: Parser)
    requires p.state == DICT_OBJECT && p.sub in {DICT_ACTIVE, DICT_SKIP}
    requires 0 < p.nesting < 255 && p.elem <= 6 && |p.stack| < PARSE_STACK_LEN - 2
    requires q == Nested(p)
    ensures Read(p, "<<") == Some(q)
  {
    var r := p.(elem := 0, stack := p.stack + [Entry(DICT_OBJECT, p.sub)], sub := DICT_OPEN_TOK);
    NotInName(p, '<');
    assert Step(p, '<') == Ok(r) && Step(r, '<') == Ok(q);
    hide Step, Run;
    ReadOne(p, '<');
    ReadLast(p, "<", '<');
    assert "<" + ['<'] == "<<";
  }

  lemma NotInName(p: Parser, c: byte)
    requires c == '<' || c == '>'
    ensures !Hit("Filter", p.elem, c)
  {
  }

  lemma ClosesNested(p: Parser, q: Parser)
    requires p.state == DICT_OBJECT && p.types.session == NONE && |p.stack| < PARSE_STACK_LEN - 2
    requires q == Nested(p)
    ensures Read(q, ">>") == Some(p.(elem := 0, nesting := p.nesting + 1))
  {
    var r := q.(stack := q.stack + [Entry(DICT_OBJECT, DICT_SKIP)], sub := DICT_CLOSE_TOK);
    assert Step(q, '>') == Ok(r);
    ClosesInner(p, q, r);
    hide Step, Run;
    ReadOne(q, '>');
    ReadLast(q, ">", '>');
    assert ">" + ['>'] == ">>";
  }

  lemma ClosesInner(p: Parser, q: Parser, r: Parser)
    requires p.state == DICT_OBJECT && p.types.session == NONE
    requires q == Nested(p)
    requires r == q.(stack := q.stack + [Entry(DICT_OBJECT, DICT_SKIP)], sub := DICT_CLOSE_TOK)
    ensures Step(r, '>') == Ok(p.(elem := 0, nesting := p.nesting + 1))
  {
    assert Pop(r) == Ok(q);
    assert q.stack[..|p.stack|] == p.stack;
  }
}
