/**
  The tokens of the PDF parser and the bytes between them (src/decompress/file_decomp_pdf.cc, lines 336-819).
 */
module PdfTokens {
  import opened Basics
  import opened PdfFilter
  import opened PdfGrammar
  import opened ByteMachine
  import opened PdfStreaming

  /** The parser after the bytes `w`; None if one of them is rejected or follows the start of a stream. */
  function Read(p: Parser, w: bytes): Option<Parser> {
    Run(Pdf(), p, w)
  }

  lemma ReadNone(p: Parser)
    ensures Read(p, []) == Some(p)
  {
  }

  lemma ReadLast(p: Parser, w: bytes, c: byte)
    ensures Read(p, w + [c]) ==
            match Read(p, w)
            case None => None
            case Some(q) => if q.state != STREAM && Step(q, c).Ok? then Some(Step(q, c).p) else None
  {
    hide Step;
    assert (w + [c])[..|w|] == w;
  }

  lemma ReadOne(p: Parser, c: byte)
    ensures Read(p, [c]) == if p.state != STREAM && Step(p, c).Ok? then Some(Step(p, c).p) else None
  {
    hide Step;
    assert [] + [c] == [c];
    ReadLast(p, [], c);
  }

  lemma {:induction false} ReadOn(p: Parser, a: bytes, b: bytes)
    ensures Read(p, a + b) == if Read(p, a).None? then None else Read(Read(p, a).value, b)
  {
    hide Step;
    if b == [] {
      assert a + b == a;
    } else {
      var n := |b| - 1;
      ReadOn(p, a, b[..n]);
      assert a + b == (a + b[..n]) + [b[n]];
      assert b == b[..n] + [b[n]];
      ReadLast(p, a + b[..n], b[n]);
      if Read(p, a).Some? {
        ReadLast(Read(p, a).value, b[..n], b[n]);
      }
    }
  }

  // ----- bytes that leave the parser where it is -----

  /** Bytes each of which leaves the parser as it is. */
  ghost predicate Idles(p: Parser, w: bytes) {
    p.state != STREAM && forall i | 0 <= i < |w| :: Step(p, w[i]) == Ok(p)
  }

  lemma {:induction false} ReadsIdly(p: Parser, w: bytes)
    requires Idles(p, w)
    ensures Read(p, w) == Some(p)
  {
    hide Step;
    if w != [] {
      var n := |w| - 1;
      ReadsIdly(p, w[..n]);
      assert w == w[..n] + [w[n]];
      ReadLast(p, w[..n], w[n]);
    }
  }

  predicate Without(w: bytes, c: byte) {
    forall i | 0 <= i < |w| :: w[i] != c
  }

  predicate AllSpace(w: bytes) {
    forall i | 0 <= i < |w| :: IsWhitespace(w[i])
  }

  predicate AllDigits(w: bytes) {
    forall i | 0 <= i < |w| :: IsDigit(w[i])
  }

  // ----- tokens -----

  /** A run from the parser's index up to byte `k` of a token, each of whose bytes moves the index on. */
  predicate Counts(p: Parser, tok: bytes, k: nat) {
    p.elem <= k <= |tok| && Read(p, tok[p.elem..k]) == Some(p.(elem := k))
  }

  lemma CountsNone(p: Parser, tok: bytes)
    requires p.elem <= |tok|
    ensures Counts(p, tok, p.elem)
  {
    assert tok[p.elem..p.elem] == [];
    assert p.(elem := p.elem) == p;
  }

  lemma CountsOne(p: Parser, tok: bytes, k: nat)
    requires k < |tok| && Counts(p, tok, k) && p.state != STREAM
    requires Step(p.(elem := k), tok[k]) == Ok(p.(elem := k + 1))
    ensures Counts(p, tok, k + 1)
  {
    hide Step;
    assert tok[p.elem..k + 1] == tok[p.elem..k] + [tok[k]];
    ReadLast(p, tok[p.elem..k], tok[k]);
  }

  lemma CountsLast(p: Parser, tok: bytes)
    requires tok != [] && Counts(p, tok, |tok| - 1) && p.state != STREAM
    ensures var n := |tok| - 1;
            Read(p, tok[p.elem..]) == var o := Step(p.(elem := n), tok[n]); if o.Ok? then Some(o.p) else None
  {
    hide Step;
    var n := |tok| - 1;
    assert tok[p.elem..] == tok[p.elem..n] + [tok[n]];
    ReadLast(p, tok[p.elem..n], tok[n]);
  }

  lemma CountsAll(p: Parser, tok: bytes)
    requires tok != [] && Counts(p, tok, |tok| - 1) && p.state != STREAM && p.elem == 0
    ensures var n := |tok| - 1;
            Read(p, tok) == var o := Step(p.(elem := n), tok[n]); if o.Ok? then Some(o.p) else None
  {
    hide Step;
    CountsLast(p, tok);
    assert tok[0..] == tok;
  }

  /** The name is recognised exactly from index zero: a part of it read before makes the parser miss the whole. */
  lemma NameExactly(p: Parser)
    requires p.state == DICT_OBJECT && p.sub == DICT_ACTIVE && p.elem < 6
    ensures Read(p, "Filter") == Some(if p.elem == 0 then p.(elem := 6, sub := DICT_FILTER) else p.(elem := 0))
  {
    var e := p.elem;
    var f := p.(elem := if e == 0 then 1 else 0);
    var rest := "ilter";
    ReadOne(p, 'F');
    assert Step(p, 'F') == Ok(f);
    NameRest(f);
    ReadOn(p, "F", rest);
    assert "F" + rest == "Filter";
  }

  lemma NameRest(p: Parser)
    requires p.state == DICT_OBJECT && p.sub == DICT_ACTIVE && p.elem <= 1
    ensures Read(p, "ilter") == Some(if p.elem == 1 then p.(elem := 6, sub := DICT_FILTER) else p)
  {
    if p.elem == 0 {
      NoNameByte(p, "ilter");
      ReadsIdly(p, "ilter");
    } else {
      NameTail(p);
    }
  }

  lemma NoNameByte(p: Parser, w: bytes)
    requires p.state == DICT_OBJECT && p.sub == DICT_ACTIVE && p.elem == 0
    requires Without(w, 'F') && Without(w, '<') && Without(w, '>')
    ensures Idles(p, w)
  {
  }

  lemma NameTail(p: Parser)
    requires p.state == DICT_OBJECT && p.sub == DICT_ACTIVE && p.elem == 1
    ensures Read(p, "ilter") == Some(p.(elem := 6, sub := DICT_FILTER))
  {
    var tok := "Filter";
    CountsNone(p, tok);
    CountsOne(p, tok, 1);
    CountsOne(p, tok, 2);
    CountsOne(p, tok, 3);
    CountsOne(p, tok, 4);
    CountsLast(p, tok);
    hide Step, Run;
    assert tok[1..] == "ilter";
  }

  /** `stream` leads to its line end. */
  lemma ReadsStream(p: Parser)
    requires p.state == IND_OBJ && p.sub == STREAM_TOKEN && p.elem == 0
    ensures Read(p, "stream") == Some(p.(elem := 6, sub := STREAM_EOL))
  {
    var tok := "stream";
    CountsNone(p, tok);
    CountsOne(p, tok, 0);
    CountsOne(p, tok, 1);
    CountsOne(p, tok, 2);
    CountsOne(p, tok, 3);
    CountsOne(p, tok, 4);
    CountsAll(p, tok);
  }

  /** `endstream` leads to the search for the end of the object. */
  lemma ReadsEndstream(p: Parser)
    requires p.state == IND_OBJ && p.sub == ENDSTREAM_TOKEN && p.elem == 0
    ensures Read(p, "endstream") == Some(p.(sub := ENDOBJ_TOKEN))
  {
    var tok := "endstream";
    CountsNone(p, tok);
    CountsOne(p, tok, 0);
    CountsOne(p, tok, 1);
    CountsOne(p, tok, 2);
    CountsOne(p, tok, 3);
    CountsOne(p, tok, 4);
    CountsOne(p, tok, 5);
    CountsOne(p, tok, 6);
    CountsOne(p, tok, 7);
    CountsAll(p, tok);
  }

  /** Like the name, these tokens are recognised exactly from index zero. */
  lemma EndstreamExactly(p: Parser)
    requires p.state == IND_OBJ && p.sub == ENDSTREAM_TOKEN && p.elem < 9
    ensures Read(p, "endstream") == Some(if p.elem == 0 then p.(sub := ENDOBJ_TOKEN) else p.(elem := 0))
  {
    if p.elem == 0 {
      ReadsEndstream(p);
    } else {
      var q := p.(elem := 0);
      var e := p.(elem := if p.elem == 6 then 7 else 0);
      assert Step(p, 'e') == Ok(e) && Step(e, 'n') == Ok(q) && Idles(q, "dstr");
      assert Step(q, 'e') == Ok(p.(elem := 1)) && Step(p.(elem := 1), 'a') == Ok(q) && Step(q, 'm') == Ok(q);
      hide Step, Run;
      ReadOne(p, 'e');
      ReadLast(p, "e", 'n');
      ReadsIdly(q, "dstr");
      ReadOn(p, "e" + ['n'], "dstr");
      ReadLast(p, "e" + ['n'] + "dstr", 'e');
      ReadLast(p, "e" + ['n'] + "dstr" + ['e'], 'a');
      ReadLast(p, "e" + ['n'] + "dstr" + ['e'] + ['a'], 'm');
      assert "e" + ['n'] + "dstr" + ['e'] + ['a'] + ['m'] == "endstream";
    }
  }

  lemma EndobjExactly(p: Parser)
    requires p.state == IND_OBJ && p.sub == ENDOBJ_TOKEN && p.elem < 6 && p.stack != []
    ensures Read(p, "endobj") == Some(if p.elem == 0 then Pop(p).p else p.(elem := 0))
  {
    if p.elem == 0 {
      ReadsEndobj(p);
    } else {
      var q := p.(elem := 0);
      assert Step(p, 'e') == Ok(q) && Idles(q, "ndobj");
      hide Step, Run;
      ReadOne(p, 'e');
      ReadsIdly(q, "ndobj");
      ReadOn(p, "e", "ndobj");
      assert "e" + "ndobj" == "endobj";
    }
  }

  lemma EofExactly(p: Parser)
    requires p.state == XREF && p.sub == XREF_END_TOKEN && p.elem < 5
    ensures Read(p, "%%EOF") == Some(if p.elem == 0 then p.(elem := 5, state := START) else p.(elem := 0))
  {
    if p.elem == 0 {
      ReadsEof(p);
    } else {
      var q := p.(elem := 0);
      var a := p.(elem := if p.elem == 1 then 2 else 0);
      var b := p.(elem := if p.elem == 1 then 0 else 1);
      assert Step(p, '%') == Ok(a) && Step(a, '%') == Ok(b) && Step(b, 'E') == Ok(q) && Idles(q, "OF");
      hide Step, Run;
      ReadOne(p, '%');
      ReadLast(p, "%", '%');
      ReadLast(p, "%" + ['%'], 'E');
      ReadsIdly(q, "OF");
      ReadOn(p, "%" + ['%'] + ['E'], "OF");
      assert "%" + ['%'] + ['E'] + "OF" == "%%EOF";
    }
  }

  /** `endobj` returns to what the object interrupted. */
  lemma ReadsEndobj(p: Parser)
    requires p.state == IND_OBJ && p.sub == ENDOBJ_TOKEN && p.elem == 0 && p.stack != []
    ensures Read(p, "endobj") == Some(Pop(p).p)
  {
    var tok := "endobj";
    CountsNone(p, tok);
    CountsOne(p, tok, 0);
    CountsOne(p, tok, 1);
    CountsOne(p, tok, 2);
    CountsOne(p, tok, 3);
    CountsOne(p, tok, 4);
    CountsAll(p, tok);
  }

  /** `%%EOF` ends an xref block; the index stays behind. */
  lemma ReadsEof(p: Parser)
    requires p.state == XREF && p.sub == XREF_END_TOKEN && p.elem == 0
    ensures Read(p, "%%EOF") == Some(p.(elem := 5, state := START))
  {
    var tok := "%%EOF";
    CountsNone(p, tok);
    CountsOne(p, tok, 0);
    CountsOne(p, tok, 1);
    CountsOne(p, tok, 2);
    CountsOne(p, tok, 3);
    CountsAll(p, tok);
  }

  // ----- comments -----

  /** A comment at ground level ends with its line, and leaves nothing behind. */
  lemma ReadsComment(p: Parser, line: bytes, eol: byte)
    requires p.state == START && (forall i | 0 <= i < |line| :: !IsEol(line[i])) && IsEol(eol)
    ensures Read(p, ['%'] + line + [eol]) == Some(p)
  {
    var q := p.(state := COMMENT);
    assert Step(p, '%') == Ok(q) && Idles(q, line) && Step(q, eol) == Ok(p);
    hide Step, Run;
    ReadOne(p, '%');
    ReadOn(p, ['%'], line);
    ReadsIdly(q, line);
    ReadLast(p, ['%'] + line, eol);
  }

  // ----- classes of bytes -----

  /** White space is NUL, HT, LF, FF, CR and SP, as in table 1 of ISO 32000-1; delimiters of names add three more. */
  lemma ByteClasses(c: byte)
    ensures IsWhitespace(c) <==> c as int in {0x00, 0x09, 0x0A, 0x0C, 0x0D, 0x20}
    ensures IsEol(c) <==> c as int in {0x0A, 0x0D}
    ensures IsDelim(c) <==> IsWhitespace(c) || c as int in {0x2F, 0x5B, 0x5D}
  {
  }
}
