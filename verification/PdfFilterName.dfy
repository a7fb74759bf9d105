/**
  Where the buffered filter specification comes from (src/decompress/file_decomp_pdf.cc, lines 336-525):
  behind the name Filter in the dictionary at hand.  The index into the name is not reset when an object opens its
  dictionary, so that `<<ter` passes for the name too.
 */
module PdfFilterName {
  import opened Basics
  import opened PdfFilter
  import opened PdfGrammar
  import opened PdfInvariant

  predicate EndsIn(w: bytes, tail: bytes) {
    |tail| <= |w| && w[|w| - |tail|..] == tail
  }

  /** The name has just been read, or what remains of it when the first three letters are taken as read. */
  predicate Named(w: bytes) {
    EndsIn(w, "Filter") || EndsIn(w, "<<ter")
  }

  predicate PartlyNamed(w: bytes, elem: nat) {
    elem <= 6 && (EndsIn(w, "Filter"[..elem]) || (elem >= 3 && EndsIn(w, "<<" + "Filter"[3..elem])))
  }

  /** The bytes of `a` occur in `b` in their order. */
  predicate Subsequence(a: bytes, b: bytes) {
    || a == []
    || (b != [] && Subsequence(a, b[..|b| - 1]))
    || (b != [] && a[|a| - 1] == b[|b| - 1] && Subsequence(a[..|a| - 1], b[..|b| - 1]))
  }

  /** The specification was read behind a name in the dictionary `w`. */
  ghost predicate Behind(w: bytes, spec: bytes) {
    exists i :: 0 <= i <= |w| && Named(w[..i]) && Subsequence(spec, w[i..])
  }

  lemma SubsequenceGrows(a: bytes, b: bytes, c: byte)
    requires Subsequence(a, b)
    ensures Subsequence(a, b + [c]) && Subsequence(a + [c], b + [c])
  {
    assert (b + [c])[..|b|] == b && (a + [c])[..|a|] == a;
  }

  lemma BehindGrows(w: bytes, spec: bytes, c: byte)
    requires Behind(w, spec)
    ensures Behind(w + [c], spec) && Behind(w + [c], spec + [c])
  {
    hide Named, Subsequence;
    var i :| 0 <= i <= |w| && Named(w[..i]) && Subsequence(spec, w[i..]);
    SubsequenceGrows(spec, w[i..], c);
    assert (w + [c])[..i] == w[..i] && (w + [c])[i..] == w[i..] + [c];
  }

  lemma NothingBehind(w: bytes)
    requires Named(w)
    ensures Behind(w, [])
  {
    assert w[..|w|] == w;
  }

  /** Something has been read, or is being read, or will be read on. */
  predicate Reads(p: Parser) {
    p.spec != [] || (p.state == DICT_OBJECT && p.sub == DICT_FILTER) || Entry(DICT_OBJECT, DICT_FILTER) in p.stack
  }

  /** What the parser knows of the bytes `w` of the dictionary it is in. */
  ghost predicate Knows(p: Parser, w: bytes) {
    && (Reads(p) ==> Behind(w, p.spec))
    && (p.state == DICT_OBJECT ==>
          && (p.sub == DICT_OPEN ==> p.elem == 3 && p.nesting == 0)
          && (p.sub == DICT_OPEN_TOK ==> (p.elem == 0 || p.elem == 3) && EndsIn(w, "<"))
          && (p.sub == DICT_ACTIVE ==> PartlyNamed(w, p.elem)))
  }

  lemma ReadsOn(p: Parser, w: bytes, c: byte)
    requires Knows(p, w)
    ensures Reads(p) ==> Behind(w + [c], p.spec) && Behind(w + [c], p.spec + [c])
  {
    if Reads(p) { BehindGrows(w, p.spec, c); }
  }

  lemma PartOfName(w: bytes, elem: nat, c: byte)
    requires elem < 6 && PartlyNamed(w, elem) && c == "Filter"[elem]
    ensures PartlyNamed(w + [c], elem + 1)
    ensures elem == 5 ==> Named(w + [c])
  {
    if EndsIn(w, "Filter"[..elem]) {
      assert "Filter"[..elem + 1] == "Filter"[..elem] + [c];
    } else {
      assert "<<" + "Filter"[3..elem + 1] == ("<<" + "Filter"[3..elem]) + [c];
    }
    assert "Filter"[..6] == "Filter" && "<<" + "Filter"[3..6] == "<<ter";
  }

  lemma OpensWith(w: bytes, elem: nat)
    requires EndsIn(w, "<") && (elem == 0 || elem == 3)
    ensures PartlyNamed(w + ['<'], elem)
  {
    assert "<<" + "Filter"[3..3] == "<" + ['<'];
  }

  lemma PopReads(p: Parser, w: bytes)
    requires Valid(p) && p.state == DICT_OBJECT && (Reads(p) ==> Behind(w, p.spec))
    ensures Pop(p).Ok? && Knows(Pop(p).p, w)
  {
    PopFromDict(p);
  }

  lemma NoName(w: bytes)
    ensures PartlyNamed(w, 0)
  {
  }

  lemma LastByte(w: bytes, c: byte)
    ensures EndsIn(w + [c], [c])
  {
  }

  lemma NameKnows(p: Parser, w: bytes, c: byte)
    requires Valid(p) && p.state == DICT_OBJECT && p.sub == DICT_ACTIVE && Knows(p, w) && Hit("Filter", p.elem, c)
    ensures DictBody(p, c).Ok? && Knows(DictBody(p, c).p, w + [c])
  {
    hide Behind, Named, PartlyNamed;
    ReadsOn(p, w, c);
    PartOfName(w, p.elem, c);
    if p.elem == 5 && p.spec == [] { NothingBehind(w + [c]); }
  }

  lemma OtherKnows(p: Parser, w: bytes, c: byte)
    requires p.state == DICT_OBJECT && Knows(p, w) && p.sub in {DICT_ACTIVE, DICT_SKIP}
    requires !(p.sub == DICT_ACTIVE && Hit("Filter", p.elem, c))
    ensures DictBody(p, c).Ok? ==> Knows(DictBody(p, c).p, w + [c])
  {
    hide Behind, Named, PartlyNamed, Hit, EndsIn;
    ReadsOn(p, w, c);
    NoName(w + [c]);
    LastByte(w, c);
  }

  lemma BodyKnows(p: Parser, w: bytes, c: byte)
    requires Valid(p) && p.state == DICT_OBJECT && Knows(p, w) && p.sub in {DICT_ACTIVE, DICT_SKIP}
    ensures DictBody(p, c).Ok? ==> Knows(DictBody(p, c).p, w + [c])
  {
    hide Valid, Knows, DictBody, Hit;
    if p.sub == DICT_ACTIVE && Hit("Filter", p.elem, c) {
      NameKnows(p, w, c);
    } else {
      OtherKnows(p, w, c);
    }
  }

  lemma FilterKnows(p: Parser, w: bytes, c: byte)
    requires Valid(p) && p.state == DICT_OBJECT && Knows(p, w) && p.sub == DICT_FILTER
    ensures StepDict(p, c).Ok? ==> Knows(StepDict(p, c).p, w + [c])
  {
    hide Behind, Named, PartlyNamed, Valid, ProcessFilterSpec;
    ReadsOn(p, w, c);
  }

  lemma CloseKnows(p: Parser, w: bytes, c: byte)
    requires Valid(p) && p.state == DICT_OBJECT && Knows(p, w) && p.sub == DICT_CLOSE_TOK
    ensures StepDict(p, c).Ok? ==> Knows(StepDict(p, c).p, w + [c])
  {
    hide Behind, Named, PartlyNamed;
    ReadsOn(p, w, c);
    PopReads(p, w + [c]);
    if c == '>' {
      var q := Pop(p).p;
      PopFromDict(p);
      PopReads(q, w + [c]);
    }
  }

  /** Every byte of a dictionary keeps what the parser knows. */
  lemma DictKnows(p: Parser, w: bytes, c: byte)
    requires Valid(p) && p.state == DICT_OBJECT && Knows(p, w)
    ensures StepDict(p, c).Ok? ==> Knows(StepDict(p, c).p, w + [c])
  {
    hide Behind, Named, PartlyNamed, Subsequence;
    ReadsOn(p, w, c);
    LastByte(w, c);
    match p.sub {
      case DICT_OPEN => PopReads(p, w + [c]);
      case DICT_OPEN_TOK =>
        PopReads(p, w + [c]);
        OpensWith(w, p.elem);
      case DICT_SKIP => BodyKnows(p, w, c);
      case DICT_ACTIVE => BodyKnows(p, w, c);
      case DICT_FILTER => FilterKnows(p, w, c);
      case DICT_CLOSE_TOK => CloseKnows(p, w, c);
    }
  }

  /** Outside dictionaries the only step into one opens it anew. */
  lemma OpensUnread(p: Parser, c: byte)
    requires Valid(p) && p.state != DICT_OBJECT && p.state != STREAM && Step(p, c).Ok?
    ensures Step(p, c).p.state == DICT_OBJECT ==> Knows(Step(p, c).p, [])
  {
    if p.state == IND_OBJ && p.sub == ENDOBJ_TOKEN { PopToGround(p); }
  }

  /** A dictionary that opens with the index at three takes `ter` for the whole name. */
  lemma StaleSteps(p: Parser)
    requires p.state == DICT_OBJECT && p.sub == DICT_OPEN && p.elem == 3 && p.nesting == 0
    ensures Step(p, '<') == Ok(p.(sub := DICT_OPEN_TOK))
    ensures Step(p.(sub := DICT_OPEN_TOK), '<') == Ok(p.(sub := DICT_ACTIVE, nesting := 1))
    ensures Step(p.(sub := DICT_ACTIVE, nesting := 1), 't') == Ok(p.(sub := DICT_ACTIVE, nesting := 1, elem := 4))
    ensures Step(p.(sub := DICT_ACTIVE, nesting := 1, elem := 4), 'e') ==
            Ok(p.(sub := DICT_ACTIVE, nesting := 1, elem := 5))
    ensures Step(p.(sub := DICT_ACTIVE, nesting := 1, elem := 5), 'r') ==
            Ok(p.(sub := DICT_FILTER, nesting := 1, elem := 6))
  {
  }
}
