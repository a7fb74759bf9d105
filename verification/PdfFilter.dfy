/**
  The value of a `/Filter` entry: splitting it into names and turning the names
  into a decompression type (src/decompress/file_decomp_pdf.cc, lines 123-278).
 */
module PdfFilter {
  import opened Basics

  datatype CompType = NONE | DEFLATE

  datatype Alert = UNSUP_COMP_TYPE | CASC_COMP | DEFL_FAILURE

  /** What one pass over the filter names leaves in the session. */
  datatype Types = Types(session: CompType, pdf: CompType, alerts: seq<Alert>)

  datatype Filtered = Filtered(ok: bool, types: Types)

  predicate IsDelim(c: byte) {
    c == '\0' || c in "\t\n\U{0C}\r /[]"
  }

  /** The names that the filter map knows; `null` is in the map but maps to no compression. */
  predicate IsFlate(name: bytes) {
    name == "FlateDecode" || name == "Fl"
  }

  function DecompType(name: bytes): CompType {
    if IsFlate(name) then DEFLATE else NONE
  }

  function ProcessOneFilter(t: Types, name: bytes): Types {
    if DecompType(name) == NONE then
      Types(NONE, t.pdf, t.alerts + [UNSUP_COMP_TYPE])
    else if t.session != NONE then
      Types(NONE, t.pdf, t.alerts + [CASC_COMP])
    else
      Types(DEFLATE, DEFLATE, t.alerts)
  }

  // ----- the scan, character by character -----

  /** Local state of the scan: inside an array, a name was seen, the name being read. */
  datatype Scan = Scan(inArray: bool, sawName: bool, name: bytes, types: Types)

  function ScanFrom(spec: bytes, i: nat, s: Scan): Filtered
    requires i <= |spec|
    decreases |spec| - i
  {
    if i == |spec| then
      if s.inArray then Filtered(false, s.types.(session := NONE))
      else if s.name != [] then Filtered(true, ProcessOneFilter(s.types, s.name))
      else Filtered(true, s.types)
    else
      var c := spec[i];
      if !IsDelim(c) then
        ScanFrom(spec, i + 1, s.(sawName := true, name := s.name + [c]))
      else if c == '[' then
        if s.inArray || s.sawName || s.name != [] then
          Filtered(false, s.types.(session := NONE))
        else
          ScanFrom(spec, i + 1, s.(inArray := true))
      else if c == ']' && !s.inArray then
        Filtered(false, s.types.(session := NONE))
      else
        var t := if s.name != [] then ProcessOneFilter(s.types, s.name) else s.types;
        ScanFrom(spec, i + 1, Scan(s.inArray && c != ']', s.sawName, [], t))
  }

  function ProcessFilterSpec(spec: bytes, t: Types): Filtered {
    ScanFrom(spec, 0, Scan(false, false, [], t.(session := NONE)))
  }

  // ----- what the scan means -----

  /** The maximal runs of non-delimiters of `cur + spec[i..]`, in order. */
  function NamesFrom(spec: bytes, i: nat, cur: bytes): seq<bytes>
    requires i <= |spec|
    decreases |spec| - i
  {
    var done := if cur == [] then [] else [cur];
    if i == |spec| then done
    else if IsDelim(spec[i]) then done + NamesFrom(spec, i + 1, [])
    else NamesFrom(spec, i + 1, cur + [spec[i]])
  }

  function Names(spec: bytes): seq<bytes> {
    NamesFrom(spec, 0, [])
  }

  /** Types after processing the names from left to right. */
  function Applied(t: Types, names: seq<bytes>): Types {
    if names == [] then t
    else ProcessOneFilter(Applied(t, names[..|names| - 1]), names[|names| - 1])
  }

  /** Number of Flate names at the end of the list. */
  function FlateTail(names: seq<bytes>): nat {
    if names == [] || !IsFlate(names[|names| - 1]) then 0
    else 1 + FlateTail(names[..|names| - 1])
  }

  /** Array nesting depth after a prefix. */
  function Depth(s: bytes): int {
    if s == [] then 0
    else
      var c := s[|s| - 1];
      Depth(s[..|s| - 1]) + (if c == '[' then 1 else if c == ']' then -1 else 0)
  }

  /** Brackets are balanced and never nest, and no array opens after a name. */
  ghost predicate WellBracketed(spec: bytes) {
    && (forall i | 0 <= i <= |spec| :: 0 <= Depth(spec[..i]) <= 1)
    && Depth(spec) == 0
    && (forall i, j | 0 <= i < j < |spec| :: !IsDelim(spec[i]) ==> spec[j] != '[')
  }

  lemma {:induction false} AppliedSnoc(t: Types, names: seq<bytes>, name: bytes)
    ensures Applied(t, names + [name]) == ProcessOneFilter(Applied(t, names), name)
  {
    assert (names + [name])[..|names|] == names;
  }

  /** A successful scan applies exactly the names of the specification, in order. */
  lemma {:induction false} ScanAppliesNames(spec: bytes, i: nat, s: Scan, t: Types, before: seq<bytes>)
    requires i <= |spec|
    requires s.types == Applied(t, before)
    ensures ScanFrom(spec, i, s).ok ==>
              ScanFrom(spec, i, s).types == Applied(t, before + NamesFrom(spec, i, s.name))
    decreases |spec| - i
  {
    if s.name != [] { AppliedSnoc(t, before, s.name); }
    if i == |spec| {
      if s.name == [] { assert before + [] == before; }
    } else if !IsDelim(spec[i]) {
      ScanAppliesNames(spec, i + 1, s.(sawName := true, name := s.name + [spec[i]]), t, before);
    } else if spec[i] == '[' {
      if !(s.inArray || s.sawName || s.name != []) {
        ScanAppliesNames(spec, i + 1, s.(inArray := true), t, before);
        assert [] + NamesFrom(spec, i + 1, []) == NamesFrom(spec, i + 1, []);
      }
    } else if s.name == [] {
      ScanAppliesNames(spec, i + 1, Scan(s.inArray && spec[i] != ']', s.sawName, [], s.types), t, before);
      assert [] + NamesFrom(spec, i + 1, []) == NamesFrom(spec, i + 1, []);
    } else {
      var t' := ProcessOneFilter(s.types, s.name);
      ScanAppliesNames(spec, i + 1, Scan(s.inArray && spec[i] != ']', s.sawName, [], t'), t, before + [s.name]);
      assert before + [s.name] + NamesFrom(spec, i + 1, []) == before + ([s.name] + NamesFrom(spec, i + 1, []));
    }
  }

  /** Flate toggles, everything else switches off: only the parity of the last run of Flate names matters. */
  lemma {:induction false} AppliedIsParity(t: Types, names: seq<bytes>)
    requires t.session == NONE
    ensures Applied(t, names).session == DEFLATE <==> FlateTail(names) % 2 == 1
    ensures Applied(t, names).session == DEFLATE ==> Applied(t, names).pdf == DEFLATE
  {
    if names != [] {
      AppliedIsParity(t, names[..|names| - 1]);
    }
  }

  /** The alerts that a list of names raises: one for each name not supported, one for each second Flate in a run. */
  function AlertsOf(names: seq<bytes>): seq<Alert> {
    if names == [] then []
    else
      var front, name := names[..|names| - 1], names[|names| - 1];
      AlertsOf(front) +
      if !IsFlate(name) then [UNSUP_COMP_TYPE] else if FlateTail(front) % 2 == 1 then [CASC_COMP] else []
  }

  /** Processing names raises these alerts in their order. */
  lemma {:induction false} AppliedAlerts(t: Types, names: seq<bytes>)
    requires t.session == NONE
    ensures Applied(t, names).alerts == t.alerts + AlertsOf(names)
  {
    hide IsFlate, FlateTail;
    if names != [] {
      AppliedAlerts(t, names[..|names| - 1]);
      AppliedIsParity(t, names[..|names| - 1]);
    }
  }

  ghost predicate SomeFlate(names: seq<bytes>) {
    exists i :: 0 <= i < |names| && IsFlate(names[i])
  }

  /** Any Flate name sets the type of the stream for good. */
  lemma {:induction false} AppliedStreamType(t: Types, names: seq<bytes>)
    requires t.session == NONE
    ensures Applied(t, names).pdf == if SomeFlate(names) then DEFLATE else t.pdf
  {
    hide IsFlate;
    if names != [] {
      var n := |names| - 1;
      AppliedStreamType(t, names[..n]);
      AppliedIsParity(t, names[..n]);
      if i :| 0 <= i < n && IsFlate(names[i]) {
        assert names[..n][i] == names[i];
      }
      if IsFlate(names[n]) {
        assert SomeFlate(names);
        if FlateTail(names[..n]) > 0 { assert IsFlate(names[..n][n - 1]); }
      }
    }
  }

  lemma {:induction false} DepthSnoc(spec: bytes, i: nat)
    requires i < |spec|
    ensures Depth(spec[..i + 1]) ==
            Depth(spec[..i]) + (if spec[i] == '[' then 1 else if spec[i] == ']' then -1 else 0)
  {
    assert spec[..i + 1][..i] == spec[..i];
  }

  ghost predicate SawName(spec: bytes, i: nat)
    requires i <= |spec|
  {
    exists k :: 0 <= k < i && !IsDelim(spec[k])
  }

  ghost predicate BracketsFrom(spec: bytes, i: nat)
    requires i <= |spec|
  {
    && (forall k | i <= k <= |spec| :: 0 <= Depth(spec[..k]) <= 1)
    && Depth(spec[..|spec|]) == 0
    && (forall k, j | 0 <= k < j < |spec| && i <= j :: !IsDelim(spec[k]) ==> spec[j] != '[')
  }

  lemma {:induction false} ScanChecksBrackets(spec: bytes, i: nat, s: Scan)
    requires i <= |spec|
    requires s.inArray == (Depth(spec[..i]) == 1)
    requires 0 <= Depth(spec[..i]) <= 1
    requires s.sawName == SawName(spec, i)
    requires s.name != [] ==> s.sawName
    ensures ScanFrom(spec, i, s).ok <==> BracketsFrom(spec, i)
    decreases |spec| - i
  {
    if i < |spec| {
      DepthSnoc(spec, i);
      var c := spec[i];
      assert SawName(spec, i + 1) == (SawName(spec, i) || !IsDelim(c));
      if !IsDelim(c) {
        ScanChecksBrackets(spec, i + 1, s.(sawName := true, name := s.name + [c]));
        BracketsStep(spec, i);
      } else if c == '[' {
        if s.inArray || s.sawName {
          if s.inArray { assert Depth(spec[..i + 1]) == 2; }
        } else {
          ScanChecksBrackets(spec, i + 1, s.(inArray := true));
          BracketsStep(spec, i);
        }
      } else if c == ']' && !s.inArray {
        assert Depth(spec[..i + 1]) == -1;
      } else {
        var t := if s.name != [] then ProcessOneFilter(s.types, s.name) else s.types;
        ScanChecksBrackets(spec, i + 1, Scan(s.inArray && c != ']', s.sawName, [], t));
        BracketsStep(spec, i);
      }
    }
  }

  lemma {:induction false} BracketsStep(spec: bytes, i: nat)
    requires i < |spec|
    requires 0 <= Depth(spec[..i]) <= 1
    requires spec[i] == '[' ==> !SawName(spec, i)
    ensures BracketsFrom(spec, i) <==> BracketsFrom(spec, i + 1)
  {
    if BracketsFrom(spec, i + 1) {
      forall k, j | 0 <= k < j < |spec| && i <= j && !IsDelim(spec[k])
        ensures spec[j] != '['
      {
        if j == i { assert SawName(spec, i); }
      }
    }
  }

  /**
    The filter specification is accepted exactly when it is well bracketed, and an accepted
    specification selects deflate exactly when its last run of Flate names has odd length.
    A cascade of three Flate filters is therefore accepted, with one alert, as a single one.
   */
  lemma FilterMeaning(spec: bytes, t: Types)
    ensures ProcessFilterSpec(spec, t).ok <==> WellBracketed(spec)
    ensures var r := ProcessFilterSpec(spec, t);
            r.ok ==>
              && r.types == Applied(t.(session := NONE), Names(spec))
              && (r.types.session == DEFLATE <==> FlateTail(Names(spec)) % 2 == 1)
              && r.types.alerts == t.alerts + AlertsOf(Names(spec))
              && r.types.pdf == if SomeFlate(Names(spec)) then DEFLATE else t.pdf
    ensures !ProcessFilterSpec(spec, t).ok ==> ProcessFilterSpec(spec, t).types.session == NONE
    ensures ProcessFilterSpec(spec, t).types.session == DEFLATE ==> ProcessFilterSpec(spec, t).types.pdf == DEFLATE
  {
    var t0 := t.(session := NONE);
    var s := Scan(false, false, [], t0);
    ScanChecksBrackets(spec, 0, s);
    assert spec[..|spec|] == spec;
    ScanAppliesNames(spec, 0, s, t0, []);
    assert [] + Names(spec) == Names(spec);
    AppliedIsParity(t0, Names(spec));
    AppliedAlerts(t0, Names(spec));
    AppliedStreamType(t0, Names(spec));
    FailedScanHasNoType(spec, 0, s);
  }

  lemma {:induction false} FailedScanHasNoType(spec: bytes, i: nat, s: Scan)
    requires i <= |spec|
    ensures !ScanFrom(spec, i, s).ok ==> ScanFrom(spec, i, s).types.session == NONE
    decreases |spec| - i
  {
    if i < |spec| {
      var c := spec[i];
      if !IsDelim(c) {
        FailedScanHasNoType(spec, i + 1, s.(sawName := true, name := s.name + [c]));
      } else if c == '[' {
        FailedScanHasNoType(spec, i + 1, s.(inArray := true));
      } else {
        var t := if s.name != [] then ProcessOneFilter(s.types, s.name) else s.types;
        FailedScanHasNoType(spec, i + 1, Scan(s.inArray && c != ']', s.sawName, [], t));
      }
    }
  }

  // ----- the loop over the buffered specification -----

  /** The scan as the parser runs it: a start index and a length stand for the current name. */
  method RunFilterSpec(buf: array<byte>, n: nat, t: Types) returns (r: Filtered)
    requires n <= buf.Length
    ensures r == ProcessFilterSpec(buf[..n], t)
  {
    var types := t.(session := NONE);
    var inArray, sawName := false, false;
    var filter, length := -1, 0;
    ghost var spec := buf[..n];
    var index := 0;
    while index < n
      invariant index <= n
      invariant -1 <= filter && (filter == -1 ==> length == 0)
      invariant 0 <= filter ==> 0 < length && filter + length == index && sawName
      invariant ProcessFilterSpec(spec, t) ==
                ScanFrom(spec, index, Scan(inArray, sawName, if filter == -1 then [] else spec[filter..index], types))
    {
      var c := buf[index];
      assert c == spec[index];
      if IsDelim(c) {
        if c == '[' {
          if inArray || sawName || filter != -1 {
            return Filtered(false, types.(session := NONE));
          }
          inArray := true;
          filter, length := -1, 0;
          index := index + 1;
          continue;
        } else if c == ']' {
          if !inArray {
            return Filtered(false, types.(session := NONE));
          }
          inArray := false;
        }
        if filter != -1 && length > 0 {
          assert spec[filter..index] == buf[filter..filter + length];
          types := ProcessOneFilter(types, buf[filter..filter + length]);
          filter, length := -1, 0;
        }
      } else {
        if filter == -1 {
          sawName, filter, length := true, index, 1;
          assert spec[filter..index + 1] == [] + [c];
        } else {
          assert spec[filter..index + 1] == spec[filter..index] + [c];
          length := length + 1;
        }
      }
      index := index + 1;
    }
    if inArray {
      return Filtered(false, types.(session := NONE));
    }
    if filter != -1 && length > 0 {
      assert spec[filter..index] == buf[filter..filter + length];
      types := ProcessOneFilter(types, buf[filter..filter + length]);
    }
    return Filtered(true, types);
  }
}
