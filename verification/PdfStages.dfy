/**
  The order of events in a session (src/decompress/file_decomp_pdf.cc, lines 900-1144): when a decoder is opened and
  used, and when its stream is closed.  The session in PdfSession.dfy keeps to it.
 */
module PdfStages {
  import opened Basics
  import opened PdfDocument

  /** Looking for a stream; decoding one; its end reached; given up, with or without alerts raised so far; stuck. */
  datatype Stage = Seeking | Decoding | Ended | Failed | Leaving | Cornered | Left | Broken

  function NextStage(g: Stage, e: Event): Option<Stage> {
    match g
    case Seeking =>
      if e.Copied? then Some(Seeking)
      else if e.Opened? then Some(Decoding)
      else if e.Unready? then Some(Failed)
      else None
    case Decoding =>
      if !e.Inflated? then None
      else Some(match e.code case Z_OK => Decoding case Z_STREAM_END => Ended case Z_OTHER => Failed)
    case Ended => if e.Closed? then Some(Seeking) else if e.Alarmed? then Some(Broken) else None
    case Failed => if e.Alarmed? then Some(Leaving) else None
    case Leaving => if e.Closed? then Some(Left) else if e.Alarmed? then Some(Cornered) else None
    case Cornered => if e.Closed? then Some(Left) else None
    case Left => if e.Alarmed? then Some(Seeking) else None
    case Broken => None
  }

  /** The stage that a session's events lead to; None if they are out of order. */
  function StageOf(log: seq<Event>): Option<Stage> {
    if log == [] then Some(Seeking)
    else
      match StageOf(log[..|log| - 1])
      case None => None
      case Some(g) => NextStage(g, log[|log| - 1])
  }

  lemma SnocStage(log: seq<Event>, e: Event)
    ensures StageOf(log + [e]) == if StageOf(log).None? then None else NextStage(StageOf(log).value, e)
  {
    assert (log + [e])[..|log|] == log;
  }

  lemma {:induction false} StagePrefix(log: seq<Event>, i: nat)
    requires StageOf(log).Some? && i <= |log|
    ensures StageOf(log[..i]).Some?
  {
    if i < |log| {
      StagePrefix(log[..|log| - 1], i);
      assert log[..|log| - 1][..i] == log[..i];
    } else {
      assert log[..i] == log;
    }
  }

  lemma {:induction false} CopiesSeek(log: seq<Event>, data: bytes)
    requires StageOf(log) == Some(Seeking)
    ensures StageOf(log + Copies(data)) == Some(Seeking)
  {
    if data == [] {
      assert log + Copies(data) == log;
    } else {
      var n := |data| - 1;
      CopiesSeek(log, data[..n]);
      assert log + Copies(data) == (log + Copies(data[..n])) + [Copied(data[n])];
      SnocStage(log + Copies(data[..n]), Copied(data[n]));
    }
  }

  /** The decoder has answered that the stream is over or broken, or could not be initialised. */
  predicate Ends(e: Event) {
    e.Unready? || (e.Inflated? && e.code != Z_OK)
  }

  /** The last event that is not an alert. */
  function Latest(log: seq<Event>): Option<Event> {
    if log == [] then None
    else if log[|log| - 1].Alarmed? then Latest(log[..|log| - 1])
    else Some(log[|log| - 1])
  }

  predicate Over(log: seq<Event>) {
    Latest(log).Some? && Ends(Latest(log).value)
  }

  /** What each stage says about the last event that is not an alert. */
  lemma {:induction false} StageMeans(log: seq<Event>)
    requires StageOf(log).Some?
    ensures var g := StageOf(log).value;
            && (Over(log) <==> g in {Ended, Failed, Leaving, Cornered, Broken})
            && (g == Decoding <==> Latest(log).Some? && (Latest(log).value.Opened? || IsOk(Latest(log).value)))
            && (g == Left ==> Latest(log) == Some(Closed))
  {
    if log != [] {
      StageMeans(log[..|log| - 1]);
    }
  }

  predicate IsOk(e: Event) {
    e.Inflated? && e.code == Z_OK
  }

  /**
    A stream is closed exactly when it is over: alerts aside, each closing directly follows an answer of the decoder
    other than OK, or a failed initialisation; and after these nothing but the closing may follow.
   */
  lemma ClosedExactlyWhenOver(log: seq<Event>, i: nat)
    requires StageOf(log).Some? && i < |log| && !log[i].Alarmed?
    ensures log[i].Closed? <==> Over(log[..i])
  {
    StagePrefix(log, i);
    StagePrefix(log, i + 1);
    assert log[..i + 1] == log[..i] + [log[i]];
    SnocStage(log[..i], log[i]);
    StageMeans(log[..i]);
  }

  /** The decoder is used exactly between its initialisation and its first answer other than OK. */
  lemma DecodesExactlyWhileOk(log: seq<Event>, i: nat)
    requires StageOf(log).Some? && i < |log| && !log[i].Alarmed?
    ensures log[i].Inflated? <==>
            Latest(log[..i]).Some? && (Latest(log[..i]).value.Opened? || IsOk(Latest(log[..i]).value))
  {
    StagePrefix(log, i);
    StagePrefix(log, i + 1);
    assert log[..i + 1] == log[..i] + [log[i]];
    SnocStage(log[..i], log[i]);
    StageMeans(log[..i]);
  }

  /** An alert is raised only for a stream that is over or has just been given up. */
  lemma AlertsOnlyWhenOver(log: seq<Event>, i: nat)
    requires StageOf(log).Some? && i < |log| && log[i].Alarmed?
    ensures Over(log[..i]) || Latest(log[..i]) == Some(Closed)
  {
    StagePrefix(log, i);
    StagePrefix(log, i + 1);
    assert log[..i + 1] == log[..i] + [log[i]];
    SnocStage(log[..i], log[i]);
    StageMeans(log[..i]);
  }

  /** A stream that fails raises an alert at once, and another when it has been given up. */
  lemma FailureAlerts(log: seq<Event>, i: nat)
    requires StageOf(log).Some? && i + 1 < |log|
    requires log[i].Unready? || (log[i].Inflated? && log[i].code == Z_OTHER)
    ensures log[i + 1].Alarmed?
    ensures forall j | i < j < |log| - 1 && log[j].Closed? && (forall k | i < k < j :: log[k].Alarmed?) ::
              log[j + 1].Alarmed?
  {
    FailsAt(log, i);
    forall j | i < j < |log| - 1 && log[j].Closed? && (forall k | i < k < j :: log[k].Alarmed?)
      ensures log[j + 1].Alarmed?
    {
      LeavesUntil(log, i, j);
      StageStep(log, j);
      StageStep(log, j + 1);
    }
  }

  lemma StageStep(log: seq<Event>, i: nat)
    requires StageOf(log).Some? && i < |log|
    ensures StageOf(log[..i]).Some? && StageOf(log[..i + 1]).Some?
    ensures StageOf(log[..i + 1]) == NextStage(StageOf(log[..i]).value, log[i])
  {
    StagePrefix(log, i);
    StagePrefix(log, i + 1);
    assert log[..i + 1] == log[..i] + [log[i]];
    SnocStage(log[..i], log[i]);
  }

  lemma FailsAt(log: seq<Event>, i: nat)
    requires StageOf(log).Some? && i + 1 < |log|
    requires log[i].Unready? || (log[i].Inflated? && log[i].code == Z_OTHER)
    ensures StageOf(log[..i + 1]) == Some(Failed) && log[i + 1].Alarmed?
  {
    StageStep(log, i);
    StageStep(log, i + 1);
  }

  lemma {:induction false} LeavesUntil(log: seq<Event>, i: nat, j: nat)
    requires StageOf(log).Some? && i < j < |log| && forall k | i < k < j :: log[k].Alarmed?
    requires StageOf(log[..i + 1]) == Some(Failed)
    ensures StageOf(log[..j]).Some? && StageOf(log[..j]).value in {Failed, Leaving, Cornered}
    decreases j
  {
    if j > i + 1 {
      LeavesUntil(log, i, j - 1);
      StageStep(log, j - 1);
    }
  }
}
