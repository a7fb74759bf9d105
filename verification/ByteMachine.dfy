/**
  Machines that copy their input to their output byte by byte and may suspend for lack of either
  (src/decompress/file_decomp_pdf.cc, lines 821-899, with the byte moves of
  src/decompress/file_decomp.h, lines 233-251).  The results hold of any transition function.
 */
module ByteMachine {
  import opened Basics

  /** `step` consumes a byte and either goes on or rejects it; a halted machine consumes nothing. */
  datatype Machine<!S> = Machine(halted: S -> bool, step: (S, byte) -> Move<S>)

  datatype Move<S> = Next(s: S) | Reject(s: S)

  datatype Status = BlockIn | BlockOut | Complete | Error

  /** The result of one call: why it stopped, the state, and the number of bytes moved. */
  datatype Located<S> = Located(status: Status, s: S, used: nat)

  /** One call with `input` available and room for `room` bytes of output. */
  function Locate<S>(m: Machine<S>, s: S, input: bytes, room: nat): (r: Located<S>)
    ensures r.used <= |input| && r.used <= room
    ensures r.status == BlockIn ==> r.used == |input|
    ensures r.status == BlockOut ==> r.used == room < |input|
    ensures r.status == Complete ==> m.halted(r.s) && r.used < |input| && r.used < room
    decreases |input|
  {
    if input == [] then Located(BlockIn, s, 0)
    else if room == 0 then Located(BlockOut, s, 0)
    else if m.halted(s) then Located(Complete, s, 0)
    else
      match m.step(s, input[0])
      case Reject(t) => Located(Error, t, 0)
      case Next(t) =>
        var r := Locate(m, t, input[1..], room - 1);
        r.(used := r.used + 1)
  }

  /** The call as seen `k` bytes earlier. */
  function Earlier<S>(k: nat, r: Located<S>): Located<S> {
    r.(used := k + r.used)
  }

  /** One turn of the loop. */
  lemma LocateTurn<S>(m: Machine<S>, s: S, input: bytes, room: nat)
    ensures input == [] ==> Locate(m, s, input, room) == Located(BlockIn, s, 0)
    ensures input != [] && room == 0 ==> Locate(m, s, input, room) == Located(BlockOut, s, 0)
    ensures input != [] && room > 0 && m.halted(s) ==> Locate(m, s, input, room) == Located(Complete, s, 0)
    ensures input != [] && room > 0 && !m.halted(s) ==>
              Locate(m, s, input, room) ==
              (match m.step(s, input[0])
               case Reject(t) => Located(Error, t, 0)
               case Next(t) => Earlier(1, Locate(m, t, input[1..], room - 1)))
  {}

  /** The state after consuming all of `input`; None if a byte was rejected or the machine halted before the end. */
  function Run<S>(m: Machine<S>, s: S, input: bytes): Option<S> {
    if input == [] then Some(s)
    else
      match Run(m, s, input[..|input| - 1])
      case None => None
      case Some(t) =>
        if m.halted(t) then None
        else
          match m.step(t, input[|input| - 1])
          case Reject(_) => None
          case Next(u) => Some(u)
  }

  /** What every step keeps, every state of a run has. */
  lemma {:induction false} RunKeeps<S>(m: Machine<S>, inv: S -> bool, s: S, input: bytes)
    requires inv(s)
    requires forall t, c | inv(t) && !m.halted(t) && m.step(t, c).Next? :: inv(m.step(t, c).s)
    ensures Run(m, s, input).Some? ==> inv(Run(m, s, input).value)
  {
    if input != [] {
      RunKeeps(m, inv, s, input[..|input| - 1]);
    }
  }

  lemma {:induction false} RunCons<S>(m: Machine<S>, s: S, c: byte, rest: bytes)
    requires !m.halted(s)
    ensures Run(m, s, [c] + rest) ==
            (match m.step(s, c) case Next(t) => Run(m, t, rest) case Reject(_) => None)
  {
    if rest == [] {
      assert ([c] + rest)[..0] == [];
    } else {
      var n := |rest| - 1;
      assert ([c] + rest)[..n + 1] == [c] + rest[..n];
      RunCons(m, s, c, rest[..n]);
    }
  }

  lemma {:induction false} RunFromHalted<S>(m: Machine<S>, s: S, a: bytes)
    requires a != [] && m.halted(s)
    ensures Run(m, s, a).None?
  {
    if |a| > 1 { RunFromHalted(m, s, a[..|a| - 1]); }
  }

  lemma {:induction false} RunHead<S>(m: Machine<S>, s: S, a: bytes)
    requires a != [] && Run(m, s, a).Some?
    ensures !m.halted(s) && m.step(s, a[0]).Next?
    ensures Run(m, m.step(s, a[0]).s, a[1..]) == Run(m, s, a)
  {
    if m.halted(s) {
      RunFromHalted(m, s, a);
    } else {
      assert a == [a[0]] + a[1..];
      RunCons(m, s, a[0], a[1..]);
    }
  }

  /** A call is a run over the bytes it moves (the rejected byte is not moved). */
  lemma {:induction false} LocateIsRun<S>(m: Machine<S>, s: S, input: bytes, room: nat)
    ensures var r := Locate(m, s, input, room);
            r.status != Error ==> Run(m, s, input[..r.used]) == Some(r.s)
    ensures var r := Locate(m, s, input, room);
            r.status == Error ==>
              && r.used < |input| && Run(m, s, input[..r.used]).Some?
              && m.step(Run(m, s, input[..r.used]).value, input[r.used]) == Reject(r.s)
    decreases |input|
  {
    var r := Locate(m, s, input, room);
    if input != [] && room != 0 && !m.halted(s) && m.step(s, input[0]).Next? {
      LocateIsRun(m, m.step(s, input[0]).s, input[1..], room - 1);
      assert input[..r.used] == [input[0]] + input[1..][..r.used - 1];
      RunCons(m, s, input[0], input[1..][..r.used - 1]);
    }
  }

  // ----- splitting the input -----

  /** Locating in `a + b` after a run over `a` is locating in `b`. */
  lemma {:induction false} JoinCalls<S>(m: Machine<S>, s: S, a: bytes, b: bytes, room: nat)
    requires Run(m, s, a).Some?
    ensures Locate(m, s, a + b, |a| + room) ==
            (var r := Locate(m, Run(m, s, a).value, b, room); r.(used := |a| + r.used))
    decreases |a|
  {
    if a == [] {
      assert a + b == b;
    } else {
      RunHead(m, s, a);
      assert (a + b)[1..] == a[1..] + b;
      JoinCalls(m, m.step(s, a[0]).s, a[1..], b, room);
    }
  }

  /** A call that did not run out of room does not depend on the room, or on what follows once it stopped for good. */
  lemma {:induction false} RoomIrrelevant<S>(m: Machine<S>, s: S, a: bytes, b: bytes, room: nat)
    requires Locate(m, s, a, room).status != BlockOut
    requires b != [] ==> Locate(m, s, a, room).status in {Complete, Error}
    ensures Locate(m, s, a + b, |a + b|) == Locate(m, s, a, room)
    decreases |a|
  {
    if a == [] {
      assert a + b == [];
    } else {
      assert (a + b)[1..] == a[1..] + b;
      if !m.halted(s) && m.step(s, a[0]).Next? {
        RoomIrrelevant(m, m.step(s, a[0]).s, a[1..], b, room - 1);
      }
    }
  }

  /** One call of a schedule: a chunk that has arrived since the last call, and the room given. */
  datatype Call = Call(chunk: bytes, room: nat)

  function Arrived(calls: seq<Call>): bytes {
    if calls == [] then [] else calls[0].chunk + Arrived(calls[1..])
  }

  datatype Phase<S> = Phase(last: Located<S>, out: bytes)

  /**
    The phase over a schedule of calls; `left` is input offered before and not yet consumed.  The phase
    ends with the first call that completes or fails.  `last` is the last call's result with `used`
    counting the bytes of all calls; `out` is the output of all calls.
   */
  function Scheduled<S>(m: Machine<S>, s: S, left: bytes, calls: seq<Call>): Phase<S>
    requires calls != []
    decreases |calls|
  {
    var input := left + calls[0].chunk;
    var r := Locate(m, s, input, calls[0].room);
    var out := input[..r.used];
    if r.status == Complete || r.status == Error || |calls| == 1 then Phase(r, out)
    else
      var rest := Scheduled(m, r.s, input[r.used..], calls[1..]);
      Phase(rest.last.(used := r.used + rest.last.used), out + rest.out)
  }

  /** The phase is what one call on `whole` does, given as much room as was used if room ran out. */
  ghost predicate AsOneCall<S>(m: Machine<S>, s: S, whole: bytes, ph: Phase<S>) {
    && ph.last == Locate(m, s, whole, if ph.last.status == BlockOut then ph.last.used else |whole|)
    && ph.out == whole[..ph.last.used]
  }

  /**
    However the input is cut into chunks and however the output space is handed out, the phase reaches
    the status, state and byte count of a single call on the whole input, and its output is the consumed
    input, byte for byte.
   */
  lemma {:induction false} SplitInvariance<S>(m: Machine<S>, s: S, left: bytes, calls: seq<Call>)
    requires calls != []
    ensures AsOneCall(m, s, left + Arrived(calls), Scheduled(m, s, left, calls))
    decreases |calls|
  {
    var input := left + calls[0].chunk;
    var rest := Arrived(calls[1..]);
    var whole := left + Arrived(calls);
    assert whole == input + rest;
    var r := Locate(m, s, input, calls[0].room);
    var ph := Scheduled(m, s, left, calls);
    if r.status == Complete || r.status == Error {
      RoomIrrelevant(m, s, input, rest, calls[0].room);
      assert ph == Phase(r, input[..r.used]);
      assert AsOneCall(m, s, whole, ph);
    } else if |calls| == 1 {
      assert rest == [] && whole == input;
      OneCall(m, s, input, calls[0].room);
      assert ph == Phase(r, input[..r.used]);
      assert AsOneCall(m, s, whole, ph);
    } else {
      var later := Scheduled(m, r.s, input[r.used..], calls[1..]);
      SplitInvariance(m, r.s, input[r.used..], calls[1..]);
      LaterCalls(m, s, input, rest, calls[0].room, later);
      assert ph == Phase(later.last.(used := r.used + later.last.used), input[..r.used] + later.out);
      assert AsOneCall(m, s, whole, ph);
    }
  }

  lemma OneCall<S>(m: Machine<S>, s: S, input: bytes, room: nat)
    requires Locate(m, s, input, room).status in {BlockIn, BlockOut}
    ensures var r := Locate(m, s, input, room);
            r == Locate(m, s, input, if r.status == BlockOut then r.used else |input|)
  {
    if Locate(m, s, input, room).status == BlockIn {
      RoomIrrelevant(m, s, input, [], room);
      assert input + [] == input;
    }
  }

  lemma TakeAppend(a: bytes, b: bytes, k: nat)
    requires k <= |b|
    ensures (a + b)[..|a| + k] == a + b[..k]
  {}

  lemma Regroup(input: bytes, k: nat, rest: bytes)
    requires k <= |input|
    ensures input + rest == input[..k] + (input[k..] + rest)
  {}

  lemma LaterCalls<S>(m: Machine<S>, s: S, input: bytes, rest: bytes, room: nat, later: Phase<S>)
    requires Locate(m, s, input, room).status in {BlockIn, BlockOut}
    requires var r := Locate(m, s, input, room);
             AsOneCall(m, r.s, input[r.used..] + rest, later)
    ensures var r := Locate(m, s, input, room);
            AsOneCall(m, s, input + rest,
              Phase(later.last.(used := r.used + later.last.used), input[..r.used] + later.out))
  {
    var r := Locate(m, s, input, room);
    LocateIsRun(m, s, input, room);
    var a, tail := input[..r.used], input[r.used..] + rest;
    Regroup(input, r.used, rest);
    PrefixedCall(m, s, a, tail, later);
  }

  lemma PrefixedCall<S>(m: Machine<S>, s: S, a: bytes, tail: bytes, later: Phase<S>)
    requires Run(m, s, a).Some? && AsOneCall(m, Run(m, s, a).value, tail, later)
    ensures AsOneCall(m, s, a + tail, Phase(later.last.(used := |a| + later.last.used), a + later.out))
  {
    TakeAppend(a, tail, later.last.used);
    JoinCalls(m, s, a, tail, if later.last.status == BlockOut then later.last.used else |tail|);
  }

  /** Two schedules that offer the same bytes and do not end for lack of room end alike. */
  lemma SchedulesAgree<S>(m: Machine<S>, s: S, one: seq<Call>, two: seq<Call>)
    requires one != [] && two != [] && Arrived(one) == Arrived(two)
    requires Scheduled(m, s, [], one).last.status != BlockOut
    requires Scheduled(m, s, [], two).last.status != BlockOut
    ensures Scheduled(m, s, [], one) == Scheduled(m, s, [], two)
  {
    SplitInvariance(m, s, [], one);
    SplitInvariance(m, s, [], two);
  }
}
