/**
  Content replacement (src/detection/detection_engine.cc, lines 214-240; src/actions/act_replace.cc,
  lines 43-83): replacements are queued during detection and written into the payload afterwards,
  taken from the back of the queue.
 */
module Replacement {
  import opened Basics

  datatype Change = Change(data: bytes, offset: nat)

  predicate Covers(c: Change, i: nat) {
    c.offset <= i < c.offset + |c.data|
  }

  /** Byte `i` of the payload as the earliest queued change that covers it leaves it. */
  function ByteAfter(payload: bytes, queue: seq<Change>, i: nat): byte
    requires i < |payload|
  {
    if queue == [] then payload[i]
    else if Covers(queue[0], i) then queue[0].data[i - queue[0].offset]
    else ByteAfter(payload, queue[1..], i)
  }

  function Replaced(payload: bytes, queue: seq<Change>): bytes {
    seq(|payload|, i requires 0 <= i < |payload| => ByteAfter(payload, queue, i))
  }

  class Context {
    var rpl: seq<Change>

    constructor ()
      ensures rpl == []
    {
      rpl := [];
    }

    method AddReplacement(data: bytes, offset: nat)
      modifies this
      ensures rpl == old(rpl) + [Change(data, offset)]
    {
      rpl := rpl + [Change(data, offset)];
    }

    method GetReplacement() returns (got: Option<Change>)
      modifies this
      ensures got.None? <==> old(rpl) == []
      ensures if got.None? then rpl == [] else old(rpl) == rpl + [got.value]
    {
      if rpl == [] {
        return None;
      }
      got := Some(rpl[|rpl| - 1]);
      rpl := rpl[..|rpl| - 1];
    }

    method ClearReplacement()
      modifies this
      ensures rpl == []
    {
      rpl := [];
    }
  }

  function Overlay(payload: bytes, c: Change): bytes {
    seq(|payload|, i requires 0 <= i < |payload| => if Covers(c, i) then c.data[i - c.offset] else payload[i])
  }

  /** How many bytes are copied: the difference is taken in 32 bits. */
  function CopyLength(dsize: nat, offset: nat, size: nat): nat {
    if offset + size >= dsize then (dsize - offset) % UINT32 else size
  }

  /** Byte `i`, counted from the start of the payload, is written. */
  predicate Writes(dsize: nat, offset: nat, size: nat, i: nat) {
    offset <= i < offset + CopyLength(dsize, offset, size)
  }

  /** No byte outside the payload is written if and only if the change does not begin behind it. */
  lemma StaysInside(dsize: nat, offset: nat, size: nat)
    requires dsize < UINT32 && offset < UINT32
    ensures (forall i: nat | Writes(dsize, offset, size, i) :: i < dsize) <==> offset <= dsize
  {
    if offset > dsize {
      assert CopyLength(dsize, offset, size) == dsize - offset + UINT32;
      assert Writes(dsize, offset, size, offset);
    }
  }

  /** Copies a change into the payload, cut off at its end. */
  method ApplyChange(payload: array<byte>, c: Change)
    requires payload.Length < UINT32 && c.offset <= payload.Length
    modifies payload
    ensures payload[..] == Overlay(old(payload[..]), c)
  {
    var len := CopyLength(payload.Length, c.offset, |c.data|);
    for k := 0 to len
      invariant forall i | 0 <= i < payload.Length ::
                  payload[i] == if c.offset <= i < c.offset + k then c.data[i - c.offset] else old(payload[i])
    {
      payload[c.offset + k] := c.data[k];
    }
  }

  /** Writing the change before those already written gives what queueing it in front of them means. */
  lemma WriteInFront(payload: bytes, queue: seq<Change>, k: nat)
    requires k < |queue|
    ensures Overlay(Replaced(payload, queue[k + 1..]), queue[k]) == Replaced(payload, queue[k..])
  {
    assert queue[k..][1..] == queue[k + 1..];
  }

  /**
    Writes all queued changes.  The queue is drained from its back, so where changes overlap the one that
    was queued first is written last and wins; bytes that no change covers, and the length, stay.
   */
  method ModifyPacket(ctx: Context, payload: array<byte>) returns (modified: bool)
    requires payload.Length < UINT32 && forall c | c in ctx.rpl :: c.offset <= payload.Length
    modifies ctx, payload
    ensures payload[..] == Replaced(old(payload[..]), old(ctx.rpl))
    ensures ctx.rpl == []
    ensures modified == (old(ctx.rpl) != [])
  {
    hide Overlay;
    ghost var before, queue, left := payload[..], ctx.rpl, |ctx.rpl|;
    modified := false;
    assert payload[..] == Replaced(before, queue[left..]);
    hide Replaced;
    var got := ctx.GetReplacement();
    while got.Some?
      invariant 0 <= left <= |queue|
      invariant got.None? ==> left == 0 && ctx.rpl == []
      invariant got.Some? ==> ctx.rpl + [got.value] == queue[..left]
      invariant payload[..] == Replaced(before, queue[left..])
      invariant modified == (left < |queue|)
      decreases left
    {
      modified := true;
      left := left - 1;
      assert queue[..left + 1][left] == got.value && ctx.rpl == queue[..left + 1][..left] == queue[..left];
      assert got.value in queue;
      ApplyChange(payload, got.value);
      WriteInFront(before, queue, left);
      got := ctx.GetReplacement();
    }
    assert queue[0..] == queue;
    ctx.ClearReplacement();
  }

  /** A byte that no queued change covers keeps its value. */
  lemma {:induction false} UncoveredStays(payload: bytes, queue: seq<Change>, i: nat)
    requires i < |payload|
    requires forall c | c in queue :: !Covers(c, i)
    ensures Replaced(payload, queue)[i] == payload[i]
  {
    if queue != [] {
      assert queue[0] in queue;
      UncoveredStays(payload, queue[1..], i);
    }
  }

  /** Of the changes that cover a byte, the one queued first decides it. */
  lemma {:induction false} FirstQueuedWins(payload: bytes, queue: seq<Change>, k: nat, i: nat)
    requires i < |payload| && k < |queue|
    requires Covers(queue[k], i) && forall j | 0 <= j < k :: !Covers(queue[j], i)
    ensures Replaced(payload, queue)[i] == queue[k].data[i - queue[k].offset]
  {
    if k > 0 {
      assert !Covers(queue[0], i);
      assert queue[1..][k - 1] == queue[k];
      forall j | 0 <= j < k - 1 ensures !Covers(queue[1..][j], i) { assert queue[1..][j] == queue[j + 1]; }
      FirstQueuedWins(payload, queue[1..], k - 1, i);
    }
  }
}
