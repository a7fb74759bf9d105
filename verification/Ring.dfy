/** The ring through which packet threads poke the main thread (src/helpers/ring.h, src/helpers/ring_logic.h). */
module Ring {
  import opened Basics

  class Ring {
    const store: array<nat>
    var rx: nat
    var wx: nat

    ghost predicate Valid()
      reads this
    {
      2 <= store.Length && rx < store.Length && wx < store.Length && rx != wx
    }

    function Count(): (c: nat)
      requires Valid()
      reads this
      ensures c <= store.Length - 2
    {
      if wx > rx then wx - rx - 1 else wx - rx - 1 + store.Length
    }

    /** Where the k-th oldest entry is stored. */
    function Place(k: nat): (i: nat)
      requires Valid() && k < store.Length
      reads this
      ensures i < store.Length
    {
      if rx + 1 + k < store.Length then rx + 1 + k else rx + 1 + k - store.Length
    }

    /** The entries, oldest first. */
    ghost function Contents(): (s: seq<nat>)
      requires Valid()
      reads this, store
      ensures |s| == Count()
    {
      seq(Count(), k reads this, store requires Valid() && 0 <= k < Count() => store[Place(k)])
    }

    function Next(i: nat): nat
      reads this
    {
      if i + 1 < store.Length then i + 1 else 0
    }

    constructor (size: nat)
      requires size >= 2
      ensures Valid() && fresh(store) && store.Length == size && Contents() == []
    {
      store := new nat[size](_ => 0);
      rx, wx := 0, 1;
    }

    /** A first-in first-out queue that holds two entries fewer than the store and drops the rest. */
    method Put(v: nat) returns (ok: bool)
      requires Valid()
      modifies this`wx, store
      ensures Valid() && ok == (|old(Contents())| < store.Length - 2)
      ensures Contents() == if ok then old(Contents()) + [v] else old(Contents())
    {
      if Next(wx) == rx {
        return false;
      }
      store[wx] := v;
      wx := Next(wx);
      ok := true;
    }

    method Get() returns (v: Option<nat>)
      requires Valid()
      modifies this`rx
      ensures Valid()
      ensures if old(Contents()) == [] then v == None && Contents() == []
              else v == Some(old(Contents())[0]) && Contents() == old(Contents())[1..]
    {
      var nx := Next(rx);
      if nx == wx {
        return None;
      }
      v := Some(store[nx]);
      rx := nx;
    }
  }
}
