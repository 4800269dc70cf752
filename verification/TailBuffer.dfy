/** The bounded job log of internal/web/jobs.go. */
module TailBuffers {

  const MAX_TOOL_OUTPUT := 16 * 1024

  /** The last n elements, or all of them when there are fewer. */
  function Last<T>(s: seq<T>, n: nat): (r: seq<T>)
    ensures |r| == if |s| > n then n else |s|
  {
    if |s| > n then s[|s| - n..] else s
  }

  class TailBuffer {
    var b: seq<bv8>
    ghost var written: seq<bv8>  // everything ever written

    /** The buffer holds the end of what was written: enough of it, and not too much. */
    ghost predicate Valid()
      reads this
    {
      && |b| <= 2 * MAX_TOOL_OUTPUT
      && b == Last(written, |b|)
      && (|b| >= MAX_TOOL_OUTPUT || b == written)
    }

    constructor ()
      ensures Valid() && written == []
    {
      b, written := [], [];
    }

    method Write(p: seq<bv8>) returns (n: nat)
      requires Valid()
      modifies this
      ensures Valid() && n == |p| && written == old(written) + p
      ensures |b| <= 32768 && (|b| >= 16384 || b == written)
    {
      b := b + p;
      written := written + p;
      assert b == Last(written, |b|);
      if |b| > 2 * MAX_TOOL_OUTPUT {
        b := b[|b| - MAX_TOOL_OUTPUT..];
      }
      n := |p|;
    }

    method String() returns (tail: seq<bv8>)
      requires Valid()
      ensures tail == Last(written, MAX_TOOL_OUTPUT)
    {
      tail := b;
      if |tail| > MAX_TOOL_OUTPUT {
        tail := tail[|tail| - MAX_TOOL_OUTPUT..];
      }
    }
  }

  function Concat<T>(writes: seq<seq<T>>): seq<T> {
    if |writes| == 0 then [] else Concat(writes[..|writes| - 1]) + writes[|writes| - 1]
  }

  /** Any sequence of writes, then a read: the end of everything written. */
  method Tail(writes: seq<seq<bv8>>) returns (tail: seq<bv8>)
    ensures tail == Last(Concat(writes), MAX_TOOL_OUTPUT)
    ensures exists front :: front + tail == Concat(writes) && (front == [] || |tail| == 16384) && |tail| <= 16384
  {
    var t := new TailBuffer();
    for i := 0 to |writes|
      invariant t.Valid() && fresh(t) && t.written == Concat(writes[..i])
    {
      var _ := t.Write(writes[i]);
      assert writes[..i + 1][..i] == writes[..i];
    }
    assert writes[..|writes|] == writes;
    tail := t.String();
    ghost var all := Concat(writes);
    assert all[..|all| - |tail|] + tail == all;
  }
}
