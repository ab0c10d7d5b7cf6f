/** The in-memory byte stream the parser reads from: the whole input and a
    cursor. A read of `n` bytes returns what is left up to `n` bytes (fewer
    at the end, everything left when `n` is negative) and moves the cursor
    to where the read stopped; a seek may put the cursor anywhere at or
    after 0, past the end included. */
module Streams {
  import opened Wire

  /** Where a read of `n` bytes from `pos` stops: at most at the end, and
      at the end when `n` is negative. A cursor already past the end is
      brought back to it. */
  function ReadEnd(len: nat, pos: nat, n: int): (e: nat)
    ensures e <= len
    ensures 0 <= n && pos + n <= len ==> e == pos + n
    ensures 0 <= n && pos + n > len ==> e == len
    ensures n < 0 ==> e == len
  {
    if n < 0 then len else Min(pos + n, len)
  }

  /** The bytes a read of `n` bytes from `pos` returns. */
  function ReadBytes(data: seq<Byte>, pos: nat, n: int): (r: seq<Byte>)
    ensures 0 <= n ==> |r| <= n
    ensures 0 <= n && pos + n <= |data| ==> r == data[pos..pos + n]
    ensures pos <= |data| ==> r == data[pos..ReadEnd(|data|, pos, n)]
    ensures pos >= |data| ==> r == []
  {
    var e := ReadEnd(|data|, pos, n);
    if pos <= e then data[pos..e] else []
  }

  class Stream {
    const data: seq<Byte>
    var pos: nat

    constructor (data: seq<Byte>)
      ensures this.data == data && pos == 0
    {
      this.data := data;
      pos := 0;
    }

    method Tell() returns (p: nat)
      ensures p == pos
    {
      p := pos;
    }

    /** Moves the cursor to `off`, or to 0 when `off` is negative. */
    method Seek(off: int)
      modifies this
      ensures pos == Max(0, off)
    {
      pos := if off < 0 then 0 else off;
    }

    /** Moves the cursor by `off`, stopping at 0. */
    method SeekRelative(off: int)
      modifies this
      ensures pos == Max(0, old(pos) + off)
    {
      pos := if pos + off < 0 then 0 else pos + off;
    }

    /** Reads up to `n` bytes, or the rest when `n` is negative. */
    method Read(n: int) returns (r: seq<Byte>)
      modifies this
      ensures r == ReadBytes(data, old(pos), n)
      ensures pos == ReadEnd(|data|, old(pos), n)
    {
      var newpos := if n < 0 then |data| else Min(pos + n, |data|);
      r := if pos <= newpos then data[pos..newpos] else [];
      pos := newpos;
    }
  }
}
