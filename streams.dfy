/** The two C stream calls the record codec uses, `fread` and `fwrite`, over an
    in-memory byte file. Both transfer whole items of `size` bytes and report how
    many whole items they moved; a short transfer is what a truncated file (for
    reading) or a full medium (for writing) produces. */
module Streams {
  import opened Bytes

  /** What `fread` leaves in its destination: the bytes it transferred, over the
      destination's earlier contents. */
  function Overlay(got: seq<byte>, dest: seq<byte>): (r: seq<byte>)
    requires |got| <= |dest|
    ensures |r| == |dest|
    ensures r[..|got|] == got && r[|got|..] == dest[|got|..]
    ensures |got| == |dest| ==> r == got
  {
    got + dest[|got|..]
  }

  /** The number of whole items in `n` bytes is the full count exactly when all
      `size * count` bytes were transferred. */
  lemma WholeItems(n: nat, size: nat, count: nat)
    requires 0 < size && n <= size * count
    ensures n / size <= count
    ensures n / size == count <==> n == size * count
  {
    var q := n / size;
    DivBounds(n, size);
    if q > count {
      MulMonotone(count + 1, q, size);
      assert false;
    }
    if q < count {
      MulMonotone(q + 1, count, size);
      assert n < size * count;
    }
  }

  lemma DivBounds(n: nat, size: nat)
    requires 0 < size
    ensures (n / size) * size <= n < (n / size) * size + size
  {
  }

  lemma MulMonotone(a: nat, b: nat, c: nat)
    requires a <= b
    ensures a * c <= b * c
  {
  }

  /** A file opened for reading: its whole contents and the read position. */
  class InputFile {
    const data: seq<byte>
    var pos: nat

    ghost predicate Valid()
      reads this
    {
      pos <= |data|
    }

    /** The bytes not yet read. */
    function Remaining(): (r: seq<byte>)
      reads this
      requires Valid()
      ensures |r| == |data| - pos
    {
      data[pos..]
    }

    constructor (contents: seq<byte>)
      ensures Valid() && data == contents && pos == 0
    {
      data := contents;
      pos := 0;
    }

    /** `fread(dest, size, count, file)`: transfers up to `size * count` bytes and
        returns them with the number of whole items they make up. */
    method Read(size: nat, count: nat) returns (items: nat, got: seq<byte>)
      requires Valid() && 0 < size
      modifies this
      ensures Valid()
      ensures got == old(Remaining())[..Min(size * count, |old(Remaining())|)]
      ensures pos == old(pos) + |got|
      ensures items == |got| / size
      ensures items <= count && (items == count <==> |got| == size * count)
      ensures |got| < size * count ==> pos == |data|
    {
      var n := Min(size * count, |data| - pos);
      got := data[pos..pos + n];
      pos := pos + n;
      items := n / size;
      WholeItems(n, size, count);
    }
  }

  /** A file opened for writing: the bytes written so far and the number of
      bytes the medium can take in all. */
  class OutputFile {
    var written: seq<byte>
    const capacity: nat

    ghost predicate Valid()
      reads this
    {
      |written| <= capacity
    }

    /** How many more bytes the medium accepts. */
    function Room(): (r: nat)
      reads this
      requires Valid()
      ensures |written| + r == capacity
    {
      capacity - |written|
    }

    constructor (limit: nat)
      ensures Valid() && written == [] && capacity == limit
    {
      written := [];
      capacity := limit;
    }

    /** `fwrite(src, size, count, file)`: appends as much of `src` as there is
        room for and returns the number of whole items appended. */
    method Write(size: nat, count: nat, src: seq<byte>) returns (items: nat)
      requires Valid() && 0 < size && |src| == size * count
      modifies this
      ensures Valid()
      ensures written == old(written) + src[..Min(|src|, old(Room()))]
      ensures items == Min(|src|, old(Room())) / size
      ensures items <= count && (items == count <==> |src| <= old(Room()))
    {
      var n := Min(|src|, capacity - |written|);
      written := written + src[..n];
      items := n / size;
      WholeItems(n, size, count);
    }
  }
}
