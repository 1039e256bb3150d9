/** The circular buffer of a pipe: put, get and the end-of-file mark, against the bytes it holds. */
module PipeRing {

  const PIPEBUFFERSIZE := 1024
  const EOF: int := -1

  datatype Ring = Ring(buffer: seq<int>, readPos: nat, writePos: nat, charsToRead: int)

  predicate RingOk(r: Ring) {
    |r.buffer| == PIPEBUFFERSIZE && r.readPos < PIPEBUFFERSIZE && r.writePos < PIPEBUFFERSIZE &&
    0 <= r.charsToRead <= PIPEBUFFERSIZE && r.writePos == (r.readPos + r.charsToRead) % PIPEBUFFERSIZE
  }

  /** Where the j-th byte to read is stored. */
  function Place(r: Ring, j: nat): nat {
    (r.readPos + j) % PIPEBUFFERSIZE
  }

  /** The bytes to read, oldest first. */
  function Buffered(r: Ring): (s: seq<int>)
    requires RingOk(r)
    ensures |s| == r.charsToRead
  {
    seq(r.charsToRead, j requires 0 <= j < r.charsToRead => r.buffer[Place(r, j)])
  }

  /** One byte of the write loop. */
  function Put(r: Ring, c: int): Ring
    requires RingOk(r)
  {
    Ring(r.buffer[r.writePos % PIPEBUFFERSIZE := c], r.readPos, (r.writePos + 1) % PIPEBUFFERSIZE, r.charsToRead + 1)
  }

  /** One byte of the read loop. */
  function Get(r: Ring): (Ring, int)
    requires RingOk(r)
  {
    (Ring(r.buffer, (1 + r.readPos) % PIPEBUFFERSIZE, r.writePos, r.charsToRead - 1),
     r.buffer[r.readPos % PIPEBUFFERSIZE])
  }

  /** The mark a write leaves behind its last byte when the buffer is not almost full. */
  function MarkEof(r: Ring): Ring
    requires RingOk(r)
  {
    if r.charsToRead < PIPEBUFFERSIZE - 1 then r.(buffer := r.buffer[r.writePos := EOF]) else r
  }

  /** Adding 1 on either side of the remainder. */
  lemma NextPlace(x: nat)
    ensures (x % PIPEBUFFERSIZE + 1) % PIPEBUFFERSIZE == (x + 1) % PIPEBUFFERSIZE
  {
  }

  /** Two different distances below 1024 lead to different places. */
  lemma PlacesDiffer(r: Ring, i: nat, j: nat)
    requires i < j < i + PIPEBUFFERSIZE
    ensures Place(r, i) != Place(r, j)
  {
  }

  lemma PutAppends(r: Ring, c: int)
    requires RingOk(r) && r.charsToRead < PIPEBUFFERSIZE
    ensures RingOk(Put(r, c)) && Buffered(Put(r, c)) == Buffered(r) + [c]
  {
    var r' := Put(r, c);
    NextPlace(r.readPos + r.charsToRead);
    forall j | 0 <= j < r'.charsToRead ensures Buffered(r')[j] == (Buffered(r) + [c])[j] {
      if j < r.charsToRead {
        PlacesDiffer(r, j, r.charsToRead);
      }
    }
  }

  lemma GetTakesOldest(r: Ring)
    requires RingOk(r) && r.charsToRead > 0
    ensures var (r', c) := Get(r); RingOk(r') && Buffered(r) == [c] + Buffered(r')
  {
    var (r', c) := Get(r);
    forall j: nat ensures Place(r', j) == Place(r, j + 1) {
      ShiftPlace(r.readPos, j);
    }
    ShiftPlace(r.readPos, r'.charsToRead);
    assert Place(r, 0) == r.readPos;
    forall j | 0 <= j < r.charsToRead ensures Buffered(r)[j] == ([c] + Buffered(r'))[j] {
      if j > 0 {
        assert Place(r', j - 1) == Place(r, j);
      }
    }
  }

  lemma ShiftPlace(x: nat, j: nat)
    ensures ((1 + x) % PIPEBUFFERSIZE + j) % PIPEBUFFERSIZE == (x + (j + 1)) % PIPEBUFFERSIZE
  {
  }

  /** The end-of-file mark only ever lands in a free slot. */
  lemma MarkIsHarmless(r: Ring)
    requires RingOk(r)
    ensures RingOk(MarkEof(r)) && Buffered(MarkEof(r)) == Buffered(r)
  {
    forall j: nat | j < r.charsToRead && r.charsToRead < PIPEBUFFERSIZE ensures Place(r, j) != r.writePos {
      PlacesDiffer(r, j, r.charsToRead);
    }
  }

  /** Where the mark lands: right behind the last byte to read, if at least two slots are free; else nowhere. */
  lemma MarkStandsBehind(r: Ring)
    requires RingOk(r)
    ensures var t := MarkEof(r);
            (r.charsToRead < PIPEBUFFERSIZE - 1 ==> t.buffer[Place(t, t.charsToRead)] == EOF) &&
            (r.charsToRead >= PIPEBUFFERSIZE - 1 ==> t == r) &&
            forall i :: 0 <= i < PIPEBUFFERSIZE && i != r.writePos ==> t.buffer[i] == r.buffer[i]
  {
  }

  /** The same operations in place, as the loops of writePipeK and readPipeK perform them. */
  class Pipe {
    const buffer: array<int>
    var bufferReadPosition: nat
    var bufferWritePosition: nat
    var charsToRead: int

    ghost function Model(): Ring
      reads this, buffer
    {
      Ring(buffer[..], bufferReadPosition, bufferWritePosition, charsToRead)
    }

    /** createPipeK */
    constructor ()
      ensures RingOk(Model()) && Buffered(Model()) == [] && fresh(buffer)
    {
      buffer := new int[PIPEBUFFERSIZE];
      bufferReadPosition := 0;
      bufferWritePosition := 0;
      charsToRead := 0;
    }

    method WriteByte(c: int)
      requires RingOk(Model()) && charsToRead < PIPEBUFFERSIZE
      modifies this`bufferWritePosition, this`charsToRead, buffer
      ensures Model() == Put(old(Model()), c)
      ensures RingOk(Model()) && Buffered(Model()) == Buffered(old(Model())) + [c]
    {
      PutAppends(Model(), c);
      var index := bufferWritePosition % PIPEBUFFERSIZE;
      bufferWritePosition := (bufferWritePosition + 1) % PIPEBUFFERSIZE;
      buffer[index] := c;
      charsToRead := charsToRead + 1;
    }

    method ReadByte() returns (c: int)
      requires RingOk(Model()) && charsToRead > 0
      modifies this`bufferReadPosition, this`charsToRead
      ensures (Model(), c) == Get(old(Model()))
      ensures RingOk(Model()) && [c] + Buffered(Model()) == Buffered(old(Model()))
    {
      GetTakesOldest(Model());
      var index := bufferReadPosition % PIPEBUFFERSIZE;
      bufferReadPosition := (1 + bufferReadPosition) % PIPEBUFFERSIZE;
      c := buffer[index];
      charsToRead := charsToRead - 1;
    }

    method MarkEndOfFile()
      requires RingOk(Model())
      modifies buffer
      ensures Model() == MarkEof(old(Model()))
      ensures RingOk(Model()) && Buffered(Model()) == Buffered(old(Model()))
    {
      MarkIsHarmless(Model());
      if charsToRead < PIPEBUFFERSIZE - 1 {
        buffer[bufferWritePosition] := EOF;
      }
    }
  }
}
