/** The connection the server reads records from and writes responses to.

    Reading: the bytes the peer sends are a fixed sequence `input` and a cursor
    `pos`. A read into a buffer of k bytes takes min(k, remaining) bytes from the
    cursor and leaves the rest of the buffer zero (the buffer is freshly
    allocated); it fails only when k > 0 and nothing is left, and a read into an
    empty buffer never fails. Short reads therefore happen only at the end of input.

    Writing: the peer accepts at most `room` more bytes before the link breaks. A
    write fails when the connection is closed or the bytes do not fit, and a failed
    write delivers nothing. */
module Net {
  import opened Wire

  function Min(a: int, b: int): int
  {
    if a <= b then a else b
  }

  /** The outcome of one read: the whole buffer, the new cursor, and whether the
      read reported an error. */
  datatype Received = Received(bytes: seq<Byte>, next: nat, failed: bool)

  /** The buffer bytes for cursor positions from..to: input bytes while there are
      any, zeros after the end of input. */
  function Window(input: seq<Byte>, from: nat, to: nat): (b: seq<Byte>)
    requires from <= to
    ensures |b| == to - from
    decreases (to as int) - (from as int)
  {
    if from == to then [] else [if from < |input| then input[from] else 0] + Window(input, from + 1, to)
  }

  function ReadAt(input: seq<Byte>, pos: nat, k: nat): (r: Received)
    requires pos <= |input|
    ensures |r.bytes| == k
    ensures pos <= r.next <= |input|
  {
    Received(Window(input, pos, pos + k), pos + Min(k, |input| - pos), k > 0 && pos == |input|)
  }

  lemma {:induction false} WindowContent(input: seq<Byte>, from: nat, to: nat)
    requires from <= |input| && from <= to
    ensures Window(input, from, to) == input[from..Min(to, |input|)] + Zeros(to - Min(to, |input|))
    decreases (to as int) - (from as int)
  {
    if from < to {
      if from < |input| {
        WindowContent(input, from + 1, to);
        assert input[from..Min(to, |input|)] == [input[from]] + input[from + 1..Min(to, |input|)];
      } else {
        WindowZeros(input, from, to);
      }
    }
  }

  lemma {:induction false} WindowZeros(input: seq<Byte>, from: nat, to: nat)
    requires |input| <= from <= to
    ensures Window(input, from, to) == Zeros(to - from)
    decreases (to as int) - (from as int)
  {
    if from < to {
      WindowZeros(input, from + 1, to);
    }
  }

  /** What a read puts in the buffer: the bytes it consumed, then zeros. */
  lemma ReadContent(input: seq<Byte>, pos: nat, k: nat)
    requires pos <= |input|
    ensures var r := ReadAt(input, pos, k);
      r.bytes == input[pos..r.next] + Zeros(k - (r.next - pos))
  {
    WindowContent(input, pos, pos + k);
  }

  /** A read that fits in the remaining input returns exactly the next k bytes. */
  lemma ReadWithin(input: seq<Byte>, pos: nat, k: nat)
    requires pos + k <= |input|
    ensures ReadAt(input, pos, k) == Received(input[pos..pos + k], pos + k, false)
  {
    ReadContent(input, pos, k);
  }

  /** The bytes e are found in the input at pos. */
  predicate Occurs(input: seq<Byte>, pos: nat, e: seq<Byte>)
    decreases |e|
  {
    pos + |e| <= |input| && (e == [] || (input[pos] == e[0] && Occurs(input, pos + 1, e[1..])))
  }

  /** An occurrence, byte by byte. */
  lemma {:induction false} OccursIff(input: seq<Byte>, pos: nat, e: seq<Byte>)
    ensures Occurs(input, pos, e) <==> pos + |e| <= |input| && forall i :: 0 <= i < |e| ==> input[pos + i] == e[i]
    decreases |e|
  {
    if e != [] && pos + |e| <= |input| {
      OccursIff(input, pos + 1, e[1..]);
      if forall i :: 0 <= i < |e| ==> input[pos + i] == e[i] {
        forall i | 0 <= i < |e| - 1 ensures input[pos + 1 + i] == e[1..][i] {
          assert input[pos + (i + 1)] == e[i + 1];
        }
      }
      if Occurs(input, pos, e) {
        forall i | 0 <= i < |e| ensures input[pos + i] == e[i] {
          if i > 0 {
            assert input[pos + 1 + (i - 1)] == e[1..][i - 1];
          }
        }
      }
    }
  }

  /** One byte of an occurrence. */
  lemma OccursAt(input: seq<Byte>, pos: nat, e: seq<Byte>, i: nat)
    requires Occurs(input, pos, e) && i < |e|
    ensures input[pos + i] == e[i]
  {
    OccursIff(input, pos, e);
  }

  /** A piece of an occurrence is an occurrence at the matching offset. */
  lemma OccursPiece(input: seq<Byte>, pos: nat, e: seq<Byte>, a: nat, b: nat)
    requires Occurs(input, pos, e) && a <= b <= |e|
    ensures Occurs(input, pos + a, e[a..b])
  {
    OccursIff(input, pos, e);
    OccursIff(input, pos + a, e[a..b]);
    forall i | 0 <= i < b - a ensures input[pos + a + i] == e[a..b][i] {
      assert input[pos + (a + i)] == e[a + i];
    }
  }

  /** Where a + b occurs, a occurs and b follows it, at mid. */
  lemma OccursConcat(input: seq<Byte>, pos: nat, a: seq<Byte>, b: seq<Byte>, mid: nat)
    requires Occurs(input, pos, a + b) && mid == pos + |a|
    ensures Occurs(input, pos, a) && Occurs(input, mid, b)
  {
    OccursPiece(input, pos, a + b, 0, |a|);
    assert (a + b)[0..|a|] == a;
    OccursPiece(input, pos, a + b, |a|, |a + b|);
    assert (a + b)[|a|..|a + b|] == b;
  }

  /** Reading where e occurs returns exactly e. */
  lemma ReadOccurrence(input: seq<Byte>, pos: nat, e: seq<Byte>)
    requires Occurs(input, pos, e)
    ensures ReadAt(input, pos, |e|) == Received(e, pos + |e|, false)
  {
    WindowOccurrence(input, pos, e);
  }

  lemma {:induction false} WindowOccurrence(input: seq<Byte>, from: nat, e: seq<Byte>)
    requires Occurs(input, from, e)
    ensures Window(input, from, from + |e|) == e
    decreases |e|
  {
    if e != [] {
      WindowOccurrence(input, from + 1, e[1..]);
    }
  }

  /** A read of a + b bytes, when the first a bytes are there, is a read of a
      bytes followed by a read of b bytes. */
  lemma ReadSplit(input: seq<Byte>, pos: nat, a: nat, b: nat)
    requires pos + a <= |input|
    ensures var whole := ReadAt(input, pos, a + b);
      var second := ReadAt(input, pos + a, b);
      whole.bytes == ReadAt(input, pos, a).bytes + second.bytes && whole.next == second.next
  {
    WindowSplit(input, pos, pos + a, pos + a + b);
  }

  lemma {:induction false} WindowSplit(input: seq<Byte>, from: nat, mid: nat, to: nat)
    requires from <= mid <= to
    ensures Window(input, from, to) == Window(input, from, mid) + Window(input, mid, to)
    decreases (mid as int) - (from as int)
  {
    if from < mid {
      WindowSplit(input, from + 1, mid, to);
    }
  }

  /** The sending side of the connection. */
  datatype Outbound = Outbound(output: seq<Byte>, room: nat, closed: bool)

  datatype Put = Put(after: Outbound, failed: bool)

  /** One write of `b`. */
  function PutAt(s: Outbound, b: seq<Byte>): (r: Put)
    ensures r.failed <==> s.closed || |b| > s.room
    ensures r.failed ==> r.after == s
    ensures !r.failed ==> r.after == Outbound(s.output + b, s.room - |b|, s.closed)
  {
    if s.closed || |b| > s.room then Put(s, true)
    else Put(Outbound(s.output + b, s.room - |b|, s.closed), false)
  }

  class Conn {
    const input: seq<Byte>
    var pos: nat
    var output: seq<Byte>
    var room: nat
    var closed: bool

    predicate Valid()
      reads this
    {
      pos <= |input|
    }

    function Sending(): Outbound
      reads this
    {
      Outbound(output, room, closed)
    }

    constructor (input: seq<Byte>, room: nat)
      ensures Valid()
      ensures this.input == input && pos == 0
      ensures Sending() == Outbound([], room, false)
    {
      this.input := input;
      pos := 0;
      output := [];
      this.room := room;
      closed := false;
    }

    method Read(k: nat) returns (buf: seq<Byte>, err: bool)
      requires Valid()
      modifies this`pos
      ensures Valid()
      ensures ReadAt(input, old(pos), k) == Received(buf, pos, err)
    {
      var r := ReadAt(input, pos, k);
      buf, err, pos := r.bytes, r.failed, r.next;
    }

    method Write(b: seq<Byte>) returns (err: bool)
      modifies this`output, this`room
      ensures PutAt(old(Sending()), b) == Put(Sending(), err)
    {
      var r := PutAt(Sending(), b);
      output, room, err := r.after.output, r.after.room, r.failed;
    }

    method Close()
      modifies this`closed
      ensures closed
    {
      closed := true;
    }
  }
}
