/** The outside world as the server sees it: pipes and files to read from, sockets to send to. */
module Streams {
  import opened Common

  function Flatten(chunks: seq<seq<char>>): seq<char> {
    if chunks == [] then [] else chunks[0] + Flatten(chunks[1..])
  }

  lemma {:induction false} FlattenAppend(a: seq<seq<char>>, b: seq<seq<char>>)
    ensures Flatten(a + b) == Flatten(a) + Flatten(b)
  {
    if a == [] {
      assert a + b == b;
    } else {
      assert (a + b)[1..] == a[1..] + b;
      FlattenAppend(a[1..], b);
    }
  }

  /**
   A descriptor whose peer writes the chunks, one read returning at most what is left of one of them, and then closes.
   */
  class Pipe {
    var chunks: seq<seq<char>>

    constructor (chunks: seq<seq<char>>)
      ensures this.chunks == chunks
    {
      this.chunks := chunks;
    }

    ghost predicate Valid()
      reads this
    {
      forall i :: 0 <= i < |chunks| ==> chunks[i] != []
    }

    ghost function Rest(): seq<char>
      reads this
    {
      Flatten(chunks)
    }

    /** read(): empty only at the end of the stream, or when nothing is asked for. */
    method Read(count: nat) returns (data: seq<char>)
      requires Valid()
      modifies this
      ensures Valid() && |data| <= count
      ensures old(Rest()) == data + Rest()
      ensures data == [] <==> count == 0 || old(Rest()) == []
    {
      if count == 0 || chunks == [] {
        return [];
      }
      var k := Min(count, |chunks[0]|);
      data := chunks[0][..k];
      ghost var before := Rest();
      if k == |chunks[0]| {
        chunks := chunks[1..];
      } else {
        ghost var tail := chunks[1..];
        chunks := chunks[0 := chunks[0][k..]];
        assert chunks[1..] == tail;
      }
      assert before == data + Rest();
    }
  }

  /** An open file: fread returns what is asked for, or all that is left. */
  class File {
    var rest: seq<char>

    constructor (content: seq<char>)
      ensures rest == content
    {
      rest := content;
    }

    method Read(count: nat) returns (data: seq<char>)
      modifies this
      ensures data + rest == old(rest) && |data| == Min(count, |old(rest)|)
    {
      data, rest := rest[..Min(count, |rest|)], rest[Min(count, |rest|)..];
    }
  }

  /** The sending side of a client's socket: what each send() carried. */
  class Outbox {
    var sends: seq<seq<char>>

    constructor ()
      ensures sends == []
    {
      sends := [];
    }

    method Send(data: seq<char>)
      modifies this
      ensures sends == old(sends) + [data]
    {
      sends := sends + [data];
    }
  }
}
