// The resumable writer of a ClamAV INSTREAM request: whatever the socket accepts and whenever it
// drains, the daemon receives the upload and nothing else.
module ClamStream {
  import opened Numbers
  import opened Wrappers
  import opened Utf8

  // "zINSTREAM" and the null byte that ends it.
  const COMMAND: Bytes := [0x7a, 0x49, 0x4e, 0x53, 0x54, 0x52, 0x45, 0x41, 0x4d, 0x00]
  const TERMINATOR: Bytes := [0, 0, 0, 0]
  const MAX_FRAME := 0x1_0000_0000

  // writeUInt32BE
  function BigEndian(n: nat): (r: Bytes)
    requires n < MAX_FRAME
    ensures |r| == 4
  {
    [n / 0x100 / 0x100 / 0x100, n / 0x100 / 0x100 % 0x100, n / 0x100 % 0x100, n % 0x100]
  }

  function Length(b: Bytes): nat
    requires |b| == 4
  {
    var b0: int, b1: int, b2: int, b3: int := b[0], b[1], b[2], b[3];
    b0 * 0x100_0000 + b1 * 0x1_0000 + b2 * 0x100 + b3
  }

  lemma LengthRoundTrip(n: nat)
    requires n < MAX_FRAME
    ensures Length(BigEndian(n)) == n
  {
    var p := n / 0x100;
    var q := p / 0x100;
    assert n == p * 0x100 + n % 0x100 && p == q * 0x100 + p % 0x100 && q == q / 0x100 * 0x100 + q % 0x100;
    assert q / 0x100 < 0x100;
  }

  function Frame(chunk: Bytes): Bytes
    requires |chunk| < MAX_FRAME
  {
    BigEndian(|chunk|) + chunk
  }

  // The upload cut into chunks, each in a frame.
  function Frames(bytes: Bytes, chunk: nat): Bytes
    requires 0 < chunk < MAX_FRAME
  {
    if bytes == [] then []
    else if |bytes| <= chunk then Frame(bytes)
    else Frame(bytes[..chunk]) + Frames(bytes[chunk..], chunk)
  }

  function Ideal(bytes: Bytes, chunk: nat): Bytes
    requires 0 < chunk < MAX_FRAME
  {
    COMMAND + Frames(bytes, chunk) + TERMINATOR
  }

  // What the daemon reads: frames up to the first of length zero, and what follows it.
  function ReadStream(stream: Bytes): Option<(Bytes, Bytes)> {
    if |stream| < 4 then None
    else
      var n := Length(stream[..4]);
      if n == 0 then Some(([], stream[4..]))
      else if |stream| < 4 + n then None
      else
        var rest := ReadStream(stream[4 + n..]);
        if rest.None? then None else Some((stream[4..4 + n] + rest.value.0, rest.value.1))
  }

  lemma ReadFrame(chunk: Bytes, rest: Bytes)
    requires 0 < |chunk| < MAX_FRAME
    ensures ReadStream(Frame(chunk) + rest) ==
      if ReadStream(rest).None? then None else Some((chunk + ReadStream(rest).value.0, ReadStream(rest).value.1))
  {
    LengthRoundTrip(|chunk|);
    var stream := Frame(chunk) + rest;
    assert stream[..4] == BigEndian(|chunk|);
    assert stream[4..4 + |chunk|] == chunk && stream[4 + |chunk|..] == rest;
  }

  lemma ReadEnd(rest: Bytes)
    ensures ReadStream(TERMINATOR + rest) == Some(([], rest))
  {
    var stream := TERMINATOR + rest;
    assert stream[..4] == TERMINATOR && stream[4..] == rest;
    assert Length(TERMINATOR) == 0;
  }

  lemma Regroup(a: Bytes, b: Bytes, c: Bytes)
    ensures a + b + c == a + (b + c)
  {
  }

  lemma Rejoin(a: Bytes, n: nat)
    requires n <= |a|
    ensures a[..n] + a[n..] == a
  {
  }

  // Frames in front of a stream that has ended are read as the upload.
  lemma {:induction false} ReadFrames(bytes: Bytes, chunk: nat, tail: Bytes, rest: Bytes)
    requires 0 < chunk < MAX_FRAME && ReadStream(tail) == Some(([], rest))
    ensures ReadStream(Frames(bytes, chunk) + tail) == Some((bytes, rest))
    decreases |bytes|
  {
    if bytes == [] {
      assert Frames(bytes, chunk) + tail == tail;
    } else if |bytes| <= chunk {
      ReadFrame(bytes, tail);
      assert bytes + [] == bytes;
    } else {
      var first, later := bytes[..chunk], Frames(bytes[chunk..], chunk);
      ReadFrames(bytes[chunk..], chunk, tail, rest);
      ReadFrame(first, later + tail);
      Regroup(Frame(first), later, tail);
      Rejoin(bytes, chunk);
    }
  }

  // A strict prefix of the stream is never taken for a complete one: no frame before the last has
  // length zero.
  lemma {:induction false} NoEarlyEnd(bytes: Bytes, chunk: nat, cut: nat)
    requires 0 < chunk < MAX_FRAME && cut < |Frames(bytes, chunk) + TERMINATOR|
    ensures ReadStream((Frames(bytes, chunk) + TERMINATOR)[..cut]).None?
    decreases |bytes|
  {
    var all := Frames(bytes, chunk) + TERMINATOR;
    if bytes != [] && cut >= 4 {
      var first := if |bytes| <= chunk then bytes else bytes[..chunk];
      var later := (if |bytes| <= chunk then [] else Frames(bytes[chunk..], chunk)) + TERMINATOR;
      LengthRoundTrip(|first|);
      assert all == Frame(first) + later;
      assert all[..cut][..4] == BigEndian(|first|);
      if cut >= 4 + |first| {
        if |bytes| <= chunk {
          NoEarlyEnd([], chunk, cut - 4 - |first|);
          assert Frames([], chunk) + TERMINATOR == later;
        } else {
          NoEarlyEnd(bytes[chunk..], chunk, cut - 4 - |first|);
        }
        assert all[..cut] == Frame(first) + later[..cut - 4 - |first|];
        ReadFrame(first, later[..cut - 4 - |first|]);
      }
    }
  }


  // The frames from `offset` on, which may lie past the end.
  function FramesFrom(bytes: Bytes, chunk: nat, offset: nat): Bytes
    requires 0 < chunk < MAX_FRAME
  {
    Frames(bytes[Min(offset, |bytes|)..], chunk)
  }

  lemma FirstFrame(bytes: Bytes, chunk: nat, offset: nat)
    requires 0 < chunk < MAX_FRAME && offset < |bytes|
    ensures FramesFrom(bytes, chunk, offset) ==
      Frame(bytes[offset..Min(offset + chunk, |bytes|)]) + FramesFrom(bytes, chunk, offset + chunk)
  {
    var rest, end := bytes[offset..], Min(offset + chunk, |bytes|);
    if |rest| > chunk {
      assert rest[..chunk] == bytes[offset..end] && rest[chunk..] == bytes[end..];
    } else {
      assert bytes[offset..end] == rest && bytes[end..] == [];
      assert Frame(rest) + [] == Frame(rest);
    }
  }

  lemma PrefixTransitive(a: Bytes, b: Bytes, c: Bytes)
    requires a <= b <= c
    ensures a <= c
  {
  }

  lemma NextFrame(bytes: Bytes, chunk: nat, offset: nat, done: Bytes)
    requires 0 < chunk < MAX_FRAME && offset < |bytes|
    requires Frames(bytes, chunk) == done + FramesFrom(bytes, chunk, offset)
    ensures var end := Min(offset + chunk, |bytes|);
      Frames(bytes, chunk) == done + Frame(bytes[offset..end]) + FramesFrom(bytes, chunk, offset + chunk)
  {
    var end := Min(offset + chunk, |bytes|);
    FirstFrame(bytes, chunk, offset);
    Regroup(done, Frame(bytes[offset..end]), FramesFrom(bytes, chunk, offset + chunk));
  }

  // ---- the writer ----

  class Writer {
    const bytes: Bytes
    const chunkBytes: nat
    var offset: nat
    var connected: bool
    var terminated: bool
    var settled: bool
    // Everything handed to socket.write, and the frames among it.
    var written: Bytes
    ghost var frames: Bytes

    ghost predicate Valid()
      reads this
    {
      && 0 < chunkBytes < MAX_FRAME
      && Frames(bytes, chunkBytes) == frames + FramesFrom(bytes, chunkBytes, offset)
      && (!connected ==> !terminated && frames == [] && written == [])
      && (connected && !terminated ==> written == COMMAND + frames)
      && (terminated ==> frames == Frames(bytes, chunkBytes) && written == Ideal(bytes, chunkBytes))
    }

    constructor (bytes: Bytes, chunkBytes: nat)
      requires 0 < chunkBytes < MAX_FRAME
      ensures Valid() && this.bytes == bytes && this.chunkBytes == chunkBytes
      ensures !connected && !terminated && !settled && written == []
    {
      this.bytes := bytes;
      this.chunkBytes := chunkBytes;
      offset, connected, terminated, settled, written, frames := 0, false, false, false, [], [];
      assert bytes[0..] == bytes;
    }

    // One framed chunk. Whether the socket takes more is up to the socket.
    method WriteFrame() returns (room: bool)
      requires Valid() && connected && !terminated && offset < |bytes|
      modifies this`offset, this`written, this`frames
      ensures Valid() && offset == old(offset) + chunkBytes
      ensures old(written) <= written
    {
      var chunk := Frame(bytes[offset..Min(offset + chunkBytes, |bytes|)]);
      NextFrame(bytes, chunkBytes, offset, frames);
      Regroup(COMMAND, frames, chunk);
      frames := frames + chunk;
      offset := offset + chunkBytes;
      written := written + chunk;
      room := *;
    }

    // The zero-length frame, once everything is framed.
    method Terminate()
      requires Valid() && connected && !terminated && offset >= |bytes|
      modifies this`terminated, this`written
      ensures Valid() && terminated && old(written) <= written
    {
      assert bytes[|bytes|..] == [];
      assert frames + [] == frames;
      terminated := true;
      written := written + TERMINATOR;
    }

    // Hands chunks to the socket until it asks to wait, then the terminator, once.
    method WriteChunks()
      requires Valid() && connected
      modifies this`offset, this`terminated, this`written, this`frames
      ensures Valid() && old(written) <= written
      ensures old(settled || terminated) ==> written == old(written) && terminated == old(terminated)
      ensures !old(settled || terminated) ==> terminated || offset > old(offset)
    {
      if settled || terminated {
        return;
      }
      while offset < |bytes|
        invariant Valid() && !terminated && old(written) <= written && offset >= old(offset)
        decreases |bytes| - offset
      {
        ghost var before := written;
        var room := WriteFrame();
        PrefixTransitive(old(written), before, written);
        if !room {
          return;
        }
      }
      ghost var before := written;
      Terminate();
      PrefixTransitive(old(written), before, written);
    }

    method Connect()
      requires Valid() && !connected
      modifies this
      ensures Valid() && connected && old(written) <= written && settled == old(settled)
    {
      connected := true;
      written := written + COMMAND;
      assert [] + COMMAND == COMMAND && COMMAND + [] == COMMAND;
      WriteChunks();
    }

    // A verdict, a timeout or an error: nothing is written after it.
    method Finish()
      requires Valid()
      modifies this`settled
      ensures Valid() && settled && written == old(written)
    {
      settled := true;
    }

    // At every moment the socket has been handed a prefix of the ideal stream; once terminated, all
    // of it, and the daemon then reads back exactly the upload.
    lemma WrittenIsPrefix()
      requires Valid()
      ensures written <= Ideal(bytes, chunkBytes)
      ensures terminated ==> COMMAND <= written && ReadStream(written[|COMMAND|..]) == Some((bytes, []))
      ensures !terminated && COMMAND <= written ==> ReadStream(written[|COMMAND|..]).None?
    {
      var all := Frames(bytes, chunkBytes);
      if terminated {
        ReadEnd([]);
        assert TERMINATOR + [] == TERMINATOR;
        ReadFrames(bytes, chunkBytes, TERMINATOR, []);
        assert written[|COMMAND|..] == all + TERMINATOR;
      } else if connected {
        assert written[|COMMAND|..] == frames;
        assert frames == (all + TERMINATOR)[..|frames|];
        NoEarlyEnd(bytes, chunkBytes, |frames|);
      }
    }
  }
}
