/** Transfers between a socket and a ByteArray: partial reads and writes through runs of its blocks. */
module Streams {
  import opened Basics
  import opened ByteBlocks
  import opened ByteArrays

  /** Lengths are passed back as `int`. */
  const INT_MAX: nat := 0x7FFF_FFFF

  /** A connected socket. The kernel decides how much one call moves; the bytes themselves arrive in order. */
  class Socket {
    var connected: bool
    var input: seq<byte>   // what the peer will still deliver
    var output: seq<byte>  // what has been sent

    constructor (incoming: seq<byte>)
      ensures connected && input == incoming && output == []
    {
      connected, input, output := true, incoming, [];
    }

    /** The next `m` bytes of the stream. */
    method Next(m: nat, ghost ba: ByteArray) returns (got: seq<byte>)
      requires m <= |input| && ba.Valid() && this !in ba.repr
      modifies this`input
      ensures got == old(input)[..m] && input == old(input)[m..]
      ensures ba.Valid() && ba.Store() == old(ba.Store())
    {
      hide *;
      ba.ValidHas();
      got := input[..m];
      input := input[m..];
      ba.Untouched();
    }

    /** recv into runs that hold `n` bytes: an error, the end of the stream, or some of the next bytes. */
    method Recv(ba: ByteArray, iovs: seq<Iovec>, ghost k: nat, ghost shift: nat, n: nat) returns (rt: int)
      requires ba.Valid() && this !in ba.repr && n <= INT_MAX
      requires if n == 0 then iovs == []
               else shift < ba.baseSize && Fits(k, shift, n, |ba.nodes|, ba.baseSize)
                    && iovs == Segments(ba.nodes, ba.baseSize, k, shift, n) && k * ba.baseSize + shift == ba.position
      modifies this`input, ba.repr
      ensures ba.Valid() && ba.repr == old(ba.repr) && ba.position == old(ba.position) && ba.size == old(ba.size)
      ensures ba.capacity == old(ba.capacity) && ba.littleEndian == old(ba.littleEndian)
      ensures -1 <= rt <= Min(n, |old(input)|)
      ensures var m := if rt > 0 then rt else 0;
              && input == old(input)[m..] && ba.position + m <= |old(ba.Store())|
              && ba.Store() == Splice(old(ba.Store()), ba.position, old(input)[..m])
    {
      hide *;
      MinIs(n, |input|);
      var most := if connected then Min(n, |input|) else 0;
      assert -1 <= -1 <= most;
      rt :| -1 <= rt <= most;
      ba.FilledIs();
      ba.ValidHas();
      SpliceNothing(ba.Store(), ba.position);
      if rt > 0 {
        var got := Next(rt, ba);
        ba.Fill(iovs, got, k, shift, n);
        ba.ValidHas();
      }
    }

    /** send from runs: an error, nothing, or some of their first bytes. */
    method Send(ba: ByteArray, iovs: seq<Iovec>, n: nat) returns (rt: int)
      requires ba.Valid() && Inside(iovs, ba.repr) && |Gather(iovs, ba.repr)| == n <= INT_MAX && this !in ba.repr
      modifies this`output
      ensures -1 <= rt <= n && ba.Valid()
      ensures output == old(output) + old(Gather(iovs, ba.repr))[..if rt > 0 then rt else 0]
    {
      var most := if connected then n else 0;
      rt :| -1 <= rt <= most;
      if rt > 0 {
        output := output + Gather(iovs, ba.repr)[..rt];
      }
    }
  }

  class SocketStream {
    const sock: Socket

    constructor (s: Socket)
      ensures sock == s
    {
      sock := s;
    }

    /** The transfer itself: the room, and what recv has put there. The cursor has not moved yet. */
    method Receive(ba: ByteArray, length: nat) returns (rt: int)
      requires ba.Valid() && sock !in ba.repr && length <= INT_MAX
      modifies sock`input, ba.repr
      ensures ba.Valid() && old(ba.repr) <= ba.repr && fresh(ba.repr - old(ba.repr)) && -1 <= rt <= length
      ensures ba.position == old(ba.position) && ba.size == old(ba.size)
      ensures var m := if rt > 0 then rt else 0;
              && m <= |old(sock.input)| && sock.input == old(sock.input)[m..]
              && Wrote(old(ba.Store()), ba.position, old(sock.input)[..m], ba.Store())
    {
      hide *;
      ba.FilledIs();
      ba.ValidHas();
      var n, iovs := ba.GetWriteBuffers(length);
      ba.ValidHas();
      ghost var store := ba.Store();
      ghost var k, shift := ba.at, if length > 0 then ba.position % ba.baseSize else 0;
      if length > 0 {
        ba.AtShiftHas(shift);
      }
      MinIs(n, |sock.input|);
      ghost var input := sock.input;
      rt := sock.Recv(ba, iovs, k, shift, n);
      ba.ValidHas();
      SpliceWrote(old(ba.Store()), ba.position, input[..if rt > 0 then rt else 0], store);
    }

    /** read into a ByteArray: some of the next bytes of the stream go over it at the cursor, exactly as write
        would put them there; or an error or the end of the stream, and nothing changes but the room. */
    method Read(ba: ByteArray, length: nat) returns (rt: int)
      requires ba.Valid() && sock !in ba.repr && length <= INT_MAX
      modifies sock`input, ba.repr
      ensures ba.Valid() && old(ba.repr) <= ba.repr && fresh(ba.repr - old(ba.repr)) && -1 <= rt <= length
      ensures var m := if rt > 0 then rt else 0;
              && m <= |old(sock.input)| && sock.input == old(sock.input)[m..]
              && ba.position == old(ba.position) + m
              && ba.Filled() == Overlay(old(ba.Filled()), old(ba.position), old(sock.input)[..m])
    {
      hide *;
      ba.FilledIs();
      ba.ValidHas();
      if !sock.connected {
        OverlayNothing(ba.Filled(), ba.position);
        return -1;
      }
      ghost var input, before := sock.input, ba.Store();
      rt := Receive(ba, length);
      ghost var m := if rt > 0 then rt else 0;
      ba.ValidHas();
      ba.FilledIs();
      WroteFits(before, ba.position, input[..m], ba.Store());
      WriteOverlays(before, ba.size, ba.position, input[..m], ba.Store());
      if rt > 0 {
        var outcome := ba.SetPosition(ba.position + rt);
        ba.FilledIs();
      }
    }

    /** readFixSize: takes exactly the next `length` bytes of the stream, however recv cuts them up, or gives up
        with fewer. `got` counts the bytes taken. */
    method ReadFixSize(ba: ByteArray, length: nat) returns (rt: int, ghost got: nat)
      requires ba.Valid() && sock !in ba.repr && length <= INT_MAX
      modifies sock`input, ba.repr
      ensures ba.Valid() && old(ba.repr) <= ba.repr && fresh(ba.repr - old(ba.repr))
      ensures got <= length && got <= |old(sock.input)| && sock.input == old(sock.input)[got..]
      ensures ba.position == old(ba.position) + got
      ensures ba.Filled() == Overlay(old(ba.Filled()), old(ba.position), old(sock.input)[..got])
      ensures if got == length then rt == length else rt <= 0
    {
      hide *;
      ba.ValidHas();
      ba.FilledIs();
      ghost var input, filled, start := sock.input, ba.Filled(), ba.position;
      OverlayNothing(filled, start);
      var left: nat := length;
      got := 0;
      while left > 0
        invariant left == length - got && got <= |input| && sock.input == input[got..]
        invariant ba.Valid() && old(ba.repr) <= ba.repr && fresh(ba.repr - old(ba.repr)) && sock !in ba.repr
        invariant ba.position == start + got
        invariant ba.Filled() == Overlay(filled, start, input[..got])
      {
        var len := Read(ba, left);
        OverlayMore(filled, start, input[..got], input[got..][..if len > 0 then len else 0]);
        assert input[..got] + input[got..][..if len > 0 then len else 0] == input[..got + if len > 0 then len else 0];
        if len <= 0 {
          return len, got;
        }
        got := got + len;
        left := left - len;
      }
      rt := length;
    }

    /** write out of a ByteArray: some of the bytes behind the cursor are sent, and the cursor follows. */
    method Write(ba: ByteArray, length: nat) returns (rt: int)
      requires ba.Valid() && sock !in ba.repr && length <= INT_MAX
      modifies sock`output, ba`position, ba`cur, ba`at, ba`size
      ensures ba.Valid() && ba.repr == old(ba.repr) && ba.Filled() == old(ba.Filled()) && -1 <= rt <= length
      ensures var m := if rt > 0 then rt else 0;
              && old(ba.position) + m <= ba.size && ba.position == old(ba.position) + m
              && sock.output == old(sock.output) + ba.Filled()[old(ba.position)..ba.position]
    {
      hide *;
      ba.FilledIs();
      ba.ValidHas();
      if !sock.connected {
        assert ba.Filled()[ba.position..ba.position] == [];
        return -1;
      }
      var n, iovs := ba.GetReadBuffers(length);
      MinIs(length, ba.size - ba.position);
      ghost var filled, from := ba.Filled(), ba.position;
      rt := sock.Send(ba, iovs, n);
      ba.FilledIs();
      ba.ValidHas();
      assert filled[from..from + n][..if rt > 0 then rt else 0] == filled[from..from + if rt > 0 then rt else 0];
      if rt > 0 {
        var outcome := ba.SetPosition(ba.position + rt);
        ba.FilledIs();
      }
    }

    /** writeFixSize: sends exactly the `length` bytes behind the cursor, or gives up with fewer. */
    method WriteFixSize(ba: ByteArray, length: nat) returns (rt: int, ghost sent: nat)
      requires ba.Valid() && sock !in ba.repr && length <= INT_MAX
      modifies sock`output, ba`position, ba`cur, ba`at, ba`size
      ensures ba.Valid() && ba.repr == old(ba.repr) && ba.Filled() == old(ba.Filled())
      ensures sent <= length && ba.position == old(ba.position) + sent <= ba.size
      ensures sock.output == old(sock.output) + ba.Filled()[old(ba.position)..ba.position]
      ensures if sent == length then rt == length else rt <= 0
    {
      hide *;
      ba.ValidHas();
      ba.FilledIs();
      ghost var filled, start, output := ba.Filled(), ba.position, sock.output;
      var left: nat := length;
      sent := 0;
      assert filled[start..start] == [];
      while left > 0
        invariant left == length - sent && ba.Valid() && ba.repr == old(ba.repr) && sock !in ba.repr
        invariant ba.Filled() == filled && ba.position == start + sent <= ba.size == |filled|
        invariant sock.output == output + filled[start..start + sent]
      {
        var len := Write(ba, left);
        ba.FilledIs();
        ba.ValidHas();
        ghost var m := if len > 0 then len else 0;
        assert filled[start..start + sent] + filled[start + sent..start + sent + m] == filled[start..start + sent + m];
        if len <= 0 {
          return len, sent;
        }
        sent := sent + len;
        left := left - len;
      }
      rt := length;
    }
  }

  lemma WroteFits(before: seq<byte>, at: nat, data: seq<byte>, after: seq<byte>)
    requires Wrote(before, at, data, after)
    ensures at + |data| <= |after|
  {
  }
}
