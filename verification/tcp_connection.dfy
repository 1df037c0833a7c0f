/** The output path of a connection, on its loop thread. */
module Tcp {
  import opened NetBuffer

  datatype ConnState = Disconnected | Connecting | Connected | Disconnecting

  /** What the connection has asked the loop to call later. */
  datatype Callback = WriteComplete | HighWaterMark(len: nat)

  class TcpConnection {
    var state: ConnState
    /** Whether the channel asks for write events. */
    var writing: bool
    const output: Buffer
    const highWaterMark: nat
    const hasWriteComplete: bool
    const hasHighWaterMark: bool
    /** Whether the write side of the socket has been shut down. */
    var writeShut: bool
    var queued: seq<Callback>
    /** The bytes that the socket has taken so far. */
    ghost var taken: seq<Byte>
    /** The messages handed to sendInLoop while not disconnected, end to end. */
    ghost var accepted: seq<Byte>

    ghost predicate Valid()
      reads this, output, output.buf
    {
      && output.Valid()
      && taken + output.Contents() == accepted
      && (if state == Disconnected then !writing else writing <==> output.Contents() != [])
      && (writeShut ==> output.Contents() == [] && state in {Disconnecting, Disconnected})
    }

    constructor (highWaterMark: nat, hasWriteComplete: bool, hasHighWaterMark: bool)
      ensures Valid() && state == Connecting && !writeShut && accepted == [] && queued == []
      ensures this.highWaterMark == highWaterMark && this.hasWriteComplete == hasWriteComplete
      ensures this.hasHighWaterMark == hasHighWaterMark
      ensures fresh(output) && fresh(output.buf)
    {
      state, writing, writeShut, queued := Connecting, false, false, [];
      this.highWaterMark, this.hasWriteComplete, this.hasHighWaterMark :=
        highWaterMark, hasWriteComplete, hasHighWaterMark;
      output := new Buffer(INITIAL_SIZE);
      taken, accepted := [], [];
    }

    /** From any state; what has been shut down, or closed over bytes kept, is not fit to go on. */
    method ConnectEstablished()
      requires Valid()
      modifies this`state
      ensures state == Connected
      ensures Valid() <==> !writeShut && (old(state) == Disconnected ==> output.Contents() == [])
    {
      state := Connected;
    }

    /** `writes` is what a write to the socket would return, should there be one. */
    method Send(message: seq<Byte>, writes: nat)
      requires Valid() && writes <= |message|
      modifies this, output, output.buf
      ensures Valid() && state == old(state) && writeShut == old(writeShut)
      ensures accepted == if state == Connected then old(accepted) + message else old(accepted)
      ensures taken == if state == Connected && old(output.Contents()) == []
                       then old(taken) + message[..writes] else old(taken)
      ensures state == Connected && old(output.Contents()) == [] && writes == |message| ==>
        queued == old(queued) + if hasWriteComplete then [WriteComplete] else []
      ensures state == Connected && !(old(output.Contents()) == [] && writes == |message|) ==>
        var kept, total := |old(output.Contents())|, |output.Contents()|;
        queued == old(queued) +
          if kept < highWaterMark <= total && total > kept && hasHighWaterMark then [HighWaterMark(total)] else []
      ensures state != Connected ==> queued == old(queued)
      ensures output.buf == old(output.buf) || fresh(output.buf)
    {
      if state == Connected {
        SendInLoop(message, writes);
      }
    }

    /**
     * Every byte of the message is written at once or kept for later, behind those kept before.  A
     * socket whose write side is shut takes no more writes.
     */
    method SendInLoop(message: seq<Byte>, writes: nat)
      requires Valid() && writes <= |message|
      requires writeShut ==> state == Disconnected
      modifies this, output, output.buf
      ensures Valid() && state == old(state) && writeShut == old(writeShut)
      ensures accepted == if state == Disconnected then old(accepted) else old(accepted) + message
      ensures taken == if state != Disconnected && old(output.Contents()) == []
                       then old(taken) + message[..writes] else old(taken)
      ensures state != Disconnected && old(output.Contents()) == [] && writes == |message| ==>
        queued == old(queued) + if hasWriteComplete then [WriteComplete] else []
      ensures state != Disconnected && !(old(output.Contents()) == [] && writes == |message|) ==>
        var kept, total := |old(output.Contents())|, |output.Contents()|;
        queued == old(queued) +
          if kept < highWaterMark <= total && total > kept && hasHighWaterMark then [HighWaterMark(total)] else []
      ensures state == Disconnected ==> queued == old(queued) && output.Contents() == old(output.Contents())
      ensures output.buf == old(output.buf) || fresh(output.buf)
    {
      if state == Disconnected {
        return;
      }
      var nwrote, remaining := 0, |message|;
      ghost var kept := output.Contents();
      KeepOrder(taken, kept, message, writes);
      accepted := accepted + message;
      if !writing && output.ReadableBytes() == 0 {
        nwrote := writes;
        taken := taken + message[..nwrote];
        remaining := |message| - nwrote;
        if remaining == 0 && hasWriteComplete {
          queued := queued + [WriteComplete];
        }
      }
      if remaining > 0 {
        Keep(message[nwrote..]);
      }
    }

    /** Keeps bytes that the socket has not taken, behind those kept before. */
    method Keep(rest: seq<Byte>)
      requires output.Valid() && rest != []
      modifies this`queued, this`writing, output, output.buf
      ensures output.Valid() && output.Contents() == old(output.Contents()) + rest && writing
      ensures var kept, total := |old(output.Contents())|, |output.Contents()|;
        queued == old(queued) +
          (if total >= highWaterMark > kept && hasHighWaterMark then [HighWaterMark(total)] else [])
      ensures output.buf == old(output.buf) || fresh(output.buf)
    {
      var oldLen, remaining := output.ReadableBytes(), |rest|;
      if oldLen + remaining >= highWaterMark && oldLen < highWaterMark && hasHighWaterMark {
        queued := queued + [HighWaterMark(oldLen + remaining)];
      }
      output.Append(rest);
      if !writing {
        writing := true;
      }
    }

    /** The socket can take more: `writes` bytes of what is kept. */
    method HandleWrite(writes: nat)
      requires Valid() && writes <= |output.Contents()|
      modifies this, output
      ensures Valid() && state == old(state) && accepted == old(accepted)
      ensures taken == if old(writing) then old(taken) + old(output.Contents())[..writes] else old(taken)
      ensures writeShut <==> old(writeShut) || (old(writing) && !writing && state == Disconnecting)
      ensures queued == old(queued) + (if old(writing) && !writing && hasWriteComplete then [WriteComplete] else [])
    {
      if writing {
        var n, bytes := output.WriteFd(writes);
        if n > 0 {
          TakeOrder(taken, output.Contents(), n);
          taken := taken + bytes;
          output.Retrieve(n);
          if output.ReadableBytes() == 0 {
            writing := false;
            if hasWriteComplete {
              queued := queued + [WriteComplete];
            }
            if state == Disconnecting {
              ShutdownInLoop();
            }
          }
        }
      }
    }

    /** The write side goes down now if nothing is kept, and otherwise when the last byte has gone. */
    method Shutdown()
      requires Valid()
      modifies this
      ensures Valid() && taken == old(taken) && accepted == old(accepted) && queued == old(queued)
      ensures state == if old(state) == Connected then Disconnecting else old(state)
      ensures writeShut <==> old(writeShut) || (old(state) == Connected && output.Contents() == [])
    {
      if state == Connected {
        state := Disconnecting;
        ShutdownInLoop();
      }
    }

    method ShutdownInLoop()
      requires Valid() && state == Disconnecting
      modifies this`writeShut
      ensures Valid() && writeShut == (old(writeShut) || output.Contents() == [])
    {
      if !writing {
        writeShut := true;
      }
    }

    /** The peer is gone.  What is kept stays in the buffer and is never written. */
    method HandleClose()
      requires Valid()
      modifies this
      ensures Valid() && state == Disconnected && taken == old(taken) && accepted == old(accepted)
      ensures writeShut == old(writeShut) && queued == old(queued)
    {
      state := Disconnected;
      writing := false;
    }
  }

  /** Whether a message is kept whole or in part, the order of the bytes stays. */
  lemma KeepOrder(taken: seq<Byte>, kept: seq<Byte>, message: seq<Byte>, writes: nat)
    requires writes <= |message|
    ensures taken + (kept + message[0..]) == taken + kept + message
    ensures kept == [] ==> (taken + message[..writes]) + (kept + message[writes..]) == taken + kept + message
    ensures kept == [] && writes == |message| ==> taken + message[..writes] + kept == taken + kept + message
  {
  }

  lemma TakeOrder(taken: seq<Byte>, kept: seq<Byte>, n: nat)
    requires n <= |kept|
    ensures taken + kept[..n] + kept[n..] == taken + kept
    ensures n == |kept| ==> taken + kept[..n] + [] == taken + kept
  {
  }
}
