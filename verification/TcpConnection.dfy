/**
 TcpConnection.cpp, output path: a connection with its output buffer and its
 handler, proved to take the steps of module Connection.
 */
module TcpConnections {
  import opened ByteBuffers
  import opened Connection
  import opened Pollers

  class TcpConnection {
    const handler: Handler
    const poller: Poller
    const outputBuffer: Buffer
    var state: ConnState

    // The loop's pending functors for this connection, and the kernel's side of
    // the socket: the bytes taken and whether SHUT_WR was issued.
    var pending: seq<Task>
    var kernel: string
    var shut: bool

    ghost var accepted: string
    ghost var wroteAfterShut: bool

    // The other threads in the middle of send or shutdown, and whether handleClose
    // has ended the connection or the process.
    ghost var senders: multiset<string>
    ghost var deciders: nat
    ghost var announcers: nat
    ghost var closed: bool
    ghost var exited: bool

    ghost predicate Valid()
      reads this, poller, poller.live, outputBuffer
    {
      poller.Valid() && handler in poller.live && outputBuffer.Valid()
    }

    /** The connection as seen by the interleaving model, between two steps of the
        loop thread. */
    ghost function View(): Conn
      reads this, handler, outputBuffer, outputBuffer.buffer
      requires outputBuffer.Valid()
    {
      Conn(state, handler.IsWriting(), outputBuffer.Contents(), None, pending, senders, deciders, announcers,
           closed, exited, kernel, accepted, shut, wroteAfterShut)
    }

    constructor (handler: Handler, poller: Poller)
      requires poller.Valid() && handler in poller.live && !handler.IsWriting()
      ensures Valid() && View() == INIT && this.handler == handler && this.poller == poller
      ensures fresh(outputBuffer) && fresh(outputBuffer.buffer)
    {
      this.handler, this.poller := handler, poller;
      outputBuffer := new Buffer();
      state, pending, kernel, shut := Connected, [], "", false;
      accepted, wroteAfterShut, closed, exited := "", false, false, false;
      senders, deciders, announcers := multiset{}, 0, 0;
    }

    /** ::write with the result the kernel gives. */
    method Write(data: string, n: int)
      requires -1 <= n <= |data| && (shut ==> n < 0)
      modifies this`kernel, this`wroteAfterShut
      ensures kernel == old(kernel) + (if 0 <= n then data[..n] else "")
      ensures wroteAfterShut == (old(wroteAfterShut) || shut)
    {
      if 0 <= n {
        kernel := kernel + data[..n];
      }
      wroteAfterShut := wroteAfterShut || shut;
    }

    method SendInLoop(msg: string, result: int)
      requires Valid() && WriteResult(View(), result, |msg|)
      modifies this`kernel, this`accepted, this`wroteAfterShut, outputBuffer, outputBuffer.buffer,
               poller`handlerList, poller`kernel, handler`state, handler`events
      ensures Valid() && (outputBuffer.buffer == old(outputBuffer.buffer) || fresh(outputBuffer.buffer))
      ensures View() == Connection.SendInLoop(old(View()), msg, result)
      ensures accepted == old(accepted) + msg && state == old(state) && shut == old(shut)
      ensures Stream(old(View())) && !closed ==>
                && kernel + outputBuffer.Contents() == old(kernel + outputBuffer.Contents()) + msg
                && (handler.IsWriting() <==> outputBuffer.Contents() != "")
    {
      hide Handler.IsWriting, Poller.Agreement;
      var n := 0;
      if !handler.IsWriting() && outputBuffer.ReadableBytes() == 0 {
        Write(msg, result);
        n := result;
        if n < 0 {
          n := 0;
        }
      }
      accepted := accepted + msg;
      assert kernel == old(kernel) + msg[..n] && outputBuffer.Contents() == old(outputBuffer.Contents());
      if n < |msg| {
        Keep(msg[n..]);
      }
      assert View() == Connection.SendInLoop(old(View()), msg, result);
      hide Connection.SendInLoop, Stream, WriteResult;
      SendAccepts(old(View()), msg, result);
      if Stream(old(View())) && !closed {
        SendAdds(old(View()), msg, result);
      }
    }

    /** enableWriting or disableWriting on the handler. */
    method SetWriting(on: bool)
      requires Valid()
      modifies poller`handlerList, poller`kernel, handler`state, handler`events
      ensures Valid() && handler.IsWriting() == on
    {
      var ok;
      if on {
        ok := poller.EnableWriting(handler);
      } else {
        ok := poller.DisableWriting(handler);
      }
    }

    /** The second half of sendInLoop: the bytes not written yet are kept and the
        handler waits for the socket to become writable. */
    method Keep(rest: string)
      requires Valid()
      modifies outputBuffer, outputBuffer.buffer,
               poller`handlerList, poller`kernel, handler`state, handler`events
      ensures Valid() && (outputBuffer.buffer == old(outputBuffer.buffer) || fresh(outputBuffer.buffer))
      ensures outputBuffer.Contents() == old(outputBuffer.Contents()) + rest && handler.IsWriting()
    {
      hide Handler.IsWriting, Poller.Agreement;
      outputBuffer.Append(rest);
      if !handler.IsWriting() {
        SetWriting(true);
      }
    }

    method ShutdownInLoop()
      requires Valid()
      modifies this`shut
      ensures Valid() && View() == Connection.ShutdownInLoop(old(View()))
      ensures shut <==> old(shut) || !handler.IsWriting()
    {
      hide Handler.IsWriting, Poller.Agreement;
      if !handler.IsWriting() {
        shut := true;
      }
    }

    method HandleWrite(result: int)
      requires Valid() && WriteResult(View(), result, |View().output|)
      modifies this`kernel, this`wroteAfterShut, this`shut, outputBuffer,
               poller`handlerList, poller`kernel, handler`state, handler`events
      ensures Valid() && outputBuffer.buffer == old(outputBuffer.buffer)
      ensures View() == Connection.HandleWrite(old(View()), result)
      ensures kernel + outputBuffer.Contents() == old(kernel + outputBuffer.Contents()) && accepted == old(accepted)
      ensures old(handler.IsWriting()) && 0 < result ==>
                outputBuffer.Contents() == old(outputBuffer.Contents())[result..]
                && (handler.IsWriting() <==> outputBuffer.Contents() != "")
                && (shut <==> old(shut) || (outputBuffer.Contents() == "" && state.Disconnecting?))
    {
      hide Handler.IsWriting, Poller.Agreement;
      if handler.IsWriting() {
        Write(outputBuffer.buffer[outputBuffer.readerIdx..outputBuffer.writeIdx], result);
        var n := result;
        if n > 0 {
          outputBuffer.Retrieve(n);
          if outputBuffer.ReadableBytes() == 0 {
            SetWriting(false);
            if state == Disconnecting {
              ShutdownInLoop();
            }
          }
        }
      }
      assert View() == Connection.HandleWrite(old(View()), result);
      hide Connection.HandleWrite, WriteResult;
      WriteMoves(old(View()), result);
    }

    /** send on the loop thread. */
    method Send(msg: string, result: int)
      requires Valid() && WriteResult(View(), result, |msg|)
      modifies this`kernel, this`accepted, this`wroteAfterShut, outputBuffer, outputBuffer.buffer,
               poller`handlerList, poller`kernel, handler`state, handler`events
      ensures Valid() && (outputBuffer.buffer == old(outputBuffer.buffer) || fresh(outputBuffer.buffer))
      ensures var c := old(View());
              && View() == (if c.state.Connected? then Connection.SendInLoop(c, msg, result) else c)
              && (Enabled(c, LoopSend(msg)) ==> View() == Next(Next(c, LoopSend(msg)), LoopSendBody(result)))
    {
      hide Handler.IsWriting, Poller.Agreement;
      if state == Connected {
        SendInLoop(msg, result);
      }
    }

    /** shutdown on the loop thread. */
    method Shutdown()
      requires Valid()
      modifies this`state, this`shut
      ensures Valid() && state.Disconnecting?
      ensures old(state).Connected? ==> (shut <==> old(shut) || !handler.IsWriting())
      ensures var c := old(View());
              && View() == (if c.state.Connected? then Connection.ShutdownInLoop(c.(state := Disconnecting)) else c)
              && (Enabled(c, LoopShutdown) ==> View() == Next(c, LoopShutdown))
    {
      if state == Connected {
        state := Disconnecting;
        ShutdownInLoop();
      }
    }

    /** handleClose. The result is false where the code exits the process: exactly when
        the connection has been shut down before. */
    method HandleClose() returns (ok: bool)
      requires Valid() && Enabled(View(), Close)
      modifies this`closed, this`exited, poller`handlerList, poller`kernel, handler`state, handler`events
      ensures Valid() && View() == Next(old(View()), Close) && (ok <==> old(state).Connected?)
      ensures closed && exited == (old(exited) || !ok) && (ok ==> handler.events == 0 && !handler.IsWriting())
    {
      ok := state == Connected;
      closed := true;
      if !ok {
        exited := true;
        return;
      }
      var disabled := poller.DisableAll(handler);
    }

    /** The loop runs the oldest functor another thread bound for this connection. */
    method RunTask(result: int)
      requires Valid() && Enabled(View(), Step.RunTask(result))
      modifies this`pending, this`kernel, this`accepted, this`wroteAfterShut, this`shut,
               outputBuffer, outputBuffer.buffer,
               poller`handlerList, poller`kernel, handler`state, handler`events
      ensures Valid() && View() == Next(old(View()), Step.RunTask(result))
    {
      hide Handler.IsWriting, Poller.Agreement;
      var task := pending[0];
      pending := pending[1..];
      match task
      case SendTask(msg) => SendInLoop(msg, result);
      case ShutdownTask => ShutdownInLoop();
    }
  }
}
