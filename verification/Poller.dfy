/** Handler.hpp and Poller.cpp: handlers, the poller's map, and the kernel's interest set. */
module Pollers {
  type Events = bv32

  const EPOLLIN: Events := 0x001
  const EPOLLPRI: Events := 0x002
  const EPOLLOUT: Events := 0x004

  /** Handler.cpp:5-6 */
  const READ_EVENT: Events := EPOLLIN | EPOLLPRI
  const WRITE_EVENT: Events := EPOLLOUT

  /** Poller.cpp:11 */
  const MAX_EVENT_NUM: nat := 128

  datatype HandlerState = New | Using | Deleted

  datatype Ready = Ready(fd: int, revents: Events)

  datatype Ctl = Add | Mod | Del

  class Handler {
    const fd: int
    var events: Events
    var revents: Events
    var state: HandlerState

    constructor (fd: int)
      ensures this.fd == fd && events == 0 && revents == 0 && state == New
    {
      this.fd := fd;
      events, revents, state := 0, 0, New;
    }

    function IsWriting(): bool
      reads this
    {
      events & WRITE_EVENT != 0
    }

    function IsNoneEvents(): bool
      reads this
    {
      events == 0
    }
  }

  class Poller {
    // handlerList_, and the kernel's interest set of epollFd_: fd to mask.
    var handlerList: map<int, Handler>
    var kernel: map<int, Events>

    // The handlers that exist on this loop.
    ghost var live: set<Handler>

    /** One live handler per fd, and the map holds live handlers under their fds. */
    ghost predicate Owned()
      reads this
    {
      && (forall h, h' :: h in live && h' in live && h.fd == h'.fd ==> h == h')
      && (forall fd :: fd in handlerList ==> handlerList[fd] in live && handlerList[fd].fd == fd)
    }

    /** NEW: in neither; USING: in the map and in the kernel; DELETED: in the map only. */
    ghost predicate InStep(h: Handler)
      reads this, h
    {
      && (h.state.New? <==> h.fd !in handlerList)
      && (h.state.Using? <==> h.fd in kernel)
    }

    /** The kernel watches exactly what the handler asks for. */
    ghost predicate SameEvents(h: Handler)
      reads this, h
    {
      && (h.fd in kernel ==> kernel[h.fd] == h.events)
      && (h.state.Deleted? ==> h.events == 0)
    }

    ghost predicate Agreement(changing: set<Handler>)
      reads this, live
    {
      && Owned()
      && kernel.Keys <= handlerList.Keys
      && forall h :: h in live ==> InStep(h) && (h !in changing ==> SameEvents(h))
    }

    ghost predicate Valid()
      reads this, live
    {
      Agreement({})
    }

    constructor ()
      ensures Valid() && live == {} && handlerList == map[] && kernel == map[]
    {
      handlerList, kernel, live := map[], map[], {};
    }

    /** A handler for an fd that has none yet. */
    method NewHandler(fd: int) returns (h: Handler)
      requires Valid() && forall h' :: h' in live ==> h'.fd != fd
      modifies this`live
      ensures Valid() && fresh(h) && h.fd == fd && h.state == New && h.events == 0 && live == old(live) + {h}
    {
      h := new Handler(fd);
      live := live + {h};
    }

    /** A handler is destroyed, which is safe once it is registered nowhere; its fd can
        be used again. */
    method DropHandler(handler: Handler)
      requires Valid() && handler in live && handler.state.New?
      modifies this`live
      ensures Valid() && live == old(live) - {handler} && forall h :: h in live ==> h.fd != handler.fd
    {
      live := live - {handler};
    }

    /** epoll_ctl on the registrations: ADD of a known fd, and MOD or DEL of an
        unknown one, fail. */
    method EpollCtl(op: Ctl, fd: int, events: Events) returns (ok: bool)
      modifies this`kernel
      ensures ok <==> (op.Add? <==> fd !in old(kernel))
      ensures kernel == if !ok then old(kernel) else if op.Del? then old(kernel) - {fd} else old(kernel)[fd := events]
    {
      ok := op.Add? == (fd !in kernel);
      if ok {
        kernel := if op.Del? then kernel - {fd} else kernel[fd := events];
      }
    }

    /** updateHandler. The result is false where the code exits the process; its
        assertions hold too. */
    method UpdateHandler(handler: Handler) returns (ok: bool)
      requires Agreement({handler}) && handler in live
      modifies this`handlerList, this`kernel, handler`state
      ensures ok && Valid()
      ensures handlerList == old(handlerList)[handler.fd := handler]
      ensures handler.state == if old(handler.state).Using? && handler.events == 0 then Deleted else Using
      ensures kernel == if handler.state.Deleted? then old(kernel) - {handler.fd}
                        else old(kernel)[handler.fd := handler.events]
    {
      var fd, hstate := handler.fd, handler.state;
      if hstate == New || hstate == Deleted {
        if hstate == New {
          assert fd !in handlerList;
          handlerList := handlerList[fd := handler];
        } else {
          assert fd in handlerList && handlerList[fd] == handler;
        }
        handlerList := handlerList[fd := handler];
        ok := EpollCtl(Add, fd, handler.events);
        if !ok {
          return;
        }
        handler.state := Using;
      } else {
        assert fd in handlerList && handler == handlerList[fd];
        if handler.IsNoneEvents() {
          ok := EpollCtl(Del, fd, 0);
          if !ok {
            return;
          }
          handler.state := Deleted;
        } else {
          ok := EpollCtl(Mod, fd, handler.events);
        }
      }
    }

    /** removeHandler, with its assertions; a handler must be registered and have no
        events, which is what connectDestroyed sees to. */
    method RemoveHandler(handler: Handler) returns (ok: bool)
      requires Valid() && handler in live && !handler.state.New? && handler.events == 0
      modifies this`handlerList, this`kernel, handler`state
      ensures ok && Valid() && handler.state.New?
      ensures handlerList == old(handlerList) - {handler.fd} && kernel == old(kernel) - {handler.fd}
    {
      var fd, hstate := handler.fd, handler.state;
      assert fd in handlerList && handlerList[fd] == handler && handler.IsNoneEvents();
      assert hstate == Using || hstate == Deleted;
      handlerList := handlerList - {fd};
      ok := true;
      if hstate == Using {
        ok := EpollCtl(Del, fd, 0);
        if !ok {
          return;
        }
      }
      handler.state := New;
    }

    method EnableReading(handler: Handler) returns (ok: bool)
      requires Valid() && handler in live
      modifies this`handlerList, this`kernel, handler`state, handler`events
      ensures ok && Valid() && handler.events == old(handler.events) | READ_EVENT
      ensures handler.state.Using? && handler.fd in kernel && kernel[handler.fd] & READ_EVENT == READ_EVENT
      ensures handler.IsWriting() == old(handler.IsWriting())
      ensures handlerList == old(handlerList)[handler.fd := handler]
      ensures kernel - {handler.fd} == old(kernel) - {handler.fd}
    {
      handler.events := handler.events | READ_EVENT;
      ok := UpdateHandler(handler);
    }

    method EnableWriting(handler: Handler) returns (ok: bool)
      requires Valid() && handler in live
      modifies this`handlerList, this`kernel, handler`state, handler`events
      ensures ok && Valid() && handler.events == old(handler.events) | WRITE_EVENT
      ensures handler.state.Using? && handler.IsWriting()
      ensures handler.events & READ_EVENT == old(handler.events) & READ_EVENT
      ensures handlerList == old(handlerList)[handler.fd := handler]
      ensures kernel - {handler.fd} == old(kernel) - {handler.fd}
    {
      handler.events := handler.events | WRITE_EVENT;
      ok := UpdateHandler(handler);
    }

    method DisableReading(handler: Handler) returns (ok: bool)
      requires Valid() && handler in live
      modifies this`handlerList, this`kernel, handler`state, handler`events
      ensures ok && Valid() && handler.events == old(handler.events) & !READ_EVENT
      ensures handler.events & READ_EVENT == 0 && handler.IsWriting() == old(handler.IsWriting())
      ensures handlerList == old(handlerList)[handler.fd := handler]
      ensures kernel - {handler.fd} == old(kernel) - {handler.fd}
    {
      handler.events := handler.events & !READ_EVENT;
      ok := UpdateHandler(handler);
    }

    method DisableWriting(handler: Handler) returns (ok: bool)
      requires Valid() && handler in live
      modifies this`handlerList, this`kernel, handler`state, handler`events
      ensures ok && Valid() && handler.events == old(handler.events) & !WRITE_EVENT
      ensures !handler.IsWriting() && handler.events & READ_EVENT == old(handler.events) & READ_EVENT
      ensures handlerList == old(handlerList)[handler.fd := handler]
      ensures kernel - {handler.fd} == old(kernel) - {handler.fd}
    {
      handler.events := handler.events & !WRITE_EVENT;
      ok := UpdateHandler(handler);
    }

    /** disableAll: a handler in use leaves the kernel set; any other one is added
        to it with an empty mask. */
    method DisableAll(handler: Handler) returns (ok: bool)
      requires Valid() && handler in live
      modifies this`handlerList, this`kernel, handler`state, handler`events
      ensures ok && Valid() && handler.events == 0 && handler.fd in handlerList
      ensures handler.state.Deleted? <==> old(handler.state).Using?
      ensures handler.state.Using? ==> kernel[handler.fd] == 0
      ensures handlerList == old(handlerList)[handler.fd := handler]
      ensures kernel - {handler.fd} == old(kernel) - {handler.fd}
    {
      handler.events := 0;
      ok := UpdateHandler(handler);
    }

    /** poll: the kernel reports registered fds only, so no unknown one is met and
        the process does not exit; each reported handler is collected, in order,
        with its events. */
    method Poll(events: seq<Ready>) returns (activeQueue: seq<Handler>, ok: bool)
      requires Valid() && |events| <= MAX_EVENT_NUM
      requires forall i :: 0 <= i < |events| ==> events[i].fd in kernel
      requires forall i, j :: 0 <= i < j < |events| ==> events[i].fd != events[j].fd
      modifies live`revents
      ensures ok && Valid() && |activeQueue| == |events|
      ensures forall i :: 0 <= i < |events| ==>
                && events[i].fd in handlerList && activeQueue[i] == handlerList[events[i].fd]
                && activeQueue[i].state.Using? && activeQueue[i].revents == events[i].revents
    {
      activeQueue, ok := [], true;
      for i := 0 to |events|
        invariant Valid() && |activeQueue| == i && ok
        invariant forall k :: 0 <= k < |events| ==> events[k].fd in kernel && events[k].fd in handlerList
        invariant forall k :: 0 <= k < i ==>
                    && activeQueue[k] == handlerList[events[k].fd]
                    && activeQueue[k].revents == events[k].revents
      {
        if events[i].fd !in handlerList {
          ok := false;
          return;
        }
        var handler := handlerList[events[i].fd];
        handler.revents := events[i].revents;
        activeQueue := activeQueue + [handler];
      }
    }

    /** The end of a connection, TcpConnection.cpp:112-116: whatever state its
        handler is in, disableAll and removeHandler succeed and leave no trace. */
    method Unregister(handler: Handler) returns (ok: bool)
      requires Valid() && handler in live
      modifies this`handlerList, this`kernel, handler`state, handler`events
      ensures ok && Valid() && handler.state.New? && handler.events == 0
      ensures handlerList == old(handlerList) - {handler.fd} && kernel == old(kernel) - {handler.fd}
    {
      ok := DisableAll(handler);
      var removed := RemoveHandler(handler);
      ok := ok && removed;
      assert old(handlerList)[handler.fd := handler] - {handler.fd} == old(handlerList) - {handler.fd};
    }
  }
}
