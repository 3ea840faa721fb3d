/** The watch sets of `SelectAIO` and the callback table of `PollMgr`. */
module Polling {
  const MAX_POLL_FDS: nat := 128

  datatype Flag = RdOnly | WrOnly | RdWr

  predicate ForRead(flag: Flag) {
    flag != WrOnly
  }

  predicate ForWrite(flag: Flag) {
    flag != RdOnly
  }

  /** One `fd_set` after watching or unwatching `fd` in it. */
  function Watch(fds: set<nat>, fd: nat, on: bool): set<nat> {
    if on then fds + {fd} else fds
  }

  function Unwatch(fds: set<nat>, fd: nat, off: bool): set<nat> {
    if off then fds - {fd} else fds
  }

  // ----- what the mutex of `PollMgr` protects -----

  /** A thread inside `block_remove_fd`: in its wait, or woken from it. */
  datatype Remover = Waiting(fd: nat) | Woken(fd: nat)

  datatype Table = Table(
    rfds: set<nat>, wfds: set<nat>, callbacks: map<nat, nat>, pending: bool, removers: map<nat, Remover>)

  const EMPTY_TABLE := Table({}, {}, map[], false, map[])

  predicate IsWatched(t: Table, fd: nat) {
    fd in t.rfds || fd in t.wfds
  }

  function AddSection(t: Table, fd: nat, flag: Flag, ch: nat): Table {
    t.(rfds := Watch(t.rfds, fd, ForRead(flag)), wfds := Watch(t.wfds, fd, ForWrite(flag)),
       callbacks := t.callbacks[fd := ch])
  }

  function DelSection(t: Table, fd: nat, flag: Flag): Table {
    var t' := t.(rfds := Unwatch(t.rfds, fd, ForRead(flag)), wfds := Unwatch(t.wfds, fd, ForWrite(flag)));
    if IsWatched(t', fd) then t' else t'.(callbacks := t.callbacks - {fd})
  }

  /** `block_remove_fd` by `thread`, up to its wait, */
  function RemoveStartSection(t: Table, thread: nat, fd: nat): Table {
    t.(rfds := t.rfds - {fd}, wfds := t.wfds - {fd}, pending := true, removers := t.removers[thread := Waiting(fd)])
  }

  /** and after it. */
  function RemoveEndSection(t: Table, thread: nat): Table
    requires thread in t.removers
  {
    t.(callbacks := t.callbacks - {t.removers[thread].fd}, removers := t.removers - {thread})
  }

  /** The top of `wait_loop`: a pending change wakes all waiting removers. */
  function TopSection(t: Table): Table {
    if t.pending then t.(pending := false, removers := map r | r in t.removers :: Woken(t.removers[r].fd)) else t
  }

  /** A remover is never left waiting without a change that the poll thread has still to see. */
  ghost predicate WaitersArePending(t: Table) {
    forall r :: r in t.removers && t.removers[r].Waiting? ==> t.pending
  }

  ghost predicate Ascending(fds: seq<nat>) {
    forall i, j :: 0 <= i < j < |fds| ==> fds[i] < fds[j]
  }

  /** Exactly the members of `ready` below `n`, in ascending order and each once. */
  ghost predicate Lists(fds: seq<nat>, ready: set<nat>, n: nat) {
    Ascending(fds) && forall fd :: fd in fds <==> fd in ready && fd < n
  }

  lemma ListsNext(fds: seq<nat>, ready: set<nat>, n: nat)
    requires Lists(fds, ready, n)
    ensures Lists(if n in ready then fds + [n] else fds, ready, n + 1)
  {
    forall i | 0 <= i < |fds| ensures fds[i] < n {
      assert fds[i] in fds;
    }
    forall fd | fd in ready && fd < n + 1 ensures fd in fds || fd == n {
      assert fd < n ==> fd in fds;
    }
  }

  class SelectAio {
    var rfds: set<nat>
    var wfds: set<nat>
    var highfds: nat
    const pipe: nat

    /** The pipe is always watched, and `highfds_` is the largest watched descriptor. */
    ghost predicate Valid()
      reads this
    {
      && pipe in rfds && pipe !in wfds
      && highfds in rfds + wfds
      && forall fd :: fd in rfds + wfds ==> fd <= highfds
    }

    constructor (p: nat)
      ensures Valid() && pipe == p && rfds == {p} && wfds == {}
    {
      pipe, rfds, wfds, highfds := p, {p}, {}, p;
    }

    method WatchFd(fd: nat, flag: Flag)
      requires Valid() && fd != pipe
      modifies this
      ensures Valid()
      ensures rfds == Watch(old(rfds), fd, ForRead(flag)) && wfds == Watch(old(wfds), fd, ForWrite(flag))
      ensures flag == RdOnly ==> rfds == old(rfds) + {fd} && wfds == old(wfds)
      ensures flag == WrOnly ==> rfds == old(rfds) && wfds == old(wfds) + {fd}
      ensures flag == RdWr ==> rfds == old(rfds) + {fd} && wfds == old(wfds) + {fd}
    {
      if highfds <= fd {
        highfds := fd;
      }
      match flag
      case RdOnly => rfds := rfds + {fd};
      case WrOnly => wfds := wfds + {fd};
      case RdWr => rfds, wfds := rfds + {fd}, wfds + {fd};
    }

    /** The highest descriptor is searched again when it goes; `gone` says that nothing of `fd` is watched. */
    method UnwatchFd(fd: nat, flag: Flag) returns (gone: bool)
      requires Valid() && fd != pipe
      modifies this
      ensures Valid()
      ensures rfds == Unwatch(old(rfds), fd, ForRead(flag)) && wfds == Unwatch(old(wfds), fd, ForWrite(flag))
      ensures flag == RdOnly ==> rfds == old(rfds) - {fd} && wfds == old(wfds)
      ensures flag == WrOnly ==> rfds == old(rfds) && wfds == old(wfds) - {fd}
      ensures flag == RdWr ==> rfds == old(rfds) - {fd} && wfds == old(wfds) - {fd}
      ensures gone == (fd !in rfds && fd !in wfds)
    {
      match flag {
        case RdOnly => rfds := rfds - {fd};
        case WrOnly => wfds := wfds - {fd};
        case RdWr => rfds, wfds := rfds - {fd}, wfds - {fd};
      }
      if fd !in rfds && fd !in wfds && fd == highfds {
        highfds := Highest(rfds, wfds, highfds, pipe);
      }
      gone := fd !in rfds && fd !in wfds;
    }

    /** The scan for the new highest descriptor. */
    static method Highest(r: set<nat>, w: set<nat>, high: nat, pipe: nat) returns (h: nat)
      requires pipe in r && forall fd :: fd in r + w ==> fd <= high
      ensures h in r + w && forall fd :: fd in r + w ==> fd <= h
    {
      h := pipe;
      for i := 0 to high + 1
        invariant h in r + w
        invariant forall fd :: fd in r + w && fd < i ==> fd <= h
      {
        if i in r || i in w {
          h := i;
        }
      }
    }

    /** The copies that `wait_ready` takes under the mutex, before `select` sleeps without it. */
    method CopySets() returns (r: set<nat>, w: set<nat>, high: nat)
      requires Valid()
      ensures r == rfds && w == wfds && Copied(r, w, high, pipe)
    {
      r, w, high := rfds, wfds, highfds;
    }

    static ghost predicate Copied(r: set<nat>, w: set<nat>, high: nat, pipe: nat) {
      pipe !in w && forall fd :: fd in r + w ==> fd <= high
    }

    /**
     The scan of `wait_ready`, where `tr` and `tw` are what `select` left of the copied sets,
     whatever has been watched or unwatched meanwhile.  No ready descriptor is missed and the pipe
     is never reported.
     */
    static method WaitReady(r: set<nat>, w: set<nat>, high: nat, pipe: nat, tr: set<nat>, tw: set<nat>)
      returns (readable: seq<nat>, writable: seq<nat>)
      requires Copied(r, w, high, pipe) && tr <= r && tw <= w
      ensures Ascending(readable) && forall fd :: fd in readable <==> fd in tr && fd != pipe
      ensures Ascending(writable) && forall fd :: fd in writable <==> fd in tw
    {
      assert (forall fd :: fd in tr ==> fd in r + w) && (forall fd :: fd in tw ==> fd in r + w);
      readable, writable := [], [];
      for fd := 0 to high + 1
        invariant Lists(readable, tr - {pipe}, fd) && Lists(writable, tw, fd)
      {
        ListsNext(readable, tr - {pipe}, fd);
        ListsNext(writable, tw, fd);
        if !(fd == pipe && fd in tr) {
          if fd in tw {
            writable := writable + [fd];
          }
          if fd in tr {
            readable := readable + [fd];
          }
        }
      }
    }
  }

  /** The sections of `PollMgr` that run under its mutex; each is one step of the poll system. */
  class PollMgr {
    const aio: SelectAio
    var callbacks: map<nat, nat>
    var pending: bool
    /** The threads inside `block_remove_fd`, waiting on `changedone_c_` or woken. */
    var removers: map<nat, Remover>

    /** The descriptors of others; the pipe is the manager's own. */
    ghost function Tab(): Table
      reads this, aio
    {
      Table(aio.rfds - {aio.pipe}, aio.wfds, callbacks, pending, removers)
    }

    ghost predicate Valid()
      reads this, aio
    {
      aio.Valid() && WaitersArePending(Tab())
    }

    constructor (p: nat)
      ensures Valid() && fresh(aio) && aio.pipe == p && Tab() == EMPTY_TABLE
    {
      aio := new SelectAio(p);
      callbacks, pending, removers := map[], false, map[];
    }

    method AddCallback(fd: nat, flag: Flag, ch: nat)
      requires Valid() && fd < MAX_POLL_FDS && fd != aio.pipe
      requires fd in callbacks ==> callbacks[fd] == ch
      modifies this`callbacks, aio
      ensures Valid() && Tab() == AddSection(old(Tab()), fd, flag, ch)
    {
      aio.WatchFd(fd, flag);
      callbacks := callbacks[fd := ch];
    }

    method DelCallback(fd: nat, flag: Flag)
      requires Valid() && fd != aio.pipe
      modifies this`callbacks, aio
      ensures Valid() && Tab() == DelSection(old(Tab()), fd, flag)
    {
      var gone := aio.UnwatchFd(fd, flag);
      if gone {
        callbacks := callbacks - {fd};
      }
    }

    /** `block_remove_fd` up to its wait. */
    method BlockRemoveStart(thread: nat, fd: nat)
      requires Valid() && fd != aio.pipe && thread !in removers
      modifies this`pending, this`removers, aio
      ensures Valid() && Tab() == RemoveStartSection(old(Tab()), thread, fd)
    {
      var gone := aio.UnwatchFd(fd, RdWr);
      pending := true;
      removers := removers[thread := Waiting(fd)];
    }

    /** `block_remove_fd` after its wait: its descriptor has no callback, and the thread leaves. */
    method BlockRemoveEnd(thread: nat)
      requires Valid() && thread in removers && removers[thread].Woken?
      modifies this`callbacks, this`removers
      ensures Valid() && Tab() == RemoveEndSection(old(Tab()), thread)
      ensures old(removers)[thread].fd !in callbacks && thread !in removers
    {
      callbacks := callbacks - {removers[thread].fd};
      removers := removers - {thread};
    }

    /** The top of `wait_loop`, after which no remover that came before is still waiting. */
    method LoopTop()
      requires Valid()
      modifies this`pending, this`removers
      ensures Valid() && Tab() == TopSection(old(Tab())) && !pending
      ensures forall r :: r in removers ==> removers[r].Woken?
    {
      if pending {
        pending := false;
        removers := map r | r in removers :: Woken(removers[r].fd);
      }
    }
  }
}
