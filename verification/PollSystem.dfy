/**
 `PollMgr` with its poll thread and any number of other threads as a transition system: one
 mutex-protected section, one `select`, or one start or end of a callback is one step.
 */
module PollSystem {
  import opened Polling

  /** Where the poll thread is in `wait_loop`; `About` lies between the test of an entry and the call. */
  datatype Phase =
    | Top
    | BeforeSelect
    | Selecting(rs: set<nat>, ws: set<nat>)
    | Dispatching(readable: seq<nat>, writable: seq<nat>)
    | About(fd: nat, readable: seq<nat>, writable: seq<nat>)
    | Calling(fd: nat, readable: seq<nat>, writable: seq<nat>)

  datatype Sys = Sys(
    tab: Table,
    phase: Phase,
    /** The threads inside `block_remove_fd` whose descriptor was added since they came in. */
    overtaken: set<nat>,
    /** Descriptors whose removal has returned and that were not added since that removal began. */
    removed: set<nat>
  )

  datatype Step =
    | Add(fd: nat, flag: Flag, ch: nat)
    | Del(fd: nat, flag: Flag)
    | RemoveStart(t: nat, fd: nat)
    | SpuriousWake(t: nat)
    | RemoveEnd(t: nat)
    | LoopTop
    | CopySets
    | Ready(readable: seq<nat>, writable: seq<nat>)
    | Next
    | Enter
    | Return

  const Init := Sys(EMPTY_TABLE, Top, {}, {})

  ghost predicate Within(fds: seq<nat>, s: set<nat>) {
    forall i :: 0 <= i < |fds| ==> fds[i] in s
  }

  ghost predicate Enabled(s: Sys, a: Step) {
    match a
    case Add(fd, flag, ch) => fd in s.tab.callbacks ==> s.tab.callbacks[fd] == ch
    case Del(fd, flag) => true
    case RemoveStart(t, fd) => t !in s.tab.removers
    case SpuriousWake(t) => t in s.tab.removers && s.tab.removers[t].Waiting?
    case RemoveEnd(t) => t in s.tab.removers && s.tab.removers[t].Woken?
    case LoopTop => s.phase.Top?
    case CopySets => s.phase.BeforeSelect?
    case Ready(r, w) => s.phase.Selecting? && Within(r, s.phase.rs) && Within(w, s.phase.ws)
    case Next => s.phase.Dispatching?
    case Enter => s.phase.About?
    case Return => s.phase.Calling?
  }

  /** The threads that are removing `fd`. */
  function RemoversOf(m: map<nat, Remover>, fd: nat): set<nat> {
    set t | t in m && m[t].fd == fd
  }

  /** One turn of the two dispatch loops up to the test of its entry, or their end. */
  function NextPhase(p: Phase, callbacks: map<nat, nat>): Phase
    requires p.Dispatching?
  {
    if p.readable != [] then Test(p.readable[0], p.readable[1..], p.writable, callbacks)
    else if p.writable != [] then Test(p.writable[0], [], p.writable[1..], callbacks)
    else Top
  }

  /** The test takes no mutex, and the call that follows reads the entry again. */
  function Test(fd: nat, readable: seq<nat>, writable: seq<nat>, callbacks: map<nat, nat>): Phase {
    if fd in callbacks then About(fd, readable, writable) else Dispatching(readable, writable)
  }

  function Apply(s: Sys, a: Step): Sys
    requires Enabled(s, a)
  {
    match a
    case Add(fd, flag, ch) =>
      s.(tab := AddSection(s.tab, fd, flag, ch), overtaken := s.overtaken + RemoversOf(s.tab.removers, fd),
         removed := s.removed - {fd})
    case Del(fd, flag) => s.(tab := DelSection(s.tab, fd, flag))
    case RemoveStart(t, fd) => s.(tab := RemoveStartSection(s.tab, t, fd), overtaken := s.overtaken - {t})
    case SpuriousWake(t) =>
      s.(tab := s.tab.(removers := s.tab.removers[t := Woken(s.tab.removers[t].fd)]))
    case RemoveEnd(t) =>
      s.(tab := RemoveEndSection(s.tab, t),
         removed := if t in s.overtaken then s.removed else s.removed + {s.tab.removers[t].fd})
    case LoopTop => s.(tab := TopSection(s.tab), phase := BeforeSelect)
    case CopySets => s.(phase := Selecting(s.tab.rfds, s.tab.wfds))
    case Ready(r, w) => s.(phase := Dispatching(r, w))
    case Next => s.(phase := NextPhase(s.phase, s.tab.callbacks))
    case Enter => s.(phase := Calling(s.phase.fd, s.phase.readable, s.phase.writable))
    case Return => s.(phase := Dispatching(s.phase.readable, s.phase.writable))
  }

  ghost predicate Legal(s: Sys, run: seq<Step>)
    decreases |run|
  {
    run == [] || (Enabled(s, run[0]) && Legal(Apply(s, run[0]), run[1..]))
  }

  ghost function After(s: Sys, run: seq<Step>): Sys
    requires Legal(s, run)
    decreases |run|
  {
    if run == [] then s else After(Apply(s, run[0]), run[1..])
  }

  // ----- what runs keep -----

  /** May the poll thread, as far as it has come in this turn, still call back for `fd`? */
  ghost predicate Holds(p: Phase, fd: nat) {
    match p
    case Top => false
    case BeforeSelect => false
    case Selecting(rs, ws) => fd in rs || fd in ws
    case Dispatching(r, w) => fd in r || fd in w
    case About(x, r, w) => fd == x || fd in r || fd in w
    case Calling(x, r, w) => fd == x || fd in r || fd in w
  }

  ghost predicate Quiet(s: Sys, fd: nat) {
    !IsWatched(s.tab, fd) && !Holds(s.phase, fd) && fd !in s.tab.callbacks
  }

  ghost predicate RemoverOk(s: Sys, t: nat)
    requires t in s.tab.removers
  {
    var m := s.tab.removers[t];
    t !in s.overtaken ==> !IsWatched(s.tab, m.fd) && (m.Woken? ==> !Holds(s.phase, m.fd))
  }

  ghost predicate Inv(s: Sys) {
    && WaitersArePending(s.tab)
    && (forall t :: t in s.tab.removers ==> RemoverOk(s, t))
    && (forall fd :: fd in s.removed ==> Quiet(s, fd))
  }
}
