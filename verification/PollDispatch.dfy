/**
 What the poll thread does for the descriptors that are watched: the sets it selects on are the
 history of adds and removals, and every ready descriptor is visited once per turn, in order.
 */
module PollDispatch {
  import opened Polling
  import opened PollSystem

  // ----- watch sets -----

  /** The step turns the read or the write watch of `fd` on. */
  predicate TurnsOn(step: Step, fd: nat, forWrite: bool) {
    step.Add? && step.fd == fd && (step.flag == RdWr || step.flag == if forWrite then WrOnly else RdOnly)
  }

  /** The step turns it off: a matching delete, or the start of a removal. */
  predicate TurnsOff(step: Step, fd: nat, forWrite: bool) {
    || (step.Del? && step.fd == fd && (step.flag == RdWr || step.flag == if forWrite then WrOnly else RdOnly))
    || (step.RemoveStart? && step.fd == fd)
  }

  /** Is the watch on after these steps?  The last step that touches it decides. */
  predicate WatchedAfter(run: seq<Step>, fd: nat, forWrite: bool) {
    run != [] &&
    var last := run[|run| - 1];
    TurnsOn(last, fd, forWrite) || (!TurnsOff(last, fd, forWrite) && WatchedAfter(run[..|run| - 1], fd, forWrite))
  }

  ghost predicate SetsTell(s: Sys, run: seq<Step>) {
    forall fd: nat ::
      (fd in s.tab.rfds <==> WatchedAfter(run, fd, false)) && (fd in s.tab.wfds <==> WatchedAfter(run, fd, true))
  }

  lemma StepTells(s: Sys, run: seq<Step>, step: Step)
    requires SetsTell(s, run) && Enabled(s, step)
    ensures SetsTell(Apply(s, step), run + [step])
  {
    var run' := run + [step];
    assert run'[..|run'| - 1] == run && run'[|run'| - 1] == step;
  }

  lemma {:induction false} RunTells(s: Sys, run: seq<Step>, steps: seq<Step>)
    requires SetsTell(s, run) && Legal(s, steps)
    ensures SetsTell(After(s, steps), run + steps)
    decreases |steps|
  {
    if steps == [] {
      assert run + steps == run;
    } else {
      StepTells(s, run, steps[0]);
      RunTells(Apply(s, steps[0]), run + [steps[0]], steps[1..]);
      assert run + [steps[0]] + steps[1..] == run + steps;
    }
  }

  /**
   In every run a descriptor is selected for reading, or for writing, exactly if the last step
   that concerned that kind of watch turned it on.
   */
  lemma SelectsWhatIsWatched(steps: seq<Step>, fd: nat)
    requires Legal(Init, steps) && Enabled(After(Init, steps), CopySets)
    ensures var p := Apply(After(Init, steps), CopySets).phase;
            && p.Selecting?
            && (fd in p.rs <==> WatchedAfter(steps, fd, false))
            && (fd in p.ws <==> WatchedAfter(steps, fd, true))
  {
    RunTells(Init, [], steps);
    assert [] + steps == steps;
  }

  // ----- callbacks -----

  /** A delete keeps the callback exactly if the other kind of watch is still on. */
  lemma DelKeepsCallbackIff(s: Sys, fd: nat, flag: Flag)
    requires fd in s.tab.callbacks
    ensures var t := Apply(s, Del(fd, flag)).tab;
            && (fd in t.callbacks <==> (flag == RdOnly && fd in s.tab.wfds) || (flag == WrOnly && fd in s.tab.rfds))
            && (fd in t.callbacks ==> t.callbacks[fd] == s.tab.callbacks[fd])
            && (forall x :: x != fd ==> (x in t.callbacks <==> x in s.tab.callbacks))
  {
  }

  /**
   A connection that has added a write watch to its read watch, and drops it again, is still read:
   it keeps its callback, and the next turn selects it for reading only.
   */
  lemma ReadingSurvivesWriting(s: Sys, fd: nat, ch: nat)
    requires Enabled(s, Add(fd, RdOnly, ch))
    ensures var s2 := Apply(Apply(s, Add(fd, RdOnly, ch)), Add(fd, WrOnly, ch));
            var s3 := Apply(s2, Del(fd, WrOnly));
            && fd in s2.tab.rfds && fd in s2.tab.wfds
            && fd in s3.tab.callbacks && s3.tab.callbacks[fd] == ch
            && fd in s3.tab.rfds && fd !in s3.tab.wfds
            && (s3.phase.BeforeSelect? ==>
                  var p := Apply(s3, CopySets).phase; p.Selecting? && fd in p.rs && fd !in p.ws)
  {
  }

  /** The top of the loop wakes every waiting remover and settles the pending change. */
  lemma TopWakesAll(s: Sys)
    requires WaitersArePending(s.tab) && Enabled(s, LoopTop)
    ensures var t := Apply(s, LoopTop).tab;
            && !t.pending && t.removers.Keys == s.tab.removers.Keys
            && forall r :: r in t.removers ==> t.removers[r] == Woken(s.tab.removers[r].fd)
  {
  }

  // ----- one turn -----

  /** The descriptors that the poll thread has still to visit in this turn. */
  function Remaining(p: Phase): seq<nat> {
    match p
    case Dispatching(r, w) => r + w
    case About(_, r, w) => r + w
    case Calling(_, r, w) => r + w
    case Top => []
    case BeforeSelect => []
    case Selecting(_, _) => []
  }

  predicate InTurn(p: Phase) {
    p.Dispatching? || p.About? || p.Calling?
  }

  /** A visit: the descriptor, and whether it had a callback when it was tested. */
  datatype Visit = Visit(fd: nat, called: bool)

  /** The visit that a step makes, if it makes one. */
  function VisitAt(s: Sys, step: Step): seq<Visit> {
    if step.Next? && Remaining(s.phase) != [] then
      var fd := Remaining(s.phase)[0];
      [Visit(fd, fd in s.tab.callbacks)]
    else []
  }

  ghost function Visits(s: Sys, steps: seq<Step>): seq<Visit>
    requires Legal(s, steps)
    decreases |steps|
  {
    if steps == [] then [] else VisitAt(s, steps[0]) + Visits(Apply(s, steps[0]), steps[1..])
  }

  function Fds(vs: seq<Visit>): seq<nat> {
    if vs == [] then [] else [vs[0].fd] + Fds(vs[1..])
  }

  lemma {:induction false} FdsJoin(vs: seq<Visit>, ws: seq<Visit>)
    ensures Fds(vs + ws) == Fds(vs) + Fds(ws)
  {
    if vs == [] {
      assert vs + ws == ws;
    } else {
      assert (vs + ws)[1..] == vs[1..] + ws;
      FdsJoin(vs[1..], ws);
    }
  }

  /** The turn has not ended: the poll thread is still visiting. */
  ghost predicate StaysInTurn(s: Sys, steps: seq<Step>)
    requires Legal(s, steps)
    decreases |steps|
  {
    InTurn(s.phase) && (steps != [] ==> StaysInTurn(Apply(s, steps[0]), steps[1..]))
  }

  /** One step within a turn: a visit takes the next descriptor and leads to its callback exactly if it has one. */
  lemma TurnStep(s: Sys, step: Step)
    requires Enabled(s, step) && InTurn(s.phase)
    ensures var p' := Apply(s, step).phase;
            && Remaining(s.phase) == Fds(VisitAt(s, step)) + Remaining(p')
            && (p'.Top? <==> step.Next? && Remaining(s.phase) == [])
            && (step.Next? && Remaining(s.phase) != [] ==>
                  var fd := Remaining(s.phase)[0];
                  if fd in s.tab.callbacks then p'.About? && p'.fd == fd else p'.Dispatching?)
            && (step.Enter? ==> p'.Calling? && p'.fd == s.phase.fd)
            && (step.Return? ==> p'.Dispatching?)
  {
    if step.Next? {
      var r, w := s.phase.readable, s.phase.writable;
      if r != [] {
        assert r + w == [r[0]] + (r[1..] + w);
      } else if w != [] {
        assert r + w == [w[0]] + ([] + w[1..]);
      }
    }
    assert Fds([]) == [];
  }

  /**
   For every interleaving: within a turn the ready descriptors are visited in the order reported,
   reads before writes, none twice and none skipped.
   */
  lemma {:induction false} VisitsInOrder(s: Sys, steps: seq<Step>)
    requires Legal(s, steps) && StaysInTurn(s, steps)
    ensures Remaining(s.phase) == Fds(Visits(s, steps)) + Remaining(After(s, steps).phase)
    decreases |steps|
  {
    if steps == [] {
      assert Fds([]) == [];
    } else {
      var s' := Apply(s, steps[0]);
      TurnStep(s, steps[0]);
      VisitsInOrder(s', steps[1..]);
      Chain(Remaining(s.phase), VisitAt(s, steps[0]), Remaining(s'.phase), Visits(s', steps[1..]),
            Remaining(After(s, steps).phase));
    }
  }

  lemma Chain(x: seq<nat>, v: seq<Visit>, y: seq<nat>, w: seq<Visit>, z: seq<nat>)
    requires x == Fds(v) + y && y == Fds(w) + z
    ensures x == Fds(v + w) + z
  {
    FdsJoin(v, w);
    assert Fds(v) + (Fds(w) + z) == (Fds(v) + Fds(w)) + z;
  }

  /** A turn that ends has visited every ready descriptor. */
  lemma TurnVisitsAll(s: Sys, readable: seq<nat>, writable: seq<nat>, steps: seq<Step>)
    requires Enabled(s, Ready(readable, writable))
    requires Legal(Apply(s, Ready(readable, writable)), steps)
    requires StaysInTurn(Apply(s, Ready(readable, writable)), steps)
    requires var end := After(Apply(s, Ready(readable, writable)), steps);
             Enabled(end, Next) && Apply(end, Next).phase.Top?
    ensures Fds(Visits(Apply(s, Ready(readable, writable)), steps)) == readable + writable
  {
    var s' := Apply(s, Ready(readable, writable));
    VisitsInOrder(s', steps);
    TurnStep(After(s', steps), Next);
  }
}
