/** After `block_remove_fd(fd)` returns, callbacks for `fd` have stopped until it is added again. */
module PollTheorems {
  import opened Polling
  import opened PollSystem

  // ----- the invariant, for waits that end only by the broadcast -----

  /** A step may only make the poll thread hold what it held before or what is watched now. */
  lemma HoldsOnlyWatched(s: Sys, a: Step, fd: nat)
    requires Enabled(s, a) && !Holds(s.phase, fd) && !IsWatched(s.tab, fd)
    ensures !Holds(Apply(s, a).phase, fd)
  {
    if a.Ready? {
      assert forall i :: 0 <= i < |a.readable| ==> a.readable[i] != fd;
      assert forall i :: 0 <= i < |a.writable| ==> a.writable[i] != fd;
    }
  }

  lemma StaysUnwatched(s: Sys, a: Step, fd: nat)
    requires Enabled(s, a) && !IsWatched(s.tab, fd) && !(a.Add? && a.fd == fd)
    ensures !IsWatched(Apply(s, a).tab, fd)
  {
  }

  /** Once quiet, a descriptor stays quiet until it is added, whatever else happens. */
  lemma QuietStays(s: Sys, a: Step, fd: nat)
    requires Enabled(s, a) && Quiet(s, fd) && !(a.Add? && a.fd == fd)
    ensures Quiet(Apply(s, a), fd)
  {
    HoldsOnlyWatched(s, a, fd);
    StaysUnwatched(s, a, fd);
  }

  lemma RemoverStays(s: Sys, a: Step, t: nat)
    requires Enabled(s, a) && !a.SpuriousWake?
    requires t in s.tab.removers && RemoverOk(s, t) && t in Apply(s, a).tab.removers
    ensures RemoverOk(Apply(s, a), t)
  {
    var fd := s.tab.removers[t].fd;
    if t !in Apply(s, a).overtaken {
      StaysUnwatched(s, a, fd);
      if s.tab.removers[t].Woken? {
        HoldsOnlyWatched(s, a, fd);
      }
    }
  }

  lemma StepKeepsInv(s: Sys, a: Step)
    requires Inv(s) && Enabled(s, a) && !a.SpuriousWake?
    ensures Inv(Apply(s, a))
  {
    var s' := Apply(s, a);
    forall t | t in s'.tab.removers ensures RemoverOk(s', t) {
      if t in s.tab.removers {
        RemoverStays(s, a, t);
      }
    }
    forall fd | fd in s'.removed ensures Quiet(s', fd) {
      if fd in s.removed {
        QuietStays(s, a, fd);
      }
    }
  }

  ghost predicate NoSpurious(run: seq<Step>) {
    forall i :: 0 <= i < |run| ==> !run[i].SpuriousWake?
  }

  lemma {:induction false} RunKeepsInv(s: Sys, run: seq<Step>)
    requires Inv(s) && Legal(s, run) && NoSpurious(run)
    ensures Inv(After(s, run))
    decreases |run|
  {
    if run != [] {
      StepKeepsInv(s, run[0]);
      RunKeepsInv(Apply(s, run[0]), run[1..]);
    }
  }

  // ----- quiescence -----

  predicate IsCalling(s: Sys, fd: nat) {
    s.phase.Calling? && s.phase.fd == fd
  }

  /** The poll thread is inside a callback for `fd`, or has tested its entry and will call it next. */
  predicate IsEngaged(s: Sys, fd: nat) {
    (s.phase.Calling? || s.phase.About?) && s.phase.fd == fd
  }

  ghost predicate NeverAdds(run: seq<Step>, fd: nat) {
    forall i :: 0 <= i < |run| ==> !(run[i].Add? && run[i].fd == fd)
  }

  /** No callback for `fd` is running at the start of the run, at its end, or anywhere between. */
  ghost predicate NeverCalls(s: Sys, run: seq<Step>, fd: nat)
    requires Legal(s, run)
    decreases |run|
  {
    !IsCalling(s, fd) && (run == [] || NeverCalls(Apply(s, run[0]), run[1..], fd))
  }

  lemma {:induction false} SilentRun(s: Sys, run: seq<Step>, fd: nat)
    requires Legal(s, run) && NeverAdds(run, fd) && !IsEngaged(s, fd) && fd !in s.tab.callbacks
    ensures NeverCalls(s, run, fd)
    decreases |run|
  {
    if run != [] {
      assert !(run[0].Add? && run[0].fd == fd);
      SilentRun(Apply(s, run[0]), run[1..], fd);
    }
  }

  /**
   For every interleaving of removers, adders, deleters and the poll thread: when a removal has
   returned, `fd` is not watched and has no callback, the poll thread has nothing of it left to
   call, and on no continuation does a callback for `fd` run before `fd` is added again.
   */
  lemma RemovalIsQuiescent(run: seq<Step>, more: seq<Step>, fd: nat)
    requires Legal(Init, run) && NoSpurious(run) && fd in After(Init, run).removed
    requires Legal(After(Init, run), more) && NeverAdds(more, fd)
    ensures Quiet(After(Init, run), fd) && NeverCalls(After(Init, run), more, fd)
  {
    RunKeepsInv(Init, run);
    SilentRun(After(Init, run), more, fd);
  }

  /** A removal that returns, with no add of `fd` since it began, puts `fd` among the removed ones. */
  lemma ReturnMeansRemoved(run: seq<Step>, t: nat)
    requires Legal(Init, run) && NoSpurious(run) && Enabled(After(Init, run), RemoveEnd(t))
    requires t !in After(Init, run).overtaken
    ensures var s := After(Init, run);
            var fd := s.tab.removers[t].fd;
            !Holds(s.phase, fd) && fd in Apply(s, RemoveEnd(t)).removed && Quiet(Apply(s, RemoveEnd(t)), fd)
  {
    RunKeepsInv(Init, run);
    StepKeepsInv(After(Init, run), RemoveEnd(t));
  }

  // ----- early wake-ups -----

  /** Whatever continuation without an add of `fd`, no callback for it runs. */
  ghost predicate SilentForGood(s: Sys, fd: nat) {
    forall more :: Legal(s, more) && NeverAdds(more, fd) ==> NeverCalls(s, more, fd)
  }

  /**
   In any state at all, also after wake-ups without a broadcast, a returning removal silences `fd`
   exactly when the poll thread is at that moment neither inside a callback for it nor between the
   test of its entry and the call.
   */
  lemma ReturnIsSafeIff(s: Sys, t: nat)
    requires Enabled(s, RemoveEnd(t))
    ensures SilentForGood(Apply(s, RemoveEnd(t)), s.tab.removers[t].fd) <==> !IsEngaged(s, s.tab.removers[t].fd)
  {
    var fd, s' := s.tab.removers[t].fd, Apply(s, RemoveEnd(t));
    if !IsEngaged(s, fd) {
      forall more | Legal(s', more) && NeverAdds(more, fd) ensures NeverCalls(s', more, fd) {
        SilentRun(s', more, fd);
      }
    } else if IsCalling(s, fd) {
      assert Legal(s', []) && NeverAdds([], fd) && !NeverCalls(s', [], fd);
    } else {
      assert [Enter][1..] == [];
      assert Legal(s', [Enter]) && NeverAdds([Enter], fd) && !NeverCalls(s', [Enter], fd);
    }
  }

  lemma Then(s: Sys, a: Step, s': Sys, run: seq<Step>, end: Sys)
    requires Enabled(s, a) && Apply(s, a) == s' && Legal(s', run) && After(s', run) == end
    ensures Legal(s, [a] + run) && After(s, [a] + run) == end
  {
    assert ([a] + run)[1..] == run;
  }

  /** Descriptor 5 is watched and ready, and the poll thread has tested its entry. */
  const TESTED := Sys(Table({5}, {}, map[5 := 1], false, map[]), About(5, [], []), {}, {})

  lemma TestedLeads(run: seq<Step>, end: Sys) returns (whole: seq<Step>)
    requires Legal(TESTED, run) && After(TESTED, run) == end
    ensures Legal(Init, whole) && After(Init, whole) == end
  {
    var s1 := TESTED.(phase := Top);
    var s2, s3 := TESTED.(phase := BeforeSelect), TESTED.(phase := Selecting({5}, {}));
    var s4 := TESTED.(phase := Dispatching([5], []));
    assert [5][1..] == [];
    Then(s4, Next, TESTED, run, end);
    Then(s3, Ready([5], []), s4, [Next] + run, end);
    Then(s2, CopySets, s3, [Ready([5], [])] + ([Next] + run), end);
    Then(s1, LoopTop, s2, [CopySets] + ([Ready([5], [])] + ([Next] + run)), end);
    assert RemoversOf(map[], 5) == {};
    whole := [LoopTop] + ([CopySets] + ([Ready([5], [])] + ([Next] + run)));
    Then(Init, Add(5, RdOnly, 1), s1, whole, end);
    whole := [Add(5, RdOnly, 1)] + whole;
  }

  /** A removal by thread 0 that is woken without a broadcast. */
  lemma EarlyReturn(s: Sys)
    requires s == TESTED || s == TESTED.(phase := Calling(5, [], []))
    ensures var run := [RemoveStart(0, 5)] + ([SpuriousWake(0)] + ([RemoveEnd(0)] + []));
            Legal(s, run) && After(s, run) == Sys(Table({}, {}, map[], true, map[]), s.phase, {}, {5})
  {
    var s1 := s.(tab := Table({}, {}, map[5 := 1], true, map[0 := Waiting(5)]));
    var s2 := s.(tab := Table({}, {}, map[5 := 1], true, map[0 := Woken(5)]));
    var end := Sys(Table({}, {}, map[], true, map[]), s.phase, {}, {5});
    Then(s2, RemoveEnd(0), end, [], end);
    Then(s1, SpuriousWake(0), s2, [RemoveEnd(0)] + [], end);
    Then(s, RemoveStart(0, 5), s1, [SpuriousWake(0)] + ([RemoveEnd(0)] + []), end);
  }

  /** One wake-up without a broadcast is enough for a removal to return in the middle of a callback, */
  lemma EarlyWakeReturnsDuringCallback() returns (run: seq<Step>)
    ensures Legal(Init, run) && 5 in After(Init, run).removed && IsCalling(After(Init, run), 5)
  {
    var s := TESTED.(phase := Calling(5, [], []));
    EarlyReturn(s);
    var tail := [RemoveStart(0, 5)] + ([SpuriousWake(0)] + ([RemoveEnd(0)] + []));
    Then(TESTED, Enter, s, tail, After(s, tail));
    run := TestedLeads([Enter] + tail, After(s, tail));
  }

  /** or right before one, when the entry that the call will read is already gone. */
  lemma EarlyWakeReturnsBeforeCallback() returns (run: seq<Step>)
    ensures Legal(Init, run) && var s := After(Init, run);
            5 in s.removed && 5 !in s.tab.callbacks && !IsCalling(s, 5)
            && Enabled(s, Enter) && IsCalling(Apply(s, Enter), 5)
  {
    EarlyReturn(TESTED);
    var tail := [RemoveStart(0, 5)] + ([SpuriousWake(0)] + ([RemoveEnd(0)] + []));
    run := TestedLeads(tail, After(TESTED, tail));
  }
}
