/** Shutting the pool down loses no job, runs none twice and leaves the queue empty. */
module ThrPoolTheorems {
  import opened ThrPool

  lemma QueueStep(s: Pool, a: Step)
    requires QueueInv(s) && Enabled(s, a)
    ensures QueueInv(Apply(s, a))
  {
    if a.AddJob? {
      assert s.pills == 0;
    }
  }

  lemma TakenStep(s: Pool, a: Step)
    requires QueueInv(s) && TakenInv(s) && Enabled(s, a)
    ensures TakenInv(Apply(s, a))
  {
    if a.Take? {
      assert s.q[0] == if s.taken < |s.accepted| then Job(s.accepted[s.taken]) else Pill;
      if s.q[0].Pill? {
        assert s.started == s.accepted;
      }
    } else if a.AddJob? {
      assert s.exited == {};
    }
  }

  lemma StartKeepsBusy(s: Pool, s': Pool, w: nat)
    requires BusyInv(s) && w < s.n && w !in s.running && w !in s.exited
    requires s'.n == s.n && s'.exited == s.exited && s'.ended == s.ended
    requires |s'.started| == |s.started| + 1 && s'.running == s.running[w := |s.started|]
    ensures BusyInv(s')
  {
    assert s'.running[w] == |s.started|;
    forall i: nat | IsRunning(s, i) ensures IsRunning(s', i) {
      var v :| v in s.running && s.running[v] == i;
      assert s'.running[v] == i;
    }
  }

  lemma EndKeepsBusy(s: Pool, s': Pool, w: nat)
    requires BusyInv(s) && w in s.running
    requires s'.n == s.n && s'.exited == s.exited && s'.started == s.started
    requires s'.running == s.running - {w} && s'.ended == s.ended + {s.running[w]}
    ensures BusyInv(s')
  {
    forall i: nat | IsRunning(s, i) ensures IsRunning(s', i) || i == s.running[w] {
      var v :| v in s.running && s.running[v] == i;
      assert v in s'.running || v == w;
    }
  }

  lemma BusyFrame(s: Pool, s': Pool)
    requires BusyInv(s) && s'.n == s.n && s'.started == s.started && s'.running == s.running && s'.ended == s.ended
    requires forall w :: w in s.running ==> w !in s'.exited
    ensures BusyInv(s')
  {
    forall i: nat | IsRunning(s, i) ensures IsRunning(s', i) {
      var v :| v in s.running && s.running[v] == i;
      assert v in s'.running;
    }
  }

  lemma BusyStep(s: Pool, a: Step)
    requires BusyInv(s) && Enabled(s, a)
    ensures BusyInv(Apply(s, a))
  {
    var s' := Apply(s, a);
    if a.Take? && s.q[0].Job? {
      StartKeepsBusy(s, s', a.w);
    } else if a.EndJob? {
      EndKeepsBusy(s, s', a.w);
    } else {
      BusyFrame(s, s');
    }
  }

  lemma {:induction false} RunKeepsInv(s: Pool, run: seq<Step>)
    requires Inv(s) && Legal(s, run)
    ensures Inv(After(s, run)) && After(s, run).n == s.n
    decreases |run|
  {
    if run != [] {
      QueueStep(s, run[0]);
      TakenStep(s, run[0]);
      BusyStep(s, run[0]);
      RunKeepsInv(Apply(s, run[0]), run[1..]);
    }
  }

  lemma {:induction false} FullSubset(a: set<nat>, b: set<nat>)
    requires a <= b && |a| == |b|
    ensures a == b
  {
    if a != {} {
      var x :| x in a;
      FullSubset(a - {x}, b - {x});
    }
  }

  // ----- what each step does -----

  /** A job is refused exactly if 100 entries per worker are queued; otherwise it joins the accepted ones. */
  lemma AddAcceptsIff(s: Pool, job: nat)
    requires Enabled(s, AddJob(job))
    ensures Apply(s, AddJob(job)) ==
            if s.n > 0 && |s.q| >= 100 * s.n then s
            else s.(accepted := s.accepted + [job], q := s.q + [Job(job)])
  {
  }

  /** An idle worker takes the oldest accepted job that was not started; when there is none it exits. */
  lemma TakeServesNext(s: Pool, w: nat)
    requires Inv(s) && Enabled(s, Take(w))
    ensures var s' := Apply(s, Take(w));
            && s'.taken == s.taken + 1 && s'.accepted == s.accepted && s'.ended == s.ended
            && if |s.started| < |s.accepted| then
                 && s'.started == s.started + [s.accepted[|s.started|]] && s'.exited == s.exited
                 && s'.running == s.running[w := |s.started|]
               else
                 s'.exited == s.exited + {w} && s'.started == s.started && s'.running == s.running
  {
    assert s.q[0] == if s.taken < |s.accepted| then Job(s.accepted[s.taken]) else Pill;
  }

  /** The destructor sends one pill per worker, and can always send the next one when the queue is empty. */
  lemma PillsGoOut(s: Pool)
    requires Inv(s) && s.stopping && s.pills < s.n && s.q == []
    ensures Enabled(s, SendPill) && Apply(s, SendPill).pills == s.pills + 1 && Apply(s, SendPill).q == [Pill]
  {
  }

  /** The worker is idle again and its job has ended. */
  lemma EndFrees(s: Pool, w: nat)
    requires Inv(s) && Enabled(s, EndJob(w))
    ensures var s' := Apply(s, EndJob(w));
            w !in s'.running && s'.ended == s.ended + {s.running[w]} && !IsRunning(s', s.running[w])
  {
  }

  // ----- shutting down is always possible -----

  /** Some continuation of a stopping pool lets every worker exit. */
  ghost predicate CanFinish(s: Pool, more: seq<Step>) {
    Legal(s, more) && AllExited(After(s, more))
  }

  lemma Before(s: Pool, step: Step, more: seq<Step>)
    requires Enabled(s, step) && CanFinish(Apply(s, step), more)
    ensures CanFinish(s, [step] + more)
  {
    assert ([step] + more)[1..] == more;
  }

  lemma StepKeepsInv(s: Pool, step: Step)
    requires Inv(s) && Enabled(s, step)
    ensures Inv(Apply(s, step)) && Apply(s, step).n == s.n
  {
    QueueStep(s, step);
    TakenStep(s, step);
    BusyStep(s, step);
  }

  /** What is left to be done: pills to send, entries to take, and jobs to end. */
  ghost function Work(s: Pool): int {
    3 * (s.n - s.pills) + 2 * |s.q| + |s.running|
  }

  /** A worker that has neither exited nor is busy, if some worker has not exited and none is busy. */
  lemma IdleWorker(s: Pool) returns (w: nat)
    requires Inv(s) && !AllExited(s) && s.running == map[]
    ensures w < s.n && w !in s.exited && w !in s.running
  {
    assert Workers(s.n) - s.exited != {};
    w :| w in Workers(s.n) - s.exited;
  }

  lemma NextStep(s: Pool) returns (step: Step)
    requires Inv(s) && s.stopping && !AllExited(s)
    ensures Enabled(s, step) && Apply(s, step).stopping && 0 <= Work(Apply(s, step)) < Work(s)
  {
    if s.running != map[] {
      var w :| w in s.running;
      step := EndJob(w);
      assert |s.running - {w}| == |s.running| - 1 by {
        assert (s.running - {w}).Keys == s.running.Keys - {w};
      }
    } else if s.q != [] {
      var w := IdleWorker(s);
      step := Take(w);
      assert |s.running[w := |s.started|]| <= |s.running| + 1 by {
        assert s.running[w := |s.started|].Keys == s.running.Keys + {w};
      }
    } else {
      if s.pills == s.n {
        FullSubset(s.exited, Workers(s.n));
        assert false;
      }
      step := SendPill;
    }
  }

  /** A destructor that has begun is never stuck: the workers can always finish the jobs and exit. */
  lemma {:induction false} ShutdownCanFinish(s: Pool) returns (more: seq<Step>)
    requires Inv(s) && s.stopping
    ensures CanFinish(s, more)
    decreases Work(s)
  {
    if AllExited(s) {
      more := [];
    } else {
      var step := NextStep(s);
      StepKeepsInv(s, step);
      more := ShutdownCanFinish(Apply(s, step));
      Before(s, step, more);
      more := [step] + more;
    }
  }

  // ----- main results -----

  /** In every run: the queue keeps to its limit, and jobs start in the order in which they were accepted. */
  lemma OrderAndBound(n: nat, run: seq<Step>)
    requires Legal(Init(n), run)
    ensures var s := After(Init(n), run);
            s.started <= s.accepted && (n > 0 ==> |s.q| <= Capacity(n))
  {
    RunKeepsInv(Init(n), run);
  }

  /**
   When all workers of a pool have exited, every accepted job was started exactly once, in order,
   and has ended; the queue is empty; and each worker took exactly one pill.
   */
  lemma ShutdownIsComplete(n: nat, run: seq<Step>)
    requires n > 0 && Legal(Init(n), run) && AllExited(After(Init(n), run))
    ensures Completed(After(Init(n), run))
  {
    RunKeepsInv(Init(n), run);
    var s := After(Init(n), run);
    assert forall i: nat :: !IsRunning(s, i);
  }

  ghost predicate Completed(s: Pool) {
    && s.started == s.accepted && s.running == map[]
    && (forall i: nat :: i in s.ended <==> i < |s.accepted|)
    && s.q == [] && s.pills == s.n && s.taken == |s.accepted| + s.n
  }

  /** And conversely: once all pills are out and the queue is empty, no worker is left behind. */
  lemma EmptyQueueMeansExited(n: nat, run: seq<Step>)
    requires Legal(Init(n), run)
    requires var s := After(Init(n), run); s.stopping && s.pills == n && s.q == []
    ensures AllExited(After(Init(n), run))
  {
    RunKeepsInv(Init(n), run);
    var s := After(Init(n), run);
    FullSubset(s.exited, Workers(n));
  }

  /** A pool without workers is the one exception: it accepts jobs that nobody runs. */
  lemma CompleteIffWorkers(n: nat)
    ensures (forall run :: Legal(Init(n), run) && AllExited(After(Init(n), run)) ==> Completed(After(Init(n), run)))
            <==> n > 0
  {
    if n > 0 {
      forall run | Legal(Init(n), run) && AllExited(After(Init(n), run)) ensures Completed(After(Init(n), run)) {
        ShutdownIsComplete(n, run);
      }
    } else {
      var run := [AddJob(7)];
      assert Legal(Init(0), run) by {
        assert Enabled(Init(0), run[0]) && run[1..] == [];
      }
      assert After(Init(0), run).q == [Job(7)] by {
        assert run[1..] == [];
      }
    }
  }
}
