/** Mutual exclusion, waiting and cache coherence, over every run of the lock protocol. */
module LockTheorems {
  import opened Basics
  import opened Extents
  import opened LockProtocol
  import opened LockSystem
  import opened LockProofs

  lemma ReachableInv(store: Stored, steps: seq<Step>)
    requires StoreOk(store) && Legal(Init(store), steps) && TimelyGiveBacks(Init(store), steps)
    ensures Inv(After(Init(store), steps))
  {
    InitInv(store);
    RunKeepsInv(Init(store), steps);
  }

  // ----- mutual exclusion -----

  /** At most one thread over all clients holds the lock. */
  ghost predicate OneHolder(s: State) {
    forall a, b :: PcOf(s, a).Holding? && PcOf(s, b).Holding? ==> a == b
  }

  /** The client that possesses the lock is exactly the one the server has on record. */
  ghost predicate OwnerIsExact(s: State) {
    forall c :: Possesses(s, c) <==> c != "" && c == s.server.owner
  }

  /**
   In every reachable state at most one thread over all clients holds the lock, at most one
   client possesses it (FREE, LOCKED, RELEASING, a grant under way or a hand-back under way),
   and that client is exactly the one the server has on record.
   */
  lemma MutualExclusion(store: Stored, steps: seq<Step>)
    requires StoreOk(store) && Legal(Init(store), steps) && TimelyGiveBacks(Init(store), steps)
    ensures OneHolder(After(Init(store), steps))
    ensures OwnerIsExact(After(Init(store), steps))
  {
    ReachableInv(store, steps);
    ExclusionIsMutual(After(Init(store), steps));
  }

  lemma ExclusionIsMutual(s: State)
    requires Exclusion(s)
    ensures OneHolder(s) && OwnerIsExact(s)
  {
    forall a, b | PcOf(s, a).Holding? && PcOf(s, b).Holding? ensures a == b {
      assert Owns(StatusOf(s, a.client)) && Owns(StatusOf(s, b.client));
    }
    forall c ensures Possesses(s, c) ==> c != "" && c == s.server.owner {
      if Possesses(s, c) {
        if Owns(StatusOf(s, c)) {
          assert StatusOf(s, "").NONE?;
        } else {
          var a: Agent :| a.client == c && (PcOf(s, a).Granted? || HandingBack(PcOf(s, a)));
          assert !PcOf(s, a).Idle?;
        }
      }
    }
  }

  ghost predicate NoHolder(s: State) {
    forall b :: !PcOf(s, b).Holding?
  }

  /** A release that reaches the server comes from the recorded owner, and nobody holds the lock. */
  ghost predicate ReleasesAreSafe(s: State) {
    forall a :: PcOf(s, a).Releasing? ==> s.server.owner == a.client && NoHolder(s)
  }

  /** A retry that reaches a client finds it ACQUIRING, and nobody holds the lock. */
  ghost predicate RetriesAreSafe(s: State) {
    s.retrying.Some? && MutexFree(s, s.retrying.value) ==>
      && StatusOf(s, s.retrying.value).ACQUIRING? && s.retrying.value in s.cv
      && s.server.owner == "" && NoHolder(s)
  }

  lemma ExclusionMakesReleasesSafe(s: State)
    requires Exclusion(s)
    ensures ReleasesAreSafe(s)
  {
    forall a | PcOf(s, a).Releasing? ensures s.server.owner == a.client && NoHolder(s) {
      assert HandingBack(PcOf(s, a));
      forall b ensures !PcOf(s, b).Holding? {
        assert PcOf(s, b).Holding? ==> Owns(StatusOf(s, b.client));
      }
    }
  }

  lemma QueueMakesRetriesSafe(s: State)
    requires Exclusion(s) && QueueOk(s)
    ensures RetriesAreSafe(s)
  {
    if s.retrying.Some? && MutexFree(s, s.retrying.value) {
      RetryFindsAcquiring(s);
      NobodyPossesses(s);
      forall b ensures !PcOf(s, b).Holding? {
        assert PcOf(s, b).Holding? ==> Owns(StatusOf(s, b.client));
      }
    }
  }

  /**
   The two writes that check nothing, clearing the owner at the server and writing NONE on a
   retry, never discard a lock that somebody holds.
   */
  lemma UncheckedWritesAreSafe(store: Stored, steps: seq<Step>)
    requires StoreOk(store) && Legal(Init(store), steps) && TimelyGiveBacks(Init(store), steps)
    ensures ReleasesAreSafe(After(Init(store), steps))
    ensures RetriesAreSafe(After(Init(store), steps))
  {
    ReachableInv(store, steps);
    ExclusionMakesReleasesSafe(After(Init(store), steps));
    QueueMakesRetriesSafe(After(Init(store), steps));
  }

  // ----- waiting -----

  /** How often a client occurs in the waiting list. */
  ghost function Occurrences(q: seq<ClientId>, c: ClientId): nat {
    multiset(q)[c]
  }

  lemma {:induction false} ListedOnce(q: seq<ClientId>, c: ClientId)
    requires NoDuplicates(q)
    ensures Occurrences(q, c) == if c in q then 1 else 0
  {
    if q != [] {
      var q', last := q[..|q| - 1], q[|q| - 1];
      assert q == q' + [last];
      ListedOnce(q', c);
      assert last !in q';
    }
  }

  /** A client that is ACQUIRING is in the list exactly once, or it is the target of the retry under way. */
  ghost predicate WaitersListed(s: State) {
    && (forall c :: StatusOf(s, c).ACQUIRING? ==>
          Occurrences(s.server.waiting, c) == if s.retrying == Some(c) then 0 else 1)
    && (forall c :: Occurrences(s.server.waiting, c) <= 1)
  }

  /** A thread asleep would go to sleep again if it looked now: no wake-up has been missed. */
  ghost predicate NoMissedWakeup(s: State) {
    forall a :: PcOf(s, a).Sleeping? ==> AcquireLook(StatusOf(s, a.client)).Sleep?
  }

  /**
   If the list is non-empty while nobody owns the lock, then a retry is under way, or some
   client has been told to retry and has a thread that asks again.
   */
  ghost predicate SomebodyWillAsk(s: State) {
    s.server.owner == "" && s.server.waiting != [] && s.retrying.None? ==>
      exists a: Agent ::
        a.client in s.retried && StatusOf(s, a.client).NONE? && (PcOf(s, a).Trying? || PcOf(s, a).Asking?)
  }

  lemma QueueListsWaiters(s: State)
    requires QueueOk(s)
    ensures WaitersListed(s)
  {
    forall c ensures Occurrences(s.server.waiting, c) == if c in s.server.waiting then 1 else 0 {
      ListedOnce(s.server.waiting, c);
    }
    forall c | StatusOf(s, c).ACQUIRING?
      ensures Occurrences(s.server.waiting, c) == if s.retrying == Some(c) then 0 else 1
    {
      assert Enqueued(s, c);
    }
  }

  lemma SleepersMissNothing(s: State)
    requires SleepersOk(s)
    ensures NoMissedWakeup(s)
  {
  }

  lemma RetriedWillAsk(s: State)
    requires RetriesOk(s)
    ensures SomebodyWillAsk(s)
  {
    if s.server.owner == "" && s.server.waiting != [] && s.retrying.None? {
      var c :| c in s.retried;
      var a: Agent :| a.client == c && (PcOf(s, a).Trying? || PcOf(s, a).Asking?);
    }
  }

  /** No waiter is lost, in any reachable state. */
  lemma NoLostWaiter(store: Stored, steps: seq<Step>)
    requires StoreOk(store) && Legal(Init(store), steps) && TimelyGiveBacks(Init(store), steps)
    ensures WaitersListed(After(Init(store), steps))
    ensures NoMissedWakeup(After(Init(store), steps))
    ensures SomebodyWillAsk(After(Init(store), steps))
  {
    ReachableInv(store, steps);
    QueueListsWaiters(After(Init(store), steps));
    SleepersMissNothing(After(Init(store), steps));
    RetriedWillAsk(After(Init(store), steps));
  }

  // ----- coherence -----

  /** The content of the last put in a run, or what the store held at first. */
  function LastPut(first: Option<Bytes>, steps: seq<Step>): Option<Bytes> {
    if steps == [] then first
    else if steps[|steps| - 1].Write? then Some(steps[|steps| - 1].buf)
    else LastPut(first, steps[..|steps| - 1])
  }

  lemma {:induction false} LatestIsLastPut(s: State, steps: seq<Step>)
    requires Legal(s, steps)
    ensures After(s, steps).latest == LastPut(s.latest, steps)
    decreases |steps|
  {
    if steps != [] {
      var s' := Apply(s, steps[0]);
      LatestIsLastPut(s', steps[1..]);
      LastPutAfterFirst(s.latest, steps);
      assert s'.latest == if steps[0].Write? then Some(steps[0].buf) else s.latest;
    }
  }

  lemma {:induction false} LastPutAfterFirst(first: Option<Bytes>, steps: seq<Step>)
    requires steps != []
    ensures LastPut(first, steps) ==
            LastPut(if steps[0].Write? then Some(steps[0].buf) else first, steps[1..])
    decreases |steps|
  {
    if |steps| > 1 && !steps[|steps| - 1].Write? {
      LastPutAfterFirst(first, steps[..|steps| - 1]);
      assert steps[..|steps| - 1][1..] == steps[1..][..|steps[1..]| - 1];
    }
  }

  /**
   Cache coherence: whichever thread of whichever client holds the lock, its get returns the
   content of the latest put that any client made under the lock, and its getattr reports the
   size of that content.
   */
  lemma Coherence(store: Stored, steps: seq<Step>, a: Agent, now: nat)
    requires StoreOk(store) && Legal(Init(store), steps) && TimelyGiveBacks(Init(store), steps)
    requires PcOf(After(Init(store), steps), a).Holding?
    ensures var s, latest := After(Init(store), steps), LastPut(store.content, steps);
            && CacheGet(CacheOf(s, a.client), s.store, now).0 == latest
            && CacheGetAttr(CacheOf(s, a.client), s.store).0.Some? == latest.Some?
            && (latest.Some? ==> CacheGetAttr(CacheOf(s, a.client), s.store).0.value.size == Size(latest.value))
  {
    var s := After(Init(store), steps);
    ReachableInv(store, steps);
    LatestIsLastPut(Init(store), steps);
    assert Owns(StatusOf(s, a.client)) && s.server.owner == a.client;
  }

  /** Whenever nobody possesses the lock, the server alone holds the latest put. */
  lemma UnownedMeansStored(store: Stored, steps: seq<Step>)
    requires StoreOk(store) && Legal(Init(store), steps) && TimelyGiveBacks(Init(store), steps)
    requires After(Init(store), steps).server.owner == ""
    ensures After(Init(store), steps).store.content == LastPut(store.content, steps)
    ensures forall c :: CacheOf(After(Init(store), steps), c) == NOT_CACHED
  {
    var s := After(Init(store), steps);
    ReachableInv(store, steps);
    LatestIsLastPut(Init(store), steps);
    GrantData(s, s, Agent("", 0));
    NobodyPossesses(s);
    forall c ensures CacheOf(s, c) == NOT_CACHED {
      assert !MayCache(s, c);
    }
  }

  // ----- give_back: exactly when its unchecked write is safe -----

  /** What the lock promises: exclusion, an exact record of the owner, and writes that discard no held lock. */
  ghost predicate Works(s: State) {
    OneHolder(s) && OwnerIsExact(s) && ReleasesAreSafe(s) && RetriesAreSafe(s)
  }

  /** And goes on promising, as long as later give-backs are timely. */
  ghost predicate KeepsWorking(s: State) {
    forall more :: Legal(s, more) && TimelyGiveBacks(s, more) ==> Works(After(s, more))
  }

  lemma InvKeepsWorking(s: State)
    requires Inv(s)
    ensures KeepsWorking(s)
  {
    forall more | Legal(s, more) && TimelyGiveBacks(s, more) ensures Works(After(s, more)) {
      RunKeepsInv(s, more);
      ExclusionIsMutual(After(s, more));
      ExclusionMakesReleasesSafe(After(s, more));
      QueueMakesRetriesSafe(After(s, more));
    }
  }

  /** Somebody else of the same client is handing the lock back, so two releases are under way. */
  lemma OtherHandBack(s: State, a: Agent) returns (b: Agent)
    requires Inv(s) && Enabled(s, GiveBack(a)) && !Owns(StatusOf(s, a.client)) && s.server.owner == a.client
    ensures b.client == a.client && b != a && HandingBack(PcOf(s, b)) && s.retrying.None?
  {
    assert a.client != "" && Possesses(s, a.client);
    b :| b.client == a.client && (PcOf(s, b).Granted? || HandingBack(PcOf(s, b)));
    assert !InRpc(PcOf(s, b));
  }

  /** The state after the stale write and the flush that follows it. */
  ghost function Flushed(s: State, a: Agent): State
    requires Enabled(s, GiveBack(a))
  {
    ApplyDoRelease(Move(SetStatus(s, a.client, NONE), a, Flushing), a, 0)
  }

  lemma FlushLeads(s: State, a: Agent)
    requires Enabled(s, GiveBack(a))
    ensures Leads(Apply(s, GiveBack(a)), [] + [DoRelease(a, 0)], Flushed(s, a))
  {
    var s' := Apply(s, GiveBack(a));
    Then(s', [], s', DoRelease(a, 0), Flushed(s, a));
  }

  /** If the other one is still flushing, it flushes too. */
  lemma OtherFlushLeads(s: State, a: Agent, b: Agent) returns (more: seq<Step>, s1: State)
    requires Enabled(s, GiveBack(a)) && b != a && HandingBack(PcOf(s, b))
    ensures Leads(Apply(s, GiveBack(a)), more, s1) && NoGiveBacks(more)
    ensures PcOf(s1, a).Releasing? && PcOf(s1, b).Releasing? && s1.server == s.server && s1.retrying == s.retrying
  {
    FlushLeads(s, a);
    more, s1 := [] + [DoRelease(a, 0)], Flushed(s, a);
    if PcOf(s, b).Flushing? {
      Then(Apply(s, GiveBack(a)), more, s1, DoRelease(b, 0), ApplyDoRelease(s1, b, 0));
      more, s1 := more + [DoRelease(b, 0)], ApplyDoRelease(s1, b, 0);
    }
  }

  ghost predicate NoGiveBacks(steps: seq<Step>) {
    forall i :: 0 <= i < |steps| ==> !steps[i].GiveBack?
  }

  lemma {:induction false} NoGiveBacksIsTimely(s: State, steps: seq<Step>)
    requires Legal(s, steps) && NoGiveBacks(steps)
    ensures TimelyGiveBacks(s, steps)
    decreases |steps|
  {
    if steps != [] {
      NoGiveBacksIsTimely(Apply(s, steps[0]), steps[1..]);
    }
  }

  /**
   A give-back that writes NONE over anything but FREE leads, without any further give-back, to a
   release under way that the server must not obey: somebody holds the lock, or the client that
   releases is not its owner.
   */
  lemma StaleGiveBackFails(s: State, a: Agent) returns (more: seq<Step>)
    requires Inv(s) && Enabled(s, GiveBack(a)) && !StatusOf(s, a.client).FREE?
    ensures Legal(Apply(s, GiveBack(a)), more) && NoGiveBacks(more)
    ensures !ReleasesAreSafe(After(Apply(s, GiveBack(a)), more))
  {
    var s' := Apply(s, GiveBack(a));
    if Owns(StatusOf(s, a.client)) {
      FlushLeads(s, a);
      more := [] + [DoRelease(a, 0)];
      var b: Agent :| b.client == a.client && PcOf(s, b).Holding?;
      assert PcOf(Flushed(s, a), b).Holding? && PcOf(Flushed(s, a), a).Releasing?;
    } else if s.server.owner != a.client {
      FlushLeads(s, a);
      more := [] + [DoRelease(a, 0)];
      assert PcOf(Flushed(s, a), a).Releasing?;
    } else {
      var b := OtherHandBack(s, a);
      var s1;
      more, s1 := OtherFlushLeads(s, a, b);
      Then(s', more, s1, ReleaseServer(b), ApplyReleaseServer(s1, b));
      more := more + [ReleaseServer(b)];
      assert PcOf(ApplyReleaseServer(s1, b), a).Releasing? && a.client != "";
    }
  }

  /** The write of `give_back` leaves a lock that keeps working if and only if it finds the lock FREE. */
  lemma GiveBackSafeIff(s: State, a: Agent)
    requires Inv(s) && Enabled(s, GiveBack(a))
    ensures KeepsWorking(Apply(s, GiveBack(a))) <==> StatusOf(s, a.client).FREE?
  {
    if StatusOf(s, a.client).FREE? {
      GiveBackKeepsInv(s, a);
      InvKeepsWorking(Apply(s, GiveBack(a)));
    } else {
      var more := StaleGiveBackFails(s, a);
      NoGiveBacksIsTimely(Apply(s, GiveBack(a)), more);
    }
  }

  /** At every moment of the run the lock works and keeps working. */
  ghost predicate AlwaysWorks(s: State, steps: seq<Step>)
    requires Legal(s, steps)
    decreases |steps|
  {
    KeepsWorking(s) && (steps != [] ==> AlwaysWorks(Apply(s, steps[0]), steps[1..]))
  }

  lemma WorksNow(s: State, steps: seq<Step>)
    requires Legal(s, steps)
    ensures AlwaysWorks(s, steps) ==> KeepsWorking(s)
  {
  }

  /** The lock keeps working throughout a run if and only if each write of `give_back` finds it FREE. */
  lemma {:induction false} WorksIffTimely(s: State, steps: seq<Step>)
    requires Inv(s) && Legal(s, steps)
    ensures AlwaysWorks(s, steps) <==> TimelyGiveBacks(s, steps)
    decreases |steps|
  {
    InvKeepsWorking(s);
    if steps != [] {
      if steps[0].GiveBack? {
        GiveBackSafeIff(s, steps[0].a);
      }
      if steps[0].GiveBack? ==> StatusOf(s, steps[0].a.client).FREE? {
        StepKeepsInv(s, steps[0]);
        WorksIffTimely(Apply(s, steps[0]), steps[1..]);
      } else {
        WorksNow(Apply(s, steps[0]), steps[1..]);
      }
    }
  }

  // ----- and that it can fail -----

  ghost predicate Leads(s: State, steps: seq<Step>, s': State) {
    Legal(s, steps) && After(s, steps) == s'
  }

  lemma {:induction false} Then(s: State, steps: seq<Step>, s': State, step: Step, s'': State)
    requires Leads(s, steps, s') && Enabled(s', step) && Apply(s', step) == s''
    ensures Leads(s, steps + [step], s'')
    decreases |steps|
  {
    if steps == [] {
      assert [step][1..] == [] && [] + [step] == [step];
      assert After(Apply(s, step), []) == Apply(s, step);
    } else {
      Then(Apply(s, steps[0]), steps[1..], s', step, s'');
      assert (steps + [step])[1..] == steps[1..] + [step];
    }
  }

  const A0 := Agent("a", 0)
  const A1 := Agent("a", 1)
  const B1 := Agent("b", 1)

  const EMPTY := Stored(None, None)

  /** Client "a" alone knows the lock. */
  function Alone(pc: map<Agent, Pc>, status: LockStatus, owner: ClientId): State {
    Init(EMPTY).(pc := pc, status := map["a" := status], cv := {"a"}, server := ServerLock(owner, []))
  }

  /** Client "b" knows it too, and "a" has flushed. */
  function Both(pc: Pc, status: LockStatus, owner: ClientId): State {
    Init(EMPTY).(pc := map[A1 := Holding, A0 := Idle, B1 := pc], status := map["a" := NONE, "b" := status],
                 cv := {"a", "b"}, server := ServerLock(owner, []), cache := map["a" := NOT_CACHED])
  }

  /** "a" has released the lock at the server although thread 1 holds it. */
  function Released(pc: map<Agent, Pc>, owner: ClientId): State {
    Alone(pc, NONE, owner).(cache := map["a" := NOT_CACHED])
  }

  /** Thread 1 of client "a" asks for the lock, */
  lemma FirstAsk() returns (steps: seq<Step>)
    ensures Leads(Init(EMPTY), steps, Alone(map[A1 := Asking], NONE, ""))
  {
    var s1 := Init(EMPTY).(pc := map[A1 := Trying]);
    Then(Init(EMPTY), [], Init(EMPTY), CallAcquire(A1), s1);
    steps := [] + [CallAcquire(A1)];
    Then(Init(EMPTY), steps, s1, Turn(A1), Alone(map[A1 := Asking], NONE, ""));
    steps := steps + [Turn(A1)];
  }

  /** gets it, and releases it to its own client. */
  lemma FirstUse(before: seq<Step>) returns (steps: seq<Step>)
    requires Leads(Init(EMPTY), before, Alone(map[A1 := Asking], NONE, ""))
    ensures Leads(Init(EMPTY), steps, Alone(map[A1 := Idle], FREE, "a"))
  {
    var s1 := Alone(map[A1 := Granted], NONE, "a");
    Then(Init(EMPTY), before, Alone(map[A1 := Asking], NONE, ""), AskServer(A1), s1);
    steps := before + [AskServer(A1)];
    var s2 := Alone(map[A1 := Holding], LOCKED, "a");
    Then(Init(EMPTY), steps, s1, TakeGrant(A1), s2);
    steps := steps + [TakeGrant(A1)];
    Then(Init(EMPTY), steps, s2, CallRelease(A1), Alone(map[A1 := Idle], FREE, "a"));
    steps := steps + [CallRelease(A1)];
  }

  /** `give_back` sees the lock FREE, but thread 1 takes it again */
  lemma TestThenTake(before: seq<Step>) returns (steps: seq<Step>)
    requires Leads(Init(EMPTY), before, Alone(map[A1 := Idle], FREE, "a"))
    ensures Leads(Init(EMPTY), steps, Alone(map[A1 := Holding, A0 := Tested], LOCKED, "a"))
  {
    var s1 := Alone(map[A1 := Idle, A0 := Tested], FREE, "a");
    Then(Init(EMPTY), before, Alone(map[A1 := Idle], FREE, "a"), TestFree(A0), s1);
    steps := before + [TestFree(A0)];
    var s2 := Alone(map[A1 := Trying, A0 := Tested], FREE, "a");
    Then(Init(EMPTY), steps, s1, CallAcquire(A1), s2);
    steps := steps + [CallAcquire(A1)];
    Then(Init(EMPTY), steps, s2, Turn(A1), Alone(map[A1 := Holding, A0 := Tested], LOCKED, "a"));
    steps := steps + [Turn(A1)];
  }

  /** before `give_back` writes NONE, flushes, and releases the lock at the server. */
  lemma StaleGiveBack(before: seq<Step>) returns (steps: seq<Step>)
    requires Leads(Init(EMPTY), before, Alone(map[A1 := Holding, A0 := Tested], LOCKED, "a"))
    ensures Leads(Init(EMPTY), steps, Released(map[A1 := Holding, A0 := Idle], ""))
  {
    var s1 := Alone(map[A1 := Holding, A0 := Flushing], NONE, "a");
    Then(Init(EMPTY), before, Alone(map[A1 := Holding, A0 := Tested], LOCKED, "a"), GiveBack(A0), s1);
    steps := before + [GiveBack(A0)];
    var s2 := Released(map[A1 := Holding, A0 := Releasing], "a");
    Then(Init(EMPTY), steps, s1, DoRelease(A0, 0), s2);
    steps := steps + [DoRelease(A0, 0)];
    Then(Init(EMPTY), steps, s2, ReleaseServer(A0), Released(map[A1 := Holding, A0 := Idle], ""));
    steps := steps + [ReleaseServer(A0)];
  }

  /** Thread 1 still holds the lock when client "b" wants it, */
  lemma SecondCall(before: seq<Step>) returns (steps: seq<Step>)
    requires Leads(Init(EMPTY), before, Released(map[A1 := Holding, A0 := Idle], ""))
    ensures Leads(Init(EMPTY), steps, Released(map[A1 := Holding, A0 := Idle, B1 := Trying], ""))
  {
    steps := before + [CallAcquire(B1)];
    Then(Init(EMPTY), before, Released(map[A1 := Holding, A0 := Idle], ""), CallAcquire(B1),
         Released(map[A1 := Holding, A0 := Idle, B1 := Trying], ""));
  }

  /** asks for it, */
  lemma SecondAsk(before: seq<Step>) returns (steps: seq<Step>)
    requires Leads(Init(EMPTY), before, Released(map[A1 := Holding, A0 := Idle, B1 := Trying], ""))
    ensures Leads(Init(EMPTY), steps, Both(Asking, NONE, ""))
  {
    var s := Released(map[A1 := Holding, A0 := Idle, B1 := Trying], "");
    steps := before + [Turn(B1)];
    assert MutexFree(s, "b");
    assert ApplyTurn(s, B1) == Both(Asking, NONE, "");
    Then(Init(EMPTY), before, s, Turn(B1), Both(Asking, NONE, ""));
  }

  /** and is granted it. */
  lemma SecondHolder(before: seq<Step>) returns (steps: seq<Step>)
    requires Leads(Init(EMPTY), before, Both(Asking, NONE, ""))
    ensures Leads(Init(EMPTY), steps, Both(Holding, LOCKED, "b"))
  {
    Then(Init(EMPTY), before, Both(Asking, NONE, ""), AskServer(B1), Both(Granted, NONE, "b"));
    steps := before + [AskServer(B1)];
    Then(Init(EMPTY), steps, Both(Granted, NONE, "b"), TakeGrant(B1), Both(Holding, LOCKED, "b"));
    steps := steps + [TakeGrant(B1)];
  }

  /** If `give_back` writes NONE after its test has become stale, two threads can hold the lock. */
  lemma StaleGiveBackBreaksExclusion()
    ensures exists steps, s :: Leads(Init(EMPTY), steps, s) && !OneHolder(s)
  {
    var steps := FirstAsk();
    steps := FirstUse(steps);
    steps := TestThenTake(steps);
    steps := StaleGiveBack(steps);
    steps := SecondCall(steps);
    steps := SecondAsk(steps);
    steps := SecondHolder(steps);
    var s := Both(Holding, LOCKED, "b");
    assert A1 != B1 && PcOf(s, A1).Holding? && PcOf(s, B1).Holding?;
  }
}
