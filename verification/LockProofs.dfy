/**
 The invariant of `LockSystem` holds initially and is kept by every step.

 Each part of the invariant has frame lemmas that say which changes cannot hurt it.  They
 speak about two states, the one thread that moved, and nothing else.
 */
module LockProofs {
  import opened Basics
  import opened Extents
  import opened LockProtocol
  import opened LockSystem

  /** Thread `a` moves; other threads stay where they are, except that sleepers may be woken. */
  ghost predicate Moves(s: State, s': State, a: Agent) {
    forall b :: b != a ==>
      PcOf(s', b) == PcOf(s, b) || (PcOf(s, b).Sleeping? && PcOf(s', b).Trying?)
  }

  ghost predicate StatusElsewhere(s: State, s': State, c: ClientId) {
    forall d :: d != c ==> StatusOf(s', d) == StatusOf(s, d)
  }

  predicate Locked(status: LockStatus) {
    status.LOCKED? || status.RELEASING?
  }

  // ----- frames -----

  lemma RpcKept(s: State, s': State, a: Agent)
    requires RpcOk(s) && Moves(s, s', a)
    requires InRpc(PcOf(s', a)) ==>
               StatusOf(s', a.client).NONE? && (InRpc(PcOf(s, a)) || MutexFree(s, a.client))
    requires forall c :: StatusOf(s', c) == StatusOf(s, c) || StatusOf(s', c).NONE? || MutexFree(s', c)
    ensures RpcOk(s')
  {
    forall b | InRpc(PcOf(s', b)) ensures StatusOf(s', b.client).NONE? {
      assert StatusOf(s', b.client) == StatusOf(s, b.client) || StatusOf(s', b.client).NONE? || MutexFree(s', b.client);
      assert b != a ==> InRpc(PcOf(s, b));
    }
  }

  lemma HoldersSame(s: State, s': State, a: Agent)
    requires HoldersOk(s) && Moves(s, s', a)
    requires PcOf(s', a).Holding? == PcOf(s, a).Holding?
    requires forall c :: Locked(StatusOf(s', c)) == Locked(StatusOf(s, c))
    ensures HoldersOk(s')
  {
    forall b ensures PcOf(s', b).Holding? == PcOf(s, b).Holding? {
    }
    forall c | Locked(StatusOf(s', c)) ensures exists b: Agent :: b.client == c && PcOf(s', b).Holding? {
      assert Locked(StatusOf(s, c));
      var b: Agent :| b.client == c && PcOf(s, b).Holding?;
      assert PcOf(s', b).Holding?;
    }
  }

  lemma HolderEnters(s: State, s': State, a: Agent)
    requires HoldersOk(s) && Moves(s, s', a) && StatusElsewhere(s, s', a.client)
    requires PcOf(s', a).Holding? && StatusOf(s', a.client).LOCKED? && !Locked(StatusOf(s, a.client))
    ensures HoldersOk(s')
  {
    forall b ensures b != a ==> PcOf(s', b).Holding? == PcOf(s, b).Holding? {
    }
    forall c | Locked(StatusOf(s', c)) ensures exists b: Agent :: b.client == c && PcOf(s', b).Holding? {
      if c == a.client {
        assert PcOf(s', a).Holding?;
      } else {
        assert Locked(StatusOf(s, c));
        var b: Agent :| b.client == c && PcOf(s, b).Holding?;
        assert PcOf(s', b).Holding?;
      }
    }
  }

  lemma HolderLeaves(s: State, s': State, a: Agent)
    requires HoldersOk(s) && Moves(s, s', a) && StatusElsewhere(s, s', a.client)
    requires PcOf(s, a).Holding? && !PcOf(s', a).Holding? && !Locked(StatusOf(s', a.client))
    ensures HoldersOk(s')
  {
    forall b ensures b != a ==> PcOf(s', b).Holding? == PcOf(s, b).Holding? {
    }
    forall c | Locked(StatusOf(s', c)) ensures exists b: Agent :: b.client == c && PcOf(s', b).Holding? {
      assert Locked(StatusOf(s, c));
      var b: Agent :| b.client == c && PcOf(s, b).Holding?;
      assert PcOf(s', b).Holding?;
    }
  }

  /** No thread starts handing back, and the threads that do so are not disturbed. */
  lemma HandBacksKept(s: State, s': State, a: Agent)
    requires HandBacksOk(s) && Moves(s, s', a)
    requires HandingBack(PcOf(s', a)) ==> HandingBack(PcOf(s, a))
    requires PcOf(s', a).Granted? ==> PcOf(s, a).Granted?
    requires forall b :: HandingBack(PcOf(s', b)) ==> !Owns(StatusOf(s', b.client))
    requires s'.server.owner == s.server.owner
    ensures HandBacksOk(s')
  {
    forall b ensures HandingBack(PcOf(s', b)) ==> HandingBack(PcOf(s, b)) {
    }
    forall b, d | HandingBack(PcOf(s', b)) && PcOf(s', d).Granted? ensures b.client != d.client {
      assert HandingBack(PcOf(s, b)) && PcOf(s, d).Granted?;
    }
  }

  lemma HandBackStarts(s: State, s': State, a: Agent)
    requires RpcOk(s) && HandBacksOk(s) && Moves(s, s', a) && StatusElsewhere(s, s', a.client)
    requires Owns(StatusOf(s, a.client)) && StatusOf(s', a.client).NONE?
    requires HandingBack(PcOf(s', a))
    requires s'.server == s.server && s.server.owner == a.client
    ensures HandBacksOk(s')
  {
    forall b | HandingBack(PcOf(s', b)) ensures b == a {
      assert b != a ==> HandingBack(PcOf(s, b));
    }
    forall d | PcOf(s', d).Granted? ensures d.client != a.client {
      assert PcOf(s, d).Granted? && InRpc(PcOf(s, d));
    }
  }

  /** The owner does not change, and whoever possesses the lock still does. */
  lemma OwnerKept(s: State, s': State, a: Agent)
    requires OwnerOk(s) && Moves(s, s', a) && s'.server.owner == s.server.owner
    requires !PcOf(s', a).Idle? ==> a.client != ""
    requires PcOf(s', a).Granted? ==> PcOf(s, a).Granted?
    requires PcOf(s, a).Granted? || HandingBack(PcOf(s, a)) ==>
               PcOf(s', a).Granted? || HandingBack(PcOf(s', a)) || Owns(StatusOf(s', a.client))
    requires forall c :: Owns(StatusOf(s', c)) ==> c == s.server.owner
    requires forall c :: Owns(StatusOf(s, c)) && !Owns(StatusOf(s', c)) ==> c == a.client && HandingBack(PcOf(s', a))
    requires StatusOf(s', "").NONE?
    ensures OwnerOk(s')
  {
    forall b ensures PcOf(s', b).Granted? ==> PcOf(s, b).Granted? {
    }
    forall b | !PcOf(s', b).Idle? ensures b.client != "" {
      assert b != a ==> !PcOf(s, b).Idle?;
    }
    var c := s.server.owner;
    if c != "" && !Owns(StatusOf(s', c)) {
      if Owns(StatusOf(s, c)) {
        assert a.client == c && HandingBack(PcOf(s', a));
      } else {
        var b: Agent :| b.client == c && (PcOf(s, b).Granted? || HandingBack(PcOf(s, b)));
        assert PcOf(s', b).Granted? || HandingBack(PcOf(s', b));
      }
    }
  }

  /** The waiting list and the retry stay, and the same clients are waiting. */
  lemma QueueKept(s: State, s': State, a: Agent)
    requires QueueOk(s) && Moves(s, s', a)
    requires s'.server.waiting == s.server.waiting && s'.retrying == s.retrying && s.cv <= s'.cv
    requires s.retrying.Some? ==> s'.server.owner == s.server.owner
    requires Queued(PcOf(s', a)) == Queued(PcOf(s, a))
    requires forall c :: StatusOf(s', c).ACQUIRING? == StatusOf(s, c).ACQUIRING?
    ensures QueueOk(s')
  {
    forall b ensures Queued(PcOf(s', b)) == Queued(PcOf(s, b)) {
    }
    forall c ensures Enqueued(s', c) <==> Enqueued(s, c) {
      if exists b: Agent :: b.client == c && Queued(PcOf(s, b)) {
        var b: Agent :| b.client == c && Queued(PcOf(s, b));
        assert Queued(PcOf(s', b));
      }
    }
  }

  lemma SleepersKept(s: State, s': State, a: Agent)
    requires SleepersOk(s) && Moves(s, s', a)
    requires PcOf(s', a).Sleeping? ==> Locked(StatusOf(s', a.client)) || StatusOf(s', a.client).ACQUIRING?
    requires forall b :: b != a && PcOf(s', b).Sleeping? ==>
               Locked(StatusOf(s', b.client)) || StatusOf(s', b.client).ACQUIRING?
    requires forall c :: StatusOf(s', c).ACQUIRING? ==>
               StatusOf(s, c).ACQUIRING? || (c == a.client && PcOf(s', a).Sleeping?)
    requires StatusOf(s', a.client).ACQUIRING? && (PcOf(s, a).Sleeping? || PcOf(s, a).Trying?) ==>
               PcOf(s', a).Sleeping? || PcOf(s', a).Trying?
    ensures SleepersOk(s')
  {
    forall c | StatusOf(s', c).ACQUIRING?
      ensures exists b: Agent :: b.client == c && (PcOf(s', b).Sleeping? || PcOf(s', b).Trying?)
    {
      if c == a.client && PcOf(s', a).Sleeping? {
      } else {
        assert StatusOf(s, c).ACQUIRING?;
        var b: Agent :| b.client == c && (PcOf(s, b).Sleeping? || PcOf(s, b).Trying?);
        assert PcOf(s', b).Sleeping? || PcOf(s', b).Trying?;
      }
    }
  }

  lemma RetriesKept(s: State, s': State, a: Agent)
    requires RetriesOk(s) && Moves(s, s', a)
    requires s'.retried == s.retried
    requires s'.server.owner == "" && s'.server.waiting != [] && s'.retrying.None? ==>
               s.server.owner == "" && s.server.waiting != [] && s.retrying.None?
    requires forall c :: c in s.retried ==> StatusOf(s', c).NONE?
    requires PcOf(s', a).Granted? || Queued(PcOf(s', a)) ==> PcOf(s, a).Granted? || Queued(PcOf(s, a))
    requires a.client in s.retried && (PcOf(s, a).Trying? || PcOf(s, a).Asking?) ==>
               PcOf(s', a).Trying? || PcOf(s', a).Asking?
    ensures RetriesOk(s')
  {
    forall c | c in s'.retried
      ensures exists b: Agent :: b.client == c && (PcOf(s', b).Trying? || PcOf(s', b).Asking?)
    {
      var b: Agent :| b.client == c && (PcOf(s, b).Trying? || PcOf(s, b).Asking?);
      assert PcOf(s', b).Trying? || PcOf(s', b).Asking?;
    }
    forall b | PcOf(s', b).Granted? || Queued(PcOf(s', b)) ensures b.client !in s'.retried {
      assert PcOf(s, b).Granted? || Queued(PcOf(s, b));
    }
  }

  /** No cache, no content and no owner changes; who may cache something still may. */
  lemma DataKept(s: State, s': State, a: Agent)
    requires DataOk(s) && Moves(s, s', a)
    requires s'.cache == s.cache && s'.store == s.store && s'.latest == s.latest
    requires s'.server.owner == s.server.owner
    requires PcOf(s, a).Flushing? ==> PcOf(s', a).Flushing?
    requires forall c :: Owns(StatusOf(s, c)) && !Owns(StatusOf(s', c)) ==> c == a.client && PcOf(s', a).Flushing?
    ensures DataOk(s')
  {
    forall c ensures CacheOf(s', c) == CacheOf(s, c) && (MayCache(s, c) ==> MayCache(s', c)) {
      if MayCache(s, c) && !Owns(StatusOf(s', c)) {
        if Owns(StatusOf(s, c)) {
          assert a.client == c && PcOf(s', a).Flushing?;
        } else {
          var b: Agent :| b.client == c && PcOf(s, b).Flushing?;
          assert PcOf(s', b).Flushing?;
        }
      }
    }
  }

  // ----- steps that touch at most their own client's status -----

  /** Thread `a` moves to `pc` and leaves its client's status at `status`. */
  ghost predicate Effect(s: State, s': State, a: Agent, pc: Pc, status: LockStatus) {
    && Moves(s, s', a)
    && PcOf(s', a) == pc
    && StatusOf(s', a.client) == status
    && StatusElsewhere(s, s', a.client)
  }

  /** The thread's part in possessing the lock does not change, nor does its client's status. */
  predicate SameRole(p: Pc, p': Pc) {
    && p'.Holding? == p.Holding?
    && HandingBack(p') == HandingBack(p)
    && p'.Granted? == p.Granted?
    && !(p'.Asking? && !p.Asking?)
  }

  lemma SameRoleExclusion(s: State, s': State, a: Agent)
    requires Exclusion(s) && Effect(s, s', a, PcOf(s', a), StatusOf(s, a.client))
    requires s'.server.owner == s.server.owner && SameRole(PcOf(s, a), PcOf(s', a))
    requires InRpc(PcOf(s', a)) ==> InRpc(PcOf(s, a))
    requires a.client != ""
    ensures Exclusion(s')
  {
    assert forall c :: StatusOf(s', c) == StatusOf(s, c);
    RpcKept(s, s', a);
    HoldersSame(s, s', a);
    HandBacksKept(s, s', a);
    OwnerKept(s, s', a);
  }

  predicate SamePlace(p: Pc, p': Pc) {
    && p'.Granted? == p.Granted?
    && Queued(p') == Queued(p)
    && (p.Asking? ==> p'.Asking?)
    && !p'.Sleeping?
    && (p.Sleeping? || p.Trying? ==> p'.Trying?)
  }

  lemma SamePlaceQueues(s: State, s': State, a: Agent)
    requires Queues(s) && Effect(s, s', a, PcOf(s', a), StatusOf(s, a.client))
    requires s'.server == s.server && s'.retrying == s.retrying && s'.retried == s.retried && s'.cv == s.cv
    requires SamePlace(PcOf(s, a), PcOf(s', a))
    ensures Queues(s')
  {
    assert forall c :: StatusOf(s', c) == StatusOf(s, c);
    QueueKept(s, s', a);
    SleepersKept(s, s', a);
    RetriesKept(s, s', a);
  }

  lemma MoveEffect(s: State, a: Agent, pc: Pc)
    ensures Effect(s, Move(s, a, pc), a, pc, StatusOf(s, a.client))
  {
  }

  lemma QuietMoveKeepsInv(s: State, a: Agent, pc: Pc)
    requires Inv(s) && a.client != ""
    requires SameRole(PcOf(s, a), pc) && InRpc(pc) == InRpc(PcOf(s, a)) && SamePlace(PcOf(s, a), pc)
    requires pc.Flushing? == PcOf(s, a).Flushing?
    ensures Inv(Move(s, a, pc))
  {
    MoveEffect(s, a, pc);
    SameRoleExclusion(s, Move(s, a, pc), a);
    SamePlaceQueues(s, Move(s, a, pc), a);
    DataKept(s, Move(s, a, pc), a);
  }

  // ----- acquire -----

  /** A thread gets the lock, because its client has it FREE or because the grant arrives. */
  lemma EnterExclusion(s: State, s': State, a: Agent)
    requires Exclusion(s) && Effect(s, s', a, Holding, LOCKED)
    requires (PcOf(s, a).Trying? && MutexFree(s, a.client) && StatusOf(s, a.client).FREE?) || PcOf(s, a).Granted?
    requires s'.server.owner == s.server.owner
    ensures Exclusion(s')
  {
    assert PcOf(s, a).Granted? ==> InRpc(PcOf(s, a));
    EnterFreesMutex(s, s', a);
    RpcKept(s, s', a);
    HolderEnters(s, s', a);
    HandBacksKept(s, s', a);
    OwnerKept(s, s', a);
  }

  lemma EnterFreesMutex(s: State, s': State, a: Agent)
    requires RpcOk(s) && Moves(s, s', a) && !InRpc(PcOf(s', a))
    requires MutexFree(s, a.client) || InRpc(PcOf(s, a))
    ensures MutexFree(s', a.client)
  {
    forall b: Agent | b.client == a.client ensures !InRpc(PcOf(s', b)) {
      assert b != a ==> !InRpc(PcOf(s, b));
    }
  }

  lemma EnterQueues(s: State, s': State, a: Agent)
    requires Queues(s) && Effect(s, s', a, Holding, LOCKED)
    requires (PcOf(s, a).Trying? && StatusOf(s, a.client).FREE?) ||
             (PcOf(s, a).Granted? && StatusOf(s, a.client).NONE?)
    requires s'.server == s.server && s'.retrying == s.retrying && s'.retried == s.retried && s'.cv == s.cv
    ensures Queues(s')
  {
    QueueKept(s, s', a);
    SleepersKept(s, s', a);
    RetriesKept(s, s', a);
  }

  lemma TakeKeepsInv(s: State, a: Agent)
    requires Inv(s) && Enabled(s, Turn(a)) && StatusOf(s, a.client).FREE?
    ensures Inv(ApplyTurn(s, a))
  {
    var s' := ApplyTurn(s, a);
    assert Effect(s, s', a, Holding, LOCKED);
    EnterExclusion(s, s', a);
    EnterQueues(s, s', a);
    DataKept(s, s', a);
  }

  lemma TakeGrantKeepsInv(s: State, a: Agent)
    requires Inv(s) && Enabled(s, TakeGrant(a))
    ensures Inv(Apply(s, TakeGrant(a)))
  {
    var s' := Apply(s, TakeGrant(a));
    assert InRpc(PcOf(s, a)) && Effect(s, s', a, Holding, LOCKED);
    EnterExclusion(s, s', a);
    EnterQueues(s, s', a);
    DataKept(s, s', a);
  }

  /** `acquire` goes to sleep, or it asks the server. */
  lemma WaitOrAskExclusion(s: State, s': State, a: Agent)
    requires Exclusion(s) && PcOf(s, a).Trying? && MutexFree(s, a.client)
    requires Effect(s, s', a, PcOf(s', a), StatusOf(s, a.client))
    requires PcOf(s', a).Sleeping? || (PcOf(s', a).Asking? && StatusOf(s, a.client).NONE?)
    requires s'.server.owner == s.server.owner
    ensures Exclusion(s')
  {
    assert forall c :: StatusOf(s', c) == StatusOf(s, c);
    assert a.client != "";
    RpcKept(s, s', a);
    HoldersSame(s, s', a);
    HandBacksKept(s, s', a);
    OwnerKept(s, s', a);
  }

  lemma WaitOrAskQueues(s: State, s': State, a: Agent)
    requires Queues(s) && PcOf(s, a).Trying? && !StatusOf(s, a.client).FREE?
    requires Effect(s, s', a, if StatusOf(s, a.client).NONE? then Asking else Sleeping, StatusOf(s, a.client))
    requires s'.server == s.server && s'.retrying == s.retrying && s'.retried == s.retried && s.cv <= s'.cv
    ensures Queues(s')
  {
    assert forall c :: StatusOf(s', c) == StatusOf(s, c);
    QueueKept(s, s', a);
    SleepersKept(s, s', a);
    RetriesKept(s, s', a);
  }

  lemma WaitOrAskEffect(s: State, a: Agent)
    requires !StatusOf(s, a.client).FREE?
    ensures var s' := ApplyTurn(s, a);
            && Effect(s, s', a, if StatusOf(s, a.client).NONE? then Asking else Sleeping, StatusOf(s, a.client))
            && s' == s.(pc := s'.pc, status := s'.status, cv := s'.cv) && s.cv <= s'.cv
  {
  }

  lemma WaitOrAskKeepsInv(s: State, a: Agent)
    requires Inv(s) && Enabled(s, Turn(a)) && !StatusOf(s, a.client).FREE?
    ensures Inv(ApplyTurn(s, a))
  {
    WaitOrAskEffect(s, a);
    WaitOrAskExclusion(s, ApplyTurn(s, a), a);
    WaitOrAskQueues(s, ApplyTurn(s, a), a);
    DataKept(s, ApplyTurn(s, a), a);
  }

  lemma TakeRefusalExclusion(s: State, s': State, a: Agent)
    requires Exclusion(s) && PcOf(s, a).Refused? && Effect(s, s', a, Sleeping, ACQUIRING)
    requires s'.server.owner == s.server.owner
    ensures Exclusion(s')
  {
    assert InRpc(PcOf(s, a)) && a.client != "";
    EnterFreesMutex(s, s', a);
    RpcKept(s, s', a);
    HoldersSame(s, s', a);
    HandBacksKept(s, s', a);
    OwnerKept(s, s', a);
  }

  lemma TakeRefusalQueue(s: State, s': State, a: Agent)
    requires QueueOk(s) && PcOf(s, a).Refused? && Effect(s, s', a, Sleeping, ACQUIRING)
    requires s'.server == s.server && s'.retrying == s.retrying && s'.cv == s.cv + {a.client}
    ensures QueueOk(s')
  {
    forall b ensures b != a ==> Queued(PcOf(s', b)) == Queued(PcOf(s, b)) {
    }
    forall c ensures Enqueued(s', c) <==> Enqueued(s, c) {
      if c != a.client && exists b: Agent :: b.client == c && Queued(PcOf(s, b)) {
        var b: Agent :| b.client == c && Queued(PcOf(s, b));
        assert Queued(PcOf(s', b));
      }
    }
  }

  lemma TakeRefusalQueues(s: State, s': State, a: Agent)
    requires Queues(s) && PcOf(s, a).Refused? && Effect(s, s', a, Sleeping, ACQUIRING)
    requires s'.server == s.server && s'.retrying == s.retrying && s'.retried == s.retried
    requires s'.cv == s.cv + {a.client}
    ensures Queues(s')
  {
    assert Queued(PcOf(s, a));
    TakeRefusalQueue(s, s', a);
    SleepersKept(s, s', a);
    RetriesKept(s, s', a);
  }

  lemma TakeRefusalKeepsInv(s: State, a: Agent)
    requires Inv(s) && Enabled(s, TakeRefusal(a))
    ensures Inv(Apply(s, TakeRefusal(a)))
  {
    var s' := Apply(s, TakeRefusal(a));
    assert InRpc(PcOf(s, a)) && Effect(s, s', a, Sleeping, ACQUIRING);
    TakeRefusalExclusion(s, s', a);
    TakeRefusalQueues(s, s', a);
    DataKept(s, s', a);
  }

  // ----- revoke: the only step that touches another client's status -----

  lemma RevokeExclusion(s: State, s': State, a: Agent, c: ClientId)
    requires Exclusion(s) && PcOf(s, a).RevokeSent? && c != a.client && MutexFree(s, c)
    requires Moves(s, s', a) && PcOf(s', a).Refused?
    requires StatusElsewhere(s, s', c) && StatusOf(s', c) == Revoked(StatusOf(s, c))
    requires s'.server.owner == s.server.owner
    ensures Exclusion(s')
  {
    assert InRpc(PcOf(s, a)) && a.client != "";
    forall b: Agent | b.client == c ensures !InRpc(PcOf(s', b)) {
      assert !InRpc(PcOf(s, b));
    }
    RpcKept(s, s', a);
    HoldersSame(s, s', a);
    HandBacksKept(s, s', a);
    OwnerKept(s, s', a);
  }

  lemma RevokeQueues(s: State, s': State, a: Agent, c: ClientId)
    requires Queues(s) && PcOf(s, a).RevokeSent?
    requires Moves(s, s', a) && PcOf(s', a).Refused?
    requires StatusElsewhere(s, s', c) && StatusOf(s', c) == Revoked(StatusOf(s, c))
    requires s'.server == s.server && s'.retrying == s.retrying && s'.retried == s.retried && s'.cv == s.cv
    ensures Queues(s')
  {
    QueueKept(s, s', a);
    SleepersKept(s, s', a);
    RetriesKept(s, s', a);
  }

  lemma HandleRevokeKeepsInv(s: State, a: Agent)
    requires Inv(s) && Enabled(s, HandleRevoke(a))
    ensures Inv(Apply(s, HandleRevoke(a)))
  {
    var s' := Apply(s, HandleRevoke(a));
    var c := PcOf(s, a).target;
    assert InRpc(PcOf(s, a)) && c != a.client;
    assert Moves(s, s', a) && StatusElsewhere(s, s', c);
    RevokeExclusion(s, s', a, c);
    RevokeQueues(s, s', a, c);
    DataKept(s, s', a);
  }

  // ----- the server's side of acquire -----

  lemma NobodyPossesses(s: State)
    requires OwnerOk(s) && HandBacksOk(s) && s.server.owner == ""
    ensures forall c :: !Owns(StatusOf(s, c))
    ensures forall b :: !HandingBack(PcOf(s, b)) && !PcOf(s, b).Granted?
  {
    forall c ensures !Owns(StatusOf(s, c)) {
      assert StatusOf(s, "").NONE?;
    }
    forall b ensures !HandingBack(PcOf(s, b)) && !PcOf(s, b).Granted? {
      assert !PcOf(s, b).Idle? ==> b.client != "";
    }
  }

  lemma GrantExclusion(s: State, s': State, a: Agent)
    requires Exclusion(s) && s.server.owner == "" && PcOf(s, a).Asking?
    requires Effect(s, s', a, Granted, StatusOf(s, a.client)) && s'.server.owner == a.client
    ensures Exclusion(s')
  {
    NobodyPossesses(s);
    assert InRpc(PcOf(s, a)) && forall c :: StatusOf(s', c) == StatusOf(s, c);
    RpcKept(s, s', a);
    HoldersSame(s, s', a);
    forall b ensures !HandingBack(PcOf(s', b)) && (PcOf(s', b).Granted? ==> b == a) {
      assert b != a ==> !HandingBack(PcOf(s, b)) && !PcOf(s, b).Granted?;
    }
    forall b | !PcOf(s', b).Idle? ensures b.client != "" {
      assert !PcOf(s, b).Idle?;
    }
  }

  lemma AskedRetries(s: State, s': State, a: Agent)
    requires RetriesOk(s) && PcOf(s, a).Asking?
    requires Effect(s, s', a, PcOf(s', a), StatusOf(s, a.client))
    requires s'.retried == s.retried - {a.client} && s'.server.owner != ""
    ensures RetriesOk(s')
  {
    forall c | c in s'.retried
      ensures exists b: Agent :: b.client == c && (PcOf(s', b).Trying? || PcOf(s', b).Asking?)
    {
      var b: Agent :| b.client == c && (PcOf(s, b).Trying? || PcOf(s, b).Asking?);
      assert PcOf(s', b) == PcOf(s, b);
    }
    forall b | PcOf(s', b).Granted? || Queued(PcOf(s', b)) ensures b.client !in s'.retried {
      assert b != a ==> PcOf(s, b).Granted? || Queued(PcOf(s, b));
    }
  }

  lemma GrantQueues(s: State, s': State, a: Agent)
    requires Queues(s) && s.retrying.None? && PcOf(s, a).Asking? && a.client != ""
    requires Effect(s, s', a, Granted, StatusOf(s, a.client)) && s'.server == s.server.(owner := a.client)
    requires s'.retrying == s.retrying && s'.retried == s.retried - {a.client} && s'.cv == s.cv
    ensures Queues(s')
  {
    assert forall c :: StatusOf(s', c) == StatusOf(s, c);
    QueueKept(s, s', a);
    SleepersKept(s, s', a);
    AskedRetries(s, s', a);
  }

  lemma GrantData(s: State, s': State, a: Agent)
    requires OwnerOk(s) && HandBacksOk(s) && DataOk(s) && s.server.owner == ""
    requires s'.cache == s.cache && s'.store == s.store && s'.latest == s.latest
    ensures DataOk(s')
  {
    NobodyPossesses(s);
    forall c ensures CacheOf(s', c) == CacheOf(s, c) == NOT_CACHED {
      assert !MayCache(s, c);
    }
  }

  lemma GrantKeepsInv(s: State, a: Agent)
    requires Inv(s) && Enabled(s, AskServer(a)) && s.server.owner == ""
    ensures Inv(ApplyAsk(s, a))
  {
    var s' := ApplyAsk(s, a);
    assert Effect(s, s', a, Granted, StatusOf(s, a.client)) && a.client != "";
    GrantExclusion(s, s', a);
    GrantQueues(s, s', a);
    GrantData(s, s', a);
  }

  /** A client that asks is not in the list yet, so the server's scan never finds it there. */
  lemma AskerIsNotListed(s: State, a: Agent)
    requires RpcOk(s) && QueueOk(s) && PcOf(s, a).Asking? && s.retrying.None?
    ensures a.client !in s.server.waiting
  {
    assert InRpc(PcOf(s, a));
    forall b: Agent ensures b.client == a.client ==> !Queued(PcOf(s, b)) {
      assert Queued(PcOf(s, b)) ==> InRpc(PcOf(s, b));
    }
    assert !Enqueued(s, a.client);
  }

  lemma RefuseQueue(s: State, s': State, a: Agent)
    requires RpcOk(s) && QueueOk(s) && PcOf(s, a).Asking? && s.retrying.None?
    requires Effect(s, s', a, PcOf(s', a), StatusOf(s, a.client)) && Queued(PcOf(s', a))
    requires s'.server == ServerAcquire(s.server, a.client).0 && s.server.owner != ""
    requires s'.retrying == None && s'.cv == s.cv
    ensures QueueOk(s')
  {
    AskerIsNotListed(s, a);
    assert s'.server.waiting == s.server.waiting + [a.client];
    forall c ensures Enqueued(s', c) <==> Enqueued(s, c) || c == a.client {
      if exists b: Agent :: b.client == c && Queued(PcOf(s, b)) {
        var b: Agent :| b.client == c && Queued(PcOf(s, b));
        assert Queued(PcOf(s', b));
      }
    }
  }

  lemma RefuseQueues(s: State, s': State, a: Agent)
    requires RpcOk(s) && Queues(s) && PcOf(s, a).Asking? && s.retrying.None?
    requires Effect(s, s', a, PcOf(s', a), StatusOf(s, a.client)) && Queued(PcOf(s', a))
    requires s'.server == ServerAcquire(s.server, a.client).0 && s.server.owner != ""
    requires s'.retrying == None && s'.retried == s.retried - {a.client} && s'.cv == s.cv
    ensures Queues(s')
  {
    assert forall c :: StatusOf(s', c) == StatusOf(s, c);
    RefuseQueue(s, s', a);
    SleepersKept(s, s', a);
    AskedRetries(s, s', a);
  }

  lemma RefuseKeepsInv(s: State, a: Agent)
    requires Inv(s) && Enabled(s, AskServer(a)) && s.server.owner != ""
    ensures Inv(ApplyAsk(s, a))
  {
    var s' := ApplyAsk(s, a);
    assert Effect(s, s', a, PcOf(s', a), StatusOf(s, a.client)) && Queued(PcOf(s', a));
    assert a.client != "" && InRpc(PcOf(s, a));
    SameRoleExclusion(s, s', a);
    RefuseQueues(s, s', a);
    DataKept(s, s', a);
  }

  // ----- release -----

  lemma ReleaseLocallyExclusion(s: State, s': State, a: Agent)
    requires Exclusion(s) && PcOf(s, a).Holding? && MutexFree(s, a.client)
    requires Effect(s, s', a, Idle, FREE) && s'.server.owner == s.server.owner
    ensures Exclusion(s')
  {
    EnterFreesMutex(s, s', a);
    RpcKept(s, s', a);
    HolderLeaves(s, s', a);
    HandBacksKept(s, s', a);
    OwnerKept(s, s', a);
  }

  /** The holder leaves, and nobody sleeps on this client any more. */
  lemma LeaveQueues(s: State, s': State, a: Agent)
    requires Queues(s) && PcOf(s, a).Holding? && Locked(StatusOf(s, a.client))
    requires Effect(s, s', a, PcOf(s', a), StatusOf(s', a.client)) && (PcOf(s', a).Idle? || PcOf(s', a).Flushing?)
    requires StatusOf(s', a.client).FREE? || StatusOf(s', a.client).NONE?
    requires forall b: Agent :: b.client == a.client ==> !PcOf(s', b).Sleeping?
    requires s'.server == s.server && s'.retrying == s.retrying && s'.retried == s.retried && s.cv <= s'.cv
    ensures Queues(s')
  {
    QueueKept(s, s', a);
    SleepersKept(s, s', a);
    RetriesKept(s, s', a);
  }

  lemma ReleaseEffect(s: State, a: Agent)
    ensures var s' := ApplyRelease(s, a);
            var (status, back) := ReleaseTo(StatusOf(s, a.client));
            && Effect(s, s', a, if back then Flushing else Idle, status)
            && (forall b: Agent :: b.client == a.client ==> !PcOf(s', b).Sleeping?)
            && s' == s.(pc := s'.pc, status := s'.status, cv := s'.cv) && s.cv <= s'.cv
  {
  }

  lemma ReleaseLocallyKeepsInv(s: State, a: Agent)
    requires Inv(s) && Enabled(s, CallRelease(a)) && StatusOf(s, a.client).LOCKED?
    ensures Inv(ApplyRelease(s, a))
  {
    ReleaseEffect(s, a);
    ReleaseLocallyExclusion(s, ApplyRelease(s, a), a);
    LeaveQueues(s, ApplyRelease(s, a), a);
    DataKept(s, ApplyRelease(s, a), a);
  }

  /** A revoked holder, or `give_back`, gives the lock up: the status is NONE before anything is sent. */
  lemma HandBackExclusion(s: State, s': State, a: Agent)
    requires Exclusion(s) && Effect(s, s', a, Flushing, NONE) && s'.server == s.server
    requires (PcOf(s, a).Holding? && StatusOf(s, a.client).RELEASING?) ||
             (PcOf(s, a).Tested? && StatusOf(s, a.client).FREE?)
    ensures Exclusion(s')
  {
    RpcKept(s, s', a);
    if PcOf(s, a).Holding? {
      HolderLeaves(s, s', a);
    } else {
      HoldersSame(s, s', a);
    }
    HandBackStarts(s, s', a);
    OwnerKept(s, s', a);
  }

  lemma ReleaseRevokedKeepsInv(s: State, a: Agent)
    requires Inv(s) && Enabled(s, CallRelease(a)) && StatusOf(s, a.client).RELEASING?
    ensures Inv(ApplyRelease(s, a))
  {
    ReleaseEffect(s, a);
    HandBackExclusion(s, ApplyRelease(s, a), a);
    LeaveQueues(s, ApplyRelease(s, a), a);
    DataKept(s, ApplyRelease(s, a), a);
  }

  lemma GiveBackQueues(s: State, s': State, a: Agent)
    requires Queues(s) && PcOf(s, a).Tested? && StatusOf(s, a.client).FREE?
    requires Effect(s, s', a, Flushing, NONE)
    requires s'.server == s.server && s'.retrying == s.retrying && s'.retried == s.retried && s'.cv == s.cv
    ensures Queues(s')
  {
    forall b: Agent | b != a && b.client == a.client ensures !PcOf(s', b).Sleeping? {
      assert !PcOf(s, b).Sleeping?;
    }
    QueueKept(s, s', a);
    SleepersKept(s, s', a);
    RetriesKept(s, s', a);
  }

  lemma GiveBackKeepsInv(s: State, a: Agent)
    requires Inv(s) && Enabled(s, GiveBack(a)) && StatusOf(s, a.client).FREE?
    ensures Inv(Apply(s, GiveBack(a)))
  {
    var s' := Apply(s, GiveBack(a));
    assert Effect(s, s', a, Flushing, NONE);
    HandBackExclusion(s, s', a);
    GiveBackQueues(s, s', a);
    DataKept(s, s', a);
  }

  lemma FlushData(s: State, s': State, a: Agent, now: nat)
    requires HandBacksOk(s) && OwnerOk(s) && DataOk(s) && PcOf(s, a).Flushing?
    requires s' == ApplyDoRelease(s, a, now)
    ensures DataOk(s')
  {
    FlushRefines(CacheOf(s, a.client), s.store, now);
    forall c ensures CacheOf(s', c) == NOT_CACHED {
      if c != a.client {
        assert CacheOf(s', c) == CacheOf(s, c);
        assert !MayCache(s, c);
      }
    }
  }

  lemma DoReleaseKeepsInv(s: State, a: Agent, now: nat)
    requires Inv(s) && Enabled(s, DoRelease(a, now))
    ensures Inv(ApplyDoRelease(s, a, now))
  {
    var s' := ApplyDoRelease(s, a, now);
    assert Effect(s, s', a, Releasing, StatusOf(s, a.client));
    SameRoleExclusion(s, s', a);
    SamePlaceQueues(s, s', a);
    FlushData(s, s', a, now);
  }

  /** The release that reaches the server comes from the owner, so nobody possesses the lock afterwards. */
  lemma ReleaseServerExclusion(s: State, s': State, a: Agent)
    requires Exclusion(s) && PcOf(s, a).Releasing?
    requires Effect(s, s', a, Idle, StatusOf(s, a.client)) && s'.server.owner == ""
    ensures Exclusion(s')
  {
    assert forall c :: StatusOf(s', c) == StatusOf(s, c);
    RpcKept(s, s', a);
    HoldersSame(s, s', a);
    forall b ensures !HandingBack(PcOf(s', b)) && !PcOf(s', b).Granted? {
      assert b != a ==>
          HandingBack(PcOf(s', b)) == HandingBack(PcOf(s, b)) && PcOf(s', b).Granted? == PcOf(s, b).Granted?;
    }
    forall b | !PcOf(s', b).Idle? ensures b.client != "" {
      assert b != a ==> !PcOf(s, b).Idle?;
    }
    forall c ensures !Owns(StatusOf(s', c)) {
      assert Owns(StatusOf(s, c)) ==> c == a.client;
    }
  }

  lemma ReleaseServerQueue(s: State, s': State, a: Agent)
    requires QueueOk(s) && s.retrying.None? && PcOf(s, a).Releasing?
    requires Effect(s, s', a, Idle, StatusOf(s, a.client))
    requires (s'.server, s'.retrying) == ServerRelease(s.server) && s'.cv == s.cv
    ensures QueueOk(s')
  {
    forall b ensures Queued(PcOf(s', b)) == Queued(PcOf(s, b)) {
    }
    forall c ensures Enqueued(s', c) <==> Enqueued(s, c) {
      if exists b: Agent :: b.client == c && Queued(PcOf(s, b)) {
        var b: Agent :| b.client == c && Queued(PcOf(s, b));
        assert Queued(PcOf(s', b));
      }
    }
    if s.server.waiting != [] {
      var w := s.server.waiting;
      assert forall c :: c in w <==> c == w[0] || c in w[1..];
    }
  }

  lemma ReleaseServerQueues(s: State, s': State, a: Agent)
    requires Queues(s) && s.retrying.None? && PcOf(s, a).Releasing?
    requires Effect(s, s', a, Idle, StatusOf(s, a.client))
    requires (s'.server, s'.retrying) == ServerRelease(s.server) && s'.retried == s.retried && s'.cv == s.cv
    ensures Queues(s')
  {
    assert forall c :: StatusOf(s', c) == StatusOf(s, c);
    ReleaseServerQueue(s, s', a);
    SleepersKept(s, s', a);
    RetriesKept(s, s', a);
  }

  lemma ReleaseServerData(s: State, s': State, a: Agent)
    requires HandBacksOk(s) && OwnerOk(s) && DataOk(s) && PcOf(s, a).Releasing?
    requires s'.server.owner == "" && s'.cache == s.cache && s'.store == s.store && s'.latest == s.latest
    ensures DataOk(s')
  {
    forall c ensures CacheOf(s', c) == CacheOf(s, c) == NOT_CACHED {
      assert Owns(StatusOf(s, c)) ==> c == a.client;
      assert !MayCache(s, c);
    }
  }

  lemma ReleaseServerKeepsInv(s: State, a: Agent)
    requires Inv(s) && Enabled(s, ReleaseServer(a))
    ensures Inv(ApplyReleaseServer(s, a))
  {
    var s' := ApplyReleaseServer(s, a);
    assert Effect(s, s', a, Idle, StatusOf(s, a.client));
    ReleaseServerExclusion(s, s', a);
    ReleaseServerQueues(s, s', a);
    ReleaseServerData(s, s', a);
  }

  // ----- retry -----

  /** Every retry that reaches a client finds it ACQUIRING. */
  lemma RetryFindsAcquiring(s: State)
    requires QueueOk(s) && s.retrying.Some? && MutexFree(s, s.retrying.value)
    ensures StatusOf(s, s.retrying.value).ACQUIRING? && s.retrying.value in s.cv
  {
    var c := s.retrying.value;
    assert Enqueued(s, c);
    forall a: Agent ensures a.client == c ==> !Queued(PcOf(s, a)) {
      assert a.client == c ==> !InRpc(PcOf(s, a));
    }
  }

  lemma RetryExclusion(s: State, s': State, a: Agent)
    requires Exclusion(s) && (PcOf(s, a).Sleeping? || PcOf(s, a).Trying?) && StatusOf(s, a.client).ACQUIRING?
    requires Effect(s, s', a, Trying, NONE) && s'.server == s.server
    ensures Exclusion(s')
  {
    assert a.client != "";
    RpcKept(s, s', a);
    HoldersSame(s, s', a);
    HandBacksKept(s, s', a);
    OwnerKept(s, s', a);
  }

  lemma RetryQueue(s: State, s': State, a: Agent)
    requires QueueOk(s) && s.retrying == Some(a.client) && MutexFree(s, a.client)
    requires Effect(s, s', a, Trying, NONE)
    requires s'.server == s.server && s'.retrying.None? && s.cv <= s'.cv
    ensures QueueOk(s')
  {
    forall b: Agent ensures Queued(PcOf(s', b)) == Queued(PcOf(s, b)) {
      assert !InRpc(PcOf(s, a));
    }
    forall c ensures Enqueued(s', c) <==> Enqueued(s, c) && c != a.client {
      if c == a.client {
        forall b: Agent ensures b.client == c ==> !Queued(PcOf(s, b)) {
          assert b.client == c ==> !InRpc(PcOf(s, b));
        }
      } else if exists b: Agent :: b.client == c && Queued(PcOf(s, b)) {
        var b: Agent :| b.client == c && Queued(PcOf(s, b));
        assert Queued(PcOf(s', b));
      }
    }
  }

  lemma RetryRetries(s: State, s': State, a: Agent)
    requires RetriesOk(s) && MutexFree(s, a.client) && (PcOf(s, a).Sleeping? || PcOf(s, a).Trying?)
    requires Effect(s, s', a, Trying, NONE) && s'.retried == s.retried + {a.client}
    ensures RetriesOk(s')
  {
    forall c | c in s'.retried
      ensures exists b: Agent :: b.client == c && (PcOf(s', b).Trying? || PcOf(s', b).Asking?)
    {
      if c == a.client {
        assert PcOf(s', a).Trying?;
      } else {
        var b: Agent :| b.client == c && (PcOf(s, b).Trying? || PcOf(s, b).Asking?);
        assert PcOf(s', b) == PcOf(s, b);
      }
    }
    forall b | PcOf(s', b).Granted? || Queued(PcOf(s', b)) ensures b.client !in s'.retried {
      assert InRpc(PcOf(s, b));
    }
  }

  lemma RetryQueues(s: State, s': State, a: Agent)
    requires Queues(s) && s.retrying == Some(a.client) && MutexFree(s, a.client)
    requires PcOf(s, a).Sleeping? || PcOf(s, a).Trying?
    requires Effect(s, s', a, Trying, NONE)
    requires forall b: Agent :: b.client == a.client ==> !PcOf(s', b).Sleeping?
    requires s'.server == s.server && s'.retrying.None? && s.cv <= s'.cv && s'.retried == s.retried + {a.client}
    ensures Queues(s')
  {
    RetryQueue(s, s', a);
    SleepersKept(s, s', a);
    RetryRetries(s, s', a);
  }

  lemma RetryEffect(s: State, a: Agent)
    requires s.retrying == Some(a.client) && a.client in s.cv && (PcOf(s, a).Sleeping? || PcOf(s, a).Trying?)
    ensures var s' := ApplyRetry(s);
            && Effect(s, s', a, Trying, NONE)
            && (forall b: Agent :: b.client == a.client ==> !PcOf(s', b).Sleeping?)
            && s' == s.(pc := s'.pc, status := s'.status, cv := s'.cv, retrying := None,
                        retried := s.retried + {a.client})
            && s.cv <= s'.cv
  {
  }

  lemma HandleRetryKeepsInv(s: State)
    requires Inv(s) && Enabled(s, HandleRetry)
    ensures Inv(ApplyRetry(s))
  {
    RetryFindsAcquiring(s);
    var a: Agent :| a.client == s.retrying.value && (PcOf(s, a).Sleeping? || PcOf(s, a).Trying?);
    RetryEffect(s, a);
    RetryExclusion(s, ApplyRetry(s), a);
    RetryQueues(s, ApplyRetry(s), a);
    DataKept(s, ApplyRetry(s), a);
  }

  // ----- extent operations by the holder -----

  lemma AccessData(s: State, s': State, a: Agent)
    requires OwnerOk(s) && HandBacksOk(s) && DataOk(s) && Owns(StatusOf(s, a.client))
    requires s' == s.(cache := s.cache[a.client := CacheOf(s', a.client)], store := s'.store, latest := s'.latest)
    requires StoreOk(s'.store) && CacheOk(CacheOf(s', a.client), s'.store)
    requires s'.latest == View(CacheOf(s', a.client), s'.store)
    ensures DataOk(s')
  {
    forall c ensures c != a.client ==> CacheOf(s', c) == NOT_CACHED {
      if c != a.client {
        assert CacheOf(s', c) == CacheOf(s, c);
        assert !MayCache(s, c);
      }
    }
    assert Owns(StatusOf(s', a.client));
  }

  /** Only the holder's cache and the store change, and the view is the latest put. */
  lemma AccessEffect(s: State, step: Step)
    requires Enabled(s, step) && (step.Read? || step.ReadAttr? || step.Write?)
    requires StoreOk(s.store) && CacheOk(CacheOf(s, step.a.client), s.store)
    requires View(CacheOf(s, step.a.client), s.store) == s.latest
    ensures var s', a := Apply(s, step), step.a;
            && Effect(s, s', a, PcOf(s, a), StatusOf(s, a.client))
            && s' == s.(cache := s.cache[a.client := CacheOf(s', a.client)], store := s'.store, latest := s'.latest)
            && StoreOk(s'.store) && CacheOk(CacheOf(s', a.client), s'.store)
            && s'.latest == View(CacheOf(s', a.client), s'.store)
  {
  }

  lemma AccessKeepsInv(s: State, step: Step)
    requires Inv(s) && Enabled(s, step) && (step.Read? || step.ReadAttr? || step.Write?)
    ensures Inv(Apply(s, step))
  {
    var s', a := Apply(s, step), step.a;
    assert Owns(StatusOf(s, a.client)) && s.server.owner == a.client && a.client != "";
    AccessEffect(s, step);
    SameRoleExclusion(s, s', a);
    SamePlaceQueues(s, s', a);
    AccessData(s, s', a);
  }

  // ----- every step, every run -----

  lemma AcquireStepKeepsInv(s: State, step: Step)
    requires Inv(s) && Enabled(s, step)
    requires step.CallAcquire? || step.Turn? || step.AskServer? || step.TakeGrant? || step.TakeRefusal? || step.Wake?
    ensures Inv(Apply(s, step))
  {
    match step
    case CallAcquire(a) => QuietMoveKeepsInv(s, a, Trying);
    case Turn(a) =>
      if StatusOf(s, a.client).FREE? {
        TakeKeepsInv(s, a);
      } else {
        WaitOrAskKeepsInv(s, a);
      }
    case AskServer(a) =>
      if s.server.owner == "" {
        GrantKeepsInv(s, a);
      } else {
        RefuseKeepsInv(s, a);
      }
    case TakeGrant(a) => TakeGrantKeepsInv(s, a);
    case TakeRefusal(a) => TakeRefusalKeepsInv(s, a);
    case Wake(a) => QuietMoveKeepsInv(s, a, Trying);
  }

  lemma ReleaseStepKeepsInv(s: State, step: Step)
    requires Inv(s) && Enabled(s, step)
    requires step.CallRelease? || step.TestFree? || step.GiveBack? || step.DoRelease? || step.ReleaseServer?
    requires step.GiveBack? ==> StatusOf(s, step.a.client).FREE?
    ensures Inv(Apply(s, step))
  {
    match step
    case CallRelease(a) =>
      if StatusOf(s, a.client).LOCKED? {
        ReleaseLocallyKeepsInv(s, a);
      } else {
        ReleaseRevokedKeepsInv(s, a);
      }
    case TestFree(a) =>
      assert StatusOf(s, "").NONE?;
      QuietMoveKeepsInv(s, a, Tested);
    case GiveBack(a) => GiveBackKeepsInv(s, a);
    case DoRelease(a, now) => DoReleaseKeepsInv(s, a, now);
    case ReleaseServer(a) => ReleaseServerKeepsInv(s, a);
  }

  lemma StepKeepsInv(s: State, step: Step)
    requires Inv(s) && Enabled(s, step)
    requires step.GiveBack? ==> StatusOf(s, step.a.client).FREE?
    ensures Inv(Apply(s, step))
  {
    match step
    case SendRevoke(a, target) => QuietMoveKeepsInv(s, a, RevokeSent(target));
    case HandleRevoke(a) => HandleRevokeKeepsInv(s, a);
    case HandleRetry => HandleRetryKeepsInv(s);
    case Read(_, _) => AccessKeepsInv(s, step);
    case ReadAttr(_) => AccessKeepsInv(s, step);
    case Write(_, _, _) => AccessKeepsInv(s, step);
    case CallRelease(_) => ReleaseStepKeepsInv(s, step);
    case TestFree(_) => ReleaseStepKeepsInv(s, step);
    case GiveBack(_) => ReleaseStepKeepsInv(s, step);
    case DoRelease(_, _) => ReleaseStepKeepsInv(s, step);
    case ReleaseServer(_) => ReleaseStepKeepsInv(s, step);
    case _ => AcquireStepKeepsInv(s, step);
  }

  lemma InitInv(store: Stored)
    requires StoreOk(store)
    ensures Inv(Init(store))
  {
    var s := Init(store);
    assert forall a :: PcOf(s, a).Idle?;
    assert forall c :: StatusOf(s, c).NONE? && CacheOf(s, c) == NOT_CACHED;
  }

  lemma {:induction false} RunKeepsInv(s: State, steps: seq<Step>)
    requires Inv(s) && Legal(s, steps) && TimelyGiveBacks(s, steps)
    ensures Inv(After(s, steps))
    decreases |steps|
  {
    if steps != [] {
      StepKeepsInv(s, steps[0]);
      RunKeepsInv(Apply(s, steps[0]), steps[1..]);
    }
  }
}
