/**
 The steps of the lock system are the critical sections of the classes: whatever a step does to
 the entries a client keeps for the lock is what the class method of that section does to them.
 */
module LockSections {
  import opened Basics
  import opened LockProtocol
  import opened LockSystem

  /** The threads of a client that wait on the lock's condition variable. */
  function Asleep(s: State, c: ClientId): set<nat> {
    set a | a in s.pc && a.client == c && s.pc[a].Sleeping? :: a.tid
  }

  /** What a client keeps for the lock, as the class sees it. */
  function ClientOf(s: State, c: ClientId): ClientLock {
    ClientLock(c in s.status, StatusOf(s, c), c in s.cv, Asleep(s, c))
  }

  /** The critical section that a step runs at client `c`, if it runs one there. */
  ghost function SectionAt(s: State, step: Step, c: ClientId): ClientLock
    requires Enabled(s, step)
  {
    var l := ClientOf(s, c);
    match step
    case Turn(a) => if a.client == c then TurnSection(l, a.tid).0 else l
    case TakeGrant(a) => if a.client == c then AnsweredSection(l, a.tid, true) else l
    case TakeRefusal(a) => if a.client == c then AnsweredSection(l, a.tid, false) else l
    case Wake(a) => if a.client == c then l.(asleep := l.asleep - {a.tid}) else l
    case CallRelease(a) => if a.client == c then ReleaseSection(l).0 else l
    case GiveBack(a) => if a.client == c then GiveBackSection(l) else l
    case HandleRevoke(a) => if PcOf(s, a).target == c then RevokeSection(l) else l
    case HandleRetry => if s.retrying.value == c then RetrySection(l) else l
    case CallAcquire(_) => l
    case AskServer(_) => l
    case SendRevoke(_, _) => l
    case TestFree(_) => l
    case DoRelease(_, _) => l
    case ReleaseServer(_) => l
    case Read(_, _) => l
    case ReadAttr(_) => l
    case Write(_, _, _) => l
  }

  lemma AsleepIff(s: State, c: ClientId, t: nat)
    ensures t in Asleep(s, c) <==> PcOf(s, Agent(c, t)).Sleeping?
  {
    assert PcOf(s, Agent(c, t)).Sleeping? ==> Agent(c, t) in s.pc;
  }

  /** One thread moves. */
  lemma AsleepMoves(s: State, s': State, a: Agent, c: ClientId)
    requires s'.pc == s.pc[a := PcOf(s', a)]
    ensures Asleep(s', c) ==
            if a.client != c then Asleep(s, c)
            else if PcOf(s', a).Sleeping? then Asleep(s, c) + {a.tid}
            else Asleep(s, c) - {a.tid}
  {
    forall t: nat
      ensures t in Asleep(s', c) <==> if Agent(c, t) == a then PcOf(s', a).Sleeping? else t in Asleep(s, c)
    {
      AsleepIff(s, c, t);
      AsleepIff(s', c, t);
    }
  }

  lemma AsleepAfterBroadcast(s: State, b: ClientId, c: ClientId)
    ensures Asleep(Broadcast(s, b), c) == if b == c then {} else Asleep(s, c)
  {
    var s' := Broadcast(s, b);
    forall t: nat ensures t in Asleep(s', c) <==> b != c && t in Asleep(s, c) {
      AsleepIff(s, c, t);
      AsleepIff(s', c, t);
    }
  }

  lemma AwakeIsNotAsleep(s: State, a: Agent)
    requires !PcOf(s, a).Sleeping?
    ensures a.tid !in Asleep(s, a.client)
  {
    AsleepIff(s, a.client, a.tid);
    assert a == Agent(a.client, a.tid);
  }

  lemma ReleaseRunsSection(s: State, a: Agent, c: ClientId)
    requires Enabled(s, CallRelease(a))
    ensures ClientOf(Apply(s, CallRelease(a)), c) == SectionAt(s, CallRelease(a), c)
  {
    var s1 := SetStatus(s, a.client, ReleaseTo(StatusOf(s, a.client)).0);
    AsleepAfterBroadcast(s1, a.client, c);
    AsleepMoves(Broadcast(s1, a.client), Apply(s, CallRelease(a)), a, c);
    AwakeIsNotAsleep(s, a);
    assert Asleep(s1, c) == Asleep(s, c);
  }

  lemma RetryRunsSection(s: State, c: ClientId)
    requires Enabled(s, HandleRetry)
    ensures ClientOf(Apply(s, HandleRetry), c) == SectionAt(s, HandleRetry, c)
  {
    var b := s.retrying.value;
    AsleepAfterBroadcast(SetStatus(s.(retrying := None), b, NONE), b, c);
  }

  lemma TurnRunsSection(s: State, a: Agent, c: ClientId)
    requires Enabled(s, Turn(a))
    ensures ClientOf(Apply(s, Turn(a)), c) == SectionAt(s, Turn(a), c)
  {
    AsleepMoves(s, Apply(s, Turn(a)), a, c);
    AwakeIsNotAsleep(s, a);
  }

  /** Steps in which one thread moves and at most one status is written. */
  lemma MoveRunsSection(s: State, step: Step, a: Agent, c: ClientId)
    requires Enabled(s, step) && !step.Turn? && !step.CallRelease? && !step.HandleRetry? && step.a == a
    requires !step.Read? && !step.ReadAttr? && !step.Write?
    ensures ClientOf(Apply(s, step), c) == SectionAt(s, step, c)
  {
    AsleepMoves(s, Apply(s, step), a, c);
    if !step.Wake? {
      AwakeIsNotAsleep(s, a);
    }
  }

  /** Every step changes every client's entries exactly by the section it runs there. */
  lemma StepsRunSections(s: State, step: Step, c: ClientId)
    requires Enabled(s, step)
    ensures ClientOf(Apply(s, step), c) == SectionAt(s, step, c)
  {
    if step.HandleRetry? {
      RetryRunsSection(s, c);
    } else if step.CallRelease? {
      ReleaseRunsSection(s, step.a, c);
    } else if step.Turn? {
      TurnRunsSection(s, step.a, c);
    } else if !step.Read? && !step.ReadAttr? && !step.Write? {
      MoveRunsSection(s, step, step.a, c);
    }
  }

  /** And what the calling thread does next is what the section told it. */
  lemma ThreadFollowsSection(s: State, a: Agent)
    ensures Enabled(s, Turn(a)) ==>
              PcOf(Apply(s, Turn(a)), a) == match TurnSection(ClientOf(s, a.client), a.tid).1
                                            case Take => Holding
                                            case Sleep => Sleeping
                                            case Ask => Asking
    ensures Enabled(s, CallRelease(a)) ==>
              PcOf(Apply(s, CallRelease(a)), a) == if ReleaseSection(ClientOf(s, a.client)).1 then Flushing else Idle
  {
  }
}
