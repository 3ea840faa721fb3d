/**
 What the lock server answers and what a revoked client must do, over every run: first askers
 cause a revoke, revoked locks go back, and waiters are retried in the order in which they came.
 */
module LockAnswers {
  import opened Basics
  import opened Extents
  import opened LockProtocol
  import opened LockSystem
  import opened LockProofs
  import LockTheorems

  // ----- the server's answer -----

  /** An unowned lock is granted; the first to wait has the owner revoked; others are just refused. */
  lemma ServerAnswers(s: State, a: Agent)
    requires Enabled(s, AskServer(a))
    ensures var s' := Apply(s, AskServer(a));
            && (PcOf(s', a).Granted? <==> s.server.owner == "")
            && (PcOf(s', a).Revoking? <==> s.server.owner != "" && s.server.waiting == [])
            && (PcOf(s', a).Refused? <==> s.server.owner != "" && s.server.waiting != [])
            && s'.server.owner == (if s.server.owner == "" then a.client else s.server.owner)
            && (forall b :: b != a ==> PcOf(s', b) == PcOf(s, b))
  {
  }

  /** Who asks the server next of thread `a`. */
  predicate AboutToRevoke(pc: Pc) {
    pc.Revoking? || pc.RevokeSent?
  }

  /** The only way from `Revoking` leads through a revoke that was sent and then handled. */
  lemma RevokerMoves(s: State, step: Step, a: Agent)
    requires Enabled(s, step) && AboutToRevoke(PcOf(s, a))
    ensures var pc, pc' := PcOf(s, a), PcOf(Apply(s, step), a);
            || pc' == pc
            || (step.SendRevoke? && step.a == a && pc.Revoking? && pc' == RevokeSent(step.target))
            || (step == HandleRevoke(a) && pc.RevokeSent? && pc'.Refused?)
  {
  }

  /** Position `j` handles the revoke that position `i` sent. */
  ghost predicate RevokedBy(steps: seq<Step>, a: Agent, i: nat, j: nat) {
    i < j < |steps| && steps[i].SendRevoke? && steps[i].a == a && steps[j] == HandleRevoke(a)
  }

  lemma {:induction false} SentIsHandled(s: State, steps: seq<Step>, a: Agent) returns (j: nat)
    requires Legal(s, steps) && PcOf(s, a).RevokeSent? && !PcOf(After(s, steps), a).RevokeSent?
    ensures j < |steps| && steps[j] == HandleRevoke(a)
    decreases |steps|
  {
    RevokerMoves(s, steps[0], a);
    if PcOf(Apply(s, steps[0]), a).RevokeSent? {
      j := SentIsHandled(Apply(s, steps[0]), steps[1..], a);
      j := j + 1;
    } else {
      j := 0;
    }
  }

  lemma {:induction false} RevokingIsSent(s: State, steps: seq<Step>, a: Agent) returns (i: nat, j: nat)
    requires Legal(s, steps) && PcOf(s, a).Revoking? && !AboutToRevoke(PcOf(After(s, steps), a))
    ensures RevokedBy(steps, a, i, j)
    decreases |steps|
  {
    RevokerMoves(s, steps[0], a);
    if PcOf(Apply(s, steps[0]), a).Revoking? {
      i, j := RevokingIsSent(Apply(s, steps[0]), steps[1..], a);
      i, j := i + 1, j + 1;
    } else {
      j := SentIsHandled(Apply(s, steps[0]), steps[1..], a);
      i, j := 0, j + 1;
    }
  }

  /**
   Whenever the waiting list of an owned lock goes from empty to non-empty, the asker gets its
   answer only after a revoke has been sent to some client and handled there.
   */
  lemma FirstWaiterRevokes(s: State, a: Agent, more: seq<Step>) returns (i: nat, j: nat)
    requires Enabled(s, AskServer(a)) && s.server.owner != "" && s.server.waiting == []
    requires Legal(Apply(s, AskServer(a)), more)
    requires !AboutToRevoke(PcOf(After(Apply(s, AskServer(a)), more), a))
    ensures Apply(s, AskServer(a)).server.waiting == [a.client] && RevokedBy(more, a, i, j)
  {
    ServerAnswers(s, a);
    i, j := RevokingIsSent(Apply(s, AskServer(a)), more, a);
  }

  // ----- a revoked lock goes back -----

  /** `release` keeps the lock locally, or gives it back if it has been revoked. */
  lemma ReleaseObeysRevoke(s: State, a: Agent)
    requires Inv(s) && Enabled(s, CallRelease(a))
    ensures var s' := Apply(s, CallRelease(a));
            || (StatusOf(s, a.client).RELEASING? && StatusOf(s', a.client).NONE? && PcOf(s', a).Flushing?)
            || (StatusOf(s, a.client).LOCKED? && StatusOf(s', a.client).FREE? && PcOf(s', a).Idle?)
  {
  }

  /** The client has been told to give the lock back and has not yet told the server. */
  ghost predicate MustReturn(s: State, c: ClientId) {
    StatusOf(s, c).RELEASING? || exists a: Agent :: a.client == c && HandingBack(PcOf(s, a))
  }

  lemma MustReturnIsNotUsable(s: State, c: ClientId)
    requires Inv(s) && MustReturn(s, c)
    ensures !StatusOf(s, c).FREE? && !StatusOf(s, c).LOCKED? && s.server.owner == c
  {
  }

  /** A thread that hands the lock back goes on until the server has it. */
  lemma HandBackMoves(s: State, step: Step, a: Agent)
    requires Enabled(s, step) && HandingBack(PcOf(s, a))
    ensures HandingBack(PcOf(Apply(s, step), a)) || Apply(s, step).server.owner == ""
  {
  }

  /** The steps that change a client's status from RELEASING. */
  lemma ReleasingChanges(s: State, step: Step, c: ClientId)
    requires Enabled(s, step) && StatusOf(s, c).RELEASING? && !StatusOf(Apply(s, step), c).RELEASING?
    ensures step.HandleRetry? || step.TakeGrant? || step.TakeRefusal? || step.CallRelease? || step.GiveBack?
    ensures if step.HandleRetry? then s.retrying == Some(c) else step.a.client == c
  {
  }

  lemma RevokedMoves(s: State, step: Step, c: ClientId)
    requires Inv(s) && Enabled(s, step) && StatusOf(s, c).RELEASING?
    requires step.GiveBack? ==> StatusOf(s, step.a.client).FREE?
    ensures MustReturn(Apply(s, step), c)
  {
    if !StatusOf(Apply(s, step), c).RELEASING? {
      ReleasingChanges(s, step, c);
      if step.HandleRetry? {
        RetryFindsAcquiring(s);
      } else if step.CallRelease? {
        ReleaseObeysRevoke(s, step.a);
        assert HandingBack(PcOf(Apply(s, step), step.a));
      }
    }
  }

  lemma MustReturnStep(s: State, step: Step, c: ClientId)
    requires Inv(s) && Enabled(s, step) && MustReturn(s, c)
    requires step.GiveBack? ==> StatusOf(s, step.a.client).FREE?
    ensures MustReturn(Apply(s, step), c) || Apply(s, step).server.owner == ""
  {
    if StatusOf(s, c).RELEASING? {
      RevokedMoves(s, step, c);
    } else {
      var a: Agent :| a.client == c && HandingBack(PcOf(s, a));
      HandBackMoves(s, step, a);
    }
  }

  /** From here on the client does not have the lock for use before the server has had it back. */
  ghost predicate ReturnsFirst(s: State, steps: seq<Step>, c: ClientId)
    requires Legal(s, steps)
    decreases |steps|
  {
    s.server.owner == "" ||
    (!StatusOf(s, c).FREE? && !StatusOf(s, c).LOCKED? &&
     (steps != [] ==> ReturnsFirst(Apply(s, steps[0]), steps[1..], c)))
  }

  /** A client that must return the lock returns it before it is FREE or LOCKED there again. */
  lemma {:induction false} RevokedLockGoesBack(s: State, steps: seq<Step>, c: ClientId)
    requires Inv(s) && Legal(s, steps) && TimelyGiveBacks(s, steps) && MustReturn(s, c)
    ensures ReturnsFirst(s, steps, c)
    decreases |steps|
  {
    MustReturnIsNotUsable(s, c);
    if steps != [] {
      StepKeepsInv(s, steps[0]);
      MustReturnStep(s, steps[0], c);
      if Apply(s, steps[0]).server.owner != "" {
        RevokedLockGoesBack(Apply(s, steps[0]), steps[1..], c);
      }
    }
  }

  /**
   In every run: once a revoke has been handled at a client whose lock is LOCKED, on every timely
   continuation that client gives the lock back before anybody uses it there again.
   */
  lemma RevokeIsObeyed(store: Stored, steps: seq<Step>, a: Agent, more: seq<Step>)
    requires StoreOk(store) && Legal(Init(store), steps) && TimelyGiveBacks(Init(store), steps)
    requires Enabled(After(Init(store), steps), HandleRevoke(a))
    requires var s := After(Init(store), steps);
             && StatusOf(s, PcOf(s, a).target).LOCKED? && Legal(Apply(s, HandleRevoke(a)), more)
             && TimelyGiveBacks(Apply(s, HandleRevoke(a)), more)
    ensures var s := After(Init(store), steps);
            ReturnsFirst(Apply(s, HandleRevoke(a)), more, PcOf(s, a).target)
  {
    var s := After(Init(store), steps);
    LockTheorems.ReachableInv(store, steps);
    StepKeepsInv(s, HandleRevoke(a));
    RevokedLockGoesBack(Apply(s, HandleRevoke(a)), more, PcOf(s, a).target);
  }

  // ----- first come, first retried -----

  /** The client that a step puts on the waiting list: it asked for an owned lock and was not listed. */
  function JoinsAt(s: State, step: Step): seq<ClientId> {
    if step.AskServer? && s.server.owner != "" && step.a.client !in s.server.waiting then [step.a.client] else []
  }

  /** The client to which a step sends a retry. */
  ghost function RetriedAt(s: State, step: Step): seq<ClientId>
    requires Enabled(s, step)
  {
    if step.ReleaseServer? && Apply(s, step).retrying.Some? then [Apply(s, step).retrying.value] else []
  }

  ghost function Joined(s: State, steps: seq<Step>): seq<ClientId>
    requires Legal(s, steps)
    decreases |steps|
  {
    if steps == [] then [] else JoinsAt(s, steps[0]) + Joined(Apply(s, steps[0]), steps[1..])
  }

  ghost function Retried(s: State, steps: seq<Step>): seq<ClientId>
    requires Legal(s, steps)
    decreases |steps|
  {
    if steps == [] then [] else RetriedAt(s, steps[0]) + Retried(Apply(s, steps[0]), steps[1..])
  }

  lemma StepKeepsOrder(s: State, step: Step)
    requires Enabled(s, step)
    ensures s.server.waiting + JoinsAt(s, step) == RetriedAt(s, step) + Apply(s, step).server.waiting
    ensures step.ReleaseServer? ==>
              Apply(s, step).server.owner == "" && (Apply(s, step).retrying.Some? <==> s.server.waiting != [])
  {
  }

  /** In every run the clients are retried in the order in which they joined the list, each once per joining. */
  lemma {:induction false} FirstComeFirstRetried(s: State, steps: seq<Step>)
    requires Legal(s, steps)
    ensures s.server.waiting + Joined(s, steps) == Retried(s, steps) + After(s, steps).server.waiting
    decreases |steps|
  {
    if steps != [] {
      var s' := Apply(s, steps[0]);
      StepKeepsOrder(s, steps[0]);
      FirstComeFirstRetried(s', steps[1..]);
      OrderChain(s.server.waiting, JoinsAt(s, steps[0]), RetriedAt(s, steps[0]), s'.server.waiting,
                 Joined(s', steps[1..]), Retried(s', steps[1..]), After(s, steps).server.waiting);
    }
  }

  lemma OrderChain(w: seq<ClientId>, j: seq<ClientId>, r: seq<ClientId>, w': seq<ClientId>,
                   js: seq<ClientId>, rs: seq<ClientId>, w'': seq<ClientId>)
    requires w + j == r + w' && w' + js == rs + w''
    ensures w + (j + js) == (r + rs) + w''
  {
    assert w + (j + js) == (w + j) + js;
    assert (r + w') + js == r + (w' + js);
    assert r + (rs + w'') == (r + rs) + w'';
  }
}
