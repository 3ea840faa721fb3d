/** What the server puts on the network for each request, and that no waiting call is ever stuck. */
module AtMostOnceReplies {
  import opened Basics
  import opened ReplyWindow
  import opened AtMostOnce
  import opened AtMostOnceProofs
  import opened AtMostOnceHistory

  // ----- one request -----

  /** What the server remembers of a call: nothing, that it is being worked on, or its reply. */
  ghost function Remembers(s: State, id: CallId): Option<Option<Reply>> {
    var t := Table(WindowOf(s, id.clt).entries);
    if id.xid in t then Some(t[id.xid]) else None
  }

  ghost predicate IsForgotten(s: State, id: CallId) {
    WindowOf(s, id.clt).entries != [] && id.xid <= WindowOf(s, id.clt).bound
  }

  /**
   `dispatch` on any request that the network delivers.  A call below the bound is refused with
   the at-most-once failure; one that is finished gets its saved reply once more; one that is
   being worked on gets nothing; any other becomes a job on its own arguments.
   */
  lemma DispatchAnswers(s: State, m: Request)
    requires Inv(s) && m in s.requests
    ensures var s' := Apply(s, Classify(m));
            if IsForgotten(s, m.id) then
              s' == s.(responses := s.responses + {Response(m.id, Reply(-4, []))})
            else
              match Remembers(s, m.id)
              case Some(Some(r)) => s' == s.(responses := s.responses + {Response(m.id, r)})
              case Some(None) => s' == s
              case None => s'.responses == s.responses && s'.jobs == s.jobs + [Job(m.id, m.args, Pending)]
  {
    assert WindowOk(s, m.id.clt);
    ClassifyReadsTable(WindowOf(s, m.id.clt), m.id.xid);
  }

  /** A worker that has saved its reply puts exactly that reply on the network. */
  lemma SendAnswers(s: State, j: nat)
    requires Enabled(s, Send(j))
    ensures Apply(s, Send(j)).responses == s.responses + {Response(s.jobs[j].id, s.jobs[j].phase.reply)}
    ensures Apply(s, Send(j)).jobs[j] == s.jobs[j].(phase := Sent(s.jobs[j].phase.reply))
  {
  }

  // ----- over runs -----

  /** Every reply that was sent is on the network, and every issued call has its request there. */
  ghost predicate NetworkOk(s: State) {
    && (forall j :: 0 <= j < |s.jobs| && s.jobs[j].phase.Sent? ==>
          Response(s.jobs[j].id, s.jobs[j].phase.reply) in s.responses)
    && (forall id :: Issued(s, id) ==> Requested(s, id))
  }

  lemma RequestedStays(s: State, step: Step, id: CallId)
    requires Enabled(s, step) && Requested(s, id)
    ensures Requested(Apply(s, step), id)
  {
    var m :| m in s.requests && m.id == id;
    assert m in Apply(s, step).requests;
  }

  lemma StepKeepsNetwork(s: State, step: Step)
    requires Inv(s) && NetworkOk(s) && Enabled(s, step)
    ensures NetworkOk(Apply(s, step))
  {
    var s' := Apply(s, step);
    forall id | Issued(s', id) ensures Requested(s', id) {
      if Issued(s, id) {
        RequestedStays(s, step, id);
      } else {
        StartIssues(s, step, id);
      }
    }
  }

  lemma StartIssues(s: State, step: Step, id: CallId)
    requires Inv(s) && Enabled(s, step) && Issued(Apply(s, step), id) && !Issued(s, id)
    ensures Requested(Apply(s, step), id)
  {
    assert id.clt in s.clients && 1 <= s.clients[id.clt].nextXid;
    ClientStep(s, step, id.clt, id.xid);
    assert step.Start? && step.clt == id.clt && id.xid == s.clients[id.clt].nextXid;
    var m := StartCall(s.clients[id.clt], id.clt, step.args).1;
    assert m in Apply(s, step).requests && m.id == id;
  }

  lemma {:induction false} RunKeepsNetwork(s: State, steps: seq<Step>)
    requires Inv(s) && NetworkOk(s) && Legal(s, steps)
    ensures Inv(After(s, steps)) && NetworkOk(After(s, steps))
    decreases |steps|
  {
    if steps != [] {
      StepKeepsInv(s, steps[0]);
      StepKeepsNetwork(s, steps[0]);
      RunKeepsNetwork(Apply(s, steps[0]), steps[1..]);
    }
  }

  lemma ReachableNetwork(nonces: set<nat>, steps: seq<Step>)
    requires 0 !in nonces && Legal(Init(nonces), steps)
    ensures Inv(After(Init(nonces), steps)) && NetworkOk(After(Init(nonces), steps))
  {
    InitInv(nonces);
    RunKeepsNetwork(Init(nonces), steps);
  }

  /**
   In every run: when the reply to a waiting call has been saved but may have been lost,
   delivering its request once more puts that very reply on the network.
   */
  lemma RedeliveryResends(nonces: set<nat>, steps: seq<Step>, m: Request, j: nat)
    requires 0 !in nonces && Legal(Init(nonces), steps)
    requires var s := After(Init(nonces), steps);
             && m in s.requests && IsWaiting(s, m.id) && j < |s.jobs| && s.jobs[j].id == m.id
             && (s.jobs[j].phase.Saved? || s.jobs[j].phase.Sent?)
    ensures var s := After(Init(nonces), steps);
            Response(m.id, s.jobs[j].phase.reply) in Apply(s, Classify(m)).responses
  {
    ReachableNetwork(nonces, steps);
    var s := After(Init(nonces), steps);
    assert JobForWaiting(s, j) && WindowOk(s, m.id.clt);
    WaitingIsNotForgotten(s, m.id);
    DispatchAnswers(s, m);
  }

  lemma WaitingIsNotForgotten(s: State, id: CallId)
    requires Inv(s) && IsWaiting(s, id)
    ensures !IsForgotten(s, id)
  {
    assert WindowOk(s, id.clt);
    WaitingIsAboveFront(s, id);
  }

  // ----- a waiting call is never stuck -----

  ghost predicate Good(s: State) {
    Inv(s) && NetworkOk(s)
  }

  /** Some continuation completes the call with a reply. */
  ghost predicate Completes(s: State, more: seq<Step>, id: CallId) {
    Legal(s, more) && AnswerOf(After(s, more), id).Some?
  }

  lemma Before(s: State, step: Step, more: seq<Step>, id: CallId)
    requires Enabled(s, step) && Completes(Apply(s, step), more, id)
    ensures Completes(s, [step] + more, id)
  {
    assert ([step] + more)[1..] == more;
  }

  lemma StepKeepsGood(s: State, step: Step)
    requires Good(s) && Enabled(s, step)
    ensures Good(Apply(s, step))
  {
    StepKeepsInv(s, step);
    StepKeepsNetwork(s, step);
  }

  /** Nothing the server does changes who waits. */
  lemma ServerKeepsWaiting(s: State, step: Step, id: CallId)
    requires Enabled(s, step) && (step.Classify? || step.Execute? || step.Save? || step.Send?)
    ensures IsWaiting(Apply(s, step), id) == IsWaiting(s, id)
  {
  }

  lemma FromSent(s: State, j: nat) returns (more: seq<Step>)
    requires Good(s) && j < |s.jobs| && IsWaiting(s, s.jobs[j].id) && s.jobs[j].phase.Sent?
    ensures Completes(s, more, s.jobs[j].id)
  {
    var id, p := s.jobs[j].id, Response(s.jobs[j].id, s.jobs[j].phase.reply);
    assert ClientOk(s.clients[id.clt]);
    ReceiveFrame(s, p, id);
    assert Completes(Apply(s, Receive(p)), [], id);
    Before(s, Receive(p), [], id);
    more := [Receive(p)] + [];
  }

  lemma FromSaved(s: State, j: nat) returns (more: seq<Step>)
    requires Good(s) && j < |s.jobs| && IsWaiting(s, s.jobs[j].id) && s.jobs[j].phase.Saved?
    ensures Completes(s, more, s.jobs[j].id)
  {
    StepKeepsGood(s, Send(j));
    ServerKeepsWaiting(s, Send(j), s.jobs[j].id);
    more := FromSent(Apply(s, Send(j)), j);
    Before(s, Send(j), more, s.jobs[j].id);
    more := [Send(j)] + more;
  }

  lemma FromRan(s: State, j: nat) returns (more: seq<Step>)
    requires Good(s) && j < |s.jobs| && IsWaiting(s, s.jobs[j].id) && s.jobs[j].phase.Ran?
    ensures Completes(s, more, s.jobs[j].id)
  {
    StepKeepsGood(s, Save(j));
    ServerKeepsWaiting(s, Save(j), s.jobs[j].id);
    more := FromSaved(Apply(s, Save(j)), j);
    Before(s, Save(j), more, s.jobs[j].id);
    more := [Save(j)] + more;
  }

  lemma FromPending(s: State, j: nat) returns (more: seq<Step>)
    requires Good(s) && j < |s.jobs| && IsWaiting(s, s.jobs[j].id) && s.jobs[j].phase.Pending?
    ensures Completes(s, more, s.jobs[j].id)
  {
    var step := Execute(j, Reply(0, []));
    StepKeepsGood(s, step);
    ServerKeepsWaiting(s, step, s.jobs[j].id);
    more := FromRan(Apply(s, step), j);
    Before(s, step, more, s.jobs[j].id);
    more := [step] + more;
  }

  /** No worker has it: its request is still on the network and is not taken for an old one. */
  lemma FromRequest(s: State, id: CallId) returns (more: seq<Step>)
    requires Good(s) && IsWaiting(s, id) && !Accepted(s, id)
    ensures Completes(s, more, id)
  {
    assert ClientOk(s.clients[id.clt]) && Issued(s, id);
    var m :| m in s.requests && m.id == id;
    WaitingIsNotForgotten(s, id);
    assert WindowOk(s, id.clt);
    assert Remembers(s, id).Some? ==> Accepted(s, CallId(id.clt, id.xid));
    DispatchAnswers(s, m);
    StepKeepsGood(s, Classify(m));
    ServerKeepsWaiting(s, Classify(m), id);
    more := FromPending(Apply(s, Classify(m)), |s.jobs|);
    Before(s, Classify(m), more, id);
    more := [Classify(m)] + more;
  }

  /**
   In every run, however many messages were lost: a call that is still waiting can be completed
   by a reply, without the client sending anything new.
   */
  lemma WaitingCallsCanComplete(nonces: set<nat>, steps: seq<Step>, id: CallId) returns (more: seq<Step>)
    requires 0 !in nonces && Legal(Init(nonces), steps) && IsWaiting(After(Init(nonces), steps), id)
    ensures Completes(After(Init(nonces), steps), more, id)
  {
    var s := After(Init(nonces), steps);
    ReachableNetwork(nonces, steps);
    if Accepted(s, id) {
      var j :| 0 <= j < |s.jobs| && s.jobs[j].id == id;
      match s.jobs[j].phase
      case Pending => more := FromPending(s, j);
      case Ran(_) => more := FromRan(s, j);
      case Saved(_) => more := FromSaved(s, j);
      case Sent(_) => more := FromSent(s, j);
    } else {
      more := FromRequest(s, id);
    }
  }
}
