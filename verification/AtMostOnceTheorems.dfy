/** End-to-end properties of the RPC protocol, over every run. */
module AtMostOnceTheorems {
  import opened Basics
  import XidWindow
  import opened ReplyWindow
  import opened AtMostOnce
  import opened AtMostOnceProofs

  function Verdict(s: State, m: Request): Class {
    ReplyWindow.Classify(WindowOf(s, m.id.clt), m.id.xid)
  }

  // ----- calls still waiting: no hypothesis needed -----

  /**
   On any network, a call still waiting at its client has been accepted, and so executed, at
   most once; no copy of its request can be classified as forgotten; and every reply sent for
   it carries what that one execution returned.
   */
  lemma WaitingCallsAreSafe(nonces: set<nat>, steps: seq<Step>, id: CallId)
    requires 0 !in nonces && Legal(Init(nonces), steps)
    requires IsWaiting(After(Init(nonces), steps), id)
    ensures var s := After(Init(nonces), steps);
            && (forall i, j :: 0 <= i < |s.jobs| && 0 <= j < |s.jobs| && s.jobs[i].id == s.jobs[j].id == id ==> i == j)
            && (forall m :: m in s.requests && m.id == id ==> !Verdict(s, m).Forgotten?)
            && (forall p :: p in s.responses && p.id == id ==> exists j :: FirstRun(s, id, j, p.reply))
  {
    var s := After(Init(nonces), steps);
    InitInv(nonces);
    RunKeepsInv(Init(nonces), steps);
    forall i, j | 0 <= i < |s.jobs| && 0 <= j < |s.jobs| && s.jobs[i].id == s.jobs[j].id == id ensures i == j {
      assert JobForWaiting(s, i);
    }
    assert WindowOk(s, id.clt);
    WaitingIsAboveFront(s, id);
    ClassifyReadsTable(WindowOf(s, id.clt), id.xid);
    forall p | p in s.responses && p.id == id ensures exists j :: FirstRun(s, id, j, p.reply) {
      ReplyIsFirstRun(s, p);
    }
  }

  /** A completed call returned exactly what its first execution produced, however the run went on. */
  lemma CompletedCallsGotTheirExecution(nonces: set<nat>, steps: seq<Step>, id: CallId)
    requires 0 !in nonces && Legal(Init(nonces), steps)
    ensures var s := After(Init(nonces), steps);
            && (id in s.answers ==> exists j :: FirstRun(s, id, j, s.answers[id]))
            && (AnswerOf(s, id).Some? ==> id in s.answers && s.answers[id] == AnswerOf(s, id).value)
  {
    InitInv(nonces);
    RunKeepsInv(Init(nonces), steps);
  }

  /** A call is completed by a reply at most once: however the run goes on, its answer stays. */
  lemma {:induction false} AnswersAreFinal(s: State, steps: seq<Step>, id: CallId)
    requires Inv(s) && Legal(s, steps) && id in s.answers
    ensures id in After(s, steps).answers && After(s, steps).answers[id] == s.answers[id]
    decreases |steps|
  {
    if steps != [] {
      StepKeepsInv(s, steps[0]);
      StepKeepsAnswer(s, steps[0], id);
      AnswersAreFinal(Apply(s, steps[0]), steps[1..], id);
    }
  }

  lemma StepKeepsAnswer(s: State, step: Step, id: CallId)
    requires AnswersOk(s) && Enabled(s, step) && id in s.answers
    ensures id in Apply(s, step).answers && Apply(s, step).answers[id] == s.answers[id]
  {
    assert !IsWaiting(s, id);
    if !step.Receive? {
      assert Apply(s, step).answers == s.answers;
    }
  }

  /** Every request on the network acknowledges only calls older than itself, and later calls acknowledge more. */
  lemma RequestsAcknowledgeOlderCalls(nonces: set<nat>, steps: seq<Step>, m: Request, m': Request)
    requires 0 !in nonces && Legal(Init(nonces), steps)
    requires m in After(Init(nonces), steps).requests && m' in After(Init(nonces), steps).requests
    ensures m.xidRep < m.id.xid
    ensures m.id.clt == m'.id.clt && m.id.xid <= m'.id.xid ==> m.xidRep <= m'.xidRep
    ensures m.id == m'.id ==> m == m'
  {
    InitInv(nonces);
    RunKeepsInv(Init(nonces), steps);
    assert RequestOk(After(Init(nonces), steps), m) && Stamped(m, m');
  }

  // ----- completed calls: exactly when a late duplicate is recognised -----

  ghost predicate CoveredJob(s: State, j: nat)
    requires j < |s.jobs|
  {
    var w := WindowOf(s, s.jobs[j].id.clt);
    s.jobs[j].id.xid in Table(w.entries) || s.jobs[j].id.xid <= w.bound
  }

  /** Every accepted call is still in its client's list, or at most at the bound. */
  ghost predicate Covered(s: State) {
    forall j :: 0 <= j < |s.jobs| ==> CoveredJob(s, j)
  }

  /** However the network redelivers an accepted request, the server does not take it for a new one. */
  ghost predicate Recognises(s: State) {
    forall m :: m in s.requests && Accepted(s, m.id) ==> !Verdict(s, m).New?
  }

  lemma CoveredIffRecognises(s: State)
    requires Inv(s)
    ensures Covered(s) <==> Recognises(s)
  {
    forall m | m in s.requests && Accepted(s, m.id)
      ensures Verdict(s, m).New? <==>
              exists j :: 0 <= j < |s.jobs| && s.jobs[j].id == m.id && !CoveredJob(s, j)
    {
      assert WindowOk(s, m.id.clt);
      ClassifyReadsTable(WindowOf(s, m.id.clt), m.id.xid);
      var j :| 0 <= j < |s.jobs| && s.jobs[j].id == m.id;
      if Verdict(s, m).New? {
        assert Accepted(s, CallId(m.id.clt, m.id.xid));
        assert !CoveredJob(s, j);
      }
    }
    forall j | 0 <= j < |s.jobs| && !CoveredJob(s, j)
      ensures exists m :: m in s.requests && Accepted(s, m.id) && Verdict(s, m).New?
    {
      assert Requested(s, s.jobs[j].id);
      var m :| m in s.requests && m.id == s.jobs[j].id;
      assert Accepted(s, m.id);
    }
  }

  /** Accepting `m` would drop the bound below a call that has been accepted and already forgotten. */
  ghost predicate Uncovers(s: State, m: Request) {
    exists j :: 0 <= j < |s.jobs| && s.jobs[j].id.clt == m.id.clt
                && m.xidRep < s.jobs[j].id.xid <= WindowOf(s, m.id.clt).bound
  }

  lemma AcceptCoveredIff(s: State, m: Request)
    requires Inv(s) && Covered(s) && m in s.requests && Verdict(s, m).New?
    ensures Covered(ApplyClassify(s, m)) <==> !Uncovers(s, m)
  {
    var s', n := ApplyClassify(s, m), m.id.clt;
    var w := WindowOf(s, n);
    assert WindowOk(s, n) && RequestOk(s, m);
    ClassifyReadsTable(w, m.id.xid);
    AcceptTable(w, m.id.xid, m.xidRep);
    assert s'.jobs == s.jobs + [Job(m.id, m.args, Pending)];
    assert WindowOf(s', n) == Accept(w, m.id.xid, m.xidRep);
    assert CoveredJob(s', |s.jobs|);
    forall j | 0 <= j < |s.jobs|
      ensures CoveredJob(s', j) <==>
              !(s.jobs[j].id.clt == n && m.xidRep < s.jobs[j].id.xid <= w.bound)
    {
      assert s'.jobs[j] == s.jobs[j] && CoveredJob(s, j);
      assert s.jobs[j].id.clt != n ==> WindowOf(s', s.jobs[j].id.clt) == WindowOf(s, s.jobs[j].id.clt);
      if s.jobs[j].id.clt == n && s.jobs[j].id.xid <= w.bound {
        assert s.jobs[j].id.xid !in Table(w.entries);
      }
    }
    if Uncovers(s, m) {
      var j :| 0 <= j < |s.jobs| && s.jobs[j].id.clt == n && m.xidRep < s.jobs[j].id.xid <= w.bound;
      assert !CoveredJob(s', j);
    }
  }

  ghost predicate SameCalls(s: State, s': State) {
    |s'.jobs| == |s.jobs| && forall j :: 0 <= j < |s.jobs| ==> s'.jobs[j].id == s.jobs[j].id
  }

  /** Which calls are covered depends on the accepted calls and the windows only. */
  lemma CoveredFrame(s: State, s': State)
    requires SameCalls(s, s') && s'.windows == s.windows
    ensures Covered(s') <==> Covered(s)
  {
    forall j | 0 <= j < |s.jobs| ensures CoveredJob(s', j) <==> CoveredJob(s, j) {
    }
  }

  lemma OtherStepsKeepCalls(s: State, step: Step)
    requires Enabled(s, step)
    requires step.Classify? ==> !Verdict(s, step.m).New?
    ensures SameCalls(s, Apply(s, step))
    ensures !step.Save? ==> Apply(s, step).windows == s.windows
  {
  }

  /** Steps other than accepting a request leave the covered calls as they are. */
  lemma OtherStepsKeepCovered(s: State, step: Step)
    requires Inv(s) && Enabled(s, step)
    requires step.Classify? ==> !Verdict(s, step.m).New?
    ensures Covered(Apply(s, step)) <==> Covered(s)
    ensures SameCalls(s, Apply(s, step))
  {
    OtherStepsKeepCalls(s, step);
    if step.Save? {
      SaveKeepsCovered(s, step.j);
    } else {
      CoveredFrame(s, Apply(s, step));
    }
  }

  lemma SaveKeepsCovered(s: State, i: nat)
    requires Inv(s) && Enabled(s, Save(i))
    ensures Covered(ApplySave(s, i)) <==> Covered(s)
  {
    var id := s.jobs[i].id;
    assert WindowOk(s, id.clt);
    AddReplyTable(WindowOf(s, id.clt).entries, id.xid, s.jobs[i].phase.reply);
    SameTablesKeepCovered(s, ApplySave(s, i));
  }

  lemma SameTablesKeepCovered(s: State, s': State)
    requires SameCalls(s, s')
    requires forall n :: WindowOf(s', n).bound == WindowOf(s, n).bound
    requires forall n :: Table(WindowOf(s', n).entries).Keys == Table(WindowOf(s, n).entries).Keys
    ensures Covered(s') <==> Covered(s)
  {
    forall j | 0 <= j < |s.jobs| ensures CoveredJob(s', j) <==> CoveredJob(s, j) {
      var n := s.jobs[j].id.clt;
      assert Table(WindowOf(s', n).entries).Keys == Table(WindowOf(s, n).entries).Keys;
    }
  }

  /** Along the run, no accepted request drops the bound below a forgotten call. */
  ghost predicate NeverUncovers(s: State, steps: seq<Step>)
    requires Legal(s, steps)
    decreases |steps|
  {
    steps != [] ==>
      && (steps[0].Classify? && Verdict(s, steps[0].m).New? ==> !Uncovers(s, steps[0].m))
      && NeverUncovers(Apply(s, steps[0]), steps[1..])
  }

  ghost predicate AlwaysRecognises(s: State, steps: seq<Step>)
    requires Legal(s, steps)
    decreases |steps|
  {
    && Recognises(s)
    && (steps != [] ==> AlwaysRecognises(Apply(s, steps[0]), steps[1..]))
  }

  /**
   The exact condition for at-most-once execution beyond the return of a call: throughout a
   run every redelivered request is recognised if and only if no request is ever accepted
   whose `xid_rep` would uncover a forgotten call.
   */
  lemma {:induction false} RecognisesIffNeverUncovers(s: State, steps: seq<Step>)
    requires Inv(s) && Covered(s) && Legal(s, steps)
    ensures AlwaysRecognises(s, steps) <==> NeverUncovers(s, steps)
    decreases |steps|
  {
    CoveredIffRecognises(s);
    if steps != [] {
      var s' := Apply(s, steps[0]);
      StepKeepsInv(s, steps[0]);
      if steps[0].Classify? && Verdict(s, steps[0].m).New? {
        AcceptCoveredIff(s, steps[0].m);
      } else {
        OtherStepsKeepCovered(s, steps[0]);
      }
      CoveredIffRecognises(s');
      if Covered(s') {
        RecognisesIffNeverUncovers(s', steps[1..]);
      }
    }
  }

  ghost predicate AcceptedOnce(s: State) {
    forall i, j :: 0 <= i < |s.jobs| && 0 <= j < |s.jobs| && s.jobs[i].id == s.jobs[j].id ==> i == j
  }

  lemma {:induction false} RecognisingRunsAcceptOnce(s: State, steps: seq<Step>)
    requires Inv(s) && AcceptedOnce(s) && Legal(s, steps) && AlwaysRecognises(s, steps)
    ensures AcceptedOnce(After(s, steps))
    decreases |steps|
  {
    if steps != [] {
      var s' := Apply(s, steps[0]);
      StepKeepsInv(s, steps[0]);
      if steps[0].Classify? && Verdict(s, steps[0].m).New? {
        assert !Accepted(s, steps[0].m.id);
        assert s'.jobs == s.jobs + [Job(steps[0].m.id, steps[0].m.args, Pending)];
      } else {
        OtherStepsKeepCovered(s, steps[0]);
      }
      RecognisingRunsAcceptOnce(s', steps[1..]);
    }
  }

  // ----- two ways to meet the condition -----

  /** The bound stored when a request is accepted never decreases. */
  ghost predicate MonotoneBound(s: State, steps: seq<Step>)
    requires Legal(s, steps)
    decreases |steps|
  {
    steps != [] ==>
      && (steps[0].Classify? && Verdict(s, steps[0].m).New? ==>
            steps[0].m.xidRep >= WindowOf(s, steps[0].m.id.clt).bound)
      && MonotoneBound(Apply(s, steps[0]), steps[1..])
  }

  /** Each client's requests are accepted in increasing order of xid. */
  ghost predicate InOrder(s: State, steps: seq<Step>)
    requires Legal(s, steps)
    decreases |steps|
  {
    steps != [] ==>
      && (steps[0].Classify? && Verdict(s, steps[0].m).New? ==>
            forall j :: 0 <= j < |s.jobs| && s.jobs[j].id.clt == steps[0].m.id.clt ==>
              s.jobs[j].id.xid <= steps[0].m.id.xid)
      && InOrder(Apply(s, steps[0]), steps[1..])
  }

  lemma {:induction false} InOrderIsMonotone(s: State, steps: seq<Step>)
    requires Inv(s) && Legal(s, steps) && InOrder(s, steps)
    ensures MonotoneBound(s, steps)
    decreases |steps|
  {
    if steps != [] {
      if steps[0].Classify? && Verdict(s, steps[0].m).New? {
        var m := steps[0].m;
        assert WindowOk(s, m.id.clt);
        if WindowOf(s, m.id.clt).entries != [] {
          var bound := WindowOf(s, m.id.clt).bound;
          var r :| r in s.requests && r.id.clt == m.id.clt && r.xidRep == bound && Accepted(s, r.id);
          assert Stamped(r, m);
        }
      }
      StepKeepsInv(s, steps[0]);
      InOrderIsMonotone(Apply(s, steps[0]), steps[1..]);
    }
  }

  lemma {:induction false} MonotoneNeverUncovers(s: State, steps: seq<Step>)
    requires Legal(s, steps) && MonotoneBound(s, steps)
    ensures NeverUncovers(s, steps)
    decreases |steps|
  {
    if steps != [] {
      MonotoneNeverUncovers(Apply(s, steps[0]), steps[1..]);
    }
  }

  /**
   In every run where the stored bound never decreases, no request is executed twice, even
   after its call has returned.  Accepting each client's requests in xid order is enough.
   */
  lemma MonotoneRunsExecuteOnce(nonces: set<nat>, steps: seq<Step>)
    requires 0 !in nonces && Legal(Init(nonces), steps)
    requires MonotoneBound(Init(nonces), steps) || InOrder(Init(nonces), steps)
    ensures AcceptedOnce(After(Init(nonces), steps))
    ensures Covered(After(Init(nonces), steps))
  {
    var s := Init(nonces);
    InitInv(nonces);
    if InOrder(s, steps) {
      InOrderIsMonotone(s, steps);
    }
    MonotoneNeverUncovers(s, steps);
    RecognisesIffNeverUncovers(s, steps);
    RecognisingRunsAcceptOnce(s, steps);
    RunKeepsInv(s, steps);
    RecognisesAtEnd(s, steps);
    CoveredIffRecognises(After(s, steps));
  }

  lemma {:induction false} RecognisesAtEnd(s: State, steps: seq<Step>)
    requires Legal(s, steps) && AlwaysRecognises(s, steps)
    ensures Recognises(After(s, steps))
    decreases |steps|
  {
    if steps != [] {
      RecognisesAtEnd(Apply(s, steps[0]), steps[1..]);
    }
  }

  // ----- the condition is needed -----

  ghost predicate Leads(s: State, steps: seq<Step>, s': State) {
    Legal(s, steps) && After(s, steps) == s'
  }

  lemma {:induction false} Then(s: State, steps: seq<Step>, s': State, step: Step)
    requires Leads(s, steps, s') && Enabled(s', step)
    ensures Leads(s, steps + [step], Apply(s', step))
    decreases |steps|
  {
    if steps == [] {
      assert [step][1..] == [] && [] + [step] == [step];
      assert After(Apply(s, step), []) == Apply(s, step);
    } else {
      Then(Apply(s, steps[0]), steps[1..], s', step);
      assert (steps + [step])[1..] == steps[1..] + [step];
    }
  }

  /** The bound stored for client `n` at the end of a run. */
  ghost predicate EndsWithBound(steps: seq<Step>, n: nat, bound: nat) {
    n != 0 && Legal(Init({n}), steps) && WindowOf(After(Init({n}), steps), n).bound == bound
  }

  ghost predicate EndsAnswered(steps: seq<Step>, id: CallId) {
    id.clt != 0 && Legal(Init({id.clt}), steps) && id in After(Init({id.clt}), steps).answers
  }

  /** The call has been accepted and executed twice, with two other calls accepted in between. */
  ghost predicate EndsExecutedTwice(steps: seq<Step>, id: CallId) {
    && id.clt != 0 && Legal(Init({id.clt}), steps)
    && var jobs := After(Init({id.clt}), steps).jobs;
       |jobs| == 4 && Executed(jobs[0]) && Executed(jobs[3]) && jobs[0].id == jobs[3].id == id
  }

  /**
   Call 3 acknowledges call 1 and is accepted before call 2, which does not: the bound falls
   from 1 (after `high`) back to 0 (after `low`), and a late copy of call 1, which was answered
   long ago, is executed a second time.
   */
  lemma LateDuplicateRunsTwice() returns (high: seq<Step>, low: seq<Step>, steps: seq<Step>)
    ensures high <= low <= steps
    ensures EndsWithBound(high, 7, 1) && EndsWithBound(low, 7, 0)
    ensures EndsAnswered(high, CallId(7, 1)) && EndsExecutedTwice(steps, CallId(7, 1))
  {
    var ok := Reply(0, []);
    var r6 := FirstCallAnswered(ok);
    var r8 := ThirdCallStarted(ok, r6);
    assert ThirdStarted(ok).requests == {Req(1, 0), Req(2, 0), Req(3, 1)};
    Then(Init({7}), r8, ThirdStarted(ok), Classify(Req(3, 1)));
    high := r8 + [Classify(Req(3, 1))];
    AcceptThird(ok);
    var s9 := Apply(ThirdStarted(ok), Classify(Req(3, 1)));
    assert s9.windows == map[7 := Window([Entry(3, None)], 1)];
    Then(Init({7}), high, s9, Classify(Req(2, 0)));
    low := high + [Classify(Req(2, 0))];
    AcceptSecond();
    var s10 := Apply(s9, Classify(Req(2, 0)));
    assert s10.windows == map[7 := Window([Entry(2, None), Entry(3, None)], 0)];
    Then(Init({7}), low, s10, Classify(Req(1, 0)));
    AcceptFirstAgain();
    var s11 := Apply(s10, Classify(Req(1, 0)));
    assert s11.jobs[3] == Job(CallId(7, 1), [], Pending);
    Then(Init({7}), low + [Classify(Req(1, 0))], s11, Execute(3, ok));
    steps := low + [Classify(Req(1, 0))] + [Execute(3, ok)];
  }

  function Req(xid: nat, xidRep: nat): Request {
    Request(CallId(7, xid), xidRep, [])
  }

  /** Calls 1 and 2 have started. */
  function TwoStarted(): State {
    State(map[7 := Client(3, map[1 := Waiting, 2 := Waiting], [0], false, {})],
          map[], [], {Req(1, 0), Req(2, 0)}, {}, map[])
  }

  /** Call 1 has been executed and its reply saved and sent. */
  function FirstSent(ok: Reply): State {
    TwoStarted().(windows := map[7 := Window([Entry(1, Some(ok))], 0)],
                  jobs := [Job(CallId(7, 1), [], Sent(ok))],
                  responses := {Response(CallId(7, 1), ok)})
  }

  /** The reply to call 1 has arrived, and call 3 has started. */
  function ThirdStarted(ok: Reply): State {
    FirstSent(ok).(
      clients := map[7 := Client(4, map[1 := Answered(ok), 2 := Waiting, 3 := Waiting], [1], false, {1})],
      requests := {Req(1, 0), Req(2, 0), Req(3, 1)},
      answers := map[CallId(7, 1) := ok])
  }

  lemma FirstCallAnswered(ok: Reply) returns (steps: seq<Step>)
    requires ok.ret >= 0
    ensures Leads(Init({7}), steps, FirstSent(ok))
  {
    var s0 := Init({7});
    Then(s0, [], s0, Start(7, []));
    var s1 := Apply(s0, Start(7, []));
    Then(s0, [] + [Start(7, [])], s1, Start(7, []));
    steps := [] + [Start(7, [])] + [Start(7, [])];
    assert Apply(s1, Start(7, [])) == TwoStarted();
    Then(s0, steps, TwoStarted(), Classify(Req(1, 0)));
    steps := steps + [Classify(Req(1, 0))];
    var s3 := Apply(TwoStarted(), Classify(Req(1, 0)));
    assert s3.windows == map[7 := Window([Entry(1, None)], 0)] && s3.jobs == [Job(CallId(7, 1), [], Pending)];
    Then(s0, steps, s3, Execute(0, ok));
    steps := steps + [Execute(0, ok)];
    var s4 := Apply(s3, Execute(0, ok));
    Then(s0, steps, s4, Save(0));
    steps := steps + [Save(0)];
    assert AddReply([Entry(1, None)], 1, ok) == [Entry(1, Some(ok))];
    var s5 := Apply(s4, Save(0));
    Then(s0, steps, s5, Send(0));
    steps := steps + [Send(0)];
    assert Apply(s5, Send(0)) == FirstSent(ok);
  }

  lemma ThirdCallStarted(ok: Reply, steps: seq<Step>) returns (more: seq<Step>)
    requires Leads(Init({7}), steps, FirstSent(ok))
    ensures Leads(Init({7}), more, ThirdStarted(ok))
  {
    var p := Response(CallId(7, 1), ok);
    assert XidWindow.Update([0], 1) == [1] by {
      assert XidWindow.Insert([], 1) == [1] && [0][1..] == [] && [0, 1][1..] == [1];
      assert XidWindow.Insert([0], 1) == [0, 1];
      assert XidWindow.Compress([1], 0) == XidWindow.Compress([1], 1) == [1];
    }
    Then(Init({7}), steps, FirstSent(ok), Receive(p));
    var s7 := Apply(FirstSent(ok), Receive(p));
    var c7 := Client(3, map[1 := Answered(ok), 2 := Waiting], [1], false, {1});
    assert s7.clients[7].calls == c7.calls && s7.clients[7].reported == c7.reported;
    assert s7.clients[7] == c7;
    Then(Init({7}), steps + [Receive(p)], s7, Start(7, []));
    more := steps + [Receive(p)] + [Start(7, [])];
    var s8 := Apply(s7, Start(7, []));
    assert s8.clients[7].calls == ThirdStarted(ok).clients[7].calls;
    assert s8.clients == ThirdStarted(ok).clients;
    assert s8.requests == ThirdStarted(ok).requests;
    assert s8 == ThirdStarted(ok);
  }

  lemma AcceptThird(ok: Reply)
    ensures Check(Window([Entry(1, Some(ok))], 0), 3, 1) == (New, Window([Entry(3, None)], 1))
  {
    var es := [Entry(1, Some(ok))];
    assert es[1..] == [] && InsertNew([], 3) == [Entry(3, None)];
    assert InsertNew(es, 3) == [es[0], Entry(3, None)];
    assert [es[0], Entry(3, None)][1..] == [Entry(3, None)];
    assert Prune([Entry(3, None)], 1) == [Entry(3, None)];
    assert Scan([], 3) == New;
  }

  lemma AcceptSecond()
    ensures Check(Window([Entry(3, None)], 1), 2, 0) == (New, Window([Entry(2, None), Entry(3, None)], 0))
  {
    assert [Entry(3, None)][1..] == [] && Scan([], 2) == New;
    assert InsertNew([Entry(3, None)], 2) == [Entry(2, None), Entry(3, None)];
    assert Scan([Entry(3, None)], 2) == New;
  }

  lemma AcceptFirstAgain()
    ensures Check(Window([Entry(2, None), Entry(3, None)], 0), 1, 0).0 == New
  {
    assert [Entry(2, None), Entry(3, None)][1..] == [Entry(3, None)] && [Entry(3, None)][1..] == [];
    assert Scan([], 1) == New;
    assert Scan([Entry(3, None)], 1) == New;
  }
}
