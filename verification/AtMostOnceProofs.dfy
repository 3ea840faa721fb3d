/** The invariant of `AtMostOnce` holds initially and is kept by every step. */
module AtMostOnceProofs {
  import opened Basics
  import XidWindow
  import opened ReplyWindow
  import opened AtMostOnce

  // ----- client steps -----

  lemma ReportKeepsClient(c: Client, xid: nat)
    requires ClientOk(c) && 1 <= xid < c.nextXid
    requires xid in c.calls ==> !c.calls[xid].Waiting?
    ensures ClientOk(Report(c, xid))
    ensures Report(c, xid).window[0] >= c.window[0]
  {
    XidWindow.UpdateRepresents(c.window, xid, c.reported);
  }

  /** A client-side step that issues nothing: fewer calls wait, and the window's front may rise. */
  ghost predicate Progress(c: Client, c': Client) {
    && ClientOk(c) && ClientOk(c')
    && c'.nextXid == c.nextXid
    && c'.window[0] >= c.window[0]
    && forall x :: x in c'.calls && c'.calls[x].Waiting? ==> x in c.calls && c.calls[x].Waiting?
  }

  lemma GotReplyProgress(c: Client, xid: nat, reply: Reply)
    requires ClientOk(c) && 1 <= xid < c.nextXid
    ensures Progress(c, GotReply(c, xid, reply))
  {
    XidWindow.UpdateRepresents(c.window, xid, c.reported);
  }

  lemma FinishProgress(c: Client, xid: nat)
    requires ClientOk(c) && xid in c.calls
    ensures Progress(c, FinishCall(c, xid))
  {
    ReportKeepsClient(c.(calls := c.calls - {xid}), xid);
  }

  /** A window stays in order when its client's front does not fall and nothing of that client is accepted. */
  lemma WindowFrame(s: State, s': State, k: nat)
    requires ClientsOk(s) && ClientsOk(s') && WindowOk(s, k) && WindowOf(s', k) == WindowOf(s, k)
    requires s.requests <= s'.requests && s'.clients.Keys == s.clients.Keys
    requires k in s.clients ==> s'.clients[k].window[0] >= s.clients[k].window[0]
    requires forall x :: Accepted(s', CallId(k, x)) <==> Accepted(s, CallId(k, x))
    ensures WindowOk(s', k)
  {
    if WindowOf(s, k).entries != [] {
      var m :| m in s.requests && m.id.clt == k && m.xidRep == WindowOf(s, k).bound && Accepted(s, m.id);
      assert m.id == CallId(k, m.id.xid);
    }
  }

  lemma ProgressKeepsInv(s: State, s': State, n: nat)
    requires Inv(s)
    requires n in s.clients && s'.clients.Keys == s.clients.Keys
    requires s' == s.(clients := s'.clients, answers := s'.answers)
    requires forall k :: k in s.clients && k != n ==> s'.clients[k] == s.clients[k]
    requires Progress(s.clients[n], s'.clients[n])
    requires AnswersOk(s')
    ensures Inv(s')
  {
    forall k: nat ensures WindowOk(s', k) {
      WindowFrame(s, s', k);
    }
    forall m | m in s'.requests ensures RequestOk(s', m) {
      assert RequestOk(s, m);
    }
    WaitingFrame(s, s');
  }

  /** With the server side untouched, what was promised about waiting calls still holds. */
  lemma WaitingFrame(s: State, s': State)
    requires WaitingOk(s)
    requires s'.jobs == s.jobs && s'.windows == s.windows && s'.responses == s.responses
    requires forall id :: IsWaiting(s', id) && !IsWaiting(s, id) ==>
               !Accepted(s, id) && forall p :: p in s.responses ==> p.id != id
    ensures WaitingOk(s')
  {
    forall j | 0 <= j < |s'.jobs| && IsWaiting(s', s'.jobs[j].id) ensures JobForWaiting(s', j) {
      assert Accepted(s, s.jobs[j].id);
      assert JobForWaiting(s, j);
    }
    forall p | p in s'.responses && IsWaiting(s', p.id) ensures Backed(s', p) {
      assert Backed(s, p);
    }
  }

  lemma StartKeepsClients(s: State, clt: nat, args: Bytes)
    requires ClientsOk(s) && Enabled(s, Start(clt, args))
    ensures ClientsOk(ApplyStart(s, clt, args))
    ensures s.clients[clt].window[0] < s.clients[clt].nextXid
  {
    var c := s.clients[clt];
    assert c.window[0] >= 1 ==> c.window[0] in c.reported;
    assert ClientOk(ApplyStart(s, clt, args).clients[clt]);
  }

  lemma StartKeepsRequests(s: State, clt: nat, args: Bytes)
    requires ClientsOk(s) && RequestsOk(s) && Enabled(s, Start(clt, args))
    ensures ClientsOk(ApplyStart(s, clt, args)) && RequestsOk(ApplyStart(s, clt, args))
  {
    StartKeepsClients(s, clt, args);
    var s' := ApplyStart(s, clt, args);
    var m := StartCall(s.clients[clt], clt, args).1;
    forall m' | m' in s'.requests ensures RequestOk(s', m') && Stamped(m, m') && Stamped(m', m) {
      assert m' == m || RequestOk(s, m');
    }
  }

  lemma StartKeepsWindows(s: State, clt: nat, args: Bytes)
    requires Inv(s) && Enabled(s, Start(clt, args))
    requires ClientsOk(ApplyStart(s, clt, args))
    ensures WindowsOk(ApplyStart(s, clt, args)) && JobsOk(ApplyStart(s, clt, args))
  {
    var s' := ApplyStart(s, clt, args);
    assert s'.jobs == s.jobs && s.requests <= s'.requests;
    forall id ensures Accepted(s', id) <==> Accepted(s, id) {
    }
    forall k: nat ensures WindowOk(s', k) {
      WindowFrame(s, s', k);
    }
    forall j | 0 <= j < |s'.jobs| ensures Issued(s', s'.jobs[j].id) && Requested(s', s'.jobs[j].id) {
      assert Requested(s, s.jobs[j].id);
    }
  }

  /** The new call waits; every other call is as it was. */
  lemma StartFrame(s: State, clt: nat, args: Bytes, id: CallId)
    requires ClientsOk(s) && Enabled(s, Start(clt, args))
    ensures var s' := ApplyStart(s, clt, args);
            && (id != CallId(clt, s.clients[clt].nextXid) ==> IsWaiting(s', id) == IsWaiting(s, id))
            && (AnswerOf(s', id) == AnswerOf(s, id) || AnswerOf(s', id) == None)
            && (Issued(s, id) ==> Issued(s', id) && id != CallId(clt, s.clients[clt].nextXid))
  {
  }

  lemma StartKeepsWaiting(s: State, clt: nat, args: Bytes)
    requires Inv(s) && Enabled(s, Start(clt, args))
    ensures WaitingOk(ApplyStart(s, clt, args)) && AnswersOk(ApplyStart(s, clt, args))
  {
    var s' := ApplyStart(s, clt, args);
    forall id ensures Issued(s, id) ==> Issued(s', id) && (IsWaiting(s', id) ==> IsWaiting(s, id)) {
      StartFrame(s, clt, args, id);
    }
    forall id ensures AnswerOf(s', id) == AnswerOf(s, id) || AnswerOf(s', id) == None {
      StartFrame(s, clt, args, id);
    }
    forall id | IsWaiting(s', id) && !IsWaiting(s, id)
      ensures !Accepted(s, id) && forall p :: p in s.responses ==> p.id != id
    {
      assert !Issued(s, id);
    }
    WaitingFrame(s, s');
    AnswersFrame(s, s');
  }

  lemma StartKeepsInv(s: State, clt: nat, args: Bytes)
    requires Inv(s) && Enabled(s, Start(clt, args))
    ensures Inv(ApplyStart(s, clt, args))
  {
    StartKeepsRequests(s, clt, args);
    StartKeepsWindows(s, clt, args);
    StartKeepsWaiting(s, clt, args);
    assert forall id :: Issued(s, id) ==> Issued(ApplyStart(s, clt, args), id);
  }

  /** A reply completes at most the call it names. */
  lemma ReceiveFrame(s: State, p: Response, id: CallId)
    requires Enabled(s, Receive(p))
    ensures var s' := ApplyReceive(s, p);
            if id == p.id && IsWaiting(s, id) then !IsWaiting(s', id) && AnswerOf(s', id) == Some(p.reply)
            else AnswerOf(s', id) == AnswerOf(s, id) && IsWaiting(s', id) == IsWaiting(s, id)
    ensures Issued(s, id) ==> Issued(ApplyReceive(s, p), id)
  {
  }

  lemma ReceiveKeepsAnswers(s: State, p: Response)
    requires Enabled(s, Receive(p))
    requires ResponsesOk(s) && WaitingOk(s) && AnswersOk(s)
    ensures AnswersOk(ApplyReceive(s, p))
  {
    var s' := ApplyReceive(s, p);
    forall id | id in s'.answers
      ensures Issued(s', id) && !IsWaiting(s', id) && exists j :: FirstRun(s', id, j, s'.answers[id])
    {
      ReceiveFrame(s, p, id);
      if id == p.id && IsWaiting(s, id) {
        ReplyIsFirstRun(s, p);
      }
      var j := FirstRunOf(s, id, s'.answers[id]);
      assert FirstRun(s', id, j, s'.answers[id]);
    }
    forall id | AnswerOf(s', id).Some? ensures id in s'.answers && s'.answers[id] == AnswerOf(s', id).value {
      ReceiveFrame(s, p, id);
    }
  }

  ghost function FirstRunOf(s: State, id: CallId, reply: Reply): (j: nat)
    requires exists j :: FirstRun(s, id, j, reply)
    ensures FirstRun(s, id, j, reply)
  {
    var j :| FirstRun(s, id, j, reply);
    j
  }

  lemma ReceiveKeepsInv(s: State, p: Response)
    requires Inv(s) && Enabled(s, Receive(p))
    ensures Inv(ApplyReceive(s, p))
  {
    GotReplyProgress(s.clients[p.id.clt], p.id.xid, p.reply);
    ReceiveKeepsAnswers(s, p);
    ProgressKeepsInv(s, ApplyReceive(s, p), p.id.clt);
  }

  /** A reply that reaches a waiting call carries what the only execution of that call returned. */
  lemma ReplyIsFirstRun(s: State, p: Response)
    requires WaitingOk(s) && p in s.responses && IsWaiting(s, p.id)
    ensures exists j :: FirstRun(s, p.id, j, p.reply)
  {
    assert Backed(s, p);
    var j :| 0 <= j < |s.jobs| && s.jobs[j].id == p.id && Executed(s.jobs[j]) && s.jobs[j].phase.reply == p.reply;
    assert JobForWaiting(s, j);
    assert FirstRun(s, p.id, j, p.reply);
  }

  /** A client whose calls return or are cancelled leaves all answers as they are. */
  lemma FewerCallsKeepAnswers(s: State, c': Client, n: nat)
    requires AnswersOk(s) && n in s.clients && c'.nextXid == s.clients[n].nextXid
    requires forall x :: x in c'.calls ==>
               x in s.clients[n].calls && (c'.calls[x] == s.clients[n].calls[x] || c'.calls[x].Cancelled?)
    ensures AnswersOk(s.(clients := s.clients[n := c']))
  {
    AnswersFrame(s, s.(clients := s.clients[n := c']));
  }

  lemma FinishKeepsInv(s: State, clt: nat, xid: nat)
    requires Inv(s) && Enabled(s, Finish(clt, xid))
    ensures Inv(Apply(s, Finish(clt, xid)))
  {
    FinishProgress(s.clients[clt], xid);
    FewerCallsKeepAnswers(s, FinishCall(s.clients[clt], xid), clt);
    ProgressKeepsInv(s, Apply(s, Finish(clt, xid)), clt);
  }

  lemma CancelKeepsInv(s: State, clt: nat)
    requires Inv(s) && Enabled(s, Cancel(clt))
    ensures Inv(Apply(s, Cancel(clt)))
  {
    FewerCallsKeepAnswers(s, CancelAll(s.clients[clt]), clt);
    ProgressKeepsInv(s, Apply(s, Cancel(clt)), clt);
  }

  /** Jobs are only appended, and a job that has run keeps its reply. */
  ghost predicate JobsAdvance(s: State, s': State) {
    && |s.jobs| <= |s'.jobs|
    && forall j :: 0 <= j < |s.jobs| ==>
         && s'.jobs[j].id == s.jobs[j].id
         && (Executed(s.jobs[j]) ==> Executed(s'.jobs[j]) && s'.jobs[j].phase.reply == s.jobs[j].phase.reply)
  }

  lemma AnswersFrame(s: State, s': State)
    requires AnswersOk(s) && s'.answers == s.answers && JobsAdvance(s, s')
    requires forall id :: Issued(s, id) ==> Issued(s', id) && (IsWaiting(s', id) ==> IsWaiting(s, id))
    requires forall id :: AnswerOf(s', id) == AnswerOf(s, id) || AnswerOf(s', id) == None
    ensures AnswersOk(s')
  {
    forall id | id in s'.answers ensures exists j :: FirstRun(s', id, j, s'.answers[id]) {
      var j :| FirstRun(s, id, j, s.answers[id]);
      assert FirstRun(s', id, j, s'.answers[id]);
    }
  }

  // ----- server steps -----

  lemma AcceptKeepsInv(s: State, m: Request)
    requires Inv(s) && m in s.requests
    requires ReplyWindow.Classify(WindowOf(s, m.id.clt), m.id.xid).New?
    ensures Inv(ApplyClassify(s, m))
  {
    var n, xid := m.id.clt, m.id.xid;
    var s', w := ApplyClassify(s, m), WindowOf(s, m.id.clt);
    assert WindowOk(s, n) && RequestOk(s, m);
    ClassifyReadsTable(w, xid);
    AcceptTable(w, xid, m.xidRep);
    assert s'.jobs == s.jobs + [Job(m.id, m.args, Pending)];
    AcceptKeepsWindows(s, m);
    forall j | 0 <= j < |s'.jobs| ensures Issued(s', s'.jobs[j].id) && Requested(s', s'.jobs[j].id) {
      if j < |s.jobs| {
        assert Requested(s, s.jobs[j].id);
      }
    }
    AcceptKeepsWaiting(s, m);
    AnswersFrame(s, s');
  }

  lemma AcceptKeepsWindows(s: State, m: Request)
    requires Inv(s) && m in s.requests
    requires ReplyWindow.Classify(WindowOf(s, m.id.clt), m.id.xid).New?
    ensures WindowsOk(ApplyClassify(s, m))
  {
    var s' := ApplyClassify(s, m);
    forall id ensures Accepted(s', id) <==> Accepted(s, id) || id == m.id {
      AcceptedAppend(s, s', id, Job(m.id, m.args, Pending));
    }
    forall k: nat ensures WindowOk(s', k) {
      if k == m.id.clt {
        AcceptKeepsWindow(s, s', m);
      } else {
        WindowFrame(s, s', k);
      }
    }
  }

  /** The window of the client whose request is accepted. */
  lemma AcceptKeepsWindow(s: State, s': State, m: Request)
    requires ClientsOk(s) && RequestsOk(s) && WindowOk(s, m.id.clt) && m in s.requests
    requires ReplyWindow.Classify(WindowOf(s, m.id.clt), m.id.xid).New?
    requires s'.clients == s.clients && s'.requests == s.requests
    requires WindowOf(s', m.id.clt) == Accept(WindowOf(s, m.id.clt), m.id.xid, m.xidRep)
    requires forall id :: Accepted(s', id) <==> Accepted(s, id) || id == m.id
    ensures WindowOk(s', m.id.clt)
  {
    assert RequestOk(s, m);
    ClassifyReadsTable(WindowOf(s, m.id.clt), m.id.xid);
    AcceptTable(WindowOf(s, m.id.clt), m.id.xid, m.xidRep);
  }

  lemma AcceptedAppend(s: State, s': State, id: CallId, last: Job)
    requires s'.jobs == s.jobs + [last]
    ensures Accepted(s', id) <==> Accepted(s, id) || id == last.id
  {
    if Accepted(s, id) {
      var j :| 0 <= j < |s.jobs| && s.jobs[j].id == id;
      assert s'.jobs[j].id == id;
    }
    if id == last.id {
      assert s'.jobs[|s.jobs|].id == id;
    }
  }

  /** The client has not acknowledged a waiting call, so its entry is never pruned. */
  lemma WaitingIsAboveFront(s: State, id: CallId)
    requires ClientsOk(s) && IsWaiting(s, id)
    ensures id.xid > s.clients[id.clt].window[0]
  {
  }

  lemma AcceptKeepsJob(s: State, m: Request, j: nat)
    requires Inv(s) && m in s.requests
    requires ReplyWindow.Classify(WindowOf(s, m.id.clt), m.id.xid).New?
    requires j <= |s.jobs| && IsWaiting(s, ApplyClassify(s, m).jobs[j].id)
    ensures JobForWaiting(ApplyClassify(s, m), j)
  {
    var s', w := ApplyClassify(s, m), WindowOf(s, m.id.clt);
    var id := s'.jobs[j].id;
    assert WindowOk(s, m.id.clt) && RequestOk(s, m);
    ClassifyReadsTable(w, m.id.xid);
    AcceptTable(w, m.id.xid, m.xidRep);
    WaitingIsAboveFront(s, id);
    assert s'.jobs == s.jobs + [Job(m.id, m.args, Pending)];
    if j < |s.jobs| {
      assert JobForWaiting(s, j);
    } else {
      forall i | 0 <= i < |s.jobs| ensures s.jobs[i].id != id {
        assert IsWaiting(s, s.jobs[i].id) ==> JobForWaiting(s, i);
      }
    }
  }

  lemma AcceptKeepsWaiting(s: State, m: Request)
    requires Inv(s) && m in s.requests
    requires ReplyWindow.Classify(WindowOf(s, m.id.clt), m.id.xid).New?
    ensures WaitingOk(ApplyClassify(s, m))
  {
    var s' := ApplyClassify(s, m);
    assert s'.jobs == s.jobs + [Job(m.id, m.args, Pending)];
    forall j | 0 <= j < |s'.jobs| && IsWaiting(s', s'.jobs[j].id) ensures JobForWaiting(s', j) {
      AcceptKeepsJob(s, m, j);
    }
    forall p | p in s'.responses && IsWaiting(s', p.id) ensures Backed(s', p) {
      assert Backed(s, p);
      var j :| 0 <= j < |s.jobs| && s.jobs[j].id == p.id && Executed(s.jobs[j]) && s.jobs[j].phase.reply == p.reply;
      assert s'.jobs[j] == s.jobs[j];
    }
  }

  /** Adding a response for an issued call keeps the invariant if waiting calls only get real replies. */
  lemma RespondKeepsInv(s: State, id: CallId, reply: Reply)
    requires Inv(s) && Issued(s, id)
    requires IsWaiting(s, id) ==> Backed(s, Response(id, reply))
    ensures Inv(Respond(s, id, reply))
  {
    var s' := Respond(s, id, reply);
    forall k: nat ensures WindowOk(s', k) {
      WindowFrame(s, s', k);
    }
    forall m | m in s'.requests ensures RequestOk(s', m) {
      assert RequestOk(s, m);
    }
    forall j | 0 <= j < |s'.jobs| ensures Requested(s', s'.jobs[j].id) {
      assert Requested(s, s.jobs[j].id);
    }
    forall j | 0 <= j < |s'.jobs| && IsWaiting(s', s'.jobs[j].id) ensures JobForWaiting(s', j) {
      assert JobForWaiting(s, j);
    }
    forall p | p in s'.responses && IsWaiting(s', p.id) ensures Backed(s', p) {
      assert Backed(s, p);
    }
    AnswersFrame(s, s');
  }

  lemma DuplicateKeepsInv(s: State, m: Request)
    requires Inv(s) && m in s.requests
    requires !ReplyWindow.Classify(WindowOf(s, m.id.clt), m.id.xid).New?
    ensures Inv(ApplyClassify(s, m))
  {
    var n, xid := m.id.clt, m.id.xid;
    var w := WindowOf(s, n);
    assert WindowOk(s, n) && RequestOk(s, m);
    ClassifyReadsTable(w, xid);
    match ReplyWindow.Classify(w, xid) {
      case InProgress =>
      case Forgotten =>
        if IsWaiting(s, m.id) {
          WaitingIsAboveFront(s, m.id);
        }
        RespondKeepsInv(s, m.id, Reply(ATMOSTONCE_FAILURE, []));
      case Done(r) =>
        if IsWaiting(s, m.id) {
          assert Accepted(s, CallId(n, xid));
          var j :| 0 <= j < |s.jobs| && s.jobs[j].id == m.id;
          assert JobForWaiting(s, j);
          assert Executed(s.jobs[j]) && s.jobs[j].phase.reply == r;
        }
        RespondKeepsInv(s, m.id, r);
    }
  }

  /** Job `j` advances, with its client's window untouched or the matching table entry filled in. */
  ghost predicate JobStep(s: State, s': State, j: nat) {
    && j < |s.jobs| && s' == s.(jobs := s'.jobs, windows := s'.windows)
    && JobsAdvance(s, s') && |s'.jobs| == |s.jobs|
    && (forall i :: 0 <= i < |s.jobs| && i != j ==> s'.jobs[i] == s.jobs[i])
    && (forall n :: n != s.jobs[j].id.clt ==> WindowOf(s', n) == WindowOf(s, n))
    && var n, xid := s.jobs[j].id.clt, s.jobs[j].id.xid;
       var es, es' := WindowOf(s, n).entries, WindowOf(s', n).entries;
       && WindowOf(s', n).bound == WindowOf(s, n).bound
       && |es'| == |es|
       && StrictlySorted(es')
       && Table(es') ==
          if xid in Table(es) then Table(es)[xid := JobReply(s, s', j, Table(es)[xid])] else Table(es)
  }

  lemma JobStepAccepts(s: State, s': State, j: nat, id: CallId)
    requires JobStep(s, s', j)
    ensures Accepted(s', id) <==> Accepted(s, id)
  {
    if Accepted(s, id) {
      var i :| 0 <= i < |s.jobs| && s.jobs[i].id == id;
      assert s'.jobs[i].id == id;
    }
  }

  lemma JobStepKeepsWindows(s: State, s': State, j: nat)
    requires JobStep(s, s', j) && ClientsOk(s) && WindowsOk(s)
    ensures WindowsOk(s')
  {
    forall id ensures Accepted(s', id) <==> Accepted(s, id) {
      JobStepAccepts(s, s', j, id);
    }
    forall k: nat ensures WindowOk(s', k) {
      assert WindowOk(s, k);
    }
  }

  lemma JobStepKeepsWaiting(s: State, s': State, j: nat)
    requires JobStep(s, s', j) && WaitingOk(s)
    ensures WaitingOk(s')
  {
    forall i | 0 <= i < |s'.jobs| && IsWaiting(s', s'.jobs[i].id) ensures JobForWaiting(s', i) {
      assert JobForWaiting(s, i);
    }
    forall p | p in s'.responses && IsWaiting(s', p.id) ensures Backed(s', p) {
      assert Backed(s, p);
      var i :| 0 <= i < |s.jobs| && s.jobs[i].id == p.id && Executed(s.jobs[i]) && s.jobs[i].phase.reply == p.reply;
      assert Executed(s'.jobs[i]) && s'.jobs[i].phase.reply == p.reply;
    }
  }

  lemma JobStepKeepsInv(s: State, s': State, j: nat)
    requires Inv(s) && JobStep(s, s', j)
    ensures Inv(s')
  {
    JobStepKeepsWindows(s, s', j);
    forall i | 0 <= i < |s'.jobs| ensures Requested(s', s'.jobs[i].id) {
      assert Requested(s, s.jobs[i].id);
    }
    JobStepKeepsWaiting(s, s', j);
    AnswersFrame(s, s');
  }

  /** The table entry of job `j` after it has advanced; unchanged unless its reply was just saved. */
  ghost function JobReply(s: State, s': State, j: nat, was: Option<Reply>): Option<Reply>
    requires j < |s.jobs| && j < |s'.jobs|
  {
    if Remembered(s'.jobs[j].phase) == Remembered(s.jobs[j].phase) then was else Remembered(s'.jobs[j].phase)
  }

  /** A job that advances without anything being saved. */
  lemma PhaseKeepsInv(s: State, j: nat, phase: Phase)
    requires Inv(s) && j < |s.jobs| && Remembered(phase) == Remembered(s.jobs[j].phase)
    requires Executed(s.jobs[j]) ==> !phase.Pending? && phase.reply == s.jobs[j].phase.reply
    ensures Inv(SetPhase(s, j, phase))
  {
    var s', id := SetPhase(s, j, phase), s.jobs[j].id;
    assert WindowOk(s, id.clt);
    var es := WindowOf(s, id.clt).entries;
    assert id.xid in Table(es) ==> Table(es)[id.xid := Table(es)[id.xid]] == Table(es);
    JobStepKeepsInv(s, s', j);
  }

  lemma ExecuteKeepsInv(s: State, j: nat, reply: Reply)
    requires Inv(s) && Enabled(s, Execute(j, reply))
    ensures Inv(Apply(s, Execute(j, reply)))
  {
    PhaseKeepsInv(s, j, Ran(reply));
  }

  lemma SaveKeepsInv(s: State, j: nat)
    requires Inv(s) && Enabled(s, Save(j))
    ensures Inv(ApplySave(s, j))
  {
    var id := s.jobs[j].id;
    assert WindowOk(s, id.clt);
    AddReplyTable(WindowOf(s, id.clt).entries, id.xid, s.jobs[j].phase.reply);
    JobStepKeepsInv(s, ApplySave(s, j), j);
  }

  lemma SendKeepsInv(s: State, j: nat)
    requires Inv(s) && Enabled(s, Send(j))
    ensures Inv(ApplySend(s, j))
  {
    var id, reply := s.jobs[j].id, s.jobs[j].phase.reply;
    var s1 := SetPhase(s, j, Sent(reply));
    PhaseKeepsInv(s, j, Sent(reply));
    assert s1.jobs[j].id == id && s1.jobs[j].phase == Sent(reply);
    assert Backed(s1, Response(id, reply));
    RespondKeepsInv(s1, id, reply);
  }

  // ----- every step, every run -----

  lemma StepKeepsInv(s: State, step: Step)
    requires Inv(s) && Enabled(s, step)
    ensures Inv(Apply(s, step))
  {
    match step
    case Start(clt, args) => StartKeepsInv(s, clt, args);
    case Classify(m) =>
      if ReplyWindow.Classify(WindowOf(s, m.id.clt), m.id.xid).New? {
        AcceptKeepsInv(s, m);
      } else {
        DuplicateKeepsInv(s, m);
      }
    case Execute(j, reply) => ExecuteKeepsInv(s, j, reply);
    case Save(j) => SaveKeepsInv(s, j);
    case Send(j) => SendKeepsInv(s, j);
    case Receive(p) => ReceiveKeepsInv(s, p);
    case Finish(clt, xid) => FinishKeepsInv(s, clt, xid);
    case Cancel(clt) => CancelKeepsInv(s, clt);
  }

  lemma InitInv(nonces: set<nat>)
    requires 0 !in nonces
    ensures Inv(Init(nonces))
  {
    var s := Init(nonces);
    assert XidWindow.Represents([0], {});
    forall k: nat ensures WindowOk(s, k) {
      assert WindowOf(s, k) == Window([], 0);
    }
  }

  lemma {:induction false} RunKeepsInv(s: State, steps: seq<Step>)
    requires Inv(s) && Legal(s, steps)
    ensures Inv(After(s, steps))
    decreases |steps|
  {
    if steps != [] {
      StepKeepsInv(s, steps[0]);
      RunKeepsInv(Apply(s, steps[0]), steps[1..]);
    }
  }
}
