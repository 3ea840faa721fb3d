/**
 What a run of the RPC machine has done, told from its steps alone: which arguments each call was
 given, which calls were answered or given up, and how each call stands.  The states of clients
 and server are proved to be what these histories say.
 */
module AtMostOnceHistory {
  import opened Basics
  import XidWindow
  import opened ReplyWindow
  import opened AtMostOnce
  import opened AtMostOnceProofs

  // ----- histories -----

  /** The arguments of the calls a client has started, in order; the first of them gets xid 1. */
  function Starts(run: seq<Step>, n: nat): seq<Bytes> {
    if run == [] then []
    else
      var last := run[|run| - 1];
      Starts(run[..|run| - 1], n) + if last.Start? && last.clt == n then [last.args] else []
  }

  /** A reply for the call arrives, or the call returns. */
  predicate Reports(step: Step, n: nat, x: nat) {
    (step.Receive? && step.p.id == CallId(n, x)) || step == Finish(n, x)
  }

  ghost predicate ReportedIn(run: seq<Step>, n: nat, x: nat) {
    exists i :: 0 <= i < |run| && Reports(run[i], n, x)
  }

  /** One call by itself: it starts, is answered once, may be cancelled, and returns. */
  function NextStatus(was: Option<Caller>, step: Step, n: nat, x: nat, next: nat): Option<Caller> {
    if step.Start? && step.clt == n && x == next then Some(Waiting)
    else if was.None? || step == Finish(n, x) then None
    else if step == Cancel(n) then Some(Cancelled)
    else if step.Receive? && step.p.id == CallId(n, x) && was.value.Waiting? then Some(Answered(step.p.reply))
    else was
  }

  function StatusIn(run: seq<Step>, n: nat, x: nat): Option<Caller> {
    if run == [] then None
    else
      var before := run[..|run| - 1];
      NextStatus(StatusIn(before, n, x), run[|run| - 1], n, x, |Starts(before, n)| + 1)
  }

  /** These are the arguments with which call `id` was started. */
  ghost predicate StartedWith(run: seq<Step>, id: CallId, args: Bytes) {
    1 <= id.xid <= |Starts(run, id.clt)| && Starts(run, id.clt)[id.xid - 1] == args
  }

  // ----- states tell their history -----

  function StatusOf(c: Client, x: nat): Option<Caller> {
    if x in c.calls then Some(c.calls[x]) else None
  }

  ghost predicate ClientTells(c: Client, run: seq<Step>, n: nat) {
    && c.nextXid == |Starts(run, n)| + 1
    && (forall x: nat :: x in c.reported <==> ReportedIn(run, n, x))
    && (forall x: nat :: StatusOf(c, x) == StatusIn(run, n, x))
  }

  ghost predicate ClientsTell(s: State, run: seq<Step>) {
    forall n :: n in s.clients ==> ClientTells(s.clients[n], run, n)
  }

  ghost predicate ArgumentsKept(s: State, run: seq<Step>) {
    && (forall m :: m in s.requests ==> StartedWith(run, m.id, m.args))
    && (forall j :: 0 <= j < |s.jobs| ==> StartedWith(run, s.jobs[j].id, s.jobs[j].args))
  }

  lemma LastOf(run: seq<Step>, step: Step)
    ensures (run + [step])[..|run|] == run && (run + [step])[|run|] == step
  {
  }

  lemma ReportedNext(run: seq<Step>, step: Step, n: nat, x: nat)
    ensures ReportedIn(run + [step], n, x) <==> ReportedIn(run, n, x) || Reports(step, n, x)
  {
    var run' := run + [step];
    LastOf(run, step);
    if ReportedIn(run, n, x) {
      var i :| 0 <= i < |run| && Reports(run[i], n, x);
      assert run'[i] == run[i];
    }
    if Reports(step, n, x) {
      assert Reports(run'[|run|], n, x);
    }
  }

  /** What a step does to one client, seen from one of its calls. */
  ghost predicate Follows(c: Client, c': Client, step: Step, n: nat, x: nat) {
    && c'.nextXid == c.nextXid + (if step.Start? && step.clt == n then 1 else 0)
    && (x in c'.reported <==> x in c.reported || Reports(step, n, x))
    && StatusOf(c', x) == NextStatus(StatusOf(c, x), step, n, x, c.nextXid)
  }

  /** The client at which a step takes place, if it takes place at one. */
  function Where(step: Step): Option<nat> {
    match step
    case Start(clt, _) => Some(clt)
    case Receive(p) => Some(p.id.clt)
    case Finish(clt, _) => Some(clt)
    case Cancel(clt) => Some(clt)
    case Classify(_) => None
    case Execute(_, _) => None
    case Save(_) => None
    case Send(_) => None
  }

  lemma ElsewhereFollows(s: State, step: Step, n: nat, x: nat)
    requires n in s.clients && Enabled(s, step) && Where(step) != Some(n)
    ensures n in Apply(s, step).clients && Apply(s, step).clients[n] == s.clients[n]
    ensures Follows(s.clients[n], s.clients[n], step, n, x)
  {
  }

  lemma ReceiveFollows(c: Client, p: Response, x: nat)
    requires |c.window| > 0
    ensures Follows(c, GotReply(c, p.id.xid, p.reply), Receive(p), p.id.clt, x)
  {
  }

  lemma ReturnFollows(c: Client, n: nat, xid: nat, x: nat)
    requires |c.window| > 0
    ensures Follows(c, FinishCall(c, xid), Finish(n, xid), n, x)
    ensures Follows(c, CancelAll(c), Cancel(n), n, x)
  {
  }

  lemma ClientStep(s: State, step: Step, n: nat, x: nat)
    requires n in s.clients && Enabled(s, step)
    ensures n in Apply(s, step).clients && Follows(s.clients[n], Apply(s, step).clients[n], step, n, x)
  {
    if Where(step) != Some(n) {
      ElsewhereFollows(s, step, n, x);
    } else if step.Receive? {
      ReceiveFollows(s.clients[n], step.p, x);
    } else {
      ReturnFollows(s.clients[n], n, if step.Finish? then step.xid else 0, x);
    }
  }

  lemma StepTells(s: State, run: seq<Step>, step: Step)
    requires ClientsTell(s, run) && Enabled(s, step)
    ensures ClientsTell(Apply(s, step), run + [step])
  {
    var s' := Apply(s, step);
    LastOf(run, step);
    forall n | n in s'.clients ensures ClientTells(s'.clients[n], run + [step], n) {
      assert n in s.clients;
      ClientStep(s, step, n, 0);
      forall x: nat
        ensures x in s'.clients[n].reported <==> ReportedIn(run + [step], n, x)
        ensures StatusOf(s'.clients[n], x) == StatusIn(run + [step], n, x)
      {
        ClientStep(s, step, n, x);
        ReportedNext(run, step, n, x);
      }
    }
  }

  lemma StartedStays(run: seq<Step>, step: Step, id: CallId, args: Bytes)
    requires StartedWith(run, id, args)
    ensures StartedWith(run + [step], id, args)
  {
    LastOf(run, step);
  }

  /** Requests and jobs that a step adds carry the arguments of the call they are for. */
  lemma StepKeepsArguments(s: State, run: seq<Step>, step: Step)
    requires ClientsTell(s, run) && ArgumentsKept(s, run) && Enabled(s, step)
    ensures ArgumentsKept(Apply(s, step), run + [step])
  {
    var s' := Apply(s, step);
    LastOf(run, step);
    forall m | m in s'.requests ensures StartedWith(run + [step], m.id, m.args) {
      if m in s.requests {
        StartedStays(run, step, m.id, m.args);
      }
    }
    forall j | 0 <= j < |s'.jobs| ensures StartedWith(run + [step], s'.jobs[j].id, s'.jobs[j].args) {
      if j < |s.jobs| {
        StartedStays(run, step, s.jobs[j].id, s.jobs[j].args);
      } else {
        StartedStays(run, step, step.m.id, step.m.args);
      }
    }
  }

  lemma {:induction false} RunTells(s: State, run: seq<Step>, steps: seq<Step>)
    requires ClientsTell(s, run) && ArgumentsKept(s, run) && Legal(s, steps)
    ensures ClientsTell(After(s, steps), run + steps) && ArgumentsKept(After(s, steps), run + steps)
    decreases |steps|
  {
    if steps == [] {
      assert run + steps == run;
    } else {
      StepTells(s, run, steps[0]);
      StepKeepsArguments(s, run, steps[0]);
      RunTells(Apply(s, steps[0]), run + [steps[0]], steps[1..]);
      assert run + [steps[0]] + steps[1..] == run + steps;
    }
  }

  lemma InitTells(nonces: set<nat>)
    requires 0 !in nonces
    ensures ClientsTell(Init(nonces), []) && ArgumentsKept(Init(nonces), [])
  {
  }

  lemma ReachableTells(nonces: set<nat>, steps: seq<Step>)
    requires 0 !in nonces && Legal(Init(nonces), steps)
    ensures Inv(After(Init(nonces), steps))
    ensures ClientsTell(After(Init(nonces), steps), steps) && ArgumentsKept(After(Init(nonces), steps), steps)
  {
    InitInv(nonces);
    RunKeepsInv(Init(nonces), steps);
    InitTells(nonces);
    RunTells(Init(nonces), [], steps);
    assert [] + steps == steps;
  }

  // ----- arguments -----

  /**
   In every run, each request on the network carries the arguments that were given to the `Start`
   step of its call, and each job runs on the arguments of the call it is for.
   */
  lemma ArgumentsArrive(nonces: set<nat>, steps: seq<Step>)
    requires 0 !in nonces && Legal(Init(nonces), steps)
    ensures var s := After(Init(nonces), steps);
            && (forall m :: m in s.requests ==> StartedWith(steps, m.id, m.args))
            && (forall j :: 0 <= j < |s.jobs| ==> StartedWith(steps, s.jobs[j].id, s.jobs[j].args))
  {
    ReachableTells(nonces, steps);
  }

  /** Every execution in the run relates its arguments to its reply as the handlers promise. */
  ghost predicate HandlersMeet(s: State, steps: seq<Step>, promise: (Bytes, Reply) -> bool)
    requires Legal(s, steps)
    decreases |steps|
  {
    steps != [] ==>
      && (steps[0].Execute? ==> promise(s.jobs[steps[0].j].args, steps[0].reply))
      && HandlersMeet(Apply(s, steps[0]), steps[1..], promise)
  }

  ghost predicate JobsMeet(s: State, promise: (Bytes, Reply) -> bool) {
    forall j :: 0 <= j < |s.jobs| && Executed(s.jobs[j]) ==> promise(s.jobs[j].args, s.jobs[j].phase.reply)
  }

  lemma {:induction false} RunMeets(s: State, steps: seq<Step>, promise: (Bytes, Reply) -> bool)
    requires Legal(s, steps) && HandlersMeet(s, steps, promise) && JobsMeet(s, promise)
    ensures JobsMeet(After(s, steps), promise)
    decreases |steps|
  {
    if steps != [] {
      RunMeets(Apply(s, steps[0]), steps[1..], promise);
    }
  }

  /**
   From end to end: whatever the handlers promise of their arguments and results, the reply with
   which a call was completed keeps towards the arguments with which that call was started.
   */
  lemma AnswersMeetTheirArguments(nonces: set<nat>, steps: seq<Step>, promise: (Bytes, Reply) -> bool, id: CallId)
    requires 0 !in nonces && Legal(Init(nonces), steps) && HandlersMeet(Init(nonces), steps, promise)
    requires id in After(Init(nonces), steps).answers
    ensures 1 <= id.xid <= |Starts(steps, id.clt)|
    ensures promise(Starts(steps, id.clt)[id.xid - 1], After(Init(nonces), steps).answers[id])
  {
    ReachableTells(nonces, steps);
    RunMeets(Init(nonces), steps, promise);
    AnswerMeets(After(Init(nonces), steps), steps, promise, id);
  }

  lemma AnswerMeets(s: State, run: seq<Step>, promise: (Bytes, Reply) -> bool, id: CallId)
    requires AnswersOk(s) && ArgumentsKept(s, run) && JobsMeet(s, promise) && id in s.answers
    ensures 1 <= id.xid <= |Starts(run, id.clt)| && promise(Starts(run, id.clt)[id.xid - 1], s.answers[id])
  {
    var j := FirstRunOf(s, id, s.answers[id]);
    assert StartedWith(run, s.jobs[j].id, s.jobs[j].args);
  }

  // ----- clients -----

  /** In every run, each call of each client stands as its own history says. */
  lemma CallsStandAsTold(nonces: set<nat>, steps: seq<Step>, n: nat, x: nat)
    requires 0 !in nonces && n in nonces && Legal(Init(nonces), steps)
    ensures n in After(Init(nonces), steps).clients
    ensures StatusOf(After(Init(nonces), steps).clients[n], x) == StatusIn(steps, n, x)
  {
    ReachableTells(nonces, steps);
    ClientsStay(Init(nonces), steps);
  }

  lemma {:induction false} ClientsStay(s: State, steps: seq<Step>)
    requires Legal(s, steps)
    ensures After(s, steps).clients.Keys == s.clients.Keys
    decreases |steps|
  {
    if steps != [] {
      ClientsStay(Apply(s, steps[0]), steps[1..]);
    }
  }

  /**
   The `xid_rep` stamped on a request is the largest n such that each of the calls 1..n had been
   answered or had returned when the request was made.
   */
  lemma XidRepIsAnsweredPrefix(nonces: set<nat>, steps: seq<Step>, n: nat, args: Bytes, m: Request, k: nat)
    requires 0 !in nonces && Legal(Init(nonces), steps) && Enabled(After(Init(nonces), steps), Start(n, args))
    requires m in Apply(After(Init(nonces), steps), Start(n, args)).requests - After(Init(nonces), steps).requests
    ensures m.id == CallId(n, |Starts(steps, n)| + 1) && m.args == args
    ensures k <= m.xidRep <==> forall x :: 1 <= x <= k ==> ReportedIn(steps, n, x)
  {
    ReachableTells(nonces, steps);
    var c := After(Init(nonces), steps).clients[n];
    assert ClientOk(c) && ClientTells(c, steps, n);
    XidWindow.FrontIsLargestPrefix(c.window, c.reported, k);
  }

  /** Once a client with outstanding calls has been cancelled, it never starts a call again. */
  lemma {:induction false} NoCallsAfterCancel(s: State, n: nat, steps: seq<Step>, args: Bytes)
    requires n in s.clients && |s.clients[n].window| > 0 && s.clients[n].calls != map[]
    requires Legal(Apply(s, Cancel(n)), steps)
    ensures !Enabled(After(Apply(s, Cancel(n)), steps), Start(n, args))
  {
    ClosingStays(Apply(s, Cancel(n)), n, steps);
  }

  lemma {:induction false} ClosingStays(s: State, n: nat, steps: seq<Step>)
    requires n in s.clients && s.clients[n].closing && Legal(s, steps)
    ensures n in After(s, steps).clients && After(s, steps).clients[n].closing
    decreases |steps|
  {
    if steps != [] {
      ClosingStays(Apply(s, steps[0]), n, steps[1..]);
    }
  }
}
