/**
 At-most-once RPC as a step machine: any number of clients (`rpcc`), one server
 incarnation (`rpcs`), and a network that may lose, duplicate, delay and reorder.

 The network is two growing sets of messages.  A message that is never delivered is lost,
 and one that is delivered twice is duplicated.  `rpcs::dispatch` is split into classify,
 execute, save and send steps, because its worker threads interleave between them.
 */
module AtMostOnce {
  import opened Basics
  import XidWindow
  import opened ReplyWindow

  // ----- messages and local states -----

  datatype CallId = CallId(clt: nat, xid: nat)

  /** A marshalled request; the header is stamped once and never changes on retransmission. */
  datatype Request = Request(id: CallId, xidRep: nat, args: Bytes)

  datatype Response = Response(id: CallId, reply: Reply)

  /** `rpcc::caller`: still waiting, completed by a reply, or forced to fail by `cancel`. */
  datatype Caller = Waiting | Answered(reply: Reply) | Cancelled

  /** `rpcc`; `reported` records every xid given to `update_xid_rep`. */
  datatype Client = Client(
    nextXid: nat, calls: map<nat, Caller>, window: seq<nat>, closing: bool, reported: set<nat>)

  /** How far a worker has got with a request it found to be new. */
  datatype Phase = Pending | Ran(reply: Reply) | Saved(reply: Reply) | Sent(reply: Reply)

  datatype Job = Job(id: CallId, args: Bytes, phase: Phase)

  /**
   `jobs` lists the requests classified as new, in order, so it is also the log of all
   executions.  `answers` records the reply with which each call was completed.
   */
  datatype State = State(
    clients: map<nat, Client>,
    windows: map<nat, Window>,
    jobs: seq<Job>,
    requests: set<Request>,
    responses: set<Response>,
    answers: map<CallId, Reply>)

  const ATMOSTONCE_FAILURE := -4

  // ----- client operations -----

  /** The locked section at the start of `call1`. */
  function StartCall(c: Client, clt: nat, args: Bytes): (Client, Request)
    requires |c.window| > 0
  {
    (c.(nextXid := c.nextXid + 1, calls := c.calls[c.nextXid := Waiting]),
     Request(CallId(clt, c.nextXid), c.window[0], args))
  }

  function Report(c: Client, xid: nat): Client
    requires |c.window| > 0
  {
    c.(window := XidWindow.Update(c.window, xid), reported := c.reported + {xid})
  }

  /** `rpcc::got_pdu` */
  function GotReply(c: Client, xid: nat, reply: Reply): Client
    requires |c.window| > 0
  {
    var c' := Report(c, xid);
    if xid in c'.calls && c'.calls[xid].Waiting?
    then c'.(calls := c'.calls[xid := Answered(reply)])
    else c'
  }

  /** The locked section at the end of `call1`, after a reply or a timeout. */
  function FinishCall(c: Client, xid: nat): Client
    requires |c.window| > 0
  {
    Report(c.(calls := c.calls - {xid}), xid)
  }

  /** `rpcc::cancel`: also a call whose reply has arrived fails, and new calls are refused while any is left. */
  function CancelAll(c: Client): Client {
    c.(closing := c.closing || c.calls != map[], calls := map x | x in c.calls :: Cancelled)
  }

  function NewClient(): Client {
    Client(1, map[], [0], false, {})
  }

  // ----- steps -----

  datatype Step =
    | Start(clt: nat, args: Bytes)
    | Classify(m: Request)
    | Execute(j: nat, reply: Reply)
    | Save(j: nat)
    | Send(j: nat)
    | Receive(p: Response)
    | Finish(clt: nat, xid: nat)
    | Cancel(clt: nat)

  function WindowOf(s: State, clt: nat): Window {
    if clt in s.windows then s.windows[clt] else Window([], 0)
  }

  predicate Ready(s: State, clt: nat) {
    clt in s.clients && |s.clients[clt].window| > 0
  }

  predicate Enabled(s: State, step: Step) {
    match step
    case Start(clt, _) => Ready(s, clt) && !s.clients[clt].closing && s.clients[clt].nextXid < UINT_LIMIT
    case Classify(m) => m in s.requests
    case Execute(j, reply) => j < |s.jobs| && s.jobs[j].phase.Pending? && reply.ret >= 0
    case Save(j) => j < |s.jobs| && s.jobs[j].phase.Ran?
    case Send(j) => j < |s.jobs| && s.jobs[j].phase.Saved?
    case Receive(p) => p in s.responses && Ready(s, p.id.clt)
    case Finish(clt, xid) => Ready(s, clt) && xid in s.clients[clt].calls
    case Cancel(clt) => Ready(s, clt)
  }

  function SetPhase(s: State, j: nat, phase: Phase): State
    requires j < |s.jobs|
  {
    s.(jobs := s.jobs[j := s.jobs[j].(phase := phase)])
  }

  function Respond(s: State, id: CallId, reply: Reply): State {
    s.(responses := s.responses + {Response(id, reply)})
  }

  function ApplyStart(s: State, clt: nat, args: Bytes): State
    requires Ready(s, clt)
  {
    var (c, m) := StartCall(s.clients[clt], clt, args);
    s.(clients := s.clients[clt := c], requests := s.requests + {m})
  }

  /** `checkduplicate_and_update`, and for a duplicate the answer that follows it. */
  function ApplyClassify(s: State, m: Request): State {
    var (verdict, w) := Check(WindowOf(s, m.id.clt), m.id.xid, m.xidRep);
    match verdict
    case New => s.(windows := s.windows[m.id.clt := w], jobs := s.jobs + [Job(m.id, m.args, Pending)])
    case InProgress => s
    case Done(r) => Respond(s, m.id, r)
    case Forgotten => Respond(s, m.id, Reply(ATMOSTONCE_FAILURE, []))
  }

  function ApplySave(s: State, j: nat): State
    requires j < |s.jobs| && s.jobs[j].phase.Ran?
  {
    var Job(id, _, phase) := s.jobs[j];
    var w := WindowOf(s, id.clt);
    SetPhase(s, j, Saved(phase.reply)).(
      windows := s.windows[id.clt := w.(entries := AddReply(w.entries, id.xid, phase.reply))])
  }

  function ApplySend(s: State, j: nat): State
    requires j < |s.jobs| && s.jobs[j].phase.Saved?
  {
    Respond(SetPhase(s, j, Sent(s.jobs[j].phase.reply)), s.jobs[j].id, s.jobs[j].phase.reply)
  }

  function ApplyReceive(s: State, p: Response): State
    requires Ready(s, p.id.clt)
  {
    var c := s.clients[p.id.clt];
    s.(clients := s.clients[p.id.clt := GotReply(c, p.id.xid, p.reply)],
       answers := if IsWaiting(s, p.id) then s.answers[p.id := p.reply] else s.answers)
  }

  function Apply(s: State, step: Step): State
    requires Enabled(s, step)
  {
    match step
    case Start(clt, args) => ApplyStart(s, clt, args)
    case Classify(m) => ApplyClassify(s, m)
    case Execute(j, reply) => SetPhase(s, j, Ran(reply))
    case Save(j) => ApplySave(s, j)
    case Send(j) => ApplySend(s, j)
    case Receive(p) => ApplyReceive(s, p)
    case Finish(clt, xid) => s.(clients := s.clients[clt := FinishCall(s.clients[clt], xid)])
    case Cancel(clt) => s.(clients := s.clients[clt := CancelAll(s.clients[clt])])
  }

  // ----- runs -----

  /** Clients with nonce 0 ask for no at-most-once service and are not part of the machine. */
  function Init(nonces: set<nat>): State
    requires 0 !in nonces
  {
    State(map n | n in nonces :: NewClient(), map[], [], {}, {}, map[])
  }

  /** Every step of the run is enabled when it is taken. */
  ghost predicate Legal(s: State, steps: seq<Step>)
    decreases |steps|
  {
    steps == [] || (Enabled(s, steps[0]) && Legal(Apply(s, steps[0]), steps[1..]))
  }

  ghost function After(s: State, steps: seq<Step>): State
    requires Legal(s, steps)
    decreases |steps|
  {
    if steps == [] then s else After(Apply(s, steps[0]), steps[1..])
  }

  // ----- what the properties talk about -----

  /** The call is outstanding and no reply for it has arrived. */
  predicate IsWaiting(s: State, id: CallId) {
    id.clt in s.clients && id.xid in s.clients[id.clt].calls && s.clients[id.clt].calls[id.xid].Waiting?
  }

  predicate Executed(job: Job) {
    !job.phase.Pending?
  }

  /** Job `j` is the first one accepted for `id`, and its handler returned `reply`. */
  ghost predicate FirstRun(s: State, id: CallId, j: nat, reply: Reply) {
    && j < |s.jobs| && s.jobs[j].id == id && Executed(s.jobs[j]) && s.jobs[j].phase.reply == reply
    && forall i :: 0 <= i < j ==> s.jobs[i].id != id
  }

  // ----- the invariant -----

  ghost predicate ClientOk(c: Client) {
    && XidWindow.Represents(c.window, c.reported)
    && 1 <= c.nextXid <= UINT_LIMIT
    && (forall x :: x in c.reported ==> 1 <= x < c.nextXid)
    && (forall x :: x in c.calls ==> 1 <= x < c.nextXid)
    && (forall x :: x in c.calls && c.calls[x].Waiting? ==> x !in c.reported)
  }

  ghost predicate ClientsOk(s: State) {
    forall n :: n in s.clients ==> ClientOk(s.clients[n])
  }

  ghost predicate Issued(s: State, id: CallId) {
    id.clt in s.clients && 1 <= id.xid < s.clients[id.clt].nextXid
  }

  ghost predicate RequestOk(s: State, m: Request)
    requires ClientsOk(s)
  {
    Issued(s, m.id) && m.xidRep < m.id.xid && m.xidRep <= s.clients[m.id.clt].window[0]
  }

  /** Requests are stamped once, and `xid_rep` never falls as xids grow. */
  ghost predicate Stamped(m: Request, m': Request) {
    && (m.id == m'.id ==> m == m')
    && (m.id.clt == m'.id.clt && m.id.xid <= m'.id.xid ==> m.xidRep <= m'.xidRep)
  }

  ghost predicate RequestsOk(s: State)
    requires ClientsOk(s)
  {
    && (forall m :: m in s.requests ==> RequestOk(s, m))
    && (forall m, m' :: m in s.requests && m' in s.requests ==> Stamped(m, m'))
  }

  ghost predicate Accepted(s: State, id: CallId) {
    exists j :: 0 <= j < |s.jobs| && s.jobs[j].id == id
  }

  ghost predicate WindowOk(s: State, n: nat)
    requires ClientsOk(s)
  {
    var w := WindowOf(s, n);
    && StrictlySorted(w.entries)
    && (n in s.clients ==> w.bound <= s.clients[n].window[0])
    && (w.entries == [] ==> w.bound == 0 && forall x :: !Accepted(s, CallId(n, x)))
    && (w.entries != [] ==>
          exists m :: m in s.requests && m.id.clt == n && m.xidRep == w.bound && Accepted(s, m.id))
    && (forall x :: x in Table(w.entries) ==> x > w.bound && Accepted(s, CallId(n, x)))
  }

  ghost predicate WindowsOk(s: State)
    requires ClientsOk(s)
  {
    forall n: nat :: WindowOk(s, n)
  }

  ghost predicate Requested(s: State, id: CallId) {
    exists m :: m in s.requests && m.id == id
  }

  ghost predicate JobsOk(s: State) {
    forall j :: 0 <= j < |s.jobs| ==> Issued(s, s.jobs[j].id) && Requested(s, s.jobs[j].id)
  }

  ghost predicate ResponsesOk(s: State) {
    forall p :: p in s.responses ==> Issued(s, p.id)
  }

  /** What the server's table should hold for a job that is in phase `phase`. */
  function Remembered(phase: Phase): Option<Reply> {
    match phase
    case Pending => None
    case Ran(_) => None
    case Saved(r) => Some(r)
    case Sent(r) => Some(r)
  }

  ghost predicate JobForWaiting(s: State, j: nat)
    requires j < |s.jobs|
  {
    var Job(id, _, phase) := s.jobs[j];
    && id.xid in Table(WindowOf(s, id.clt).entries)
    && Table(WindowOf(s, id.clt).entries)[id.xid] == Remembered(phase)
    && forall i :: 0 <= i < |s.jobs| && s.jobs[i].id == id ==> i == j
  }

  ghost predicate Backed(s: State, p: Response) {
    exists j :: 0 <= j < |s.jobs| && s.jobs[j].id == p.id && Executed(s.jobs[j]) && s.jobs[j].phase.reply == p.reply
  }

  ghost predicate WaitingOk(s: State) {
    && (forall j :: 0 <= j < |s.jobs| && IsWaiting(s, s.jobs[j].id) ==> JobForWaiting(s, j))
    && (forall p :: p in s.responses && IsWaiting(s, p.id) ==> Backed(s, p))
  }

  /** The reply a finished but not yet returned call holds. */
  function AnswerOf(s: State, id: CallId): Option<Reply> {
    if id.clt in s.clients && id.xid in s.clients[id.clt].calls && s.clients[id.clt].calls[id.xid].Answered?
    then Some(s.clients[id.clt].calls[id.xid].reply)
    else None
  }

  ghost predicate AnswersOk(s: State) {
    && (forall id :: id in s.answers ==>
          Issued(s, id) && !IsWaiting(s, id) && exists j :: FirstRun(s, id, j, s.answers[id]))
    && (forall id :: AnswerOf(s, id).Some? ==> id in s.answers && s.answers[id] == AnswerOf(s, id).value)
  }

  ghost predicate Inv(s: State) {
    && ClientsOk(s)
    && RequestsOk(s)
    && WindowsOk(s)
    && JobsOk(s)
    && ResponsesOk(s)
    && WaitingOk(s)
    && AnswersOk(s)
  }
}
