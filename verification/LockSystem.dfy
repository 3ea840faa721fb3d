/**
 The caching lock protocol and the write-back extent cache as one transition system, for
 one lock and the extent it protects.

 Every step is one section that the code runs under a mutex, one message, or one extent
 operation.  `acquire` keeps its client's mutex while its RPC is outstanding, so such a
 client takes no other step under that mutex.  The server keeps its mutex while a retry is
 outstanding.  `ManyLocks` shows that a lock among others, which share these mutexes, goes
 through no other runs than these.
 */
module LockSystem {
  import opened Basics
  import opened Extents
  import opened LockProtocol

  /** A thread of a client. */
  datatype Agent = Agent(client: ClientId, tid: nat)

  /** Where a thread is. */
  datatype Pc =
    | Idle
    | Trying                        // about to take a turn of the loop in acquire
    | Sleeping                      // waiting on the lock's condition variable
    | Asking                        // acquire RPC sent, mutex held
    | Granted                       // OK reply under way, mutex held
    | Revoking                      // the server will revoke before it answers, mutex held
    | RevokeSent(target: ClientId)  // the revoke is under way, mutex held
    | Refused                       // RETRY reply under way, mutex held
    | Holding                       // acquire has returned
    | Tested                        // give_back has seen FREE
    | Flushing                      // the status is NONE; dorelease comes next
    | Releasing                     // release RPC sent

  /** `latest` records the content of the last put; `retried` the clients told to ask again. */
  datatype State = State(
    pc: map<Agent, Pc>,
    status: map<ClientId, LockStatus>,
    cv: set<ClientId>,
    server: ServerLock,
    retrying: Option<ClientId>,
    retried: set<ClientId>,
    cache: map<ClientId, Cached>,
    store: Stored,
    latest: Option<Bytes>)

  function PcOf(s: State, a: Agent): Pc {
    if a in s.pc then s.pc[a] else Idle
  }

  function StatusOf(s: State, c: ClientId): LockStatus {
    if c in s.status then s.status[c] else NONE
  }

  function CacheOf(s: State, c: ClientId): Cached {
    if c in s.cache then s.cache[c] else NOT_CACHED
  }

  /** The thread holds its client's mutex while its acquire RPC is outstanding. */
  predicate InRpc(pc: Pc) {
    pc.Asking? || pc.Granted? || pc.Revoking? || pc.RevokeSent? || pc.Refused?
  }

  ghost predicate MutexFree(s: State, c: ClientId) {
    forall a: Agent :: a.client == c ==> !InRpc(PcOf(s, a))
  }

  // ----- steps -----

  datatype Step =
    | CallAcquire(a: Agent)
    | Turn(a: Agent)
    | AskServer(a: Agent)
    | SendRevoke(a: Agent, target: ClientId)
    | HandleRevoke(a: Agent)
    | TakeGrant(a: Agent)
    | TakeRefusal(a: Agent)
    | Wake(a: Agent)
    | CallRelease(a: Agent)
    | TestFree(a: Agent)
    | GiveBack(a: Agent)
    | DoRelease(a: Agent, now: nat)
    | ReleaseServer(a: Agent)
    | HandleRetry
    | Read(a: Agent, now: nat)
    | ReadAttr(a: Agent)
    | Write(a: Agent, buf: Bytes, now: nat)

  ghost predicate Enabled(s: State, step: Step) {
    match step
    case CallAcquire(a) => PcOf(s, a).Idle? && a.client != ""
    case Turn(a) => PcOf(s, a).Trying? && MutexFree(s, a.client)
    case AskServer(a) => PcOf(s, a).Asking? && s.retrying.None?
    case SendRevoke(a, _) => PcOf(s, a).Revoking?
    case HandleRevoke(a) => PcOf(s, a).RevokeSent? && MutexFree(s, PcOf(s, a).target)
    case TakeGrant(a) => PcOf(s, a).Granted?
    case TakeRefusal(a) => PcOf(s, a).Refused?
    case Wake(a) => PcOf(s, a).Sleeping?
    case CallRelease(a) => PcOf(s, a).Holding? && MutexFree(s, a.client)
    case TestFree(a) => PcOf(s, a).Idle? && StatusOf(s, a.client).FREE?
    case GiveBack(a) => PcOf(s, a).Tested? && MutexFree(s, a.client)
    case DoRelease(a, _) => PcOf(s, a).Flushing?
    case ReleaseServer(a) => PcOf(s, a).Releasing? && s.retrying.None?
    case HandleRetry => s.retrying.Some? && MutexFree(s, s.retrying.value)
    case Read(a, _) => PcOf(s, a).Holding?
    case ReadAttr(a) => PcOf(s, a).Holding?
    case Write(a, _, _) => PcOf(s, a).Holding?
  }

  function Move(s: State, a: Agent, pc: Pc): State {
    s.(pc := s.pc[a := pc])
  }

  function SetStatus(s: State, c: ClientId, status: LockStatus): State {
    s.(status := s.status[c := status])
  }

  /** `pthread_cond_broadcast` on the lock's condition variable, which also creates it. */
  function Broadcast(s: State, c: ClientId): State {
    s.(cv := s.cv + {c},
       pc := map a | a in s.pc :: if a.client == c && s.pc[a].Sleeping? then Trying else s.pc[a])
  }

  function ApplyTurn(s: State, a: Agent): State {
    var c := a.client;
    var s1 := if c in s.status then s else SetStatus(s, c, NONE).(cv := s.cv + {c});
    match AcquireLook(StatusOf(s1, c))
    case Take => Move(SetStatus(s1, c, LOCKED), a, Holding)
    case Sleep => Move(s1.(cv := s1.cv + {c}), a, Sleeping)
    case Ask => Move(s1, a, Asking)
  }

  function ApplyAsk(s: State, a: Agent): State {
    var (l, answer) := ServerAcquire(s.server, a.client);
    Move(s, a, match answer
               case Grant => Granted
               case Retry(revoke) => if revoke then Revoking else Refused)
      .(server := l, retried := s.retried - {a.client})
  }

  function ApplyRelease(s: State, a: Agent): State {
    var (status, back) := ReleaseTo(StatusOf(s, a.client));
    Move(Broadcast(SetStatus(s, a.client, status), a.client), a, if back then Flushing else Idle)
  }

  function ApplyReleaseServer(s: State, a: Agent): State {
    var (l, retry) := ServerRelease(s.server);
    Move(s, a, Idle).(server := l, retrying := retry)
  }

  function ApplyRetry(s: State): State
    requires s.retrying.Some?
  {
    var c := s.retrying.value;
    var s1 := s.(retrying := None);
    if c in s.cv then Broadcast(SetStatus(s1, c, NONE), c).(retried := s.retried + {c}) else s1
  }

  function ApplyDoRelease(s: State, a: Agent, now: nat): State {
    var (c', st') := CacheFlush(CacheOf(s, a.client), s.store, now);
    Move(s, a, Releasing).(cache := s.cache[a.client := c'], store := st')
  }

  ghost function Apply(s: State, step: Step): State
    requires Enabled(s, step)
  {
    match step
    case CallAcquire(a) => Move(s, a, Trying)
    case Turn(a) => ApplyTurn(s, a)
    case AskServer(a) => ApplyAsk(s, a)
    case SendRevoke(a, target) => Move(s, a, RevokeSent(target))
    case HandleRevoke(a) =>
      var c := PcOf(s, a).target;
      Move(SetStatus(s, c, Revoked(StatusOf(s, c))), a, Refused)
    case TakeGrant(a) => Move(SetStatus(s, a.client, LOCKED), a, Holding)
    case TakeRefusal(a) => Move(SetStatus(s, a.client, ACQUIRING).(cv := s.cv + {a.client}), a, Sleeping)
    case Wake(a) => Move(s, a, Trying)
    case CallRelease(a) => ApplyRelease(s, a)
    case TestFree(a) => Move(s, a, Tested)
    case GiveBack(a) => Move(SetStatus(s, a.client, NONE), a, Flushing)
    case DoRelease(a, now) => ApplyDoRelease(s, a, now)
    case ReleaseServer(a) => ApplyReleaseServer(s, a)
    case HandleRetry => ApplyRetry(s)
    case Read(a, now) =>
      var (_, c', st') := CacheGet(CacheOf(s, a.client), s.store, now);
      s.(cache := s.cache[a.client := c'], store := st')
    case ReadAttr(a) => s.(cache := s.cache[a.client := CacheGetAttr(CacheOf(s, a.client), s.store).1])
    case Write(a, buf, now) =>
      s.(cache := s.cache[a.client := CachePut(CacheOf(s, a.client), buf, now)], latest := Some(buf))
  }

  // ----- runs -----

  function Init(store: Stored): State {
    State(map[], map[], {}, UNKNOWN_LOCK, None, {}, map[], store, store.content)
  }

  ghost predicate Legal(s: State, steps: seq<Step>)
    decreases |steps|
  {
    steps == [] || (Enabled(s, steps[0]) && Legal(Apply(s, steps[0]), steps[1..]))
  }

  ghost function After(s: State, steps: seq<Step>): State
    requires Legal(s, steps)
    decreases |steps|
  {
    if steps == [] then s else After(Apply(s, steps[0]), steps[1..])
  }

  /** Every write of `give_back` still finds the lock FREE, as its test did. */
  ghost predicate TimelyGiveBacks(s: State, steps: seq<Step>)
    requires Legal(s, steps)
    decreases |steps|
  {
    steps != [] ==>
      && (steps[0].GiveBack? ==> StatusOf(s, steps[0].a.client).FREE?)
      && TimelyGiveBacks(Apply(s, steps[0]), steps[1..])
  }

  // ----- the invariant -----

  /** The client has the lock as far as its own status tells. */
  predicate Owns(status: LockStatus) {
    status.FREE? || status.LOCKED? || status.RELEASING?
  }

  predicate HandingBack(pc: Pc) {
    pc.Flushing? || pc.Releasing?
  }

  predicate Queued(pc: Pc) {
    pc.Revoking? || pc.RevokeSent? || pc.Refused?
  }

  /** At most one thread per client is in its RPC, and the client's status is then NONE. */
  ghost predicate RpcOk(s: State) {
    && (forall a, b :: InRpc(PcOf(s, a)) && InRpc(PcOf(s, b)) && a.client == b.client ==> a == b)
    && (forall a :: InRpc(PcOf(s, a)) ==> StatusOf(s, a.client).NONE?)
  }

  ghost predicate HoldersOk(s: State) {
    && (forall a :: PcOf(s, a).Holding? ==> StatusOf(s, a.client).LOCKED? || StatusOf(s, a.client).RELEASING?)
    && (forall a, b :: PcOf(s, a).Holding? && PcOf(s, b).Holding? && a.client == b.client ==> a == b)
    && (forall c :: StatusOf(s, c).LOCKED? || StatusOf(s, c).RELEASING? ==>
          exists a: Agent :: a.client == c && PcOf(s, a).Holding?)
  }

  ghost predicate HandBacksOk(s: State) {
    && (forall a :: HandingBack(PcOf(s, a)) ==> !Owns(StatusOf(s, a.client)) && s.server.owner == a.client)
    && (forall a, b :: HandingBack(PcOf(s, a)) && HandingBack(PcOf(s, b)) && a.client == b.client ==> a == b)
    && (forall a, b :: HandingBack(PcOf(s, a)) && PcOf(s, b).Granted? ==> a.client != b.client)
  }

  /** The client possesses the lock, or it is on its way to or from it. */
  ghost predicate Possesses(s: State, c: ClientId) {
    Owns(StatusOf(s, c)) || exists a: Agent :: a.client == c && (PcOf(s, a).Granted? || HandingBack(PcOf(s, a)))
  }

  /** The server's record of the owner is exact. */
  ghost predicate OwnerOk(s: State) {
    && (forall c :: Owns(StatusOf(s, c)) ==> c == s.server.owner)
    && (forall a :: PcOf(s, a).Granted? ==> a.client == s.server.owner)
    && (s.server.owner != "" ==> Possesses(s, s.server.owner))
    && (forall a :: !PcOf(s, a).Idle? ==> a.client != "")
    && StatusOf(s, "").NONE?
  }

  ghost predicate Enqueued(s: State, c: ClientId) {
    StatusOf(s, c).ACQUIRING? || exists a: Agent :: a.client == c && Queued(PcOf(s, a))
  }

  ghost predicate NoDuplicates(q: seq<ClientId>) {
    forall i, j :: 0 <= i < j < |q| ==> q[i] != q[j]
  }

  /** Whoever was told to wait is in the list exactly once, or is the target of the retry. */
  ghost predicate QueueOk(s: State) {
    && NoDuplicates(s.server.waiting)
    && (forall c :: Enqueued(s, c) <==> c in s.server.waiting || s.retrying == Some(c))
    && (s.retrying.Some? ==> s.retrying.value !in s.server.waiting && s.server.owner == "")
    && (forall c :: StatusOf(s, c).ACQUIRING? ==> c in s.cv)
  }

  /** Nobody sleeps while the lock could be taken or asked for. */
  ghost predicate SleepersOk(s: State) {
    && (forall a :: PcOf(s, a).Sleeping? ==>
          StatusOf(s, a.client).LOCKED? || StatusOf(s, a.client).ACQUIRING? || StatusOf(s, a.client).RELEASING?)
    && (forall c :: StatusOf(s, c).ACQUIRING? ==>
          exists a: Agent :: a.client == c && (PcOf(s, a).Sleeping? || PcOf(s, a).Trying?))
  }

  /** A client told to retry has a thread that will ask again. */
  ghost predicate RetriesOk(s: State) {
    && (forall c :: c in s.retried ==>
          StatusOf(s, c).NONE? && exists a: Agent :: a.client == c && (PcOf(s, a).Trying? || PcOf(s, a).Asking?))
    && (forall a :: PcOf(s, a).Granted? || Queued(PcOf(s, a)) ==> a.client !in s.retried)
    && (s.server.owner == "" && s.server.waiting != [] && s.retrying.None? ==> s.retried != {})
  }

  /** The client may have something cached. */
  ghost predicate MayCache(s: State, c: ClientId) {
    Owns(StatusOf(s, c)) || exists a: Agent :: a.client == c && PcOf(s, a).Flushing?
  }

  ghost predicate DataOk(s: State) {
    && StoreOk(s.store)
    && (forall c :: CacheOk(CacheOf(s, c), s.store))
    && (forall c :: !MayCache(s, c) ==> CacheOf(s, c) == NOT_CACHED)
    && View(CacheOf(s, s.server.owner), s.store) == s.latest
  }

  /** Who has the lock. */
  ghost predicate Exclusion(s: State) {
    RpcOk(s) && HoldersOk(s) && HandBacksOk(s) && OwnerOk(s)
  }

  /** Who waits for it. */
  ghost predicate Queues(s: State) {
    QueueOk(s) && SleepersOk(s) && RetriesOk(s)
  }

  ghost predicate Inv(s: State) {
    Exclusion(s) && Queues(s) && DataOk(s)
  }
}
