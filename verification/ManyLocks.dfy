/**
 Any number of locks with their extents.  All locks of a client share its `lockmap_mutex`, and
 all locks share the server's mutex, which is held while a retry is under way.  Every run of the
 whole projects to a run of the single-lock system for each of its locks, so that what was proved
 for one lock holds for every lock.
 */
module ManyLocks {
  import opened Basics
  import opened Extents
  import opened LockProtocol
  import One = LockSystem
  import LockTheorems

  type LockId = nat

  type Locks = map<LockId, One.State>

  /** One step of the program, and the lock it is about. */
  datatype Action = On(lid: LockId, step: One.Step)

  /** The step begins by taking the mutex of client `c`. */
  predicate TakesMutex(s: One.State, step: One.Step, c: ClientId) {
    match step
    case Turn(a) => a.client == c
    case HandleRevoke(a) => One.PcOf(s, a).RevokeSent? && One.PcOf(s, a).target == c
    case CallRelease(a) => a.client == c
    case GiveBack(a) => a.client == c
    case HandleRetry => s.retrying == Some(c)
    case CallAcquire(_) => false
    case AskServer(_) => false
    case SendRevoke(_, _) => false
    case TakeGrant(_) => false
    case TakeRefusal(_) => false
    case Wake(_) => false
    case TestFree(_) => false
    case DoRelease(_, _) => false
    case ReleaseServer(_) => false
    case Read(_, _) => false
    case ReadAttr(_) => false
    case Write(_, _, _) => false
  }

  predicate TakesServerMutex(step: One.Step) {
    step.AskServer? || step.ReleaseServer?
  }

  /** The client's mutex: free only if none of its threads is in an acquire RPC, for whatever lock. */
  ghost predicate MutexFree(m: Locks, c: ClientId) {
    forall k :: k in m ==> One.MutexFree(m[k], c)
  }

  predicate ServerMutexFree(m: Locks) {
    forall k :: k in m ==> m[k].retrying.None?
  }

  ghost predicate Enabled(m: Locks, act: Action) {
    && act.lid in m && One.Enabled(m[act.lid], act.step)
    && (forall c :: TakesMutex(m[act.lid], act.step, c) ==> MutexFree(m, c))
    && (TakesServerMutex(act.step) ==> ServerMutexFree(m))
  }

  ghost function Apply(m: Locks, act: Action): Locks
    requires Enabled(m, act)
  {
    m[act.lid := One.Apply(m[act.lid], act.step)]
  }

  function Init(stores: map<LockId, Stored>): Locks {
    map k | k in stores :: One.Init(stores[k])
  }

  ghost predicate Legal(m: Locks, run: seq<Action>)
    decreases |run|
  {
    run == [] || (Enabled(m, run[0]) && Legal(Apply(m, run[0]), run[1..]))
  }

  ghost function After(m: Locks, run: seq<Action>): Locks
    requires Legal(m, run)
    decreases |run|
  {
    if run == [] then m else After(Apply(m, run[0]), run[1..])
  }

  /** Every write of `give_back`, for whatever lock, still finds that lock FREE. */
  ghost predicate TimelyGiveBacks(m: Locks, run: seq<Action>)
    requires Legal(m, run)
    decreases |run|
  {
    run != [] ==>
      && (run[0].step.GiveBack? ==> One.StatusOf(m[run[0].lid], run[0].step.a.client).FREE?)
      && TimelyGiveBacks(Apply(m, run[0]), run[1..])
  }

  /** The steps of a run that are about lock `lid`. */
  function Project(run: seq<Action>, lid: LockId): seq<One.Step> {
    if run == [] then []
    else if run[0].lid == lid then [run[0].step] + Project(run[1..], lid)
    else Project(run[1..], lid)
  }

  /** Each lock lives through a legal run of its own, and ends where that run ends. */
  lemma {:induction false} EachLockRunsAlone(m: Locks, run: seq<Action>, lid: LockId)
    requires Legal(m, run) && lid in m
    ensures lid in After(m, run) && One.Legal(m[lid], Project(run, lid))
    ensures After(m, run)[lid] == One.After(m[lid], Project(run, lid))
    decreases |run|
  {
    if run != [] {
      EachLockRunsAlone(Apply(m, run[0]), run[1..], lid);
      if run[0].lid == lid {
        assert Project(run, lid)[1..] == Project(run[1..], lid);
      }
    }
  }

  lemma {:induction false} EachLockIsTimely(m: Locks, run: seq<Action>, lid: LockId)
    requires Legal(m, run) && lid in m && One.Legal(m[lid], Project(run, lid)) && TimelyGiveBacks(m, run)
    ensures One.TimelyGiveBacks(m[lid], Project(run, lid))
    decreases |run|
  {
    if run != [] {
      EachLockRunsAlone(Apply(m, run[0]), run[1..], lid);
      EachLockIsTimely(Apply(m, run[0]), run[1..], lid);
      if run[0].lid == lid {
        assert Project(run, lid)[1..] == Project(run[1..], lid);
      }
    }
  }

  lemma ProjectedRun(stores: map<LockId, Stored>, run: seq<Action>, lid: LockId)
    requires Legal(Init(stores), run) && TimelyGiveBacks(Init(stores), run) && lid in stores
    ensures lid in After(Init(stores), run) && One.Legal(One.Init(stores[lid]), Project(run, lid))
    ensures One.TimelyGiveBacks(One.Init(stores[lid]), Project(run, lid))
    ensures After(Init(stores), run)[lid] == One.After(One.Init(stores[lid]), Project(run, lid))
  {
    EachLockRunsAlone(Init(stores), run, lid);
    EachLockIsTimely(Init(stores), run, lid);
  }

  // ----- the theorems, for every lock -----

  /** In every run over all locks, every lock has at most one holder and an exact owner, and loses no waiter. */
  lemma EveryLockExcludes(stores: map<LockId, Stored>, run: seq<Action>, lid: LockId)
    requires Legal(Init(stores), run) && TimelyGiveBacks(Init(stores), run)
    requires lid in stores && StoreOk(stores[lid])
    ensures lid in After(Init(stores), run)
    ensures var s := After(Init(stores), run)[lid];
            && LockTheorems.OneHolder(s) && LockTheorems.OwnerIsExact(s)
            && LockTheorems.ReleasesAreSafe(s) && LockTheorems.RetriesAreSafe(s)
            && LockTheorems.WaitersListed(s) && LockTheorems.NoMissedWakeup(s) && LockTheorems.SomebodyWillAsk(s)
  {
    ProjectedRun(stores, run, lid);
    LockTheorems.MutualExclusion(stores[lid], Project(run, lid));
    LockTheorems.UncheckedWritesAreSafe(stores[lid], Project(run, lid));
    LockTheorems.NoLostWaiter(stores[lid], Project(run, lid));
  }

  /** And whoever holds it reads the latest put that any client made to its extent. */
  lemma EveryExtentIsCoherent(stores: map<LockId, Stored>, run: seq<Action>, lid: LockId, a: One.Agent, now: nat)
    requires Legal(Init(stores), run) && TimelyGiveBacks(Init(stores), run)
    requires lid in stores && StoreOk(stores[lid])
    requires lid in After(Init(stores), run) && One.PcOf(After(Init(stores), run)[lid], a).Holding?
    ensures var s := After(Init(stores), run)[lid];
            CacheGet(One.CacheOf(s, a.client), s.store, now).0 ==
            LockTheorems.LastPut(stores[lid].content, Project(run, lid))
  {
    ProjectedRun(stores, run, lid);
    LockTheorems.Coherence(stores[lid], Project(run, lid), a, now);
  }

  // ----- the shared mutex is one mutex -----

  ghost predicate InRpcFor(m: Locks, k: LockId, a: One.Agent) {
    k in m && One.InRpc(One.PcOf(m[k], a))
  }

  /** Over all locks, at most one thread of each client is in its acquire RPC. */
  ghost predicate OneRpc(m: Locks) {
    forall k, j, a, b ::
      InRpcFor(m, k, a) && InRpcFor(m, j, b) && a.client == b.client ==> k == j && a == b
  }

  /** Only a turn of the loop in `acquire` starts such an RPC. */
  lemma RpcStartsInTurn(s: One.State, step: One.Step, b: One.Agent)
    requires One.Enabled(s, step) && One.InRpc(One.PcOf(One.Apply(s, step), b))
    ensures One.InRpc(One.PcOf(s, b)) || step == One.Turn(b)
  {
  }

  /** And it finds the mutex free for all locks. */
  lemma RpcStartsAlone(m: Locks, act: Action, k: LockId, b: One.Agent)
    requires Enabled(m, act) && InRpcFor(Apply(m, act), k, b) && !InRpcFor(m, k, b)
    ensures act == On(k, One.Turn(b)) && MutexFree(m, b.client)
  {
    RpcStartsInTurn(m[k], act.step, b);
    assert TakesMutex(m[k], act.step, b.client);
  }

  lemma NobodyInRpc(m: Locks, c: ClientId, j: LockId, b: One.Agent)
    requires MutexFree(m, c) && b.client == c
    ensures !InRpcFor(m, j, b)
  {
  }

  lemma StepKeepsOneRpc(m: Locks, act: Action)
    requires OneRpc(m) && Enabled(m, act)
    ensures OneRpc(Apply(m, act))
  {
    var m' := Apply(m, act);
    forall k, j, a, b | InRpcFor(m', k, a) && InRpcFor(m', j, b) && a.client == b.client ensures k == j && a == b {
      if !InRpcFor(m, k, a) {
        RpcStartsAlone(m, act, k, a);
        NobodyInRpc(m, a.client, j, b);
        RpcStartsAlone(m, act, j, b);
      } else if !InRpcFor(m, j, b) {
        RpcStartsAlone(m, act, j, b);
        NobodyInRpc(m, b.client, k, a);
      }
    }
  }

  lemma {:induction false} MutexIsShared(m: Locks, run: seq<Action>)
    requires OneRpc(m) && Legal(m, run)
    ensures OneRpc(After(m, run))
    decreases |run|
  {
    if run != [] {
      StepKeepsOneRpc(m, run[0]);
      MutexIsShared(Apply(m, run[0]), run[1..]);
    }
  }
}
