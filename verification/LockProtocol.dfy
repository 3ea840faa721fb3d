/**
 The caching lock protocol, one critical section at a time: what the lock server and a
 caching client do to the state of a single lock.  The empty string names nobody.
 */
module LockProtocol {
  import opened Basics

  type ClientId = string

  /** `client_lock_state` */
  datatype LockStatus = NONE | FREE | LOCKED | ACQUIRING | RELEASING

  // ----- server: lock_server_cache -----

  /** `where_is_lock[lid]` and `who_waiting_lock[lid]`. */
  datatype ServerLock = ServerLock(owner: ClientId, waiting: seq<ClientId>)

  const UNKNOWN_LOCK := ServerLock("", [])

  /** The reply to `acquire`: a grant, or RETRY, possibly after revoking the owner. */
  datatype Answer = Grant | Retry(revoke: bool)

  function ServerAcquire(l: ServerLock, id: ClientId): (ServerLock, Answer) {
    if l.owner == "" then (l.(owner := id), Grant)
    else (l.(waiting := if id in l.waiting then l.waiting else l.waiting + [id]), Retry(l.waiting == []))
  }

  /** `release`: clears the owner unconditionally; the client to be sent a retry, if any. */
  function ServerRelease(l: ServerLock): (ServerLock, Option<ClientId>) {
    if l.waiting == [] then (ServerLock("", []), None)
    else (ServerLock("", l.waiting[1..]), Some(l.waiting[0]))
  }

  // ----- client: lock_client_cache -----

  /** What one turn of the loop in `acquire` decides. */
  datatype Look = Take | Sleep | Ask

  function AcquireLook(status: LockStatus): Look {
    match status
    case FREE => Take
    case NONE => Ask
    case LOCKED => Sleep
    case ACQUIRING => Sleep
    case RELEASING => Sleep
  }

  /** The status after `release`, and whether the lock must go back to the server. */
  function ReleaseTo(status: LockStatus): (LockStatus, bool) {
    if status == RELEASING then (NONE, true) else (FREE, false)
  }

  function Revoked(status: LockStatus): LockStatus {
    if status == LOCKED then RELEASING else status
  }

  // ----- the client's critical sections on everything it keeps for one lock -----

  /**
   The entries of `lockstate_map` and `lock_cv_map`, and the threads waiting on the condition
   variable.  Naming `lock_cv_map[lid]` creates a missing entry.
   */
  datatype ClientLock = ClientLock(known: bool, status: LockStatus, cv: bool, asleep: set<nat>)

  const UNSEEN_LOCK := ClientLock(false, NONE, false, {})

  function Sleeps(l: ClientLock, tid: nat): ClientLock {
    l.(cv := true, asleep := l.asleep + {tid})
  }

  /** `pthread_cond_broadcast` */
  function WakesAll(l: ClientLock): ClientLock {
    l.(cv := true, asleep := {})
  }

  function Becomes(l: ClientLock, status: LockStatus): ClientLock {
    l.(known := true, status := status)
  }

  /** One turn of the loop in `acquire`, up to its RPC or its wait. */
  function TurnSection(l: ClientLock, tid: nat): (ClientLock, Look) {
    var l1 := if l.known then l else Becomes(l, NONE).(cv := true);
    match AcquireLook(l1.status)
    case Take => (Becomes(l1, LOCKED), Take)
    case Sleep => (Sleeps(l1, tid), Sleep)
    case Ask => (l1, Ask)
  }

  /** The rest of that turn, when the server has answered. */
  function AnsweredSection(l: ClientLock, tid: nat, granted: bool): ClientLock {
    if granted then Becomes(l, LOCKED) else Sleeps(Becomes(l, ACQUIRING), tid)
  }

  function ReleaseSection(l: ClientLock): (ClientLock, bool) {
    var (status, back) := ReleaseTo(l.status);
    (WakesAll(Becomes(l, status)), back)
  }

  function RevokeSection(l: ClientLock): ClientLock {
    Becomes(l, Revoked(l.status))
  }

  function RetrySection(l: ClientLock): ClientLock {
    if l.cv then WakesAll(Becomes(l, NONE)) else l
  }

  /** The write of `give_back`, which does not look at the status again. */
  function GiveBackSection(l: ClientLock): ClientLock {
    Becomes(l, NONE)
  }
}

/** The two classes that hold this state for every lock. */
module LockCaches {
  import opened Basics
  import opened LockProtocol

  class LockServerCache {
    var whereIsLock: map<nat, ClientId>
    var whoWaitingLock: map<nat, seq<ClientId>>

    function Lock(lid: nat): ServerLock
      reads this
    {
      ServerLock(if lid in whereIsLock then whereIsLock[lid] else "",
                 if lid in whoWaitingLock then whoWaitingLock[lid] else [])
    }

    constructor ()
      ensures forall lid :: Lock(lid) == UNKNOWN_LOCK
    {
      whereIsLock, whoWaitingLock := map[], map[];
    }

    /** The locked section of `acquire`; `Retry(true)` asks for a revoke after it. */
    method Acquire(lid: nat, id: ClientId) returns (answer: Answer)
      modifies this
      ensures (Lock(lid), answer) == ServerAcquire(old(Lock(lid)), id)
      ensures forall k :: k != lid ==> Lock(k) == old(Lock(k))
    {
      if lid !in whereIsLock {
        whereIsLock := whereIsLock[lid := id];
        return Grant;
      }
      if whereIsLock[lid] == "" {
        whereIsLock := whereIsLock[lid := id];
        return Grant;
      }
      var list := if lid in whoWaitingLock then whoWaitingLock[lid] else [];
      answer := Retry(list == []);
      var isWaiting := IsListed(list, id);
      if !isWaiting {
        whoWaitingLock := whoWaitingLock[lid := list + [id]];
      }
    }

    method IsListed(list: seq<ClientId>, id: ClientId) returns (found: bool)
      ensures found <==> id in list
    {
      found := false;
      for i := 0 to |list|
        invariant found <==> id in list[..i]
      {
        if list[i] == id {
          found := true;
        }
      }
    }

    /** The locked section of `release`, up to the retry call it makes. */
    method Release(lid: nat) returns (retry: Option<ClientId>)
      modifies this
      ensures (Lock(lid), retry) == ServerRelease(old(Lock(lid)))
      ensures forall k :: k != lid ==> Lock(k) == old(Lock(k))
    {
      whereIsLock := whereIsLock[lid := ""];
      retry := None;
      if lid in whoWaitingLock && whoWaitingLock[lid] != [] {
        retry := Some(whoWaitingLock[lid][0]);
        whoWaitingLock := whoWaitingLock[lid := whoWaitingLock[lid][1..]];
      }
    }
  }

  datatype ReleaseResult = NoEntry | KeptLocally | MustReturn

  /** Every method is one critical section of the source, and one step of the lock system. */
  class LockClientCache {
    var lockstate: map<nat, LockStatus>
    /** The keys of `lock_cv_map`. */
    var lockCv: set<nat>
    /** The threads waiting on each condition variable. */
    var waiters: map<nat, set<nat>>

    function Lock(lid: nat): ClientLock
      reads this
    {
      ClientLock(lid in lockstate, if lid in lockstate then lockstate[lid] else NONE, lid in lockCv,
                 if lid in waiters then waiters[lid] else {})
    }

    constructor ()
      ensures forall lid :: Lock(lid) == UNSEEN_LOCK
    {
      lockstate, lockCv, waiters := map[], {}, map[];
    }

    /** `pthread_cond_wait`: the calling thread goes to sleep. */
    method Wait(lid: nat, tid: nat)
      modifies this`lockCv, this`waiters
      ensures Lock(lid) == Sleeps(old(Lock(lid)), tid)
      ensures forall k :: k != lid ==> Lock(k) == old(Lock(k))
    {
      lockCv := lockCv + {lid};
      waiters := waiters[lid := (if lid in waiters then waiters[lid] else {}) + {tid}];
    }

    /** `pthread_cond_broadcast`: nobody stays asleep. */
    method Broadcast(lid: nat)
      modifies this`lockCv, this`waiters
      ensures Lock(lid) == WakesAll(old(Lock(lid)))
      ensures forall k :: k != lid ==> Lock(k) == old(Lock(k))
    {
      lockCv := lockCv + {lid};
      waiters := waiters[lid := {}];
    }

    /** One turn of the loop in `acquire`, under the mutex. */
    method AcquireTurn(lid: nat, tid: nat) returns (look: Look)
      modifies this
      ensures (Lock(lid), look) == TurnSection(old(Lock(lid)), tid)
      ensures forall k :: k != lid ==> Lock(k) == old(Lock(k))
    {
      if lid !in lockstate {
        lockstate := lockstate[lid := NONE];
        lockCv := lockCv + {lid};
      }
      if lockstate[lid] == FREE {
        lockstate := lockstate[lid := LOCKED];
        look := Take;
      } else if lockstate[lid] == NONE {
        look := Ask;
      } else {
        Wait(lid, tid);
        look := Sleep;
      }
    }

    /** The rest of the turn once the server has answered: the mutex has been held throughout. */
    method AcquireAnswered(lid: nat, tid: nat, granted: bool)
      modifies this
      ensures Lock(lid) == AnsweredSection(old(Lock(lid)), tid, granted)
      ensures forall k :: k != lid ==> Lock(k) == old(Lock(k))
    {
      if granted {
        lockstate := lockstate[lid := LOCKED];
      } else {
        lockstate := lockstate[lid := ACQUIRING];
        Wait(lid, tid);
      }
    }

    /** The locked section of `release`. */
    method Release(lid: nat) returns (r: ReleaseResult)
      modifies this
      ensures r.NoEntry? <==> !old(Lock(lid)).known
      ensures if r.NoEntry? then Lock(lid) == old(Lock(lid))
              else (Lock(lid), r.MustReturn?) == ReleaseSection(old(Lock(lid)))
      ensures forall k :: k != lid ==> Lock(k) == old(Lock(k))
    {
      if lid !in lockstate {
        return NoEntry;
      }
      if lockstate[lid] == RELEASING {
        lockstate := lockstate[lid := NONE];
        r := MustReturn;
      } else {
        lockstate := lockstate[lid := FREE];
        r := KeptLocally;
      }
      Broadcast(lid);
    }

    method RevokeHandler(lid: nat)
      modifies this`lockstate
      ensures Lock(lid) == RevokeSection(old(Lock(lid)))
      ensures forall k :: k != lid ==> Lock(k) == old(Lock(k))
    {
      // operator[] creates a missing entry with the zero status
      if lid !in lockstate {
        lockstate := lockstate[lid := NONE];
      }
      if lockstate[lid] == LOCKED {
        lockstate := lockstate[lid := RELEASING];
      }
    }

    method RetryHandler(lid: nat) returns (ok: bool)
      modifies this
      ensures ok <==> old(Lock(lid)).cv
      ensures Lock(lid) == RetrySection(old(Lock(lid)))
      ensures forall k :: k != lid ==> Lock(k) == old(Lock(k))
    {
      if lid !in lockCv {
        return false;
      }
      lockstate := lockstate[lid := NONE];
      Broadcast(lid);
      ok := true;
    }

    /** The scan of `give_back`: some lock seen FREE, if there is one.  It takes no mutex. */
    method FindFree() returns (r: Option<nat>)
      ensures r.Some? ==> r.value in lockstate && lockstate[r.value] == FREE
      ensures r.None? ==> forall lid :: lid in lockstate ==> lockstate[lid] != FREE
    {
      var todo := lockstate.Keys;
      while todo != {}
        invariant todo <= lockstate.Keys
        invariant forall lid :: lid in lockstate && lid !in todo ==> lockstate[lid] != FREE
        decreases |todo|
      {
        var lid :| lid in todo;
        if lockstate[lid] == FREE {
          return Some(lid);
        }
        todo := todo - {lid};
      }
      r := None;
    }

    /** The locked write of `give_back`. */
    method GiveBackWrite(lid: nat)
      modifies this`lockstate
      ensures Lock(lid) == GiveBackSection(old(Lock(lid)))
      ensures forall k :: k != lid ==> Lock(k) == old(Lock(k))
    {
      lockstate := lockstate[lid := NONE];
    }
  }
}
