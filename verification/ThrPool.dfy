/** The bounded queue and the thread pool that is shut down with poison pills. */
module ThrPool {
  import opened Basics

  /** A queue entry: a job, or the entry without a function that tells a worker to exit. */
  datatype Item = Job(id: nat) | Pill

  /** Is there room for one more entry?  A limit of 0 means no limit. */
  predicate HasRoom<T>(q: seq<T>, max: nat) {
    max == 0 || |q| < max
  }

  class Fifo<T(0)> {
    var q: seq<T>
    const max: nat

    ghost predicate Valid()
      reads this
    {
      max > 0 ==> |q| <= max
    }

    constructor (limit: nat)
      ensures Valid() && q == [] && max == limit
    {
      q, max := [], limit;
    }

    /** One turn of the loop in `enq`: store the entry, or find the queue full and wait or give up. */
    method EnqTurn(e: T) returns (stored: bool)
      requires Valid()
      modifies this
      ensures Valid() && stored == HasRoom(old(q), max)
      ensures q == if stored then old(q) + [e] else old(q)
    {
      stored := max == 0 || |q| < max;
      if stored {
        q := q + [e];
      }
    }

    /** One turn of the loop in `deq`: take the oldest entry, or find the queue empty and wait. */
    method DeqTurn() returns (e: Option<T>)
      requires Valid()
      modifies this
      ensures Valid() && (e == None <==> old(q) == [])
      ensures old(q) == (if e.Some? then [e.value] else []) + q
    {
      if q == [] {
        e := None;
      } else {
        e := Some(q[0]);
        q := q[1..];
      }
    }
  }

  /** `jobq_` holds at most 100 entries per worker. */
  function Capacity(n: nat): nat {
    100 * n
  }

  // ----- the pool as a transition system -----

  datatype Pool = Pool(
    /** `nthreads_` */
    n: nat,
    q: seq<Item>,
    /** The jobs that `addJob` accepted, in that order. */
    accepted: seq<nat>,
    stopping: bool,
    /** Pills put into the queue so far. */
    pills: nat,
    /** Entries taken out of the queue so far. */
    taken: nat,
    /** Which started job a worker is busy with. */
    running: map<nat, nat>,
    exited: set<nat>,
    /** The jobs that were started, in that order, and the positions of those that have ended. */
    started: seq<nat>,
    ended: set<nat>
  )

  datatype Step =
    | AddJob(job: nat)
    | Stop
    | SendPill
    | Take(w: nat)
    | EndJob(w: nat)

  function Init(n: nat): Pool {
    Pool(n, [], [], false, 0, 0, map[], {}, [], {})
  }

  /** Nobody adds a job once the destructor runs; it sends one pill per worker. */
  predicate Enabled(s: Pool, a: Step) {
    match a
    case AddJob(job) => !s.stopping
    case Stop => !s.stopping
    case SendPill => s.stopping && s.pills < s.n && HasRoom(s.q, Capacity(s.n))
    case Take(w) => w < s.n && w !in s.running && w !in s.exited && s.q != []
    case EndJob(w) => w in s.running
  }

  function Apply(s: Pool, a: Step): Pool
    requires Enabled(s, a)
  {
    match a
    case AddJob(job) =>
      if HasRoom(s.q, Capacity(s.n)) then s.(q := s.q + [Job(job)], accepted := s.accepted + [job]) else s
    case Stop => s.(stopping := true)
    case SendPill => s.(q := s.q + [Pill], pills := s.pills + 1)
    case Take(w) =>
      var s' := s.(q := s.q[1..], taken := s.taken + 1);
      if s.q[0].Pill? then s'.(exited := s.exited + {w})
      else s'.(running := s.running[w := |s.started|], started := s.started + [s.q[0].id])
    case EndJob(w) => s.(running := s.running - {w}, ended := s.ended + {s.running[w]})
  }

  ghost predicate Legal(s: Pool, run: seq<Step>)
    decreases |run|
  {
    run == [] || (Enabled(s, run[0]) && Legal(Apply(s, run[0]), run[1..]))
  }

  ghost function After(s: Pool, run: seq<Step>): Pool
    requires Legal(s, run)
    decreases |run|
  {
    if run == [] then s else After(Apply(s, run[0]), run[1..])
  }

  function Workers(n: nat): (ws: set<nat>)
    ensures |ws| == n && forall w: nat :: w in ws <==> w < n
  {
    if n == 0 then {} else Workers(n - 1) + {n - 1}
  }

  predicate AllExited(s: Pool) {
    s.exited == Workers(s.n)
  }

  // ----- what every run keeps -----

  /** The jobs not yet taken, then the pills not yet taken. */
  ghost predicate QueueInv(s: Pool) {
    && (s.n > 0 ==> |s.q| <= Capacity(s.n))
    && |s.q| + s.taken == |s.accepted| + s.pills
    && (forall i :: 0 <= i < |s.q| ==>
          s.q[i] == if s.taken + i < |s.accepted| then Job(s.accepted[s.taken + i]) else Pill)
    && s.pills <= s.n
    && (s.pills > 0 ==> s.stopping)
  }

  /** Jobs are started in the order of acceptance, and pills are taken by workers that exit. */
  ghost predicate TakenInv(s: Pool) {
    && |s.exited| + |s.started| == s.taken
    && s.started <= s.accepted
    && (s.started == s.accepted || s.exited == {})
    && s.exited <= Workers(s.n)
  }

  ghost predicate IsRunning(s: Pool, i: nat) {
    exists w :: w in s.running && s.running[w] == i
  }

  /** Every started job is either with exactly one live worker or has ended. */
  ghost predicate BusyInv(s: Pool) {
    && (forall w :: w in s.running ==>
          w < s.n && w !in s.exited && s.running[w] < |s.started| && s.running[w] !in s.ended)
    && (forall w, v :: w in s.running && v in s.running && s.running[w] == s.running[v] ==> w == v)
    && (forall i: nat :: i < |s.started| ==> IsRunning(s, i) || i in s.ended)
    && (forall i :: i in s.ended ==> i < |s.started|)
  }

  ghost predicate Inv(s: Pool) {
    QueueInv(s) && TakenInv(s) && BusyInv(s)
  }
}
