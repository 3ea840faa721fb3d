/** Timeouts of `rpcc::call1`: deadline arithmetic and the rounds of waiting with doubling timeouts. */
module Timers {
  const TO_MIN: nat := 1000
  const TO_MAX: nat := 120000

  datatype Timespec = Timespec(sec: int, nsec: int)

  /** The instant a timespec stands for, in nanoseconds. */
  function Ns(t: Timespec): int {
    t.sec * 1_000_000_000 + t.nsec
  }

  /** A clock reading. */
  predicate Normal(t: Timespec) {
    0 <= t.nsec < 1_000_000_000
  }

  /** What `add_timespec` can leave: its loop stops at exactly one second of nanoseconds. */
  predicate Nearly(t: Timespec) {
    0 <= t.nsec <= 1_000_000_000
  }

  /** `b` milliseconds later, exactly. */
  method AddTimespec(a: Timespec, b: nat) returns (r: Timespec)
    requires Normal(a)
    ensures Ns(r) == Ns(a) + b * 1_000_000 && Nearly(r) && r.sec >= a.sec
  {
    var sec, nsec := a.sec + b / 1000, a.nsec + b % 1000 * 1_000_000;
    while nsec > 1_000_000_000
      invariant sec * 1_000_000_000 + nsec == Ns(a) + b * 1_000_000
      invariant 0 <= nsec && sec >= a.sec
    {
      sec := sec + 1;
      nsec := nsec - 1_000_000_000;
    }
    r := Timespec(sec, nsec);
  }

  function CmpTimespec(a: Timespec, b: Timespec): int {
    if a.sec > b.sec then 1
    else if a.sec < b.sec then -1
    else if a.nsec > b.nsec then 1
    else if a.nsec < b.nsec then -1
    else 0
  }

  /** The comparison never contradicts the strict order of instants, also for results of `add_timespec`. */
  lemma CmpAgrees(a: Timespec, b: Timespec)
    requires Nearly(a) && Nearly(b)
    ensures Ns(a) > Ns(b) ==> CmpTimespec(a, b) == 1
    ensures Ns(a) < Ns(b) ==> CmpTimespec(a, b) == -1
    ensures CmpTimespec(a, b) == 0 ==> Ns(a) == Ns(b)
  {
  }

  /** It can tell two names of the same instant apart, but only where one of them is not normal. */
  lemma CmpZeroIff(a: Timespec, b: Timespec)
    requires Nearly(a) && Nearly(b) && Ns(a) == Ns(b)
    ensures CmpTimespec(a, b) == 0 <==> (Normal(a) <==> Normal(b))
  {
  }

  function FromNs(t: nat): (r: Timespec)
    ensures Normal(r) && Ns(r) == t
  {
    Timespec(t / 1_000_000_000, t % 1_000_000_000)
  }

  /** The timeout of the `i`-th round, which doubles every time. */
  function RoundMs(i: nat): (ms: nat)
    ensures ms > 0
  {
    if i == 0 then TO_MIN else 2 * RoundMs(i - 1)
  }

  /** The start, or the deadline at which the last wait timed out. */
  function Moment(start: Timespec, before: seq<Timespec>): int {
    if before == [] then Ns(start) else Ns(before[|before| - 1])
  }

  /** When the next round would end by itself; its clock reading comes some time after the moment before. */
  function RoundEnd(start: Timespec, before: seq<Timespec>, late: nat -> nat): int {
    Moment(start, before) + late(|before|) + RoundMs(|before|) * 1_000_000
  }

  /** All rounds ran for their whole doubled timeout. */
  ghost predicate Doubling(start: Timespec, ds: seq<Timespec>, late: nat -> nat, end: int) {
    ds == [] ||
    var before := ds[..|ds| - 1];
    Doubling(start, before, late, end) && Ns(ds[|ds| - 1]) == RoundEnd(start, before, late) <= end
  }

  /** All but the last, which is cut off at the end. */
  ghost predicate CutOff(start: Timespec, ds: seq<Timespec>, late: nat -> nat, end: int) {
    && ds != []
    && var before := ds[..|ds| - 1];
       Doubling(start, before, late, end) && Ns(ds[|ds| - 1]) == end <= RoundEnd(start, before, late)
  }

  lemma NextRound(start: Timespec, ds: seq<Timespec>, late: nat -> nat, end: int, next: Timespec)
    requires Doubling(start, ds, late, end)
    ensures Ns(next) == RoundEnd(start, ds, late) <= end ==> Doubling(start, ds + [next], late, end)
    ensures Ns(next) == end <= RoundEnd(start, ds, late) ==> CutOff(start, ds + [next], late, end)
  {
    assert (ds + [next])[..|ds|] == ds;
  }

  /** The first `w` rounds alone take 1000 * (2^w - 1) milliseconds. */
  lemma {:induction false} RoundsTakeTime(start: Timespec, ds: seq<Timespec>, late: nat -> nat, end: int)
    requires Doubling(start, ds, late, end) && Ns(start) <= end
    ensures Ns(start) + (RoundMs(|ds|) - TO_MIN) * 1_000_000 <= Moment(start, ds) <= end
  {
    if ds != [] {
      RoundsTakeTime(start, ds[..|ds| - 1], late, end);
    }
  }

  /** No wait deadline lies after the end. */
  lemma {:induction false} NoneAfterEnd(start: Timespec, ds: seq<Timespec>, late: nat -> nat, end: int, i: nat)
    requires Doubling(start, ds, late, end) || CutOff(start, ds, late, end)
    requires i < |ds|
    ensures Ns(ds[i]) <= end
  {
    if i < |ds| - 1 {
      NoneAfterEnd(start, ds[..|ds| - 1], late, end, i);
    }
  }

  /** The number of waits is logarithmic in the timeout. */
  lemma RoundsBound(start: Timespec, ds: seq<Timespec>, late: nat -> nat, end: int, to: nat)
    requires ds != [] && end == Ns(start) + to * 1_000_000
    requires Doubling(start, ds, late, end) || CutOff(start, ds, late, end)
    ensures 1000 * (Pow2(|ds| - 1) - 1) <= to
  {
    FullRoundsBound(start, ds[..|ds| - 1], late, end, to);
  }

  lemma FullRoundsBound(start: Timespec, ds: seq<Timespec>, late: nat -> nat, end: int, to: nat)
    requires end == Ns(start) + to * 1_000_000 && Doubling(start, ds, late, end)
    ensures 1000 * (Pow2(|ds|) - 1) <= to
  {
    RoundsTakeTime(start, ds, late, end);
    RoundIsPower(|ds|);
  }

  /**
   The loop of `call1`: all deadlines it waits for, in order, and whether a reply ended it.  The
   clock starts at `start`; `late(i)` is how much later round `i` begins than the start or than
   the deadline at which the wait before timed out; `reply(i)` says whether the reply arrives
   during the `i`-th wait.  Only a wait that lasted up to `start + to` gives up.
   */
  method WaitRounds(start: Timespec, to: nat, late: nat -> nat, reply: nat -> bool)
    returns (deadlines: seq<Timespec>, done: bool)
    requires Normal(start) && start.sec > 0
    ensures var end := Ns(start) + to * 1_000_000;
            CutOff(start, deadlines, late, end) || (done && Doubling(start, deadlines, late, end))
    ensures deadlines != [] && done == reply(|deadlines| - 1)
    ensures forall i: nat :: i < |deadlines| - 1 ==> !reply(i)
  {
    var final := AddTimespec(start, to);
    var currTo := TO_MIN;
    deadlines, done := [], false;
    var moment: nat := Ns(start);
    ghost var end := Ns(final);
    while true
      invariant currTo == RoundMs(|deadlines|) && moment == Moment(start, deadlines) && !done
      invariant forall i: nat :: i < |deadlines| ==> !reply(i)
      invariant final.sec != 0 ==> Nearly(final) && Ns(final) == end && Doubling(start, deadlines, late, end)
      invariant final.sec == 0 ==> CutOff(start, deadlines, late, end)
      invariant moment <= end
      decreases final.sec != 0, end - moment
    {
      if final.sec == 0 {
        break;
      }
      var next, last := Deadline(moment + late(|deadlines|), currTo, final);
      NextRound(start, deadlines, late, end, next);
      if last {
        final := final.(sec := 0);
      }
      deadlines := deadlines + [next];
      if reply(|deadlines| - 1) {
        done := true;
        break;
      }
      moment := Ns(next);
      currTo := currTo * 2;
    }
  }

  /** The deadline of one round: `currTo` from now, or the final one if that comes first. */
  method Deadline(now: nat, currTo: nat, final: Timespec) returns (next: Timespec, last: bool)
    requires Nearly(final)
    ensures var t := now + currTo * 1_000_000;
            if last then next == final && Ns(final) <= t else Ns(next) == t <= Ns(final)
  {
    next := AddTimespec(FromNs(now), currTo);
    CmpAgrees(next, final);
    last := CmpTimespec(next, final) > 0;
    if last {
      next := final;
    }
  }

  function Pow2(k: nat): nat {
    if k == 0 then 1 else 2 * Pow2(k - 1)
  }

  lemma {:induction false} RoundIsPower(i: nat)
    ensures RoundMs(i) == 1000 * Pow2(i)
  {
    if i > 0 {
      RoundIsPower(i - 1);
    }
  }

  lemma {:induction false} RoundsGrow(j: nat, k: nat)
    requires j <= k
    ensures RoundMs(j) <= RoundMs(k)
  {
    if j < k {
      RoundsGrow(j, k - 1);
    }
  }

  /** With the default timeout a call waits at most seven times. */
  lemma DefaultRounds(w: nat)
    requires w > 0 && 1000 * (Pow2(w - 1) - 1) <= TO_MAX
    ensures w <= 7
  {
    RoundIsPower(w - 1);
    assert RoundMs(3) == 8000 && RoundMs(5) == 32000 && RoundMs(7) == 128000;
    if w > 7 {
      RoundsGrow(7, w - 1);
    }
  }
}
