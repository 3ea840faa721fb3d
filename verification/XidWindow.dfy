/**
 The client's compressed window of answered calls (`rpcc::update_xid_rep`).

 The window is a sorted list.  Its front stands for all the xids 1..front, and the
 values above the front are the xids answered out of order.  The list may hold the same
 value more than once, because a call is reported both when its reply arrives and when
 the call returns.
 */
module XidWindow {
  import opened Basics

  ghost predicate Sorted(w: seq<nat>) {
    forall i, j :: 0 <= i <= j < |w| ==> w[i] <= w[j]
  }

  /** What the window means: `w` is a faithful summary of the set of reported xids. */
  ghost predicate Represents(w: seq<nat>, reported: set<nat>) {
    && Summarises(w, reported)
    && w[0] + 1 !in reported
  }

  /** As `Represents`, except that the front may still be too low. */
  ghost predicate Summarises(w: seq<nat>, reported: set<nat>) {
    && |w| > 0
    && Sorted(w)
    && (forall x :: x in reported ==> x < UINT_LIMIT)
    && (forall x :: x in w ==> x < UINT_LIMIT)
    && (forall x :: 1 <= x <= w[0] ==> x in reported)
    && (forall x :: x > w[0] ==> (x in w <==> x in reported))
  }

  /** `unsigned int` increment. */
  function Succ(x: nat): nat {
    (x + 1) % UINT_LIMIT
  }

  /** Puts `xid` in front of the first larger value, or at the end. */
  function Insert(w: seq<nat>, xid: nat): seq<nat> {
    if w == [] then [xid]
    else if w[0] > xid then [xid] + w
    else [w[0]] + Insert(w[1..], xid)
  }

  /** The compression loop, with its iterator at position `k`. */
  function Compress(w: seq<nat>, k: nat): (r: seq<nat>)
    ensures |w| > 0 ==> |r| > 0
    decreases |w| - k, |w|
  {
    if k >= |w| then w
    else if k > 0 && Succ(w[0]) == w[k] then Compress(w[1..], k - 1)
    else Compress(w, k + 1)
  }

  function Update(w: seq<nat>, xid: nat): (r: seq<nat>)
    requires |w| > 0
    ensures |r| > 0
  {
    if xid <= w[0] then w else Compress(Insert(w, xid), 1)
  }

  lemma {:induction false} InsertKeepsOrder(w: seq<nat>, xid: nat)
    requires Sorted(w)
    ensures Sorted(Insert(w, xid)) && |Insert(w, xid)| == |w| + 1
    ensures forall x :: x in Insert(w, xid) <==> x in w || x == xid
    ensures Insert(w, xid)[0] == if w == [] || w[0] > xid then xid else w[0]
  {
    if w != [] && w[0] <= xid {
      InsertKeepsOrder(w[1..], xid);
      var v := Insert(w[1..], xid);
      assert v[0] in v;
      assert Insert(w, xid) == [w[0]] + v;
      assert forall i :: 0 <= i < |v| ==> w[0] <= v[0] <= v[i];
      assert forall x :: x in w <==> x == w[0] || x in w[1..];
    }
  }

  /** One turn of the insertion loop: a value that is not larger is passed over. */
  lemma InsertSkips(w: seq<nat>, xid: nat, i: nat)
    requires i < |w| && w[i] <= xid
    ensures w[..i] + Insert(w[i..], xid) == w[..i + 1] + Insert(w[i + 1..], xid)
  {
    assert w[i..][1..] == w[i + 1..];
    assert w[..i] + [w[i]] == w[..i + 1];
  }

  /** Before position `k` nothing continues the front. */
  ghost predicate NoGapCloser(w: seq<nat>, k: nat) {
    && 0 < |w|
    && k <= |w|
    && forall j :: 0 <= j < k ==> w[j] != w[0] + 1
  }

  lemma {:induction false} CompressRepresents(w: seq<nat>, k: nat, reported: set<nat>)
    requires Summarises(w, reported) && NoGapCloser(w, k)
    ensures Represents(Compress(w, k), reported)
    ensures Compress(w, k)[0] >= w[0]
    decreases |w| - k, |w|
  {
    if k >= |w| {
      return;
    }
    assert w[0] in w && w[k] in w;
    if k > 0 && Succ(w[0]) == w[k] {
      forall j | 0 <= j < k ensures w[j] == w[0] {
      }
      forall x | x > w[1] ensures x in w[1..] <==> x in w {
      }
      CompressRepresents(w[1..], k - 1, reported);
    } else {
      CompressRepresents(w, k + 1, reported);
    }
  }

  /** Reporting an xid adds exactly that xid to the represented set, and the front never falls. */
  lemma UpdateRepresents(w: seq<nat>, xid: nat, reported: set<nat>)
    requires Represents(w, reported) && xid < UINT_LIMIT
    ensures Represents(Update(w, xid), reported + {xid})
    ensures Update(w, xid)[0] >= w[0]
  {
    if xid > w[0] {
      var v := Insert(w, xid);
      InsertKeepsOrder(w, xid);
      assert Summarises(v, reported + {xid});
      CompressRepresents(v, 1, reported + {xid});
    }
  }

  /** The front is the largest n such that 1..n have all been reported. */
  lemma FrontIsLargestPrefix(w: seq<nat>, reported: set<nat>, n: nat)
    requires Represents(w, reported)
    ensures n <= w[0] <==> forall x :: 1 <= x <= n ==> x in reported
  {
    if n > w[0] {
      assert 1 <= w[0] + 1 <= n && w[0] + 1 !in reported;
    }
  }

  /** The window after a sequence of reports, starting from the constructor's `[0]`. */
  function AfterReports(xs: seq<nat>): (w: seq<nat>)
    ensures |w| > 0
  {
    if xs == [] then [0]
    else
      Update(AfterReports(xs[..|xs| - 1]), xs[|xs| - 1])
  }

  /** The xids a sequence of reports names. */
  ghost function Reported(xs: seq<nat>): set<nat> {
    set x | x in xs
  }

  /** Any sequence of reports, in any order and with repeats, yields a summary of the plain set. */
  lemma {:induction false} AfterReportsRepresents(xs: seq<nat>)
    requires forall i :: 0 <= i < |xs| ==> xs[i] < UINT_LIMIT
    ensures Represents(AfterReports(xs), Reported(xs))
  {
    if xs == [] {
      assert Represents([0], {});
    } else {
      var xs', last := xs[..|xs| - 1], xs[|xs| - 1];
      assert xs == xs' + [last] && last in xs;
      AfterReportsRepresents(xs');
      UpdateRepresents(AfterReports(xs'), last, Reported(xs'));
      assert Reported(xs) == Reported(xs') + {last};
    }
  }
}
