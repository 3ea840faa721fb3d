/**
 The server's per-client reply window (`rpcs::checkduplicate_and_update` and
 `rpcs::add_reply`): a list of remembered calls sorted by xid, and a bound below which
 calls have been forgotten.
 */
module ReplyWindow {
  import opened Basics

  /** What a handler returned: its status and the marshalled result. */
  datatype Reply = Reply(ret: int, body: Bytes)

  /** `reply_t`: a remembered call, with its reply once `cb_present` is set. */
  datatype Entry = Entry(xid: nat, reply: Option<Reply>)

  /** `reply_window_[clt_nonce]` together with `window_bound_[clt_nonce]`. */
  datatype Window = Window(entries: seq<Entry>, bound: nat)

  datatype Class = New | InProgress | Done(reply: Reply) | Forgotten

  ghost predicate StrictlySorted(es: seq<Entry>) {
    forall i, j :: 0 <= i < j < |es| ==> es[i].xid < es[j].xid
  }

  // ----- the code's list operations -----

  /** The scan for a duplicate; it never stops early, so the last match counts. */
  function Scan(es: seq<Entry>, xid: nat): (c: Class)
    ensures !c.Forgotten?
  {
    if es == [] then New
    else
      var later := Scan(es[1..], xid);
      if !later.New? || es[0].xid != xid then later
      else match es[0].reply
           case Some(r) => Done(r)
           case None => InProgress
  }

  function Classify(w: Window, xid: nat): Class {
    if w.entries == [] then New
    else if xid <= w.bound then Forgotten
    else Scan(w.entries, xid)
  }

  function InsertNew(es: seq<Entry>, xid: nat): seq<Entry> {
    if es == [] then [Entry(xid, None)]
    else if xid < es[0].xid then [Entry(xid, None)] + es
    else [es[0]] + InsertNew(es[1..], xid)
  }

  function Prune(es: seq<Entry>, xidRep: nat): seq<Entry> {
    if es == [] || es[0].xid > xidRep then es else Prune(es[1..], xidRep)
  }

  /** The window after a request has been classified as new. */
  function Accept(w: Window, xid: nat, xidRep: nat): Window {
    Window(Prune(InsertNew(w.entries, xid), xidRep), xidRep)
  }

  /** `checkduplicate_and_update` as a whole. */
  function Check(w: Window, xid: nat, xidRep: nat): (Class, Window) {
    var c := Classify(w, xid);
    (c, if c.New? then Accept(w, xid, xidRep) else w)
  }

  /** `add_reply`: only the first entry with this xid is filled in. */
  function AddReply(es: seq<Entry>, xid: nat, r: Reply): seq<Entry> {
    if es == [] then []
    else if es[0].xid == xid then [es[0].(reply := Some(r))] + es[1..]
    else [es[0]] + AddReply(es[1..], xid, r)
  }

  // ----- the table the list stands for -----

  /** The finite map a list of entries represents. */
  ghost function Table(es: seq<Entry>): map<nat, Option<Reply>> {
    if es == [] then map[] else Table(es[1..])[es[0].xid := es[0].reply]
  }

  /** The part of `m` above `bound`. */
  ghost function Above(m: map<nat, Option<Reply>>, bound: nat): map<nat, Option<Reply>> {
    map x | x in m && x > bound :: m[x]
  }

  lemma {:induction false} HeadIsLeast(es: seq<Entry>, low: nat)
    requires StrictlySorted(es) && (es != [] ==> low < es[0].xid)
    ensures forall x :: x in Table(es) ==> x > low
  {
    if es != [] {
      HeadIsLeast(es[1..], es[0].xid);
    }
  }

  lemma {:induction false} ScanReadsTable(es: seq<Entry>, xid: nat)
    requires StrictlySorted(es)
    ensures Scan(es, xid).New? <==> xid !in Table(es)
    ensures Scan(es, xid).InProgress? <==> xid in Table(es) && Table(es)[xid].None?
    ensures forall r :: Scan(es, xid) == Done(r) <==> xid in Table(es) && Table(es)[xid] == Some(r)
  {
    if es != [] {
      ScanReadsTable(es[1..], xid);
      HeadIsLeast(es[1..], es[0].xid);
    }
  }

  /** The four answers of `checkduplicate_and_update`, in terms of the table. */
  lemma ClassifyReadsTable(w: Window, xid: nat)
    requires StrictlySorted(w.entries)
    ensures Classify(w, xid).New? <==> w.entries == [] || (xid > w.bound && xid !in Table(w.entries))
    ensures Classify(w, xid).Forgotten? <==> w.entries != [] && xid <= w.bound
    ensures Classify(w, xid).InProgress? <==>
            xid > w.bound && xid in Table(w.entries) && Table(w.entries)[xid].None?
    ensures forall r :: Classify(w, xid) == Done(r) <==>
            xid > w.bound && xid in Table(w.entries) && Table(w.entries)[xid] == Some(r)
  {
    ScanReadsTable(w.entries, xid);
  }

  lemma {:induction false} InsertNewTable(es: seq<Entry>, xid: nat)
    requires StrictlySorted(es) && xid !in Table(es)
    ensures StrictlySorted(InsertNew(es, xid))
    ensures InsertNew(es, xid)[0].xid == xid || (es != [] && InsertNew(es, xid)[0] == es[0])
    ensures Table(InsertNew(es, xid)) == Table(es)[xid := None]
  {
    if es == [] {
    } else if xid < es[0].xid {
      assert InsertNew(es, xid)[1..] == es;
    } else {
      assert xid > es[0].xid;
      InsertNewTable(es[1..], xid);
      assert InsertNew(es, xid)[1..] == InsertNew(es[1..], xid);
    }
  }

  /** One turn of the insertion loop: an entry with no larger xid is passed over. */
  lemma InsertNewSkips(es: seq<Entry>, xid: nat, i: nat)
    requires i < |es| && es[i].xid <= xid
    ensures es[..i] + InsertNew(es[i..], xid) == es[..i + 1] + InsertNew(es[i + 1..], xid)
  {
    assert es[i..][1..] == es[i + 1..];
    assert es[..i] + [es[i]] == es[..i + 1];
  }

  lemma AddReplySkips(es: seq<Entry>, xid: nat, r: Reply, i: nat)
    requires i < |es| && es[i].xid != xid
    ensures es[..i] + AddReply(es[i..], xid, r) == es[..i + 1] + AddReply(es[i + 1..], xid, r)
  {
    assert es[i..][1..] == es[i + 1..];
    assert es[..i] + [es[i]] == es[..i + 1];
  }

  lemma AddReplyHits(es: seq<Entry>, xid: nat, r: Reply, i: nat)
    requires i < |es| && es[i].xid == xid
    ensures es[..i] + AddReply(es[i..], xid, r) == es[i := Entry(xid, Some(r))]
  {
    assert es[i..][1..] == es[i + 1..];
  }

  lemma {:induction false} PruneTable(es: seq<Entry>, xidRep: nat)
    requires StrictlySorted(es)
    ensures StrictlySorted(Prune(es, xidRep))
    ensures Table(Prune(es, xidRep)) == Above(Table(es), xidRep)
  {
    if es == [] {
    } else if es[0].xid > xidRep {
      HeadIsLeast(es, xidRep);
    } else {
      PruneTable(es[1..], xidRep);
    }
  }

  /**
   Accepting a new request keeps the list sorted and non-empty, and leaves in it exactly the
   previous entries and the new one that lie above the client's `xid_rep`.
   */
  lemma AcceptTable(w: Window, xid: nat, xidRep: nat)
    requires StrictlySorted(w.entries) && xid !in Table(w.entries) && xidRep < xid
    ensures var w' := Accept(w, xid, xidRep);
            && StrictlySorted(w'.entries)
            && w'.entries != []
            && w'.bound == xidRep
            && Table(w'.entries) == Above(Table(w.entries)[xid := None], xidRep)
  {
    InsertNewTable(w.entries, xid);
    PruneTable(InsertNew(w.entries, xid), xidRep);
    assert xid in Table(Accept(w, xid, xidRep).entries);
  }

  /** A reply is remembered exactly when the call is still in the table; nothing else changes. */
  lemma {:induction false} AddReplyTable(es: seq<Entry>, xid: nat, r: Reply)
    requires StrictlySorted(es)
    ensures |AddReply(es, xid, r)| == |es|
    ensures forall i :: 0 <= i < |es| ==> AddReply(es, xid, r)[i].xid == es[i].xid
    ensures StrictlySorted(AddReply(es, xid, r))
    ensures Table(AddReply(es, xid, r)) == if xid in Table(es) then Table(es)[xid := Some(r)] else Table(es)
  {
    if es == [] {
    } else if es[0].xid == xid {
      assert AddReply(es, xid, r)[1..] == es[1..];
    } else {
      AddReplyTable(es[1..], xid, r);
      assert AddReply(es, xid, r)[1..] == AddReply(es[1..], xid, r);
    }
  }
}
