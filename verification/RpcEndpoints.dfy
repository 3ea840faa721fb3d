/**
 The mutable endpoints behind `AtMostOnce`: `rpcc` and `rpcs` with their fields and loops.
 Each method is one locked section of the source, and is proved to do what the
 corresponding function of the step machine does.
 */
module RpcEndpoints {
  import opened Basics
  import XidWindow
  import opened ReplyWindow
  import opened AtMostOnce

  const BIND: nat := 1
  const TIMEOUT_FAILURE := -1
  const BIND_FAILURE := -6
  const CANCEL_FAILURE := -7

  datatype Outcome = Failed(code: int) | Started(m: Request)

  class RpcClient {
    const cltNonce: nat
    var bindDone: bool
    var destroyWait: bool
    var nextXid: nat
    var calls: map<nat, Caller>
    var xidRepWindow: seq<nat>
    /** The xids given to `UpdateXidRep` so far. */
    ghost var reported: set<nat>

    ghost predicate Valid()
      reads this
    {
      XidWindow.Represents(xidRepWindow, reported)
    }

    ghost function Abstract(): Client
      reads this
    {
      Client(nextXid, calls, xidRepWindow, destroyWait, reported)
    }

    constructor (nonce: nat)
      ensures Valid() && Abstract() == NewClient() && cltNonce == nonce && !bindDone
    {
      cltNonce := nonce;
      bindDone, destroyWait := false, false;
      nextXid, calls := 1, map[];
      // xid starts with 1 and the latest received reply with 0
      xidRepWindow := [0];
      reported := {};
    }

    /** `update_xid_rep` */
    method UpdateXidRep(xid: nat)
      requires Valid() && xid < UINT_LIMIT
      modifies this`xidRepWindow, this`reported
      ensures Valid()
      ensures Abstract() == Report(old(Abstract()), xid)
      ensures xidRepWindow[0] >= old(xidRepWindow[0])
    {
      XidWindow.UpdateRepresents(xidRepWindow, xid, reported);
      reported := reported + {xid};
      if xid <= xidRepWindow[0] {
        return;
      }
      xidRepWindow := InsertInto(xidRepWindow, xid);
      CompressWindow();
    }

    method InsertInto(w: seq<nat>, xid: nat) returns (v: seq<nat>)
      ensures v == XidWindow.Insert(w, xid)
    {
      var i := 0;
      while i < |w| && w[i] <= xid
        invariant 0 <= i <= |w|
        invariant XidWindow.Insert(w, xid) == w[..i] + XidWindow.Insert(w[i..], xid)
      {
        XidWindow.InsertSkips(w, xid, i);
        i := i + 1;
      }
      v := w[..i] + [xid] + w[i..];
    }

    /** The compression loop: `k` is the iterator, and the element under it is never popped. */
    method CompressWindow()
      requires |xidRepWindow| > 0
      modifies this`xidRepWindow
      ensures xidRepWindow == XidWindow.Compress(old(xidRepWindow), 1)
    {
      var k := 1;
      while k < |xidRepWindow|
        invariant 0 <= k <= |xidRepWindow| && |xidRepWindow| > 0
        invariant XidWindow.Compress(xidRepWindow, k) == XidWindow.Compress(old(xidRepWindow), 1)
        decreases |xidRepWindow| - k
      {
        ghost var left := |xidRepWindow| - k;
        while XidWindow.Succ(xidRepWindow[0]) == xidRepWindow[k]
          invariant 0 <= k < |xidRepWindow| && |xidRepWindow| - k == left
          invariant XidWindow.Compress(xidRepWindow, k) == XidWindow.Compress(old(xidRepWindow), 1)
          decreases |xidRepWindow|
        {
          assert k > 0;
          xidRepWindow := xidRepWindow[1..];
          k := k - 1;
        }
        k := k + 1;
      }
    }

    /** The locked section at the start of `call1`. */
    method StartCall(proc: nat, args: Bytes) returns (r: Outcome)
      requires Valid() && nextXid < UINT_LIMIT
      modifies this`nextXid, this`calls
      ensures Valid()
      ensures (proc == 1) == bindDone ==> r == Failed(-6)
      ensures (proc == 1) != bindDone && destroyWait ==> r == Failed(-7)
      ensures (proc == 1) != bindDone && !destroyWait ==> r.Started?
      ensures r.Failed? ==> Abstract() == old(Abstract())
      ensures r.Started? ==> (Abstract(), r.m) == AtMostOnce.StartCall(old(Abstract()), cltNonce, args)
    {
      if (proc != BIND && !bindDone) || (proc == BIND && bindDone) {
        return Failed(BIND_FAILURE);
      }
      if destroyWait {
        return Failed(CANCEL_FAILURE);
      }
      var xid := nextXid;
      nextXid := nextXid + 1;
      calls := calls[xid := Waiting];
      r := Started(Request(CallId(cltNonce, xid), xidRepWindow[0], args));
    }

    /** `got_pdu`: report the xid, and complete the call if it is still waiting. */
    method GotPdu(xid: nat, reply: Reply)
      requires Valid() && xid < UINT_LIMIT
      modifies this`calls, this`xidRepWindow, this`reported
      ensures Valid()
      ensures Abstract() == GotReply(old(Abstract()), xid, reply)
    {
      UpdateXidRep(xid);
      if xid in calls {
        if calls[xid].Waiting? {
          calls := calls[xid := Answered(reply)];
        }
      }
    }

    /** The locked section at the end of `call1`, and what `call1` then returns. */
    method EndCall(xid: nat) returns (ret: int)
      requires Valid() && xid < UINT_LIMIT && xid in calls
      modifies this`calls, this`xidRepWindow, this`reported
      ensures Valid()
      ensures Abstract() == FinishCall(old(Abstract()), xid)
      ensures old(calls)[xid].Waiting? ==> ret == -1
      ensures old(calls)[xid].Cancelled? ==> ret == -7
      ensures old(calls)[xid].Answered? ==> ret == old(calls)[xid].reply.ret
    {
      ret := match calls[xid]
             case Waiting => TIMEOUT_FAILURE
             case Cancelled => CANCEL_FAILURE
             case Answered(reply) => reply.ret;
      calls := calls - {xid};
      UpdateXidRep(xid);
    }

    /** `cancel`, up to its first wait. */
    method CancelCalls()
      requires Valid()
      modifies this`calls, this`destroyWait
      ensures Valid()
      ensures Abstract() == CancelAll(old(Abstract()))
    {
      ghost var before := Abstract();
      calls := CancelEach(calls);
      assert calls == CancelAll(before).calls;
      if calls != map[] {
        destroyWait := true;
      }
      assert (calls == map[]) == (before.calls == map[]) by {
        assert calls.Keys == before.calls.Keys;
      }
    }

    static method CancelEach(m: map<nat, Caller>) returns (r: map<nat, Caller>)
      ensures r == map x | x in m :: Cancelled
    {
      r := m;
      var todo := m.Keys;
      while todo != {}
        invariant todo <= m.Keys == r.Keys
        invariant forall x :: x in m ==> r[x] == if x in todo then m[x] else Cancelled
        decreases |todo|
      {
        var x :| x in todo;
        r := r[x := Cancelled];
        todo := todo - {x};
      }
    }
  }

  ghost predicate HasAbove(es: seq<Entry>, bound: nat) {
    exists e :: e in es && e.xid > bound
  }

  class RpcServer {
    var replyWindow: map<nat, seq<Entry>>
    var windowBound: map<nat, nat>

    /** Absent keys read as an empty list and a zero bound, as `std::map::operator[]` makes them. */
    function Get(clt: nat): Window
      reads this
    {
      Window(if clt in replyWindow then replyWindow[clt] else [],
             if clt in windowBound then windowBound[clt] else 0)
    }

    constructor ()
      ensures forall clt :: Get(clt) == Window([], 0)
    {
      replyWindow, windowBound := map[], map[];
    }

    /**
     `checkduplicate_and_update`.  The prune loop of the source runs off the list unless some entry
     stays: the new one does for every request on the network (`RequestsAcknowledgeOlderCalls`).
     */
    method CheckDuplicateAndUpdate(clt: nat, xid: nat, xidRep: nat) returns (verdict: Class)
      requires ReplyWindow.Classify(Get(clt), xid).New? ==> xidRep < xid || HasAbove(Get(clt).entries, xidRep)
      modifies this
      ensures (verdict, Get(clt)) == Check(old(Get(clt)), xid, xidRep)
      ensures forall n :: n != clt ==> Get(n) == old(Get(n))
    {
      var list := if clt in replyWindow then replyWindow[clt] else [];
      var min := if clt in windowBound then windowBound[clt] else 0;
      verdict := New;
      if list != [] {
        if xid <= min {
          verdict := Forgotten;
        } else {
          verdict := ScanList(list, xid);
        }
      }
      if verdict.New? {
        list := InsertAndPrune(list, xid, xidRep);
        min := xidRep;
      }
      replyWindow := replyWindow[clt := list];
      windowBound := windowBound[clt := min];
    }

    method ScanList(list: seq<Entry>, xid: nat) returns (verdict: Class)
      ensures verdict == Scan(list, xid)
    {
      verdict := New;
      var i := 0;
      while i < |list|
        invariant 0 <= i <= |list|
        invariant Scan(list, xid) == if Scan(list[i..], xid).New? then verdict else Scan(list[i..], xid)
      {
        if xid == list[i].xid {
          verdict := match list[i].reply case Some(r) => Done(r) case None => InProgress;
        }
        assert list[i..][1..] == list[i + 1..];
        i := i + 1;
      }
    }

    /** Insert in increasing order, then drop what the client has acknowledged. */
    method InsertAndPrune(list: seq<Entry>, xid: nat, xidRep: nat) returns (r: seq<Entry>)
      requires xidRep < xid || HasAbove(list, xidRep)
      ensures r == Prune(InsertNew(list, xid), xidRep) && r != []
    {
      var i := 0;
      while i < |list| && xid >= list[i].xid
        invariant 0 <= i <= |list|
        invariant InsertNew(list, xid) == list[..i] + InsertNew(list[i..], xid)
      {
        InsertNewSkips(list, xid, i);
        i := i + 1;
      }
      r := list[..i] + [Entry(xid, None)] + list[i..];
      assert r == InsertNew(list, xid);
      ghost var kept := Entry(xid, None);
      if xidRep >= xid {
        kept :| kept in list && kept.xid > xidRep;
        assert kept in list[..i] + list[i..];
      }
      while r[0].xid <= xidRep
        invariant kept in r && kept.xid > xidRep
        invariant Prune(r, xidRep) == Prune(InsertNew(list, xid), xidRep)
        decreases |r|
      {
        r := r[1..];
      }
    }

    /** `add_reply` */
    method SaveReply(clt: nat, xid: nat, reply: Reply)
      modifies this`replyWindow
      ensures Get(clt) == old(Get(clt)).(entries := AddReply(old(Get(clt)).entries, xid, reply))
      ensures forall n :: n != clt ==> Get(n) == old(Get(n))
    {
      var list := if clt in replyWindow then replyWindow[clt] else [];
      list := FillIn(list, xid, reply);
      replyWindow := replyWindow[clt := list];
    }

    method FillIn(list: seq<Entry>, xid: nat, reply: Reply) returns (r: seq<Entry>)
      ensures r == AddReply(list, xid, reply)
    {
      r := list;
      var i := 0;
      while i < |list| && list[i].xid != xid
        invariant 0 <= i <= |list|
        invariant AddReply(list, xid, reply) == list[..i] + AddReply(list[i..], xid, reply)
      {
        AddReplySkips(list, xid, reply, i);
        i := i + 1;
      }
      if i < |list| {
        AddReplyHits(list, xid, reply, i);
        r := list[i := list[i].(reply := Some(reply))];
      }
    }
  }
}
