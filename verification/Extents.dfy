/**
 The write-back extent cache (`extent_client`) and the store behind it (`extent_server`),
 first for one extent as functions on values, then as the classes that hold all extents.
 */
module Extents {
  import opened Basics

  datatype Attr = Attr(atime: nat, mtime: nat, ctime: nat, size: nat)

  /** The server's `content_map` and `attr_map` entries for one extent. */
  datatype Stored = Stored(content: Option<Bytes>, attr: Option<Attr>)

  /** A client's `content_map_cache`, `attr_map_cache` and `dirty_eid_set` entries for one extent. */
  datatype Cached = Cached(content: Option<Bytes>, attr: Option<Attr>, dirty: bool)

  const NOT_CACHED := Cached(None, None, false)

  /** `std::string::size()` stored in an `unsigned int`. */
  function Size(buf: Bytes): nat {
    |buf| % UINT_LIMIT
  }

  // ----- server operations on one extent -----

  function StorePut(st: Stored, buf: Bytes, now: nat): Stored {
    Stored(Some(buf),
           match st.attr
           case None => Some(Attr(now, now, now, Size(buf)))
           case Some(a) => Some(a.(ctime := now, mtime := now, size := Size(buf))))
  }

  /** A successful get also updates the access time; a missing extent is an `IOERR`. */
  function StoreGet(st: Stored, now: nat): (Option<Bytes>, Stored) {
    if st.content.Some? && st.attr.Some?
    then (st.content, st.(attr := Some(st.attr.value.(atime := now))))
    else (None, st)
  }

  // ----- client operations on one extent -----

  function CacheGet(c: Cached, st: Stored, now: nat): (Option<Bytes>, Cached, Stored) {
    if c.content.Some? then (c.content, c, st)
    else
      var (r, st') := StoreGet(st, now);
      (r, if r.Some? then c.(content := r) else c, st')
  }

  function CacheGetAttr(c: Cached, st: Stored): (Option<Attr>, Cached) {
    if c.attr.Some? then (c.attr, c)
    else (st.attr, if st.attr.Some? then c.(attr := st.attr) else c)
  }

  function CachePut(c: Cached, buf: Bytes, now: nat): Cached {
    Cached(Some(buf), Some(Attr(now, now, now, Size(buf))), true)
  }

  /** Write back if dirty, then drop whatever is cached. */
  function CacheFlush(c: Cached, st: Stored, now: nat): (Cached, Stored) {
    (c.(content := None, attr := None, dirty := false),
     if c.dirty then StorePut(st, if c.content.Some? then c.content.value else [], now) else st)
  }

  // ----- the simple store that the cache refines -----

  /** What a holder of the extent's lock should see: the cached content, else the server's. */
  function View(c: Cached, st: Stored): Option<Bytes> {
    if c.content.Some? then c.content else st.content
  }

  predicate StoreOk(st: Stored) {
    && st.content.Some? == st.attr.Some?
    && (st.content.Some? ==> st.attr.value.size == Size(st.content.value))
  }

  predicate CacheOk(c: Cached, st: Stored) {
    && (c.dirty ==> c.content.Some? && c.attr.Some?)
    && (c.content.Some? && !c.dirty ==> st.content == c.content)
    && (c.attr.Some? ==> View(c, st).Some? && c.attr.value.size == Size(View(c, st).value))
  }

  /** Flushing changes nothing a reader can see, and leaves everything at the server. */
  lemma FlushRefines(c: Cached, st: Stored, now: nat)
    requires StoreOk(st) && CacheOk(c, st)
    ensures var (c', st') := CacheFlush(c, st, now);
            c' == NOT_CACHED && StoreOk(st') && st'.content == View(c, st)
  {
  }

  // ----- a session of operations under one lock, against a plain variable -----

  datatype Op = Get(now: nat) | GetAttr | Put(buf: Bytes, now: nat) | Flush(now: nat)

  datatype Seen = Nothing | Content(c: Option<Bytes>) | Attrs(a: Option<Attr>)

  function RunOp(c: Cached, st: Stored, op: Op): (Seen, Cached, Stored) {
    match op
    case Get(now) => var (r, c', st') := CacheGet(c, st, now); (Content(r), c', st')
    case GetAttr => var (a, c') := CacheGetAttr(c, st); (Attrs(a), c', st)
    case Put(buf, now) => (Nothing, CachePut(c, buf, now), st)
    case Flush(now) => var (c', st') := CacheFlush(c, st, now); (Nothing, c', st')
  }

  datatype Times = Times(accessed: nat, modified: nat, changed: nat)

  /**
   The specification: one variable that holds the extent's content, or nothing, and what a user of
   it may know of its times.  `saved` are the times on record, `shown` the times that have been
   shown since the last flush and are therefore shown again, `held` says that the content has been
   read or written since then, and `unsaved` that it has been written.
   */
  datatype Variable = Variable(
    content: Option<Bytes>, saved: Option<Times>, shown: Option<Times>, held: bool, unsaved: bool)

  function SimpleOp(v: Variable, op: Op): (Seen, Variable) {
    match op
    case Get(now) =>
      // only the first reading after a flush counts as an access
      (Content(v.content),
       if v.held || v.saved.None? then v
       else v.(held := true, saved := Some(v.saved.value.(accessed := now))))
    case GetAttr =>
      var times := if v.shown.Some? then v.shown else v.saved;
      if v.content.None? || times.None? then (Attrs(None), v)
      else
        var t := times.value;
        (Attrs(Some(Attr(t.accessed, t.modified, t.changed, Size(v.content.value)))), v.(shown := times))
    case Put(buf, now) =>
      (Nothing, v.(content := Some(buf), shown := Some(Times(now, now, now)), held := true, unsaved := true))
    case Flush(now) =>
      // what was written counts as modified now; a new extent also as accessed now
      var accessed := if v.saved.Some? then v.saved.value.accessed else now;
      (Nothing, v.(saved := if v.unsaved then Some(Times(accessed, now, now)) else v.saved,
                   shown := None, held := false, unsaved := false))
  }

  function TimesOf(a: Option<Attr>): Option<Times> {
    if a.Some? then Some(Times(a.value.atime, a.value.mtime, a.value.ctime)) else None
  }

  /** The variable for which a cache and a store stand. */
  function Meaning(c: Cached, st: Stored): Variable {
    Variable(View(c, st), TimesOf(st.attr), TimesOf(c.attr), c.content.Some?, c.dirty)
  }

  function RunOps(c: Cached, st: Stored, ops: seq<Op>): (seq<Seen>, Cached, Stored)
    decreases |ops|
  {
    if ops == [] then ([], c, st)
    else
      var (seen, c', st') := RunOp(c, st, ops[0]);
      var (rest, c'', st'') := RunOps(c', st', ops[1..]);
      ([seen] + rest, c'', st'')
  }

  function SimpleOps(v: Variable, ops: seq<Op>): (seq<Seen>, Variable)
    decreases |ops|
  {
    if ops == [] then ([], v)
    else
      var (seen, v') := SimpleOp(v, ops[0]);
      var (rest, v'') := SimpleOps(v', ops[1..]);
      ([seen] + rest, v'')
  }

  lemma OpRefines(c: Cached, st: Stored, op: Op)
    requires StoreOk(st) && CacheOk(c, st)
    ensures var (seen, c', st') := RunOp(c, st, op);
            && StoreOk(st') && CacheOk(c', st')
            && (seen, Meaning(c', st')) == SimpleOp(Meaning(c, st), op)
  {
  }

  /** Any sequence of operations observes exactly what it would on the plain variable, times included. */
  lemma {:induction false} CacheRefinesVariable(c: Cached, st: Stored, ops: seq<Op>)
    requires StoreOk(st) && CacheOk(c, st)
    ensures var (seen, c', st') := RunOps(c, st, ops);
            && StoreOk(st') && CacheOk(c', st')
            && (seen, Meaning(c', st')) == SimpleOps(Meaning(c, st), ops)
    decreases |ops|
  {
    if ops != [] {
      OpRefines(c, st, ops[0]);
      var (_, c', st') := RunOp(c, st, ops[0]);
      CacheRefinesVariable(c', st', ops[1..]);
    }
  }

  // ----- the classes -----

  class ExtentServer {
    var contentMap: map<nat, Bytes>
    var attrMap: map<nat, Attr>

    function Slot(id: nat): Stored
      reads this
    {
      Stored(if id in contentMap then Some(contentMap[id]) else None,
             if id in attrMap then Some(attrMap[id]) else None)
    }

    /** Only the root directory, extent 1, exists at first, and it is empty. */
    constructor (now: nat)
      ensures Slot(1) == Stored(Some([]), Some(Attr(now, now, now, 0)))
      ensures forall id :: id != 1 ==> Slot(id) == Stored(None, None)
      ensures forall id :: StoreOk(Slot(id))
    {
      contentMap := map[1 := []];
      attrMap := map[1 := Attr(now, now, now, 0)];
    }

    method Put(id: nat, buf: Bytes, now: nat)
      modifies this
      ensures Slot(id) == StorePut(old(Slot(id)), buf, now)
      ensures forall k :: k != id ==> Slot(k) == old(Slot(k))
    {
      contentMap := contentMap[id := buf];
      if id !in attrMap {
        attrMap := attrMap[id := Attr(now, now, now, |buf| % UINT_LIMIT)];
      } else {
        attrMap := attrMap[id := attrMap[id].(ctime := now, mtime := now, size := |buf| % UINT_LIMIT)];
      }
    }

    method Get(id: nat, now: nat) returns (r: Option<Bytes>)
      modifies this`attrMap
      ensures (r, Slot(id)) == StoreGet(old(Slot(id)), now)
      ensures forall k :: k != id ==> Slot(k) == old(Slot(k))
    {
      r := None;
      if id in contentMap && id in attrMap {
        r := Some(contentMap[id]);
        attrMap := attrMap[id := attrMap[id].(atime := now)];
      }
    }

    method GetAttr(id: nat) returns (a: Option<Attr>)
      ensures a == Slot(id).attr
    {
      a := if id in attrMap then Some(attrMap[id]) else None;
    }
  }

  class ExtentClient {
    const server: ExtentServer
    var contentMapCache: map<nat, Bytes>
    var attrMapCache: map<nat, Attr>
    var dirtyEidSet: set<nat>

    function Slot(id: nat): Cached
      reads this
    {
      Cached(if id in contentMapCache then Some(contentMapCache[id]) else None,
             if id in attrMapCache then Some(attrMapCache[id]) else None,
             id in dirtyEidSet)
    }

    constructor (s: ExtentServer)
      ensures server == s && forall id :: Slot(id) == NOT_CACHED
    {
      server := s;
      contentMapCache, attrMapCache, dirtyEidSet := map[], map[], {};
    }

    method Get(eid: nat, now: nat) returns (r: Option<Bytes>)
      modifies this`contentMapCache, server
      ensures (r, Slot(eid), server.Slot(eid)) == CacheGet(old(Slot(eid)), old(server.Slot(eid)), now)
      ensures forall k :: k != eid ==> Slot(k) == old(Slot(k)) && server.Slot(k) == old(server.Slot(k))
    {
      if eid in contentMapCache {
        r := Some(contentMapCache[eid]);
      } else {
        r := server.Get(eid, now);
        if r.Some? {
          contentMapCache := contentMapCache[eid := r.value];
        }
      }
    }

    method GetAttr(eid: nat) returns (a: Option<Attr>)
      modifies this`attrMapCache
      ensures (a, Slot(eid)) == CacheGetAttr(old(Slot(eid)), server.Slot(eid))
      ensures forall k :: k != eid ==> Slot(k) == old(Slot(k))
    {
      if eid in attrMapCache {
        a := Some(attrMapCache[eid]);
      } else {
        a := server.GetAttr(eid);
        if a.Some? {
          attrMapCache := attrMapCache[eid := a.value];
        }
      }
    }

    method Put(eid: nat, buf: Bytes, now: nat)
      modifies this
      ensures Slot(eid) == CachePut(old(Slot(eid)), buf, now)
      ensures forall k :: k != eid ==> Slot(k) == old(Slot(k))
    {
      contentMapCache := contentMapCache[eid := buf];
      dirtyEidSet := dirtyEidSet + {eid};
      attrMapCache := attrMapCache[eid := Attr(now, now, now, |buf| % UINT_LIMIT)];
    }

    /** Drops the cached entries only; the dirty mark and the server are left alone. */
    method Remove(eid: nat)
      modifies this`contentMapCache, this`attrMapCache
      ensures Slot(eid) == old(Slot(eid)).(content := None, attr := None)
      ensures forall k :: k != eid ==> Slot(k) == old(Slot(k))
    {
      contentMapCache := contentMapCache - {eid};
      attrMapCache := attrMapCache - {eid};
    }

    /** `flush`, which `lock_release_action::dorelease` calls before a lock goes back. */
    method Flush(eid: nat, now: nat)
      modifies this, server
      ensures (Slot(eid), server.Slot(eid)) == CacheFlush(old(Slot(eid)), old(server.Slot(eid)), now)
      ensures forall k :: k != eid ==> Slot(k) == old(Slot(k)) && server.Slot(k) == old(server.Slot(k))
    {
      if eid in dirtyEidSet {
        server.Put(eid, if eid in contentMapCache then contentMapCache[eid] else [], now);
        dirtyEidSet := dirtyEidSet - {eid};
      }
      Remove(eid);
    }
  }
}
