/** Requests as atomic steps on the database, the clock and the server, and what
    every run of them keeps. */
module Lifecycle {
  import opened Wrappers
  import opened RemoteInfo
  import opened JobReplies
  import opened Database
  import opened Polling
  import opened Caching
  import opened Coherence

  /** `next` is the next unused primary key; `histories` is the server's past of
      each object; `misdated` are rows inserted again after their object was removed, with
      a stamp newer than their metadata. */
  datatype World = World(rows: Rows, next: nat, now: int, histories: map<Ref, seq<Version>>, misdated: set<Ref>)

  function History(w: World, r: Ref): seq<Version> {
    if r in w.histories then w.histories[r] else []
  }

  // ---- The invariant ----

  ghost predicate RowsSound(rows: Rows) {
    Typed(rows) && Integrity(rows) && Pending(rows)
  }

  ghost predicate CachesCoherent(w: World) {
    forall r :: r in w.rows && IsObject(r) && r !in w.misdated && w.rows[r].ObjectRow? ==>
      Coherent(w.rows[r].cache, History(w, r), w.now)
  }

  ghost predicate Inv(w: World) {
    && RowsSound(w.rows)
    && (forall r :: r in w.rows ==> r.pk < w.next)
    && (forall r :: OrderedHistory(History(w, r), w.now))
    && CachesCoherent(w)
  }

  // ---- Loading ----

  ghost predicate VisitOk(w: World, self: Ref, v: Visit) {
    && self in w.rows && IsObject(self)
    && |v.jobs| == |v.replies|
    && JobList(w.rows, self, v.jobs)
    && (forall j :: j in JobsOf(w.rows, self) ==> j.pk in v.jobs)
    && Honest(v, History(w, self))
    && NodeKey(v.primary) + NodeKey(v.secondary) <= w.rows.Keys
  }

  /** Whether loading looks at the object's jobs at all. */
  predicate Polls(w: World, self: Ref)
    requires self in w.rows && w.rows[self].ObjectRow?
  {
    Expired(w.rows[self], w.now) && w.rows[self].lastJob.Some?
  }

  /** A load that refreshes goes on to fetch the metadata, unless the machine is
      being deleted or deployed and the poll has not ended that. */
  ghost predicate LooksUp(w: World, self: Ref, v: Visit)
    requires self in w.rows && w.rows[self].ObjectRow?
  {
    var row := w.rows[self];
    self.Vm? ==>
      && (row.pendingDelete ==> Polls(w, self) && SawUnknown(self, v.replies, |v.replies|))
      && (row.template.Some? ==> Polls(w, self) && SawCreation(self, v.replies, |v.replies|))
  }

  /** The refresh of an object that stays meets an owner tag that names no owner. */
  ghost predicate RefreshTrips(w: World, self: Ref, v: Visit)
    requires self in w.rows && w.rows[self].ObjectRow?
  {
    SaveDue(w.rows[self], LooksUp(w, self, v), v) && HasTags(self, w.rows[self], LooksUp(w, self, v)) && v.garbled
  }

  /** The poll sees two removals; or one, and afterwards the server fails to answer
      about the removed machine with an error that cannot be stored; or none, and the
      refresh meets such a tag. */
  ghost predicate LoadDies(w: World, self: Ref, v: Visit)
    requires self in w.rows && w.rows[self].ObjectRow?
  {
    var removals := if Polls(w, self) then Removals(self, v.replies, |v.replies|) else 0;
    if removals == 0 then Expired(w.rows[self], w.now) && RefreshTrips(w, self, v)
    else removals >= 2
         || (LooksUp(w, self, v) && v.answer.None? && v.code != 401 && !(v.code == 404 && v.known))
  }

  /** The load removes its object for good: its poll sees exactly one removal,
      and nothing goes wrong afterwards. */
  ghost predicate RemovedBy(w: World, self: Ref, v: Visit)
    requires self in w.rows && w.rows[self].ObjectRow?
  {
    Polls(w, self) && Removals(self, v.replies, |v.replies|) == 1 && !LoadDies(w, self, v)
  }

  /** The server answers about a removed machine, so that the object in memory is
      stamped although it takes the answer no more, and what it holds is out of date. */
  ghost predicate Misdated(w: World, self: Ref, v: Visit)
    requires self in w.rows && w.rows[self].ObjectRow?
  {
    && LooksUp(w, self, v) && v.answer.Some?
    && var info := w.rows[self].cache.info;
       info.None? || !WasCurrent(History(w, self), w.now, info.value)
  }

  /** The rows the poll inside a load takes out. */
  function PollLoses(w: World, self: Ref, v: Visit): set<Ref>
    requires self in w.rows && w.rows[self].ObjectRow? && |v.jobs| == |v.replies|
  {
    if Polls(w, self) then Gone(self, v.jobs, v.replies, |v.jobs|) else {}
  }

  /** The rows a load takes out for good. */
  ghost function Lost(w: World, self: Ref, v: Visit): set<Ref>
    requires self in w.rows && w.rows[self].ObjectRow? && |v.jobs| == |v.replies|
  {
    if LoadDies(w, self, v) then {} else PollLoses(w, self, v)
  }

  /** A load as part of a request: an exception ends the request, and all it
      wrote is rolled back. */
  function LoadIn(w: World, self: Ref, v: Visit): Outcome
    requires self in w.rows && w.rows[self].ObjectRow? && |v.jobs| == |v.replies|
  {
    var o := Load(w.rows, self, v, w.now);
    if o.raised then Outcome(w.rows, Loaded(true, w.rows[self], false), true) else o
  }

  lemma FetchesIff(w: World, self: Ref, v: Visit)
    requires self in w.rows && w.rows[self].ObjectRow? && |v.jobs| == |v.replies|
    requires Expired(w.rows[self], w.now)
    requires Polls(w, self) ==> Removals(self, v.replies, |v.replies|) < 2
    ensures var p := CheckJobs(w.rows, self, w.rows[self], v.jobs, v.replies);
            Fetches(self, Apply(w.rows[self], p.updates)) <==> LooksUp(w, self, v)
  {
    if Polls(w, self) {
      hide CheckJobs, Removals, SawUnknown, SawCreation;
      CheckJobsUpdates(w.rows, self, w.rows[self], v.jobs, v.replies);
    }
  }

  lemma AnswersAreDated(v: Visit, h: seq<Version>, now: int)
    requires Honest(v, h) && OrderedHistory(h, now)
    ensures v.answer.Some? ==> NonZero(v.answer.value.mtime).Some?
  {
  }

  /** When a load ends in an exception. */
  lemma LoadDiesIff(w: World, self: Ref, v: Visit)
    requires Inv(w) && VisitOk(w, self, v)
    ensures LoadIn(w, self, v).raised <==> LoadDies(w, self, v)
  {
    hide Apply, NonZero;
    var row := w.rows[self];
    assert row.ObjectRow?;
    AnswersAreDated(v, History(w, self), w.now);
    hide RowsSound, CachesCoherent, JobList, CheckJobs, Refetch, Fetches, LooksUp, Removals, Honest, OrderedHistory;
    if Expired(row, w.now) {
      var p := CheckJobs(w.rows, self, row, v.jobs, v.replies);
      PolledLive(w.rows, self, row, v.jobs, v.replies);
      if !p.raised {
        FetchesIff(w, self, v);
        RefetchRaisesIff(p, self, row, v, w.now);
      }
    }
  }

  lemma PolledLive(rows: Rows, self: Ref, row: Row, jobs: seq<nat>, replies: seq<Reply>)
    requires row.ObjectRow? && |jobs| == |replies|
    ensures var p := CheckJobs(rows, self, row, jobs, replies);
            && (p.live <==> row.lastJob.None? || Removals(self, replies, |replies|) == 0)
            && (p.raised <==> row.lastJob.Some? && Removals(self, replies, |replies|) >= 2)
  {
    PollRemovals(rows, self, row, jobs, replies, |jobs|);
  }

  /** The job poll inside a load. */
  lemma PolledRows(w: World, self: Ref, v: Visit)
    requires Inv(w) && VisitOk(w, self, v)
    requires Expired(w.rows[self], w.now)
    ensures var p := CheckJobs(w.rows, self, w.rows[self], v.jobs, v.replies);
            && OnlyLost(w.rows, p.rows, PollLoses(w, self, v)) && RowsSound(p.rows)
            && (p.live <==> self in p.rows)
            && (p.live <==> PollLoses(w, self, v) == {})
            && (p.raised ==> !p.live)
            && (IgnoreCache in p.updates <==> LastJob in p.updates)
  {
    hide Poll, CachesCoherent, OrderedHistory, Effective, ForeignKeys;
    var row := w.rows[self];
    if row.lastJob.Some? {
      PollRows(w.rows, self, row, v.jobs, v.replies, |v.jobs|);
      PollRemovals(w.rows, self, row, v.jobs, v.replies, |v.jobs|);
      BothFlags(w.rows, self, row, v.jobs, v.replies);
    } else {
      assert w.rows.Keys - {} == w.rows.Keys;
    }
  }

  /** Whatever happens, the two flags of a waiting object are reset together. */
  lemma BothFlags(rows: Rows, self: Ref, row: Row, jobs: seq<nat>, replies: seq<Reply>)
    requires row.ObjectRow? && |jobs| == |replies|
    ensures var u := CheckJobs(rows, self, row, jobs, replies).updates; IgnoreCache in u <==> LastJob in u
  {
    RaisedUpdates(rows, self, row, jobs, replies, |jobs|);
  }

  lemma {:induction false} RaisedUpdates(rows: Rows, self: Ref, row: Row, jobs: seq<nat>, replies: seq<Reply>, n: nat)
    requires row.ObjectRow? && n <= |jobs| == |replies|
    ensures var u := Poll(rows, self, row, jobs, replies, n).updates; IgnoreCache !in u && LastJob !in u
  {
    hide Advance;
    if n > 0 {
      RaisedUpdates(rows, self, row, jobs, replies, n - 1);
      AdvanceUpdates(Poll(rows, self, row, jobs, replies, n - 1), self, row, jobs[n - 1], Effective(replies, n));
    }
  }

  /** The copy in memory refers to nothing the database does not have, and waits
      for a job only as the database allows. */
  ghost predicate MemoryOk(rows: Rows, self: Ref, row: Row) {
    && row.ObjectRow?
    && ForeignKeys(self, row) <= rows.Keys
    && PendingRow(rows, self, row)
  }

  lemma ApplyOk(rows: Rows, self: Ref, row: Row, u: Updates)
    requires MemoryOk(rows, self, row)
    requires IgnoreCache in u <==> LastJob in u
    ensures MemoryOk(rows, self, Apply(row, u))
    ensures Apply(row, u).cache == row.cache
  {
  }

  /** `b` has the keys of `a`, up to the nodes just looked up. */
  ghost predicate SameLinks(a: Row, b: Row, v: Visit) {
    && a.ObjectRow? && b.ObjectRow?
    && b.cluster == a.cluster && b.hostname == a.hostname
    && b.lastJob == a.lastJob && b.ignoreCache == a.ignoreCache
    && b.template == a.template && b.pendingDelete == a.pendingDelete
    && (b.primary == a.primary || b.primary == v.primary)
    && (b.secondary == a.secondary || b.secondary == v.secondary)
  }

  lemma LinksOk(rows: Rows, self: Ref, a: Row, b: Row, v: Visit)
    requires MemoryOk(rows, self, a) && SameLinks(a, b, v)
    requires NodeKey(v.primary) + NodeKey(v.secondary) <= rows.Keys
    ensures MemoryOk(rows, self, b)
  {
  }

  lemma StoreOk(rows: Rows, self: Ref, row: Row)
    requires RowsSound(rows) && IsObject(self)
    requires MemoryOk(rows, self, row)
    ensures RowsSound(rows[self := row])
  {
  }

  /** The write at the end of a refresh. */
  lemma RefetchRows(p: Progress, self: Ref, row: Row, v: Visit, now: int)
    requires RowsSound(p.rows) && IsObject(self) && p.live && self in p.rows
    requires MemoryOk(p.rows, self, row) && MemoryOk(p.rows, self, p.rows[self])
    requires IgnoreCache in p.updates <==> LastJob in p.updates
    requires NodeKey(v.primary) + NodeKey(v.secondary) <= p.rows.Keys
    ensures var o := Refetch(p, self, row, v, now);
            && RowsSound(o.rows) && Written(p, self, o)
            && o.self.live && MemoryOk(o.rows, self, o.self.row)
  {
    hide RowsSound, Refetch;
    RefetchShape(p, self, row, v, now);
    ApplyOk(p.rows, self, row, p.updates);
    ApplyOk(p.rows, self, p.rows[self], p.updates);
    var o := Refetch(p, self, row, v, now);
    LinksOk(p.rows, self, Apply(row, p.updates), o.self.row, v);
    if SameLinks(Apply(row, p.updates), o.rows[self], v) {
      LinksOk(p.rows, self, Apply(row, p.updates), o.rows[self], v);
    } else if SameLinks(Apply(p.rows[self], p.updates), o.rows[self], v) {
      LinksOk(p.rows, self, Apply(p.rows[self], p.updates), o.rows[self], v);
    }
    StoreOk(p.rows, self, o.rows[self]);
  }

  /** The object in memory keeps its keys and its key. */
  lemma RefetchMemory(p: Progress, self: Ref, row: Row, v: Visit, now: int)
    requires row.ObjectRow?
    ensures var o := Refetch(p, self, row, v, now);
            o.self.live == p.live && SameLinks(Apply(row, p.updates), o.self.row, v)
  {
    hide Fetches, Saves, Trips, NonZero, FieldsOf, StoredWithCluster, UpdateRow, Apply, SameLinks, SetInfo;
    InfoLinks(self, Apply(row, p.updates), v);
    CachedLinks(Apply(row, p.updates), v);
  }

  lemma InfoLinks(self: Ref, row: Row, v: Visit)
    requires row.ObjectRow?
    ensures SameLinks(row, row, v)
    ensures forall cached, info :: SameLinks(row, SetInfo(self, SetCached(row, cached), info, v), v)
  {
  }

  lemma CachedLinks(row: Row, v: Visit)
    requires row.ObjectRow?
    ensures forall cached :: SameLinks(row, SetCached(row, cached), v)
  {
  }

  /** The stored row stays, becomes the one in memory, or is updated with the new stamp. */
  lemma RefetchShape(p: Progress, self: Ref, row: Row, v: Visit, now: int)
    requires p.live && self in p.rows && p.rows[self].ObjectRow? && row.ObjectRow?
    ensures var o := Refetch(p, self, row, v, now);
            && o.self.live && Written(p, self, o)
            && SameLinks(Apply(row, p.updates), o.self.row, v)
            && (o.rows[self] == p.rows[self] || SameLinks(Apply(row, p.updates), o.rows[self], v)
                || SameLinks(Apply(p.rows[self], p.updates), o.rows[self], v))
  {
    hide Fetches, Saves, Trips, NonZero, FieldsOf, StoredWithCluster, SameLinks, Apply;
    RefetchMemory(p, self, row, v, now);
    CachedLinks(Apply(p.rows[self], p.updates), v);
  }

  lemma MemoryStays(before: Rows, after: Rows, self: Ref)
    requires RowsSound(before) && RowsSound(after) && OnlyLost(before, after, {})
    requires self in before && IsObject(self)
    ensures MemoryOk(after, self, before[self]) && MemoryOk(after, self, after[self])
  {
    assert PendingRow(before, self, before[self]) && PendingRow(after, self, after[self]);
    if before[self].lastJob.Some? {
      assert after[Job(before[self].lastJob.value)] == before[Job(before[self].lastJob.value)];
    }
  }

  /** Everything other steps need to know about a load. */
  ghost predicate LoadFacts(w: World, self: Ref, v: Visit, o: Outcome)
    requires self in w.rows && w.rows[self].ObjectRow? && |v.jobs| == |v.replies|
  {
    && RowsSound(o.rows)
    && o.rows.Keys == w.rows.Keys - Lost(w, self, v)
    && (forall r :: r in o.rows && r != self ==>
          o.rows[r] == w.rows[r] || (r.Vm? && o.rows[r] == WithoutTemplate(w.rows[r])))
    && o.self.row.ObjectRow?
    && (o.self.live <==> self in o.rows)
    && (o.self.live ==> MemoryOk(o.rows, self, o.self.row))
  }

  lemma OnlyOneWritten(before: Rows, mid: Rows, after: Rows, self: Ref)
    requires OnlyLost(before, mid, {})
    requires self in mid && self in after && after == mid[self := after[self]]
    ensures after.Keys == before.Keys
    ensures forall r :: r in after && r != self ==>
              after[r] == before[r] || (r.Vm? && after[r] == WithoutTemplate(before[r]))
  {
  }

  lemma RefetchSound(w: World, self: Ref, v: Visit, p: Progress)
    requires RowsSound(w.rows) && RowsSound(p.rows) && OnlyLost(w.rows, p.rows, {}) && p.live
    requires self in w.rows && IsObject(self) && w.rows[self].ObjectRow? && |v.jobs| == |v.replies|
    requires IgnoreCache in p.updates <==> LastJob in p.updates
    requires NodeKey(v.primary) + NodeKey(v.secondary) <= w.rows.Keys
    requires Lost(w, self, v) == {}
    ensures LoadFacts(w, self, v, Refetch(p, self, w.rows[self], v, w.now))
  {
    hide RowsSound, Refetch, Lost, ForeignKeys, PendingRow;
    MemoryStays(w.rows, p.rows, self);
    RefetchRows(p, self, w.rows[self], v, w.now);
    var o := Refetch(p, self, w.rows[self], v, w.now);
    OnlyOneWritten(w.rows, p.rows, o.rows, self);
    assert w.rows.Keys - {} == w.rows.Keys;
    assert o.self.row.ObjectRow? by {
      assert MemoryOk(o.rows, self, o.self.row);
    }
  }

  /** After a removal nothing more is written. */
  lemma RefetchWithoutKey(p: Progress, self: Ref, row: Row, v: Visit, now: int)
    requires row.ObjectRow? && !p.live
    ensures var o := Refetch(p, self, row, v, now);
            && o.rows == p.rows && !o.self.live && o.self.row.ObjectRow?
            && o.self.row.lastJob == (if LastJob in p.updates then None else row.lastJob)
            && o.self.row.cache == (if Fetches(self, Apply(row, p.updates)) && v.answer.Some?
                                    then row.cache.(cached := Some(now)) else row.cache)
  {
  }

  lemma RefreshedSound(w: World, self: Ref, v: Visit)
    requires Inv(w) && VisitOk(w, self, v) && Expired(w.rows[self], w.now) && !LoadDies(w, self, v)
    ensures LoadFacts(w, self, v, Refreshed(w.rows, self, w.rows[self], v, w.now))
  {
    PolledRows(w, self, v);
    PolledLive(w.rows, self, w.rows[self], v.jobs, v.replies);
    assert Lost(w, self, v) == PollLoses(w, self, v);
    hide RowsSound, CachesCoherent, Refetch, Honest, OrderedHistory, JobList, CheckJobs, MemoryOk, Lost,
      PollLoses, LooksUp;
    var p := CheckJobs(w.rows, self, w.rows[self], v.jobs, v.replies);
    if !p.raised {
      if p.live {
        RefetchSound(w, self, v, p);
      } else {
        RefetchWithoutKey(p, self, w.rows[self], v, w.now);
      }
    }
  }

  lemma LoadSound(w: World, self: Ref, v: Visit)
    requires Inv(w) && VisitOk(w, self, v)
    ensures LoadFacts(w, self, v, LoadIn(w, self, v))
  {
    LoadDiesIff(w, self, v);
    hide LooksUp, Refreshed;
    if Expired(w.rows[self], w.now) && !LoadDies(w, self, v) {
      RefreshedSound(w, self, v);
    } else {
      MemoryStays(w.rows, w.rows, self);
      assert w.rows.Keys - {} == w.rows.Keys;
    }
  }

  /** The loaded object and its row are coherent. */
  ghost predicate Coheres(w: World, self: Ref, o: Outcome)
    requires self in w.rows && w.rows[self].ObjectRow?
  {
    o.self.live ==>
      && self in o.rows && o.rows[self].ObjectRow? && o.self.row.ObjectRow?
      && Coherent(o.self.row.cache, History(w, self), w.now)
      && Coherent(o.rows[self].cache, History(w, self), w.now)
  }

  lemma LoadCoherent(w: World, self: Ref, v: Visit)
    requires Inv(w) && VisitOk(w, self, v) && self !in w.misdated
    ensures Coheres(w, self, LoadIn(w, self, v))
  {
    var row := w.rows[self];
    assert row.ObjectRow? && Coherent(row.cache, History(w, self), w.now);
    hide RowsSound, CachesCoherent, JobList, Refetch, CheckJobs, Coherent, OrderedHistory, Honest, OnlyLost, PollLoses;
    if Expired(row, w.now) {
      PolledRows(w, self, v);
      var p := CheckJobs(w.rows, self, row, v.jobs, v.replies);
      if p.live {
        RefetchedCoheres(w, self, v, p);
      } else {
        RefetchWithoutKey(p, self, row, v, w.now);
      }
    }
  }

  lemma RefetchedCoheres(w: World, self: Ref, v: Visit, p: Progress)
    requires self in w.rows && w.rows[self].ObjectRow? && Coherent(w.rows[self].cache, History(w, self), w.now)
    requires |v.jobs| == |v.replies| && OrderedHistory(History(w, self), w.now) && Honest(v, History(w, self))
    requires p.live && OnlyLost(w.rows, p.rows, PollLoses(w, self, v)) && self in p.rows
    ensures Coheres(w, self, Refetch(p, self, w.rows[self], v, w.now))
  {
    hide Refetch, Coherent, OrderedHistory, Honest, PollLoses;
    RefetchCoherent(p, self, w.rows[self], v, w.now, History(w, self));
  }

  /** No refresh moves the mtime back, coherent or not. */
  lemma RefetchMtime(p: Progress, self: Ref, row: Row, v: Visit, now: int)
    requires row.ObjectRow? && p.live && self in p.rows && p.rows[self].ObjectRow?
    requires p.rows[self].cache.mtime == row.cache.mtime
    ensures var o := Refetch(p, self, row, v, now);
            && o.self.row.ObjectRow? && NotOlder(row.cache.mtime, o.self.row.cache.mtime)
            && self in o.rows && o.rows[self].ObjectRow? && NotOlder(row.cache.mtime, o.rows[self].cache.mtime)
  {
    hide Fetches, Saves, Trips, FieldsOf, StoredWithCluster;
  }

  lemma PolledMtime(before: Rows, after: Rows, self: Ref, gone: set<Ref>)
    requires OnlyLost(before, after, gone) && self in before && before[self].ObjectRow? && self in after
    ensures after[self].ObjectRow? && after[self].cache.mtime == before[self].cache.mtime
  {
  }

  lemma LoadMtime(w: World, self: Ref, v: Visit)
    requires Inv(w) && VisitOk(w, self, v)
    ensures var o := LoadIn(w, self, v);
            o.self.live ==>
              && self in o.rows && o.rows[self].ObjectRow? && o.self.row.ObjectRow?
              && NotOlder(w.rows[self].cache.mtime, o.rows[self].cache.mtime)
              && NotOlder(w.rows[self].cache.mtime, o.self.row.cache.mtime)
  {
    var row := w.rows[self];
    assert row.ObjectRow?;
    hide RowsSound, CachesCoherent, JobList, Refetch, CheckJobs, OrderedHistory, Honest, PollLoses, OnlyLost;
    if Expired(row, w.now) {
      PolledRows(w, self, v);
      var p := CheckJobs(w.rows, self, row, v.jobs, v.replies);
      if p.live {
        PolledMtime(w.rows, p.rows, self, PollLoses(w, self, v));
        RefetchMtime(p, self, row, v, w.now);
      } else {
        RefetchWithoutKey(p, self, row, v, w.now);
      }
    }
  }

  // ---- What a load does, in terms of what it was given ----

  lemma LostIffRemoved(w: World, r: Ref, v: Visit)
    requires r in w.rows && w.rows[r].ObjectRow? && |v.jobs| == |v.replies|
    ensures Lost(w, r, v) != {} <==> RemovedBy(w, r, v)
    ensures forall q :: IsObject(q) ==> (q in Lost(w, r, v) <==> q == r && RemovedBy(w, r, v))
  {
  }

  /** A load loses its object's key exactly when it removes it for good. */
  lemma LiveIff(w: World, self: Ref, v: Visit)
    requires Inv(w) && VisitOk(w, self, v)
    ensures LoadIn(w, self, v).self.live <==> !RemovedBy(w, self, v)
    ensures LoadIn(w, self, v).raised <==> LoadDies(w, self, v)
  {
    LoadDiesIff(w, self, v);
    LoadSound(w, self, v);
    LostIffRemoved(w, self, v);
  }

  /** What a removed object holds in memory is coherent exactly if it is not misdated. */
  lemma RemovedCoherentIff(w: World, self: Ref, v: Visit)
    requires Inv(w) && VisitOk(w, self, v) && RemovedBy(w, self, v) && self !in w.misdated
    ensures var o := LoadIn(w, self, v);
            o.self.row.ObjectRow? && (Coherent(o.self.row.cache, History(w, self), w.now) <==> !Misdated(w, self, v))
  {
    assert Coherent(w.rows[self].cache, History(w, self), w.now);
    LoadWithoutKey(w, self, v);
    hide RowsSound, CachesCoherent, OrderedHistory, LoadIn, JobList, LooksUp, RemovedBy, WasCurrent;
  }

  /** After a removal the object in memory has no key any more; it still waits for
      its job unless its jobs are settled, and keeps its metadata. */
  lemma LoadWithoutKey(w: World, self: Ref, v: Visit)
    requires Inv(w) && VisitOk(w, self, v) && RemovedBy(w, self, v)
    ensures var o := LoadIn(w, self, v);
            && !o.raised && !o.self.live && o.self.row.ObjectRow?
            && o.self.row.lastJob == (if Settled(v.replies) then None else w.rows[self].lastJob)
            && o.self.row.cache == (if LooksUp(w, self, v) && v.answer.Some?
                                    then w.rows[self].cache.(cached := Some(w.now)) else w.rows[self].cache)
  {
    var row := w.rows[self];
    LoadDiesIff(w, self, v);
    PolledLive(w.rows, self, row, v.jobs, v.replies);
    PolledFlags(w.rows, self, row, v.jobs, v.replies);
    FetchesIff(w, self, v);
    hide RowsSound, Refetch, CachesCoherent, OrderedHistory, Removals, Settled, CheckJobs, JobList, LoadDies, Honest,
      LooksUp, Fetches;
    var p := CheckJobs(w.rows, self, row, v.jobs, v.replies);
    RefetchWithoutKey(p, self, row, v, w.now);
  }

  /** A live object fetches its metadata after a load exactly when the load did. */
  lemma LoadLooksUp(w: World, self: Ref, v: Visit)
    requires Inv(w) && VisitOk(w, self, v) && !LoadDies(w, self, v)
    ensures var o := LoadIn(w, self, v);
            o.self.live ==> (Fetches(self, o.self.row) <==> LooksUp(w, self, v))
  {
    var row := w.rows[self];
    assert row.ObjectRow?;
    LoadDiesIff(w, self, v);
    if Expired(row, w.now) {
      PolledRows(w, self, v);
      PolledLive(w.rows, self, row, v.jobs, v.replies);
      FetchesIff(w, self, v);
      hide RowsSound, CachesCoherent, OrderedHistory, JobList, CheckJobs, Refetch, LooksUp, LoadDies, Removals;
      var p := CheckJobs(w.rows, self, row, v.jobs, v.replies);
      if p.live {
        RefetchShape(p, self, row, v, w.now);
      }
    }
  }

  /** The refresh of an object that stays ends in an error: it fetches and gets no
      answer, or it has something new to save and the tag calls fail. */
  ghost predicate RefreshErrs(w: World, self: Ref, v: Visit)
    requires self in w.rows && w.rows[self].ObjectRow?
  {
    var row, fetches := w.rows[self], LooksUp(w, self, v);
    || (fetches && v.answer.None?)
    || (SaveDue(row, fetches, v) && HasTags(self, row, fetches) && !v.garbled && !v.tagged)
  }

  lemma RefetchErrsIff(p: Progress, self: Ref, row: Row, v: Visit, now: int)
    requires row.ObjectRow? && p.live
    requires v.answer.Some? ==> NonZero(v.answer.value.mtime).Some?
    ensures Refetch(p, self, row, v, now).self.error <==>
              var fetches := Fetches(self, Apply(row, p.updates));
              || (fetches && v.answer.None?)
              || (SaveDue(row, fetches, v) && HasTags(self, row, fetches) && !v.garbled && !v.tagged)
  {
    hide UpdateRow, Fetches, FieldsOf, StoredWithCluster;
  }

  /** When the load of an expired object that stays ends in an error. */
  lemma LoadErrsIff(w: World, self: Ref, v: Visit)
    requires Inv(w) && VisitOk(w, self, v) && Expired(w.rows[self], w.now)
    requires Polls(w, self) ==> Removals(self, v.replies, |v.replies|) == 0
    ensures LoadIn(w, self, v).self.error <==> RefreshErrs(w, self, v)
  {
    var row := w.rows[self];
    LoadDiesIff(w, self, v);
    PolledLive(w.rows, self, row, v.jobs, v.replies);
    AnswersAreDated(v, History(w, self), w.now);
    FetchesIff(w, self, v);
    hide RowsSound, CachesCoherent, OrderedHistory, JobList, CheckJobs, Refetch, LooksUp, LoadDies, Removals,
      Saves, Honest;
    var p := CheckJobs(w.rows, self, row, v.jobs, v.replies);
    RefetchErrsIff(p, self, row, v, w.now);
  }

  /** `b` refers to what `a` refers to, up to a dropped template, the nodes just
      looked up, and the job it waits for. */
  ghost predicate LinksWithin(a: Row, b: Row, v: Visit) {
    && a.ObjectRow? && b.ObjectRow?
    && b.cluster == a.cluster
    && (b.template == a.template || b.template == None)
    && (b.primary == a.primary || b.primary == v.primary)
    && (b.secondary == a.secondary || b.secondary == v.secondary)
  }

  lemma MemoryLinks(w: World, self: Ref, v: Visit)
    requires self in w.rows && w.rows[self].ObjectRow? && |v.jobs| == |v.replies|
    ensures LinksWithin(w.rows[self], LoadIn(w, self, v).self.row, v)
  {
    hide CheckJobs, Refetch;
    RefetchLinks(CheckJobs(w.rows, self, w.rows[self], v.jobs, v.replies), self, w.rows[self], v, w.now);
  }

  lemma RefetchLinks(p: Progress, self: Ref, row: Row, v: Visit, now: int)
    requires row.ObjectRow?
    ensures LinksWithin(row, Refetch(p, self, row, v, now).self.row, v)
  {
    hide Refetch;
    RefetchMemory(p, self, row, v, now);
  }

  lemma LostKinds(w: World, self: Ref, v: Visit)
    requires self in w.rows && w.rows[self].ObjectRow? && |v.jobs| == |v.replies|
    ensures forall k :: k in Lost(w, self, v) ==> k.Vm? || k.Job?
  {
    OnlyMachinesRemoved(self, v.replies, |v.jobs|);
  }

  lemma LinkKinds(w: World, self: Ref, v: Visit, row: Row, k: Ref)
    requires self in w.rows && LinksWithin(w.rows[self], row, v)
    requires k in ForeignKeys(self, row) - JobKey(row.lastJob)
    ensures !k.Vm? && !k.Job?
    ensures k in ForeignKeys(self, w.rows[self]) || k in NodeKey(v.primary) + NodeKey(v.secondary)
  {
  }

  /** Keys other than the awaited job survive a load. */
  lemma MemoryKeys(w: World, self: Ref, v: Visit, row: Row)
    requires Integrity(w.rows) && VisitOk(w, self, v) && w.rows[self].ObjectRow?
    requires LinksWithin(w.rows[self], row, v)
    ensures forall k :: k in ForeignKeys(self, row) - JobKey(row.lastJob) ==> k in w.rows && k !in Lost(w, self, v)
  {
    var known := ForeignKeys(self, w.rows[self]);
    assert known <= w.rows.Keys;
    LostKinds(w, self, v);
    hide Integrity, Honest, JobList, Lost, ForeignKeys, LinksWithin;
    forall k | k in ForeignKeys(self, row) - JobKey(row.lastJob)
      ensures k in w.rows && k !in Lost(w, self, v)
    {
      LinkKinds(w, self, v, row, k);
    }
  }

  lemma {:induction false} OnlyMachinesRemoved(self: Ref, replies: seq<Reply>, n: nat)
    requires n <= |replies|
    ensures Removals(self, replies, n) > 0 ==> self.Vm?
  {
    if n > 0 {
      OnlyMachinesRemoved(self, replies, n - 1);
    }
  }

  /** The columns of a row that a load does not parse out of metadata. */
  datatype Flags = Flags(lastJob: Option<nat>, ignoreCache: bool, pendingDelete: bool, template: Option<nat>,
                         hostname: string, cluster: nat)

  function FlagsOf(row: Row): Flags
    requires row.ObjectRow?
  {
    Flags(row.lastJob, row.ignoreCache, row.pendingDelete, row.template, row.hostname, row.cluster)
  }

  lemma RefetchFlags(p: Progress, self: Ref, row: Row, v: Visit, now: int)
    requires row.ObjectRow? && p.live && self in p.rows && p.rows[self].ObjectRow?
    requires FlagsOf(Apply(p.rows[self], p.updates)) == FlagsOf(Apply(row, p.updates))
    ensures var o := Refetch(p, self, row, v, now);
            && o.self.row.ObjectRow? && FlagsOf(o.self.row) == FlagsOf(Apply(row, p.updates))
            && (!o.raised ==>
                  && self in o.rows && o.rows[self].ObjectRow?
                  && FlagsOf(o.rows[self]) == FlagsOf(if o.self.error then p.rows[self] else o.self.row))
  {
    hide Fetches, Saves, Trips, NonZero, FieldsOf, StoredWithCluster, Apply;
  }

  /** The flags after a load, from the words the server used: in memory the wait is over
      once the last job's status is success, error or unknown, the pending deletion once some
      job is unknown, and the deployment once some creation succeeded; the row has the same
      unless the load reported an error, and then only the template is forgotten there. */
  lemma LoadFlags(w: World, self: Ref, v: Visit)
    requires Inv(w) && VisitOk(w, self, v)
    ensures var o := LoadIn(w, self, v);
            var before, n := w.rows[self], |v.replies|;
            before.ObjectRow? &&
            var over := Polls(w, self) && Over(Effective(v.replies, n).status);
            var template := if Polls(w, self) && SawCreation(self, v.replies, n) then None else before.template;
            o.self.live && !o.raised ==>
              && self in o.rows && o.rows[self].ObjectRow? && o.self.row.ObjectRow?
              && FlagsOf(o.self.row) ==
                   Flags(if over then None else before.lastJob, before.ignoreCache && !over,
                         before.pendingDelete && !(Polls(w, self) && SawUnknown(self, v.replies, n)),
                         template, before.hostname, before.cluster)
              && FlagsOf(o.rows[self]) ==
                   (if o.self.error then FlagsOf(before).(template := template) else FlagsOf(o.self.row))
  {
    var row := w.rows[self];
    assert row.ObjectRow?;
    hide Refetch, CheckJobs, Removals, SawUnknown, SawCreation, VisitOk, Inv, JobList, Honest;
    if Expired(row, w.now) {
      PolledLive(w.rows, self, row, v.jobs, v.replies);
      var p := CheckJobs(w.rows, self, row, v.jobs, v.replies);
      if p.live && !p.raised {
        PolledRow(w.rows, self, v.jobs, v.replies);
        hide Over;
        RefetchFlags(p, self, row, v, w.now);
      } else if !p.raised {
        RefetchWithoutKey(p, self, row, v, w.now);
      }
    }
  }

  /** What the poll inside a load leaves of the row, and would make of it. */
  lemma PolledRow(rows: Rows, self: Ref, jobs: seq<nat>, replies: seq<Reply>)
    requires self in rows && rows[self].ObjectRow? && |jobs| == |replies|
    requires rows[self].lastJob.Some? ==> Removals(self, replies, |replies|) == 0
    requires rows[self].lastJob.Some? ==> rows[self].ignoreCache
    ensures var p, row, n := CheckJobs(rows, self, rows[self], jobs, replies), rows[self], |replies|;
            var polls := row.lastJob.Some?;
            var template := if polls && SawCreation(self, replies, n) then None else row.template;
            && self in p.rows && p.rows[self].ObjectRow?
            && FlagsOf(p.rows[self]) == FlagsOf(row).(template := template)
            && FlagsOf(Apply(p.rows[self], p.updates)) == FlagsOf(Apply(row, p.updates))
            && FlagsOf(Apply(row, p.updates)) ==
                 (var over := polls && Over(Effective(replies, n).status);
                  Flags(if over then None else row.lastJob, row.ignoreCache && !over,
                        row.pendingDelete && !(polls && SawUnknown(self, replies, n)), template,
                        row.hostname, row.cluster))
  {
    var row := rows[self];
    if row.lastJob.Some? {
      CheckJobsUpdates(rows, self, row, jobs, replies);
      PollForgets(rows, self, row, jobs, replies, |jobs|);
      NoJobsNothingKnown(replies);
    }
    hide Poll, Removals, SawUnknown, SawCreation, Effective;
  }

  /** An object that waits without having any job stops waiting, as if its job were unknown. */
  lemma NoJobsNothingKnown(replies: seq<Reply>)
    ensures |replies| == 0 ==> Over(Effective(replies, |replies|).status)
  {
  }

  /** Which job the object waits for after a load: in memory none once the poll
      is settled, in the database only if the load reported no error. */
  lemma LoadWaits(w: World, self: Ref, v: Visit)
    requires Inv(w) && VisitOk(w, self, v)
    ensures var o := LoadIn(w, self, v);
            var before := w.rows[self].lastJob;
            o.self.live && !o.raised ==>
              && self in o.rows && o.rows[self].ObjectRow? && o.self.row.ObjectRow?
              && o.self.row.lastJob == (if Polls(w, self) && Settled(v.replies) then None else before)
              && o.rows[self].lastJob == (if o.self.error then before else o.self.row.lastJob)
  {
    LoadFlags(w, self, v);
    hide LoadIn, Inv, VisitOk, Polls;
  }

  /** After ten minutes, or when its cache is ignored or was never filled, an object that
      stays is looked up, unless it is a machine being deleted or deployed: without an answer
      the load is an error, and with one it is stamped, in the row too if there is no error. */
  lemma StaleCopyIsLookedUp(w: World, self: Ref, v: Visit)
    requires Inv(w) && VisitOk(w, self, v)
    requires w.rows[self].ObjectRow? &&
               (w.rows[self].ignoreCache || w.rows[self].cache.cached.None?
                || w.now > w.rows[self].cache.cached.value + 600_000_000)
    ensures var o := LoadIn(w, self, v);
            o.self.live && !o.raised &&
            (self.Vm? ==> o.self.row.ObjectRow? && !o.self.row.pendingDelete && o.self.row.template.None?) ==>
              && (o.self.error <== v.answer.None?)
              && o.self.row.ObjectRow?
              && (v.answer.Some? ==> o.self.row.cache.cached == Some(w.now))
              && (v.answer.Some? && !o.self.error ==>
                    self in o.rows && o.rows[self].ObjectRow? && o.rows[self].cache.cached == Some(w.now))
  {
    var row := w.rows[self];
    hide CheckJobs, Refetch, Honest, JobList, RowsSound, CachesCoherent, OrderedHistory, OnlyLost, PollLoses;
    PolledRows(w, self, v);
    var p := CheckJobs(w.rows, self, row, v.jobs, v.replies);
    if p.live {
      PolledMtime(w.rows, p.rows, self, PollLoses(w, self, v));
      RefetchStamps(p, self, row, v, w.now);
    } else {
      RefetchWithoutKey(p, self, row, v, w.now);
    }
  }

  lemma RefetchStamps(p: Progress, self: Ref, row: Row, v: Visit, now: int)
    requires row.ObjectRow? && p.live && self in p.rows && p.rows[self].ObjectRow?
    ensures var o := Refetch(p, self, row, v, now);
            o.self.row.ObjectRow? &&
            (!o.raised && (self.Vm? ==> !o.self.row.pendingDelete && o.self.row.template.None?) ==>
               && (v.answer.None? ==> o.self.error)
               && (v.answer.Some? ==> o.self.row.cache.cached == Some(now))
               && (v.answer.Some? && !o.self.error ==>
                     self in o.rows && o.rows[self].ObjectRow? && o.rows[self].cache.cached == Some(now)))
  {
    hide Saves, Trips, FieldsOf, StoredWithCluster;
  }

  lemma PolledFlags(rows: Rows, self: Ref, row: Row, jobs: seq<nat>, replies: seq<Reply>)
    requires row.ObjectRow? && |jobs| == |replies|
    ensures var p := CheckJobs(rows, self, row, jobs, replies);
            !p.raised ==> (LastJob in p.updates <==> row.lastJob.Some? && Settled(replies))
  {
    RaisedUpdates(rows, self, row, jobs, replies, |jobs|);
  }
}
