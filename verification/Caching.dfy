/** The lazy cache: when a stored copy is served, when it is refreshed, and
    what a refresh writes. */
module Caching {
  import opened Wrappers
  import opened RemoteInfo
  import opened JobReplies
  import opened Database
  import opened Polling

  // Times are in microseconds, the setting is in milliseconds.
  const LAZY_CACHE_REFRESH: int := 600_000
  const EPSILON: int := LAZY_CACHE_REFRESH * 1000

  /** Everything one load learns from outside: the object's jobs in polling
      order, the server's reply about each, its answer about the object (None for an
      API error with that code; `known` if the cluster has the same error already), the
      node rows found for the names in that answer, whether the tag calls made while
      saving go through, and whether saving meets an owner tag that names no owner. */
  datatype Visit = Visit(jobs: seq<nat>, replies: seq<Reply>, answer: Option<Info>, code: int, known: bool,
                         primary: Option<nat>, secondary: Option<nat>, tagged: bool, garbled: bool)

  /** The object in memory.  It is live while it has a primary key. */
  datatype Loaded = Loaded(live: bool, row: Row, error: bool)

  datatype Outcome = Outcome(rows: Rows, self: Loaded, raised: bool)

  /** A machine being deleted or deployed is not looked up. */
  predicate Fetches(self: Ref, row: Row) {
    row.ObjectRow? && !(self.Vm? && (row.pendingDelete || row.template.Some?))
  }

  function NonZero(mtime: Option<int>): Option<int> {
    if mtime == Some(0) then None else mtime
  }

  /** Assigns new metadata and every column parsed from it. */
  function SetInfo(self: Ref, row: Row, info: Info, v: Visit): Row
    requires row.ObjectRow?
  {
    row.(cache := Cache(Some(info), info.mtime, row.cache.cached, FieldsOf(info)),
         primary := if self.Vm? then v.primary else row.primary,
         secondary := if self.Vm? then v.secondary else row.secondary)
  }

  function SetCached(row: Row, cached: Option<int>): Row
    requires row.ObjectRow?
  {
    row.(cache := row.cache.(cached := cached))
  }

  /** Saving a machine with metadata also settles its owner tag on the server. */
  predicate Saves(self: Ref, row: Row, tagged: bool) {
    tagged || !self.Vm? || !row.ObjectRow? || row.cache.info.None?
  }

  /** Saving a machine with metadata reads its owner tags first. */
  predicate Trips(self: Ref, row: Row, garbled: bool) {
    garbled && self.Vm? && row.ObjectRow? && row.cache.info.Some?
  }

  /** The smaller query, which touches the stored row only where it still exists. */
  function UpdateRow(rows: Rows, self: Ref, u: Updates, cached: Option<int>): Rows {
    if self in rows && rows[self].ObjectRow? then rows[self := SetCached(Apply(rows[self], u), cached)] else rows
  }

  /** The error store keeps a machine's error with its cluster: bad credentials,
      and a 404 the cluster has already.  Any other error needs the machine's key. */
  predicate StoredWithCluster(v: Visit) {
    v.code == 401 || (v.code == 404 && v.known)
  }

  /** Whether a refresh that fetches or not comes to save a live object. */
  predicate SaveDue(row: Row, fetches: bool, v: Visit)
    requires row.ObjectRow?
  {
    if fetches then
      v.answer.Some? && (row.cache.mtime.None? || Later(NonZero(v.answer.value.mtime), row.cache.mtime.value))
    else row.cache.mtime.None?
  }

  predicate Later(mtime: Option<int>, bound: int) {
    mtime.Some? && mtime.value > bound
  }

  /** Whether that save has owner tags to look at. */
  predicate HasTags(self: Ref, row: Row, fetches: bool)
    requires row.ObjectRow?
  {
    self.Vm? && (fetches || row.cache.info.Some?)
  }

  /** The second half of a refresh, after the jobs have been polled. */
  function Refetch(p: Progress, self: Ref, row: Row, v: Visit, now: int): Outcome
    requires row.ObjectRow?
  {
    var me := Apply(row, p.updates);
    if Fetches(self, me) && v.answer.None? then
      Outcome(p.rows, Loaded(p.live, me, true), !p.live && !StoredWithCluster(v))
    else
      var got := if Fetches(self, me) then v.answer else None;
      var mtime := if got.Some? then NonZero(got.value.mtime) else me.cache.mtime;
      var dated := if got.Some? then SetCached(me, Some(now)) else me;
      if p.live && me.cache.mtime.Some? && mtime.None? then
        Outcome(p.rows, Loaded(true, dated, false), true)
      else if p.live && (me.cache.mtime.None? || mtime.value > me.cache.mtime.value) then
        var full := if got.Some? then SetInfo(self, dated, got.value, v) else dated;
        if Trips(self, full, v.garbled) then Outcome(p.rows, Loaded(true, full, false), true)
        else if Saves(self, full, v.tagged) then Outcome(p.rows[self := full], Loaded(true, full, false), false)
        else Outcome(p.rows, Loaded(true, full, true), false)
      else
        Outcome(if p.live then UpdateRow(p.rows, self, p.updates, dated.cache.cached) else p.rows,
                Loaded(p.live, dated, false), false)
  }

  function Refreshed(rows: Rows, self: Ref, row: Row, v: Visit, now: int): Outcome
    requires row.ObjectRow? && |v.jobs| == |v.replies|
  {
    var p := CheckJobs(rows, self, row, v.jobs, v.replies);
    if p.raised then Outcome(p.rows, Loaded(p.live, row, false), true)
    else Refetch(p, self, row, v, now)
  }

  predicate Expired(row: Row, now: int)
    requires row.ObjectRow?
  {
    row.ignoreCache || row.cache.cached.None? || now > row.cache.cached.value + EPSILON
  }

  /** Loading a row from the database, as every request does. */
  function Load(rows: Rows, self: Ref, v: Visit, now: int): Outcome
    requires self in rows && rows[self].ObjectRow? && |v.jobs| == |v.replies|
  {
    var row := rows[self];
    if Expired(row, now) then Refreshed(rows, self, row, v, now)
    else Outcome(rows, Loaded(true, row, row.cache.info.None?), false)
  }

  /** For ten minutes after a fetch the stored copy is served as it is, whatever the server
      would say: nothing is written, nothing raised, and only missing metadata are an error. */
  lemma FreshCopyIsServed(rows: Rows, self: Ref, v: Visit, now: int)
    requires self in rows && rows[self].ObjectRow? && |v.jobs| == |v.replies|
    requires !rows[self].ignoreCache
    requires rows[self].cache.cached.Some? && now <= rows[self].cache.cached.value + 600_000_000
    ensures Load(rows, self, v, now) == Outcome(rows, Loaded(true, rows[self], rows[self].cache.info.None?), false)
  {
  }

  // ---- The code itself ----

  class Store {
    var rows: Rows

    constructor (rows: Rows)
      ensures this.rows == rows
    {
      this.rows := rows;
    }
  }

  class CachedClusterObject {
    const ref: Ref
    const store: Store
    var live: bool
    var row: Row
    var error: bool

    /** Instantiating an object loads its row and then its info. */
    constructor (ref: Ref, store: Store)
      requires ref in store.rows && store.rows[ref].ObjectRow?
      ensures this.ref == ref && this.store == store
      ensures live && row == store.rows[ref] && !error
    {
      this.ref := ref;
      this.store := store;
      this.live := true;
      this.row := store.rows[ref];
      this.error := false;
    }

    method CheckJobStatus(jobs: seq<nat>, replies: seq<Reply>) returns (updates: Updates, raised: bool)
      requires live && row.ObjectRow? && |jobs| == |replies|
      modifies this`live, store
      ensures Progress(store.rows, live, updates, raised) == CheckJobs(old(store.rows), ref, row, jobs, replies)
    {
      hide FinishCreation, Delete, Apply, WithoutTemplate, Completion, ParseOp, ValidJob;
      updates, raised := map[], false;
      if row.lastJob.None? {
        return;
      }
      var status, op := UNKNOWN, None;
      var i := 0;
      while i < |jobs|
        invariant 0 <= i <= |jobs|
        invariant !raised
        invariant Effect(status, op) == Effective(replies, i)
        invariant Progress(store.rows, live, updates, raised) == Poll(old(store.rows), ref, row, jobs, replies, i)
      {
        if replies[i].Answer? && ValidJob(replies[i].info) {
          op := ParseOp(replies[i].info);
          status := replies[i].info.status;
        }
        OneCompletion(ref, Effect(status, op));
        if Final(status) || status == UNKNOWN {
          var got := CompleteJob(status, op);
          if got != map[] {
            if Deleted in got {
              if !live {
                raised := true;
                PollStaysRaised(old(store.rows), ref, row, jobs, replies, i + 1, |jobs|);
                return;
              }
              store.rows := Delete(store.rows, {ref});
              live := false;
              store.rows := Delete(store.rows, {Job(jobs[i])});
            } else {
              updates := updates + got;
            }
          }
        }
        i := i + 1;
      }
      if |jobs| == 0 || Final(status) || status == UNKNOWN {
        updates := updates + STOP_WAITING;
      }
    }

    /** Processes one finished job; a finished creation is recorded at once. */
    method CompleteJob(status: Option<string>, op: Option<string>) returns (got: Updates)
      requires row.ObjectRow? && Finished(status)
      modifies store
      ensures got == Completion(ref, Effect(status, op))
      ensures store.rows == if TemplateLink in got then FinishCreation(old(store.rows), row.cluster, row.hostname)
                            else old(store.rows)
    {
      if !ref.Vm? {
        return map[];
      }
      if status == UNKNOWN {
        return map[PendingDelete := False];
      }
      if op == REMOVE {
        if status == SUCCESS {
          return map[Deleted := True];
        }
      } else if op == CREATE && status == SUCCESS {
        store.rows := ForgetTemplate(store.rows, row.cluster, row.hostname);
        store.rows := Delete(store.rows, TemplatesOf(store.rows, row.cluster, row.hostname));
        return map[TemplateLink := Null];
      }
      return map[];
    }

    method Refresh(v: Visit, now: int) returns (raised: bool)
      requires live && row.ObjectRow? && !error && |v.jobs| == |v.replies|
      modifies this, store
      ensures Outcome(store.rows, Loaded(live, row, error), raised) == Refreshed(old(store.rows), ref, old(row), v, now)
    {
      var updates;
      updates, raised := CheckJobStatus(v.jobs, v.replies);
      if raised {
        return;
      }
      row := Apply(row, updates);

      var got := None;
      if Fetches(ref, row) {
        if v.answer.None? {
          error := true;
          // An error without an object to name cannot be stored.
          raised := !live && !StoredWithCluster(v);
          return;
        }
        got := v.answer;
      }
      var mtime := row.cache.mtime;
      if got.Some? {
        mtime := NonZero(got.value.mtime);
        row := SetCached(row, Some(now));
      }
      if live && row.cache.mtime.Some? && mtime.None? {
        // A date does not compare with None.
        raised := true;
      } else if live && (row.cache.mtime.None? || mtime.value > row.cache.mtime.value) {
        if got.Some? {
          var fields := ParsePersistentInfo(got.value);
          row := row.(cache := Cache(got, got.value.mtime, row.cache.cached, fields));
          if ref.Vm? {
            row := row.(primary := v.primary, secondary := v.secondary);
          }
        }
        if Trips(ref, row, v.garbled) {
          raised := true;
        } else if Saves(ref, row, v.tagged) {
          store.rows := store.rows[ref := row];
        } else {
          error := true;
        }
      } else if live {
        store.rows := UpdateRow(store.rows, ref, updates, row.cache.cached);
      }
    }

    method LoadInfo(v: Visit, now: int) returns (raised: bool)
      requires live && row.ObjectRow? && !error && |v.jobs| == |v.replies|
      requires ref in store.rows && row == store.rows[ref]
      modifies this, store
      ensures Outcome(store.rows, Loaded(live, row, error), raised) == Load(old(store.rows), ref, v, now)
    {
      raised := false;
      if row.ignoreCache || row.cache.cached.None? || now > row.cache.cached.value + EPSILON {
        raised := Refresh(v, now);
      } else if row.cache.info.None? {
        error := true;
      }
    }
  }

  /** An exception ends the loop. */
  lemma {:induction false} PollStaysRaised(rows: Rows, self: Ref, row: Row, jobs: seq<nat>, replies: seq<Reply>,
                                           m: nat, n: nat)
    requires row.ObjectRow? && m <= n <= |jobs| == |replies|
    requires Poll(rows, self, row, jobs, replies, m).raised
    ensures Poll(rows, self, row, jobs, replies, n) == Poll(rows, self, row, jobs, replies, m)
  {
    if m < n {
      PollStaysRaised(rows, self, row, jobs, replies, m, n - 1);
    }
  }
}
