/** The cached copy of an object is a version the server really had, and how
    old it can be when it is served. */
module Coherence {
  import opened Wrappers
  import opened RemoteInfo
  import opened Database
  import opened Polling
  import opened Caching

  /** The stored metadata was the server's at the moment it is stamped with, and
      every stored column agrees with it.  An object never fetched has no stamp. */
  ghost predicate Coherent(c: Cache, h: seq<Version>, now: int) {
    match c.info
    case None => c.mtime.None? && c.cached.None?
    case Some(info) =>
      && c.cached.Some? && c.cached.value <= now
      && c.mtime == info.mtime
      && c.fields == FieldsOf(info)
      && WasCurrent(h, c.cached.value, info)
  }

  /** An answer, when there is one, is the server's present version. */
  ghost predicate Honest(v: Visit, h: seq<Version>) {
    v.answer.Some? ==> |h| > 0 && v.answer.value == h[|h| - 1].info
  }

  predicate NotOlder(before: Option<int>, after: Option<int>) {
    before.Some? ==> after.Some? && before.value <= after.value
  }

  /** What the second half of a refresh may do to the stored rows. */
  ghost predicate Written(p: Progress, self: Ref, o: Outcome) {
    && self in o.rows && o.rows[self].ObjectRow?
    && o.rows == p.rows[self := o.rows[self]]
  }

  /** The latest version is current now. */
  lemma LatestIsCurrent(h: seq<Version>, now: int)
    requires OrderedHistory(h, now) && |h| > 0
    ensures WasCurrent(h, now, h[|h| - 1].info)
  {
    assert CurrentVersion(h, now, h[|h| - 1].info, |h| - 1);
  }

  /** A version whose mtime is not behind the latest one is the latest one, so
      skipping the write in that case loses nothing. */
  lemma NotBehindIsLatest(h: seq<Version>, now: int, t: int, info: Info)
    requires OrderedHistory(h, now) && WasCurrent(h, t, info)
    requires info.mtime.Some? && h[|h| - 1].info.mtime.value <= info.mtime.value
    ensures info == h[|h| - 1].info
  {
  }

  /** A refresh keeps both the copy in memory and the stored copy coherent, never
      moves the stored mtime back, and never trips over a missing mtime; when it gets
      through without error it leaves them equal, and up to date if the server was asked. */
  lemma RefetchCoherent(p: Progress, self: Ref, row: Row, v: Visit, now: int, h: seq<Version>)
    requires row.ObjectRow? && p.live && self in p.rows && p.rows[self].ObjectRow?
    requires p.rows[self].cache == row.cache
    requires OrderedHistory(h, now) && Honest(v, h) && Coherent(row.cache, h, now)
    ensures var o := Refetch(p, self, row, v, now);
            && (o.raised ==> v.garbled) && o.self.live && o.self.row.ObjectRow? && Written(p, self, o)
            && Coherent(o.self.row.cache, h, now)
            && Coherent(o.rows[self].cache, h, now)
            && NotOlder(row.cache.mtime, o.rows[self].cache.mtime)
            && NotOlder(row.cache.mtime, o.self.row.cache.mtime)
            && (!o.raised && !o.self.error ==> o.rows[self].cache == o.self.row.cache)
            && (!o.raised && !o.self.error && Fetches(self, o.self.row) ==>
                  o.self.row.cache.cached == Some(now) && |h| > 0 && o.self.row.cache.info == Some(h[|h| - 1].info))
  {
    var me := Apply(row, p.updates);
    assert me.cache == row.cache;
    if Fetches(self, me) && v.answer.Some? {
      LatestIsCurrent(h, now);
      if row.cache.info.Some? && h[|h| - 1].info.mtime.value <= row.cache.mtime.value {
        NotBehindIsLatest(h, now, row.cache.cached.value, row.cache.info.value);
      }
    }
  }

  /** For every version in force before the refresh interval began, the copy of
      an object served without error is at least as new. */
  ghost predicate NoOlderThan(c: Cache, h: seq<Version>, since: int) {
    && c.info.Some? && c.info.value.mtime.Some?
    && ColumnsSay(c.info.value, c.fields)
    && (exists t :: since <= t && WasCurrent(h, t, c.info.value))
    && forall k :: 0 <= k < |h| && h[k].info.mtime.Some? && h[k].at < since ==>
         h[k].info.mtime.value <= c.info.value.mtime.value
  }

  lemma CurrentIsRecent(c: Cache, h: seq<Version>, now: int, since: int)
    requires OrderedHistory(h, now) && Coherent(c, h, now)
    requires c.info.Some? && since <= c.cached.value
    ensures NoOlderThan(c, h, since)
  {
  }

  // ---- Without any promise about the server's mtimes ----

  /** A refresh trips exactly when it asks about an object with a stored mtime and
      the answer has none, or zero; when it saves a machine with an owner tag that names no
      owner; or when it gets no answer about an object the poll has just removed and the
      error is not one of the cluster. */
  lemma RefetchRaisesIff(p: Progress, self: Ref, row: Row, v: Visit, now: int)
    requires row.ObjectRow?
    ensures Refetch(p, self, row, v, now).raised <==>
              var fetches := Fetches(self, Apply(row, p.updates));
              if p.live then
                || (fetches && v.answer.Some? && row.cache.mtime.Some?
                    && (v.answer.value.mtime.None? || v.answer.value.mtime == Some(0)))
                || (SaveDue(row, fetches, v) && HasTags(self, row, fetches) && v.garbled)
              else fetches && v.answer.None? && !StoredWithCluster(v)
  {
    hide UpdateRow, Fetches, FieldsOf, StoredWithCluster;
  }

  /** A refresh that asked and ended without error stores the answer exactly when
      nothing dated was stored, the answer is dated later, or it was stored already. */
  lemma RefetchStoresAnswerIff(p: Progress, self: Ref, row: Row, v: Visit, now: int)
    requires row.ObjectRow? && p.live && self in p.rows && p.rows[self].ObjectRow?
    requires p.rows[self].cache == row.cache
    requires Fetches(self, Apply(row, p.updates)) && v.answer.Some?
    requires var o := Refetch(p, self, row, v, now); !o.raised && !o.self.error
    ensures var o := Refetch(p, self, row, v, now);
            && self in o.rows && o.rows[self].ObjectRow?
            && (o.rows[self].cache.info == v.answer <==>
                  || row.cache.mtime.None?
                  || v.answer.value.mtime.value > row.cache.mtime.value
                  || row.cache.info == v.answer)
  {
  }

  // ---- The columns ----

  /** The searchable columns say what the metadata say, number by number; a node's missing
      numbers count as zero. */
  predicate ColumnsSay(info: Info, fields: Fields) {
    match info
    case VmInfo(_, memory, vcpus, disks, os, status) =>
      && fields.VmFields? && fields.ram == memory && fields.virtualCpus == vcpus && fields.diskSize == Sum(disks)
      && fields.os == os && fields.status == status
    case NodeInfo(_, mtotal, mfree, dtotal, dfree, csockets, offline, role) =>
      && fields.NodeFields?
      && fields.ramTotal == (if mtotal == None then 0 else mtotal.value)
      && fields.ramFree == (if mfree == None then 0 else mfree.value)
      && fields.diskTotal == (if dtotal == None then 0 else dtotal.value)
      && fields.diskFree == (if dfree == None then 0 else dfree.value)
      && fields.cpus == csockets && fields.offline == offline && fields.role == role
    case ClusterInfo(_) => fields == NoFields
  }

  /** A refresh that gets a first or a later version and goes through leaves the row with
      that version, its stamp and mtime, the columns the version says, and for a machine the
      nodes looked up for it. */
  lemma RefreshStoresColumns(p: Progress, self: Ref, row: Row, v: Visit, now: int)
    requires row.ObjectRow? && p.live && Fetches(self, Apply(row, p.updates)) && v.answer.Some?
    requires row.cache.mtime.None? ||
               (v.answer.value.mtime.Some? && v.answer.value.mtime.value != 0
                && v.answer.value.mtime.value > row.cache.mtime.value)
    requires var o := Refetch(p, self, row, v, now); !o.raised && !o.self.error
    ensures var o := Refetch(p, self, row, v, now);
            && self in o.rows && o.rows[self] == o.self.row && o.self.row.ObjectRow?
            && o.self.row.cache.info == v.answer && o.self.row.cache.mtime == v.answer.value.mtime
            && o.self.row.cache.cached == Some(now)
            && ColumnsSay(v.answer.value, o.self.row.cache.fields)
            && o.self.row.primary == (if self.Vm? then v.primary else row.primary)
            && o.self.row.secondary == (if self.Vm? then v.secondary else row.secondary)
            && o.self.row.cluster == row.cluster && o.self.row.hostname == row.hostname
  {
    hide Fetches, Saves, Trips;
  }
}
