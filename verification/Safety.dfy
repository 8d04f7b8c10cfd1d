/** What runs of requests can and cannot do to the rows. */
module Safety {
  import opened Wrappers
  import opened RemoteInfo
  import opened JobReplies
  import opened Database
  import opened Polling
  import opened Caching
  import opened Coherence
  import opened Lifecycle
  import opened Requests

  // ---- Runs ----

  ghost predicate Possible(w: World, es: seq<Event>)
    requires Inv(w)
    decreases |es|
  {
    es == [] || (Enabled(w, es[0]) && (StepKeepsInv(w, es[0]); Possible(Exec(w, es[0]), es[1..])))
  }

  ghost function Run(w: World, es: seq<Event>): World
    requires Inv(w) && Possible(w, es)
    decreases |es|
  {
    if es == [] then w
    else
      StepKeepsInv(w, es[0]);
      Run(Exec(w, es[0]), es[1..])
  }

  /** In every reachable state an object with a last job ignores its cache, the
      job exists and points back at the object, no key dangles, and every cache
      filled holds a version the server had at the time it is stamped with. */
  lemma {:induction false} RunKeepsInv(w: World, es: seq<Event>)
    requires Inv(w) && Possible(w, es)
    ensures Inv(Run(w, es))
    decreases |es|
  {
    if es != [] {
      StepKeepsInv(w, es[0]);
      RunKeepsInv(Exec(w, es[0]), es[1..]);
    }
  }

  /** Before anything is stored. */
  ghost function Empty(now: int): (w: World)
    ensures Inv(w)
  {
    World(map[], 0, now, map[], {})
  }

  /** After any run from the empty database: what the two flags, the keys and the stamps promise. */
  lemma ReachableIsSound(now: int, es: seq<Event>)
    requires Possible(Empty(now), es)
    ensures var w := Run(Empty(now), es);
            && Inv(w)
            && (forall r :: r in w.rows && IsObject(r) ==> w.rows[r].ObjectRow?)
            && (forall r :: r in w.rows && IsObject(r) && w.rows[r].lastJob.Some? ==>
                  && w.rows[r].ignoreCache
                  && Job(w.rows[r].lastJob.value) in w.rows && w.rows[Job(w.rows[r].lastJob.value)].target == r)
            && (forall r :: r in w.rows && !r.Cluster? && IsObject(r) ==> Cluster(w.rows[r].cluster) in w.rows)
            && (forall r :: r in w.rows && IsObject(r) && r !in w.misdated && w.rows[r].cache.info.Some? ==>
                  && ColumnsSay(w.rows[r].cache.info.value, w.rows[r].cache.fields)
                  && w.rows[r].cache.mtime == w.rows[r].cache.info.value.mtime
                  && WasCurrent(History(w, r), w.rows[r].cache.cached.value, w.rows[r].cache.info.value))
  {
    RunKeepsInv(Empty(now), es);
    hide Inv, Possible, Run, Empty, Coherent, ColumnsSay, ForeignKeys, WasCurrent;
    var w := Run(Empty(now), es);
    forall r | r in w.rows && IsObject(r)
      ensures RowSays(w, r)
    {
      InvSays(w, r);
    }
  }

  /** What the invariant says of one row of an object. */
  ghost predicate RowSays(w: World, r: Ref)
    requires r in w.rows
  {
    var row := w.rows[r];
    && row.ObjectRow?
    && (row.lastJob.Some? ==>
          row.ignoreCache && Job(row.lastJob.value) in w.rows
          && w.rows[Job(row.lastJob.value)].JobRow? && w.rows[Job(row.lastJob.value)].target == r)
    && (!r.Cluster? ==> Cluster(row.cluster) in w.rows)
    && (r !in w.misdated && row.cache.info.Some? ==>
          && row.cache.cached.Some? && row.cache.mtime == row.cache.info.value.mtime
          && ColumnsSay(row.cache.info.value, row.cache.fields)
          && WasCurrent(History(w, r), row.cache.cached.value, row.cache.info.value))
  }

  lemma InvSays(w: World, r: Ref)
    requires Inv(w) && r in w.rows && IsObject(r)
    ensures RowSays(w, r)
  {
    assert PendingRow(w.rows, r, w.rows[r]) && ForeignKeys(r, w.rows[r]) <= w.rows.Keys;
    assert r !in w.misdated ==> Coherent(w.rows[r].cache, History(w, r), w.now);
    hide RowsSound, OrderedHistory, CachesCoherent;
  }

  // ---- Staleness ----

  /** An object whose load neither died nor ended in an error, and which is not being
      deployed or deleted, is served as it was no longer ago than the refresh interval. */
  lemma NeverServesStale(w: World, r: Ref, v: Visit)
    requires Inv(w) && VisitOk(w, r, v) && r !in w.misdated
    ensures var o := LoadIn(w, r, v);
            !o.raised && o.self.live && !o.self.error && Fetches(r, o.self.row) ==>
              NoOlderThan(o.self.row.cache, History(w, r), w.now - 600_000_000)
  {
    LoadSound(w, r, v);
    LoadCoherent(w, r, v);
    ServedIsStamped(w, r, v);
    var o := LoadIn(w, r, v);
    hide Load, Coherent, OrderedHistory, RowsSound, CachesCoherent, NoOlderThan, Fetches;
    if !o.raised && o.self.live && !o.self.error && Fetches(r, o.self.row) {
      CurrentIsRecent(o.self.row.cache, History(w, r), w.now, w.now - EPSILON);
    }
  }

  lemma ServedIsStamped(w: World, r: Ref, v: Visit)
    requires Inv(w) && VisitOk(w, r, v) && r !in w.misdated
    ensures var o := LoadIn(w, r, v);
            !o.raised && o.self.live && !o.self.error && Fetches(r, o.self.row) ==>
              && o.self.row.cache.info.Some? && o.self.row.cache.cached.Some?
              && w.now - EPSILON <= o.self.row.cache.cached.value
  {
    var row := w.rows[r];
    assert Coherent(row.cache, History(w, r), w.now);
    if Expired(row, w.now) {
      PolledRows(w, r, v);
      hide RowsSound, CachesCoherent, JobList, CheckJobs, Refetch, Fetches;
      var p := CheckJobs(w.rows, r, row, v.jobs, v.replies);
      if p.live {
        RefetchCoherent(p, r, row, v, w.now, History(w, r));
      } else if !p.raised {
        RefetchWithoutKey(p, r, row, v, w.now);
      }
    }
  }

  // ---- Which steps take rows out ----

  /** The object waits for the job being cleared; the load found its jobs settled
      but could not record that, because its refresh ended in an error. */
  ghost predicate ClearLoses(w: World, job: nat, target: Ref, v: Visit)
    requires target in w.rows && w.rows[target].ObjectRow?
  {
    && w.rows[target].lastJob == Some(job)
    && Removals(target, v.replies, |v.replies|) == 0
    && Settled(v.replies)
    && RefreshErrs(w, target, v)
  }

  /** After its load has removed the object, a clear still dies: the object in memory
      waits for the job that removed it, or for the one being cleared and the tag calls
      of the save fail. */
  ghost predicate ClearUndoes(w: World, job: nat, target: Ref, v: Visit, tagged: bool)
    requires target in w.rows && w.rows[target].ObjectRow? && |v.jobs| == |v.replies|
  {
    && !Settled(v.replies) && w.rows[target].lastJob.Some?
    && var awaited := w.rows[target].lastJob.value;
       Job(awaited) in PollLoses(w, target, v) || (awaited == job && !Saves(target, w.rows[target], tagged))
  }

  /** When a step takes the row of object `r` out, in terms of the rows before it and
      of what the step is given. */
  ghost predicate TakesOut(w: World, e: Event, r: Ref)
    requires Inv(w) && Enabled(w, e)
  {
    match e
    case Visiting(q, v) => r == q && RemovedBy(w, q, v)
    case Destroy(q, v, lookup, _, _, _) =>
      r == q && !LoadDies(w, q, v) && !RemovedBy(w, q, v) && LooksUp(w, q, v) && lookup == Missing
    case Clear(job, v, tagged) =>
      var target := w.rows[Job(job)].target;
      target in w.rows &&
      ((r == target && RemovedBy(w, target, v) && !ClearUndoes(w, job, target, v, tagged))
       || (ClearLoses(w, job, target, v) && r in Collect(w.rows, {Job(job)})))
    case Save(q, v, tagged, forced) =>
      r == q && RemovedBy(w, q, v) && !forced && Settled(v.replies) && Saves(q, w.rows[q], tagged)
    case Remove(doomed) => r in Collect(w.rows, doomed)
    case _ => false
  }

  lemma LoadTakesOut(w: World, q: Ref, v: Visit, r: Ref)
    requires Inv(w) && VisitOk(w, q, v)
    requires r in w.rows && IsObject(r)
    ensures r !in LoadIn(w, q, v).rows <==> r == q && RemovedBy(w, q, v)
    ensures LoadIn(w, q, v).self.live <==> !RemovedBy(w, q, v)
    ensures LoadIn(w, q, v).raised <==> LoadDies(w, q, v)
  {
    LiveIff(w, q, v);
    LoadSound(w, q, v);
    LostIffRemoved(w, q, v);
  }

  lemma SaveTakesOut(w: World, e: Event, r: Ref)
    requires Inv(w) && Enabled(w, e) && e.Save?
    requires r in w.rows && IsObject(r)
    ensures r !in Exec(w, e).rows <==> TakesOut(w, e, r)
  {
    assert r.pk < w.next && w.rows[e.r].ObjectRow?;
    LoadTakesOut(w, e.r, e.v, r);
    if RemovedBy(w, e.r, e.v) {
      SaveRemovedIff(w, e);
      assert PendingRow(w.rows, e.r, w.rows[e.r]);
    }
    hide Inv, VisitOk, LoadIn, RemovedBy, LoadDies, Lost, Settled;
  }

  lemma DestroyTakesOut(w: World, e: Event, r: Ref)
    requires Inv(w) && Enabled(w, e) && e.Destroy?
    requires r in w.rows && IsObject(r)
    ensures r !in Exec(w, e).rows <==> TakesOut(w, e, r)
  {
    LoadSound(w, e.r, e.v);
    LoadTakesOut(w, e.r, e.v, r);
    if !LoadDies(w, e.r, e.v) {
      LoadLooksUp(w, e.r, e.v);
    }
    var o := LoadIn(w, e.r, e.v);
    hide RowsSound, LoadIn, CachesCoherent, OrderedHistory, LooksUp, Lost, MemoryOk, Honest, JobList, Destroyed,
      DestroyDies, AlreadyGone, Fetches;
    DestroyIsImmediate(o, e);
    if !DestroyDies(o, e) {
      DestroyedSound(o, w.next, e);
      assert r in Destroyed(o, w.next, e) <==> r != e.r || !AlreadyGone(o, e);
    }
  }

  lemma DestroyIsImmediate(o: Outcome, e: Event)
    requires e.Destroy? && o.self.row.ObjectRow?
    ensures !DestroyDies(o, e) ==> !o.raised && o.self.live
    ensures !DestroyDies(o, e) && AlreadyGone(o, e) <==>
              !o.raised && o.self.live && Fetches(e.r, o.self.row) && e.lookup == Missing
  {
  }

  /** Whether a clear that dies after its load removed the object, from its inputs. */
  lemma ClearDiesIff(w: World, e: Event)
    requires Inv(w) && Enabled(w, e) && e.Clear? && w.rows[Job(e.job)].target in w.rows
    requires RemovedBy(w, w.rows[Job(e.job)].target, e.v)
    ensures var target := w.rows[Job(e.job)].target;
            ClearDies(LoadIn(w, target, e.v), e.job, target, e.tagged) <==> ClearUndoes(w, e.job, target, e.v, e.tagged)
  {
    var target := w.rows[Job(e.job)].target;
    assert PendingRow(w.rows, target, w.rows[target]);
    hide RowsSound, CachesCoherent, OrderedHistory, LoadIn, PollLoses, Settled, MemoryOk, Honest, JobList;
    LoadSound(w, target, e.v);
    LoadWithoutKey(w, target, e.v);
  }

  /** Memory and row disagree about the job exactly when the load found it settled but
      ended in an error. */
  lemma MismatchFromWaiting(o: Outcome, target: Ref, job: nat, before: Option<nat>, settled: bool)
    requires o.self.row.ObjectRow? && (o.self.live <==> target in o.rows)
    requires o.self.live && before.Some? ==> Job(before.value) in o.rows
    requires o.self.live && !o.raised ==>
               && o.rows[target].ObjectRow?
               && o.self.row.lastJob == (if settled then None else before)
               && o.rows[target].lastJob == (if o.self.error then before else o.self.row.lastJob)
    ensures Mismatch(o, target, job) <==> !o.raised && o.self.live && before == Some(job) && settled && o.self.error
  {
  }

  lemma MismatchIffClearLoses(w: World, e: Event)
    requires Inv(w) && Enabled(w, e) && e.Clear? && w.rows[Job(e.job)].target in w.rows
    ensures var target := w.rows[Job(e.job)].target;
            var o := LoadIn(w, target, e.v);
            o.self.row.ObjectRow? && (Mismatch(o, target, e.job) <==> ClearLoses(w, e.job, target, e.v))
  {
    var target := w.rows[Job(e.job)].target;
    assert PendingRow(w.rows, target, w.rows[target]);
    LoadSound(w, target, e.v);
    LoadTakesOut(w, target, e.v, target);
    LoadWaits(w, target, e.v);
    hide LoadIn, Settled, RowsSound, CachesCoherent, OrderedHistory, Lost, MemoryOk, RefreshErrs, LooksUp,
      Honest, JobList,
      Mismatch;
    var o := LoadIn(w, target, e.v);
    if Polls(w, target) && Removals(target, e.v.replies, |e.v.replies|) == 0 {
      LoadErrsIff(w, target, e.v);
    }
    MismatchFromWaiting(o, target, e.job, w.rows[target].lastJob, Polls(w, target) && Settled(e.v.replies));
  }

  /** Clearing a job takes the same objects along before its load and after it. */
  lemma SameCollected(w: World, e: Event, r: Ref)
    requires Inv(w) && Enabled(w, e) && e.Clear? && IsObject(r) && r in w.rows
    requires w.rows[Job(e.job)].target in w.rows && ClearLoses(w, e.job, w.rows[Job(e.job)].target, e.v)
    ensures var o := LoadIn(w, w.rows[Job(e.job)].target, e.v);
            r in Collect(o.rows, {Job(e.job)}) <==> r in Collect(w.rows, {Job(e.job)})
  {
    var target := w.rows[Job(e.job)].target;
    MismatchIffClearLoses(w, e);
    assert PendingRow(w.rows, target, w.rows[target]);
    var o := LoadIn(w, target, e.v);
    if target.Vm? {
      LoadSound(w, target, e.v);
      LoadTakesOut(w, target, e.v, r);
      VmCollected(w.rows, target, e.job, r);
      VmCollected(o.rows, target, e.job, r);
    } else {
      LoadErrsIff(w, target, e.v);
      ErringLoadWritesNothing(w, target, e.v);
    }
  }

  lemma VmCollected(rows: Rows, target: Ref, job: nat, r: Ref)
    requires Typed(rows) && Pending(rows) && target.Vm? && target in rows && rows[target].lastJob == Some(job)
    requires r in rows && IsObject(r)
    ensures r in Collect(rows, {Job(job)}) <==> r == target
  {
    assert PendingRow(rows, target, rows[target]);
    DeletingJobs(rows, target, {Job(job)});
    assert r in Delete(rows, {Job(job)}) <==> r !in Collect(rows, {Job(job)});
  }

  lemma ErringLoadWritesNothing(w: World, q: Ref, v: Visit)
    requires q in w.rows && w.rows[q].ObjectRow? && |v.jobs| == |v.replies| && !q.Vm?
    requires LoadIn(w, q, v).self.error
    ensures LoadIn(w, q, v).rows == w.rows
  {
    var row := w.rows[q];
    OthersPollNothing(w.rows, q, row, v.jobs, v.replies, |v.jobs|);
    hide Fetches, Saves, NonZero, FieldsOf, UpdateRow, Poll, Settled;
  }

  lemma {:induction false} OthersPollNothing(rows: Rows, self: Ref, row: Row, jobs: seq<nat>, replies: seq<Reply>,
                                             n: nat)
    requires row.ObjectRow? && n <= |jobs| == |replies| && !self.Vm?
    ensures Poll(rows, self, row, jobs, replies, n) == Progress(rows, true, map[], false)
  {
    if n > 0 {
      OthersPollNothing(rows, self, row, jobs, replies, n - 1);
    }
  }

  lemma ClearTakesOut(w: World, e: Event, r: Ref)
    requires Inv(w) && Enabled(w, e) && e.Clear?
    requires r in w.rows && IsObject(r)
    ensures r !in Exec(w, e).rows <==> TakesOut(w, e, r)
  {
    var target := w.rows[Job(e.job)].target;
    if target !in w.rows {
      OnlyTargetAwaits(w.rows, target, e.job);
      DeleteUnawaited(w.rows, e.job);
    } else {
      ClearTargetTakesOut(w, target, e, r);
    }
  }

  lemma ClearTargetTakesOut(w: World, target: Ref, e: Event, r: Ref)
    requires Inv(w) && Enabled(w, e) && e.Clear? && target == w.rows[Job(e.job)].target && target in w.rows
    requires r in w.rows && IsObject(r)
    ensures r !in Exec(w, e).rows <==> TakesOut(w, e, r)
  {
    hide Inv, VisitOk, LoadIn, Carried, ClearReady, Cleared, Revives, RemovedBy, ClearUndoes, ClearLoses, Collect;
    VisitedIsObject(w, target, e.v);
    KnownKey(w, r);
    ClearLoadReady(w, e);
    LoadTakesOut(w, target, e.v, r);
    MismatchIffClearLoses(w, e);
    var o := LoadIn(w, target, e.v);
    if RemovedBy(w, target, e.v) {
      ClearDiesIff(w, e);
    }
    if ClearLoses(w, e.job, target, e.v) {
      SameCollected(w, e, r);
    }
    if !ClearDies(o, e.job, target, e.tagged) {
      ClearedTakesOut(w, o, target, e, r);
    }
  }

  lemma ClearedTakesOut(w: World, o: Outcome, target: Ref, e: Event, r: Ref)
    requires e.Clear? && ClearReady(o, w.next, target, e.job) && !o.raised && !Dangling(o)
    requires IsObject(r) && r.pk < w.next
    ensures r !in Cleared(o, w.next, target, e.job) <==>
              r !in o.rows || (Mismatch(o, target, e.job) && r in Collect(o.rows, {Job(e.job)}))
  {
    ClearedSound(o, w.next, target, e.job);
    hide RowsSound, MemoryOk, ForeignKeys, Collect;
  }

  /** Exactly which steps take out the row of a machine, a node or a cluster. */
  lemma RowsLostExactly(w: World, e: Event, r: Ref)
    requires Inv(w) && Enabled(w, e)
    requires r in w.rows && IsObject(r)
    ensures r !in Exec(w, e).rows <==> TakesOut(w, e, r)
  {
    match e
    case Visiting(q, v) => LoadTakesOut(w, q, v, r);
    case Save(_, _, _, _) => SaveTakesOut(w, e, r);
    case Destroy(_, _, _, _, _, _) => DestroyTakesOut(w, e, r);
    case Clear(_, _, _) => ClearTakesOut(w, e, r);
    case _ =>
  }

  // ---- What the requests that start or end a wait do ----

  /** Starting a job makes the object wait for a new job of that number, ignore its cache and
      take the new name, if there is one; nothing else changes. */
  lemma StartJobWaits(w: World, e: Event)
    requires Inv(w) && Enabled(w, e) && e.StartJob?
    ensures var r, before, after := e.r, w.rows[e.r], Exec(w, e).rows;
            && before.ObjectRow?
            && after.Keys == w.rows.Keys + {Job(w.next)}
            && after[Job(w.next)] == JobRow(if r.Cluster? then r.pk else before.cluster, e.jobId, r)
            && after[r] == ObjectRow(before.cluster, if e.hostname == None then before.hostname else e.hostname.value,
                                     Some(w.next), true, before.template, before.primary, before.secondary,
                                     before.pendingDelete, before.cache)
            && JobsOf(after, r) == JobsOf(w.rows, r) + {Job(w.next)}
            && forall q :: q in w.rows && q != r ==> after[q] == w.rows[q]
  {
    hide Inv;
    InvSays(w, e.r);
    NextIsFree(w);
    var after := Exec(w, e).rows;
    forall j
      ensures j in JobsOf(after, e.r) <==> j in JobsOf(w.rows, e.r) + {Job(w.next)}
    {
    }
  }

  /** A deployment makes a machine of that name, cluster and template, waiting for its creation. */
  lemma DeployWaits(w: World, e: Event)
    requires Inv(w) && Enabled(w, e) && e.Deploy?
    ensures var after := Exec(w, e).rows;
            && after.Keys == w.rows.Keys + {Vm(w.next), Job(w.next + 1)}
            && after[Vm(w.next)] == ObjectRow(e.cluster, e.name, Some(w.next + 1), true, e.template, None, None, false,
                                              Cache(None, None, None, NoFields))
            && after[Job(w.next + 1)] == JobRow(e.cluster, e.jobId, Vm(w.next))
            && forall q :: q in w.rows ==> after[q] == w.rows[q]
  {
    assert Vm(w.next) !in w.rows && Job(w.next + 1) !in w.rows;
    hide Inv;
  }

  /** A row created any other way waits for nothing, ignores nothing, and has nothing fetched. */
  lemma CreateAdds(w: World, e: Event)
    requires Inv(w) && Enabled(w, e) && e.Create? && e.kind != ATemplate
    ensures var after := Exec(w, e).rows;
            var r := match e.kind case AVm => Vm(w.next) case ANode => Node(w.next) case _ => Cluster(w.next);
            && r !in w.rows
            && after == w.rows[r := ObjectRow(e.cluster, e.name, None, false, None, None, None, false,
                                              Cache(None, None, None, NoFields))]
  {
    NextIsFree(w);
    hide Inv;
  }

  /** A destroy leaves the machine waiting for its deletion exactly if the load neither dies nor
      removes it, the server knows it, where asked, takes the job, and the tags are settled. */
  lemma DestroyDoomsIff(w: World, e: Event)
    requires Inv(w) && Enabled(w, e) && e.Destroy?
    ensures var o := LoadIn(w, e.r, e.v);
            var after := Exec(w, e).rows;
            o.self.row.ObjectRow? &&
            (e.r in after && after[e.r].ObjectRow? && after[e.r].lastJob == Some(w.next) <==>
               && !LoadDies(w, e.r, e.v) && !RemovedBy(w, e.r, e.v)
               && (LooksUp(w, e.r, e.v) ==> e.lookup == Found)
               && e.accepted && (e.tagged || o.self.row.cache.info.None?))
  {
    LoadSound(w, e.r, e.v);
    LiveIff(w, e.r, e.v);
    if !LoadDies(w, e.r, e.v) {
      LoadLooksUp(w, e.r, e.v);
    }
    assert PendingRow(w.rows, e.r, w.rows[e.r]) && Job(w.next) !in w.rows;
    hide RowsSound, LoadIn, CachesCoherent, OrderedHistory, LooksUp, LoadDies, RemovedBy, Lost, MemoryOk, Honest,
      JobList, Destroyed, Fetches, DestroyDies, AlreadyGone;
    var o := LoadIn(w, e.r, e.v);
    DestroyDooms(o, e);
    DestroyIsImmediate(o, e);
    if !DestroyDies(o, e) {
      DestroyedSound(o, w.next, e);
    }
  }

  lemma DestroyDooms(o: Outcome, e: Event)
    requires e.Destroy? && e.r.Vm? && o.self.row.ObjectRow?
    ensures !DestroyDies(o, e) && !AlreadyGone(o, e) <==>
              && !o.raised && o.self.live && (Fetches(e.r, o.self.row) ==> e.lookup == Found)
              && e.accepted && (e.tagged || o.self.row.cache.info.None?)
  {
  }

  /** A clear of a job of an object that stays dies exactly if the load does, or the object in
      memory waits for that job and its tags cannot be settled; otherwise the job is gone. */
  lemma ClearLiveIff(w: World, e: Event)
    requires Inv(w) && Enabled(w, e) && e.Clear? && w.rows[Job(e.job)].target in w.rows
    requires !RemovedBy(w, w.rows[Job(e.job)].target, e.v)
    ensures var target := w.rows[Job(e.job)].target;
            var o := LoadIn(w, target, e.v);
            o.self.row.ObjectRow? &&
            var dies := || LoadDies(w, target, e.v)
                        || (o.self.row.lastJob == Some(e.job) && !e.tagged
                            && target.Vm? && o.self.row.cache.info.Some?);
            && (dies ==> Exec(w, e) == w)
            && (!dies ==> Job(e.job) !in Exec(w, e).rows)
  {
    var target := w.rows[Job(e.job)].target;
    ClearLoadReady(w, e);
    LiveIff(w, target, e.v);
    LoadSound(w, target, e.v);
    MemoryHolds(w, target, e.v, e.job);
    hide RowsSound, LoadIn, CachesCoherent, OrderedHistory, ClearReady, Carried, Honest, JobList, RemovedBy, LoadDies,
      Lost, MemoryOk, Cleared;
    var o := LoadIn(w, target, e.v);
    if !ClearDies(o, e.job, target, e.tagged) {
      JobCleared(o, w.next, target, e.job);
    }
  }

  /** While the object stays, the job it waits for in memory and the one to clear are there. */
  lemma MemoryHolds(w: World, target: Ref, v: Visit, job: nat)
    requires Inv(w) && VisitOk(w, target, v) && !RemovedBy(w, target, v) && Job(job) in w.rows
    ensures !Dangling(LoadIn(w, target, v)) && Job(job) in LoadIn(w, target, v).rows
  {
    LiveIff(w, target, v);
    LoadSound(w, target, v);
    LostIffRemoved(w, target, v);
    var o := LoadIn(w, target, v);
    assert MemoryOk(o.rows, target, o.self.row);
  }

  lemma JobCleared(o: Outcome, next: nat, target: Ref, job: nat)
    requires o.self.row.ObjectRow?
    ensures Job(job) !in Cleared(o, next, target, job)
  {
    CollectIsLeastClosed(o.rows, {Job(job)});
    CollectIsLeastClosed(o.rows[if o.self.live then target else Vm(next) := Forgetting(o.self.row)], {Job(job)});
    hide Collect, Forgetting;
  }

  // ---- What one step does to a row it leaves in place ----

  /** The stored mtime of `r` has not gone back, and a row that was not there is still not there. */
  ghost predicate Follows(w: World, rows: Rows, r: Ref) {
    && (r in rows ==> r in w.rows)
    && (r in rows && rows[r].ObjectRow? && w.rows[r].ObjectRow? ==>
          NotOlder(w.rows[r].cache.mtime, rows[r].cache.mtime))
  }

  /** Both copies of a loaded object are no older than the row was. */
  lemma LoadFollows(w: World, q: Ref, v: Visit, r: Ref)
    requires Inv(w) && VisitOk(w, q, v)
    ensures LoadedFollows(w, q, LoadIn(w, q, v), r)
  {
    assert w.rows[q].ObjectRow?;
    LoadSound(w, q, v);
    LoadMtime(w, q, v);
    hide RowsSound, Load, Coherent, MemoryOk, Lost, CachesCoherent, OrderedHistory;
    FactsFollow(w, q, v, LoadIn(w, q, v), r);
  }

  ghost predicate LoadedFollows(w: World, q: Ref, o: Outcome, r: Ref)
    requires q in w.rows && w.rows[q].ObjectRow?
  {
    && Follows(w, o.rows, r)
    && o.self.row.ObjectRow?
    && (o.self.live <==> q in o.rows)
    && (o.self.live ==> NotOlder(w.rows[q].cache.mtime, o.self.row.cache.mtime))
  }

  lemma FactsFollow(w: World, q: Ref, v: Visit, o: Outcome, r: Ref)
    requires q in w.rows && w.rows[q].ObjectRow? && |v.jobs| == |v.replies|
    requires LoadFacts(w, q, v, o)
    requires o.self.live ==>
               && q in o.rows && o.rows[q].ObjectRow?
               && NotOlder(w.rows[q].cache.mtime, o.rows[q].cache.mtime)
               && NotOlder(w.rows[q].cache.mtime, o.self.row.cache.mtime)
    ensures LoadedFollows(w, q, o, r)
  {
  }

  lemma Unmoved(w: World, r: Ref)
    ensures Follows(w, w.rows, r)
  {
  }

  /** What a destroy that gets through does to the rows of a world. */
  lemma DestroyedReady(w: World, e: Event)
    requires Inv(w) && Enabled(w, e) && e.Destroy? && LoadIn(w, e.r, e.v).self.live
    ensures LoadIn(w, e.r, e.v).self.row.ObjectRow? && DestroyedFacts(LoadIn(w, e.r, e.v), w.next, e)
  {
    hide Inv, VisitOk, RowsSound, LoadIn, Destroyed, Lost, MemoryOk;
    VisitedIsObject(w, e.r, e.v);
    NextIsFree(w);
    LoadSound(w, e.r, e.v);
    DestroyedSound(LoadIn(w, e.r, e.v), w.next, e);
  }

  /** What a clear that gets through does to the rows of a world. */
  lemma ClearedReady(w: World, target: Ref, e: Event)
    requires Inv(w) && Enabled(w, e) && e.Clear? && target == w.rows[Job(e.job)].target && target in w.rows
    requires !ClearDies(LoadIn(w, target, e.v), e.job, target, e.tagged)
    ensures var o := LoadIn(w, target, e.v);
            o.self.row.ObjectRow? && ClearReady(o, w.next, target, e.job) && ClearedFacts(o, w.next, target, e.job)
  {
    hide Inv, VisitOk, LoadIn, Carried, ClearReady, Cleared;
    VisitedIsObject(w, target, e.v);
    ClearLoadReady(w, e);
    ClearedSound(LoadIn(w, target, e.v), w.next, target, e.job);
  }

  lemma DestroyFollows(w: World, e: Event, r: Ref)
    requires Inv(w) && Enabled(w, e) && e.Destroy? && IsObject(r)
    ensures Follows(w, Exec(w, e).rows, r)
  {
    hide Inv, VisitOk, LoadIn, Carried, SaveReady, Destroyed, LoadedFollows, DestroyDies;
    VisitedIsObject(w, e.r, e.v);
    LoadFollows(w, e.r, e.v, r);
    Unmoved(w, r);
    var o := LoadIn(w, e.r, e.v);
    if !DestroyDies(o, e) {
      DestroyLives(o, e);
      DestroyedReady(w, e);
      DestroyedFollows(w, o, e, r);
    }
  }

  lemma DestroyedFollows(w: World, o: Outcome, e: Event, r: Ref)
    requires e.Destroy? && e.r in w.rows && w.rows[e.r].ObjectRow? && IsObject(r)
    requires LoadedFollows(w, e.r, o, r) && o.self.live
    requires DestroyedFacts(o, w.next, e)
    ensures Follows(w, Destroyed(o, w.next, e), r)
  {
    hide Destroyed, AlreadyGone;
  }

  lemma ClearFollows(w: World, e: Event, r: Ref)
    requires Inv(w) && Enabled(w, e) && e.Clear? && IsObject(r) && r.pk < w.next
    ensures Follows(w, Exec(w, e).rows, r)
  {
    hide Inv, VisitOk, LoadIn, Cleared, LoadedFollows, ClearReady, Revives, Collect;
    var target := w.rows[Job(e.job)].target;
    Unmoved(w, r);
    if target in w.rows {
      VisitedIsObject(w, target, e.v);
      LoadFollows(w, target, e.v, r);
      var o := LoadIn(w, target, e.v);
      if !ClearDies(o, e.job, target, e.tagged) {
        ClearedReady(w, target, e);
        ClearedFollows(w, o, target, e, r);
      }
    }
  }

  lemma ClearedFollows(w: World, o: Outcome, target: Ref, e: Event, r: Ref)
    requires e.Clear? && target in w.rows && w.rows[target].ObjectRow? && IsObject(r) && r.pk < w.next
    requires LoadedFollows(w, target, o, r) && ClearedFacts(o, w.next, target, e.job)
    ensures Follows(w, Cleared(o, w.next, target, e.job), r)
  {
    hide Cleared, Mismatch, Revives;
  }

  lemma SaveFollows(w: World, e: Event, r: Ref)
    requires Inv(w) && Enabled(w, e) && e.Save? && IsObject(r) && r.pk < w.next
    ensures Follows(w, Exec(w, e).rows, r)
  {
    hide Inv, VisitOk, LoadIn, SaveDies;
    VisitedIsObject(w, e.r, e.v);
    LoadFollows(w, e.r, e.v, r);
    Unmoved(w, r);
  }

  lemma StepFollows(w: World, e: Event, r: Ref)
    requires Inv(w) && Enabled(w, e) && IsObject(r) && r.pk < w.next
    ensures Follows(w, Exec(w, e).rows, r)
  {
    hide Load, RowsSound, CachesCoherent, OrderedHistory, Destroyed, Cleared;
    match e
    case Visiting(q, v) => LoadFollows(w, q, v, r);
    case Save(_, _, _, _) => SaveFollows(w, e, r);
    case Destroy(_, _, _, _, _, _) => DestroyFollows(w, e, r);
    case Clear(_, _, _) => ClearFollows(w, e, r);
    case _ =>
  }

  lemma PksOnlyGrow(w: World, e: Event)
    requires Inv(w) && Enabled(w, e)
    ensures w.next <= Exec(w, e).next
  {
  }

  // ---- The same over runs ----

  /** No step of the run takes `r` out. */
  ghost predicate NeverTaken(w: World, es: seq<Event>, r: Ref)
    requires Inv(w) && Possible(w, es)
    decreases |es|
  {
    es == [] ||
    (!TakesOut(w, es[0], r) && (StepKeepsInv(w, es[0]); NeverTaken(Exec(w, es[0]), es[1..], r)))
  }

  lemma {:induction false} NeverBack(w: World, es: seq<Event>, r: Ref)
    requires Inv(w) && Possible(w, es) && IsObject(r)
    requires r !in w.rows && r.pk < w.next
    ensures r !in Run(w, es).rows
    decreases |es|
  {
    if es != [] {
      StepKeepsInv(w, es[0]);
      StepFollows(w, es[0], r);
      PksOnlyGrow(w, es[0]);
      NeverBack(Exec(w, es[0]), es[1..], r);
    }
  }

  /** A row survives a run exactly when none of its steps takes it out. */
  lemma {:induction false} RowSurvives(w: World, es: seq<Event>, r: Ref)
    requires Inv(w) && Possible(w, es)
    requires r in w.rows && IsObject(r)
    ensures r in Run(w, es).rows <==> NeverTaken(w, es, r)
    decreases |es|
  {
    if es != [] {
      StepKeepsInv(w, es[0]);
      RowsLostExactly(w, es[0], r);
      PksOnlyGrow(w, es[0]);
      if r in Exec(w, es[0]).rows {
        RowSurvives(Exec(w, es[0]), es[1..], r);
      } else {
        NeverBack(Exec(w, es[0]), es[1..], r);
      }
    }
  }

  // ---- Two removals in one poll ----

  /** The request loads object `r`. */
  predicate Loads(w: World, e: Event, r: Ref) {
    match e
    case Visiting(q, _) => q == r
    case Destroy(q, _, _, _, _, _) => q == r
    case Save(q, _, _, _) => q == r
    case Clear(job, _, _) =>
      Job(job) in w.rows && w.rows[Job(job)].JobRow? && w.rows[Job(job)].target == r && r in w.rows
    case _ => false
  }

  /** A request whose load dies changes nothing at all. */
  lemma DyingLoadChangesNothing(w: World, e: Event, r: Ref)
    requires Inv(w) && Enabled(w, e) && Loads(w, e, r) && r in w.rows && w.rows[r].ObjectRow? && LoadDies(w, r, e.v)
    ensures Exec(w, e) == w
  {
    LoadDiesIff(w, r, e.v);
    LoadSound(w, r, e.v);
    hide LoadDies, RowsSound, CachesCoherent, OrderedHistory, JobList, Honest, MemoryOk;
  }

  /** Whenever the run loads `r`, the poll counts two removals or more, and no
      other step takes `r` out. */
  ghost predicate AlwaysTwice(w: World, es: seq<Event>, r: Ref)
    requires Inv(w) && Possible(w, es)
    decreases |es|
  {
    es == [] ||
    (&& (if Loads(w, es[0], r) then Removals(r, es[0].v.replies, |es[0].v.replies|) >= 2 else !TakesOut(w, es[0], r))
     && (StepKeepsInv(w, es[0]); AlwaysTwice(Exec(w, es[0]), es[1..], r)))
  }

  /** `r` has a row and waits for a job. */
  predicate Awaits(rows: Rows, r: Ref) {
    r in rows && rows[r].ObjectRow? && rows[r].lastJob.Some?
  }

  /** `r`, if it is still there, is as it was up to a dropped template, and no job has
      come to point at it. */
  ghost predicate Untouched(before: Rows, after: Rows, r: Ref) {
    && (r in after ==> r in before && (after[r] == before[r] || after[r] == WithoutTemplate(before[r])))
    && (forall j :: j in after && j.Job? && after[j].JobRow? && after[j].target == r ==>
          j in before && after[j] == before[j])
  }

  lemma Unchanged(rows: Rows, r: Ref)
    ensures Untouched(rows, rows, r)
  {
  }

  lemma UntouchedAgain(a: Rows, b: Rows, c: Rows, r: Ref)
    requires Untouched(a, b, r) && Untouched(b, c, r)
    ensures Untouched(a, c, r)
  {
  }

  /** Rows are dropped, or written elsewhere. */
  lemma ElsewhereUntouched(before: Rows, after: Rows, r: Ref, own: set<Ref>)
    requires Outside(before, after, own) && r !in own
    requires forall q :: q in own && q in after && q.Job? && after[q].JobRow? ==> after[q].target != r
    ensures Untouched(before, after, r)
  {
  }

  lemma LoadUntouched(w: World, q: Ref, v: Visit, r: Ref)
    requires Inv(w) && VisitOk(w, q, v) && q != r && IsObject(r)
    ensures Untouched(w.rows, LoadIn(w, q, v).rows, r)
  {
    assert w.rows[q].ObjectRow?;
    LoadSound(w, q, v);
    hide LoadIn, Inv, VisitOk, RowsSound;
    FactsUntouched(w, q, v, LoadIn(w, q, v), r);
  }

  lemma FactsUntouched(w: World, q: Ref, v: Visit, o: Outcome, r: Ref)
    requires q in w.rows && w.rows[q].ObjectRow? && |v.jobs| == |v.replies| && IsObject(q)
    requires LoadFacts(w, q, v, o) && q != r && IsObject(r)
    ensures Untouched(w.rows, o.rows, r)
  {
    hide RowsSound, MemoryOk, Lost;
  }

  lemma DestroyUntouched(w: World, e: Event, r: Ref)
    requires Inv(w) && Enabled(w, e) && e.Destroy? && e.r != r && IsObject(r)
    ensures Untouched(w.rows, Exec(w, e).rows, r)
  {
    hide Inv, VisitOk, LoadIn, Destroyed, DestroyDies, Untouched;
    VisitedIsObject(w, e.r, e.v);
    LoadUntouched(w, e.r, e.v, r);
    var o := LoadIn(w, e.r, e.v);
    if DestroyDies(o, e) {
      Unchanged(w.rows, r);
    } else {
      DestroyLives(o, e);
      DestroyedReady(w, e);
      DestroyedUntouched(o, w.next, e, r);
      UntouchedAgain(w.rows, o.rows, Destroyed(o, w.next, e), r);
    }
  }

  lemma DestroyedUntouched(o: Outcome, next: nat, e: Event, r: Ref)
    requires e.Destroy? && o.self.row.ObjectRow? && e.r != r && IsObject(r)
    requires DestroyedFacts(o, next, e)
    ensures Untouched(o.rows, Destroyed(o, next, e), r)
  {
    hide Destroyed, AlreadyGone, Untouched;
    assert e.r in Destroyed(o, next, e) && e.r.Job? ==> Destroyed(o, next, e)[e.r].ObjectRow?;
    ElsewhereUntouched(o.rows, Destroyed(o, next, e), r, {e.r, Job(next)});
  }

  lemma ClearUntouched(w: World, e: Event, r: Ref)
    requires Inv(w) && Enabled(w, e) && e.Clear? && !Loads(w, e, r) && IsObject(r) && r in w.rows
    ensures Untouched(w.rows, Exec(w, e).rows, r)
  {
    var target := w.rows[Job(e.job)].target;
    if target in w.rows {
      hide Inv, VisitOk, LoadIn, Cleared, ClearReady, Revives, Untouched;
      KnownKey(w, r);
      VisitedIsObject(w, target, e.v);
      LoadUntouched(w, target, e.v, r);
      Unchanged(w.rows, r);
      var o := LoadIn(w, target, e.v);
      if !ClearDies(o, e.job, target, e.tagged) {
        ClearedReady(w, target, e);
        ClearedUntouched(o, w.next, target, e.job, r);
        UntouchedAgain(w.rows, o.rows, Cleared(o, w.next, target, e.job), r);
      }
    }
  }

  lemma ClearedUntouched(o: Outcome, next: nat, target: Ref, job: nat, r: Ref)
    requires o.self.row.ObjectRow? && ClearedFacts(o, next, target, job)
    requires r != target && IsObject(target) && r.pk < next
    ensures Untouched(o.rows, Cleared(o, next, target, job), r)
  {
    hide Cleared, Mismatch, Revives, Untouched;
    ElsewhereUntouched(o.rows, Cleared(o, next, target, job), r, {target, Vm(next)});
  }

  lemma SaveUntouched(w: World, e: Event, r: Ref)
    requires Inv(w) && Enabled(w, e) && e.Save? && e.r != r && IsObject(r) && r in w.rows
    ensures Untouched(w.rows, Exec(w, e).rows, r)
  {
    hide Inv, VisitOk, LoadIn, Untouched, SaveDies;
    VisitedIsObject(w, e.r, e.v);
    KnownKey(w, r);
    LoadUntouched(w, e.r, e.v, r);
    Unchanged(w.rows, r);
    var o := LoadIn(w, e.r, e.v);
    var at := if o.self.live then e.r else Vm(w.next);
    ElsewhereUntouched(o.rows, o.rows[at := o.self.row], r, {at});
    UntouchedAgain(w.rows, o.rows, o.rows[at := o.self.row], r);
  }

  lemma StartUntouched(rows: Rows, next: nat, q: Ref, jobId: int, hostname: Option<string>, r: Ref)
    requires q in rows && rows[q].ObjectRow? && IsObject(q) && IsObject(r) && q != r
    ensures Untouched(rows, Started(rows, next, q, jobId, hostname), r)
  {
    hide Untouched;
    ElsewhereUntouched(rows, Started(rows, next, q, jobId, hostname), r, {q, Job(next)});
  }

  lemma NewRowsUntouched(w: World, e: Event, r: Ref)
    requires Inv(w) && Enabled(w, e) && (e.Deploy? || e.Create? || e.Remove?) && IsObject(r) && r in w.rows
    ensures Untouched(w.rows, Exec(w, e).rows, r)
  {
    hide Inv, Enabled, Untouched, Collect, LoadIn, NewRow, Deployed;
    KnownKey(w, r);
    match e
    case Deploy(_, _, _, _) => DeployUntouched(w.rows, w.next, e, r);
    case Create(kind, _, _) =>
      ElsewhereUntouched(w.rows, w.rows[NewRef(kind, w.next) := NewRow(e)], r, {NewRef(kind, w.next)});
    case Remove(doomed) => ElsewhereUntouched(w.rows, Delete(w.rows, doomed), r, {});
  }

  lemma DeployUntouched(rows: Rows, next: nat, e: Event, r: Ref)
    requires e.Deploy? && r.pk < next
    ensures Untouched(rows, Deployed(rows, next, e), r)
  {
    hide Untouched;
    ElsewhereUntouched(rows, Deployed(rows, next, e), r, {Vm(next), Job(next + 1)});
  }

  /** The request starts a job for `r`. */
  predicate Starts(e: Event, r: Ref) {
    e.StartJob? && e.r == r
  }

  /** Requests that neither load an object nor start a job for it leave it as it was,
      unless they take it out. */
  lemma OthersLeaveUntouched(w: World, e: Event, r: Ref)
    requires Inv(w) && Enabled(w, e) && !Loads(w, e, r) && !Starts(e, r) && IsObject(r) && r in w.rows
    ensures Untouched(w.rows, Exec(w, e).rows, r)
  {
    if e.StartJob? {
      assert w.rows[e.r].ObjectRow?;
    }
    hide Inv, VisitOk, LoadIn, Untouched;
    match e
    case Visiting(q, v) => LoadUntouched(w, q, v, r);
    case Save(_, _, _, _) => SaveUntouched(w, e, r);
    case Destroy(_, _, _, _, _, _) => DestroyUntouched(w, e, r);
    case Clear(_, _, _) => ClearUntouched(w, e, r);
    case StartJob(q, jobId, hostname) => StartUntouched(w.rows, w.next, q, jobId, hostname, r);
    case Deploy(_, _, _, _) => NewRowsUntouched(w, e, r);
    case Create(_, _, _) => NewRowsUntouched(w, e, r);
    case Remove(_) => NewRowsUntouched(w, e, r);
    case _ => Unchanged(w.rows, r);
  }

  lemma StartAwaits(w: World, e: Event, r: Ref)
    requires Inv(w) && Enabled(w, e) && Starts(e, r)
    ensures Awaits(Exec(w, e).rows, r)
  {
    hide RowsSound, CachesCoherent, OrderedHistory;
  }

  /** A waiting machine whose polls keep counting two removals is never removed by any
      request that loads it, and never changed by one either: every such request dies and is
      rolled back, so the next one meets the same jobs. */
  lemma {:induction false} TwoRemovalsRemoveNothing(w: World, es: seq<Event>, r: Ref)
    requires Inv(w) && Possible(w, es) && IsObject(r) && Awaits(w.rows, r) && AlwaysTwice(w, es, r)
    ensures Awaits(Run(w, es).rows, r)
    decreases |es|
  {
    if es != [] {
      var e := es[0];
      assert PendingRow(w.rows, r, w.rows[r]);
      StepKeepsInv(w, e);
      if Loads(w, e, r) {
        DyingLoadChangesNothing(w, e, r);
      } else {
        RowsLostExactly(w, e, r);
        if Starts(e, r) {
          StartAwaits(w, e, r);
        } else {
          OthersLeaveUntouched(w, e, r);
        }
      }
      TwoRemovalsRemoveNothing(Exec(w, e), es[1..], r);
    }
  }

  /** The stored mtime of a row never decreases over a run. */
  lemma {:induction false} MtimeNeverDecreases(w: World, es: seq<Event>, r: Ref)
    requires Inv(w) && Possible(w, es)
    requires r in w.rows && IsObject(r) && r in Run(w, es).rows
    ensures w.rows[r].ObjectRow? && Run(w, es).rows[r].ObjectRow?
    ensures NotOlder(w.rows[r].cache.mtime, Run(w, es).rows[r].cache.mtime)
    decreases |es|
  {
    if es != [] {
      StepKeepsInv(w, es[0]);
      var next := Exec(w, es[0]);
      StepFollows(w, es[0], r);
      PksOnlyGrow(w, es[0]);
      if r !in next.rows {
        NeverBack(next, es[1..], r);
      } else {
        MtimeNeverDecreases(next, es[1..], r);
      }
    }
  }
}
