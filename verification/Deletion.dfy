/** Deleting a machine from the request to the last poll, and requests that
    interfere with it. */
module Deletion {
  import opened Wrappers
  import opened RemoteInfo
  import opened JobReplies
  import opened Database
  import opened Polling
  import opened Caching
  import opened Coherence
  import opened Lifecycle
  import opened Requests
  import opened Safety

  // ---- The way it is meant to go ----

  /** The destroy request gets through to its final save. */
  ghost predicate Doomed(w: World, e: Event)
    requires Inv(w) && Enabled(w, e) && e.Destroy?
  {
    var o := LoadIn(w, e.r, e.v);
    o.self.row.ObjectRow? && !DestroyDies(o, e) && !AlreadyGone(o, e)
  }

  /** Then the machine waits for the deletion job and has no other. */
  lemma DoomedState(w: World, e: Event)
    requires Inv(w) && Enabled(w, e) && e.Destroy? && Doomed(w, e)
    ensures WaitsOnlyFor(Exec(w, e).rows, e.r, w.next)
  {
    hide Inv, VisitOk, LoadIn, MemoryOk, RowsSound, Lost, WaitsOnlyFor, PendingDeletion;
    VisitedIsObject(w, e.r, e.v);
    LoadSound(w, e.r, e.v);
    var o := LoadIn(w, e.r, e.v);
    DestroyIsImmediate(o, e);
    OldJobsGone(o.rows, e.r);
    hide DestroyDies, AlreadyGone;
    DoomedRows(Delete(o.rows, JobsOf(o.rows, e.r)), w.next, e.r, o.self.row, e.jobId);
  }

  ghost predicate WaitsOnlyFor(rows: Rows, r: Ref, job: nat) {
    && r in rows && rows[r].ObjectRow?
    && rows[r].lastJob == Some(job) && rows[r].ignoreCache && rows[r].pendingDelete
    && JobsOf(rows, r) == {Job(job)}
  }

  lemma DoomedRows(cleared: Rows, next: nat, r: Ref, row: Row, jobId: int)
    requires r.Vm? && row.ObjectRow? && JobsOf(cleared, r) == {}
    ensures var noted := cleared[Job(next) := JobRow(HomeOf(r, row), jobId, r)];
            WaitsOnlyFor(noted[r := PendingDeletion(row, next)], r, next)
  {
  }

  // ---- Until the deletion is reported ----

  /** The server says that the one job is still under way. */
  predicate Undecided(v: Visit) {
    |v.replies| == 1 && Informative(v.replies[0]) && !Finished(v.replies[0].info.status)
  }

  /** An undecided poll changes nothing, and no refresh after it writes the flags. */
  lemma UndecidedLoad(w: World, r: Ref, v: Visit, job: nat)
    requires Inv(w) && VisitOk(w, r, v) && Undecided(v) && r.Vm? && WaitsOnlyFor(w.rows, r, job)
    ensures var o := LoadIn(w, r, v);
            && WaitsOnlyFor(o.rows, r, job) && o.self.live
            && o.self.row.ObjectRow? && WaitsOnlyFor(o.rows[r := o.self.row], r, job)
  {
    var row := w.rows[r];
    assert Job(job) in JobsOf(w.rows, r);
    TheOnlyJob(w.rows, r, v.jobs, job);
    UndecidedPoll(w.rows, r, row, job, v.replies);
    RefetchKeepsWaiting(w.rows, r, v, w.now, job);
    assert w.rows[r := row] == w.rows;
    assert Expired(row, w.now);
    hide Inv, VisitOk, Refetch, CheckJobs, WaitsOnlyFor, Undecided;
  }

  lemma RefetchKeepsWaiting(rows: Rows, r: Ref, v: Visit, now: int, job: nat)
    requires r.Vm? && WaitsOnlyFor(rows, r, job)
    ensures var o := Refetch(Progress(rows, true, map[], false), r, rows[r], v, now);
            && WaitsOnlyFor(o.rows, r, job) && o.self.live
            && o.self.row.ObjectRow? && WaitsOnlyFor(o.rows[r := o.self.row], r, job)
  {
    var p := Progress(rows, true, map[], false);
    assert Apply(rows[r], map[]) == rows[r];
    hide Refetch, JobsOf, Apply;
    RefetchShape(p, r, rows[r], v, now);
    var o := Refetch(p, r, rows[r], v, now);
    SameFlags(rows, r, o.rows[r], job);
    SameFlags(rows, r, o.self.row, job);
    hide WaitsOnlyFor;
    assert o.rows[r := o.self.row] == rows[r := o.self.row];
  }

  lemma UndecidedPoll(rows: Rows, r: Ref, row: Row, job: nat, replies: seq<Reply>)
    requires row.ObjectRow? && |replies| == 1 && Informative(replies[0]) && !Finished(replies[0].info.status)
    ensures CheckJobs(rows, r, row, [job], replies) == Progress(rows, true, map[], false)
  {
    assert Poll(rows, r, row, [job], replies, 0) == Progress(rows, true, map[], false);
    assert Effective(replies, 1) == Effect(replies[0].info.status, ParseOp(replies[0].info));
    assert Poll(rows, r, row, [job], replies, 1) == Progress(rows, true, map[], false);
  }

  lemma SameFlags(rows: Rows, r: Ref, row: Row, job: nat)
    requires r.Vm? && WaitsOnlyFor(rows, r, job) && row.ObjectRow?
    requires row.lastJob == rows[r].lastJob && row.ignoreCache == rows[r].ignoreCache
    requires row.pendingDelete == rows[r].pendingDelete
    ensures WaitsOnlyFor(rows[r := row], r, job)
  {
    assert forall j :: j in JobsOf(rows[r := row], r) <==> j in JobsOf(rows, r);
  }

  lemma UntouchedWaits(before: Rows, after: Rows, r: Ref, job: nat)
    requires WaitsOnlyFor(before, r, job) && Untouched(before, after, r) && r in after && Pending(after)
    ensures WaitsOnlyFor(after, r, job)
  {
    assert PendingRow(after, r, after[r]);
    assert forall j :: j in JobsOf(after, r) ==> j in JobsOf(before, r);
  }

  /** Until the deletion is reported the run visits or saves the machine only while its job is
      under way, or in requests that come to nothing; it starts no other job for it, and
      does not take it out otherwise. */
  ghost predicate Undisturbed(w: World, es: seq<Event>, r: Ref)
    requires Inv(w) && Possible(w, es)
    decreases |es|
  {
    es == [] ||
    (&& (if Loads(w, es[0], r) then Exec(w, es[0]) == w || ((es[0].Visiting? || es[0].Save?) && Undecided(es[0].v))
         else !Starts(es[0], r) && !TakesOut(w, es[0], r))
     && (StepKeepsInv(w, es[0]); Undisturbed(Exec(w, es[0]), es[1..], r)))
  }

  lemma UndecidedStep(w: World, e: Event, r: Ref, job: nat)
    requires Inv(w) && Enabled(w, e) && Loads(w, e, r) && (e.Visiting? || e.Save?) && Undecided(e.v)
    requires r.Vm? && WaitsOnlyFor(w.rows, r, job)
    ensures WaitsOnlyFor(Exec(w, e).rows, r, job)
  {
    UndecidedLoad(w, r, e.v, job);
    hide Inv, VisitOk, LoadIn, WaitsOnlyFor, SaveDies, Undecided;
  }

  lemma {:induction false} WaitsThroughRun(w: World, es: seq<Event>, r: Ref, job: nat)
    requires Inv(w) && Possible(w, es) && Undisturbed(w, es, r) && r.Vm? && WaitsOnlyFor(w.rows, r, job)
    ensures WaitsOnlyFor(Run(w, es).rows, r, job)
    decreases |es|
  {
    if es != [] {
      var e := es[0];
      StepKeepsInv(w, e);
      if !Loads(w, e, r) {
        RowsLostExactly(w, e, r);
        OthersLeaveUntouched(w, e, r);
        UntouchedWaits(w.rows, Exec(w, e).rows, r, job);
      } else if Exec(w, e) != w {
        UndecidedStep(w, e, r, job);
      }
      WaitsThroughRun(Exec(w, e), es[1..], r, job);
    }
  }

  ghost predicate ReportsRemoval(v: Visit) {
    |v.replies| > 0 && Informative(v.replies[0])
    && Effect(v.replies[0].info.status, ParseOp(v.replies[0].info)) == Effect(SUCCESS, REMOVE)
  }

  /** The world after a request. */
  ghost function After(w: World, e: Event): (after: World)
    requires Inv(w) && Enabled(w, e)
    ensures Inv(after)
  {
    StepKeepsInv(w, e);
    Exec(w, e)
  }

  /** However long the job takes, and whatever is done to other objects meanwhile, the
      first poll that sees the deletion succeed takes out the machine and its job, and the
      rest of the refresh writes nothing at all, whatever else the server says. */
  lemma DeletionCompletes(w: World, e: Event, es: seq<Event>, v: Visit)
    requires Inv(w) && Enabled(w, e) && e.Destroy? && Doomed(w, e)
    requires Possible(After(w, e), es) && Undisturbed(After(w, e), es, e.r)
    requires VisitOk(Run(After(w, e), es), e.r, v) && ReportsRemoval(v)
    ensures var before := Run(After(w, e), es);
            Inv(before) && Exec(before, Visiting(e.r, v)).rows == before.rows - {e.r, Job(w.next)}
  {
    AfterDoomed(w, e);
    hide After, Run, Exec, Inv, Enabled, VisitOk, Doomed, WaitsOnlyFor, ReportsRemoval, Undisturbed, Possible;
    var start := After(w, e);
    RunKeepsInv(start, es);
    WaitsThroughRun(start, es, e.r, w.next);
    VisitCompletes(Run(start, es), e.r, v, w.next);
  }

  lemma AfterDoomed(w: World, e: Event)
    requires Inv(w) && Enabled(w, e) && e.Destroy? && Doomed(w, e)
    ensures e.r.Vm? && WaitsOnlyFor(After(w, e).rows, e.r, w.next)
  {
    DoomedState(w, e);
  }

  lemma VisitCompletes(w: World, r: Ref, v: Visit, job: nat)
    requires Inv(w) && VisitOk(w, r, v) && ReportsRemoval(v) && r.Vm? && WaitsOnlyFor(w.rows, r, job)
    ensures Exec(w, Visiting(r, v)).rows == w.rows - {r, Job(job)}
  {
    OneJobPolled(w, r, v, job);
    hide Inv, VisitOk, LoadIn, WaitsOnlyFor, ReportsRemoval;
  }

  lemma OneJobPolled(w: World, r: Ref, v: Visit, job: nat)
    requires Inv(w) && VisitOk(w, r, v) && ReportsRemoval(v) && r.Vm?
    requires WaitsOnlyFor(w.rows, r, job)
    ensures LoadIn(w, r, v).rows == w.rows - {r, Job(job)}
  {
    assert Job(job) in JobsOf(w.rows, r);
    TheOnlyJob(w.rows, r, v.jobs, job);
    OneJobChecked(w.rows, r, w.rows[r], job, v.replies);
    assert w.rows[r].ObjectRow?;
    hide Inv, VisitOk, Refetch, CheckJobs, JobsOf, ReportsRemoval;
    var p := CheckJobs(w.rows, r, w.rows[r], v.jobs, v.replies);
    RefetchWithoutKey(p, r, w.rows[r], v, w.now);
    RefetchRaisesIff(p, r, w.rows[r], v, w.now);
  }

  lemma OneJobChecked(rows: Rows, r: Ref, row: Row, job: nat, replies: seq<Reply>)
    requires Typed(rows) && Pending(rows) && r.Vm? && Job(job) in JobsOf(rows, r)
    requires row.ObjectRow? && row.lastJob.Some? && |replies| == 1 && Informative(replies[0])
    requires Effect(replies[0].info.status, ParseOp(replies[0].info)) == Effect(SUCCESS, REMOVE)
    ensures CheckJobs(rows, r, row, [job], replies) == Progress(rows - {r, Job(job)}, false, STOP_WAITING, false)
  {
    RemoveSelf(rows, r, job);
    PollOnce(rows, r, row, job, replies);
    hide Poll, Delete, Settled;
    assert map[] + STOP_WAITING == STOP_WAITING;
  }

  lemma TheOnlyJob(rows: Rows, r: Ref, jobs: seq<nat>, job: nat)
    requires JobList(rows, r, jobs) && JobsOf(rows, r) == {Job(job)} && job in jobs
    ensures jobs == [job]
  {
    var second := if |jobs| > 1 then jobs[1] else job + 1;
    assert second != jobs[0];
    forall i | 0 <= i < |jobs|
      ensures jobs[i] == job
    {
      assert Job(jobs[i]) in JobsOf(rows, r);
    }
  }

  lemma PollOnce(rows: Rows, r: Ref, row: Row, job: nat, replies: seq<Reply>)
    requires row.ObjectRow? && r.Vm? && |replies| == 1 && Informative(replies[0])
    requires Effect(replies[0].info.status, ParseOp(replies[0].info)) == Effect(SUCCESS, REMOVE)
    ensures Poll(rows, r, row, [job], replies, 1) ==
              Progress(Delete(Delete(rows, {r}), {Job(job)}), false, map[], false)
    ensures Settled(replies)
  {
  }

  // ---- A machine that comes back ----

  /** Clearing a job inserts a row for a removed machine exactly when the load of
      that very request removes it, by another job than the one cleared, which the machine
      waited for, the last job polled is still under way, and the tag calls go through. */
  lemma RevivesExactly(w: World, e: Event)
    requires Inv(w) && Enabled(w, e) && e.Clear?
    ensures var target := w.rows[Job(e.job)].target;
            Vm(w.next) in Exec(w, e).rows <==>
              && target in w.rows && RemovedBy(w, target, e.v)
              && !Settled(e.v.replies)
              && w.rows[target].lastJob == Some(e.job)
              && Job(e.job) !in Lost(w, target, e.v)
              && Saves(target, w.rows[target], e.tagged)
  {
    hide Inv, VisitOk, LoadIn, ClearReady, Cleared, RemovedBy, Lost, Settled, Saves, Revives, ClearDies, Collect;
    var target := w.rows[Job(e.job)].target;
    NextIsFree(w);
    if target in w.rows {
      VisitedIsObject(w, target, e.v);
      RevivesFromLoad(w, target, e);
      if !ClearDies(LoadIn(w, target, e.v), e.job, target, e.tagged) {
        ClearedReady(w, target, e);
      }
    }
  }

  lemma RevivesFromLoad(w: World, target: Ref, e: Event)
    requires Inv(w) && e.Clear? && Enabled(w, e) && target == w.rows[Job(e.job)].target && target in w.rows
    ensures var o := LoadIn(w, target, e.v);
            o.self.row.ObjectRow? &&
            (!ClearDies(o, e.job, target, e.tagged) && Revives(o, e.job) <==>
              && RemovedBy(w, target, e.v)
              && !Settled(e.v.replies)
              && w.rows[target].lastJob == Some(e.job)
              && Job(e.job) !in Lost(w, target, e.v)
              && Saves(target, w.rows[target], e.tagged))
  {
    LoadSound(w, target, e.v);
    LoadTakesOut(w, target, e.v, target);
    hide RowsSound, LoadIn, CachesCoherent, OrderedHistory, RemovedBy, Lost, Settled, MemoryOk, JobList,
      Honest, Revives,
      ClearDies;
    var o := LoadIn(w, target, e.v);
    assert Job(e.job) in o.rows <==> Job(e.job) !in Lost(w, target, e.v);
    if RemovedBy(w, target, e.v) {
      LoadWithoutKey(w, target, e.v);
      DetachedWithoutKey(o, target, w.rows[target], e, Settled(e.v.replies));
    } else {
      OnlyRemovedRevive(o, e.job);
    }
  }

  lemma OnlyRemovedRevive(o: Outcome, job: nat)
    requires o.self.live
    ensures !Revives(o, job)
  {
  }

  lemma DetachedWithoutKey(o: Outcome, target: Ref, before: Row, e: Event, settled: bool)
    requires e.Clear? && before.ObjectRow? && !o.raised && !o.self.live && o.self.row.ObjectRow?
    requires o.self.row.lastJob == (if settled then None else before.lastJob)
    requires o.self.row.cache.info == before.cache.info
    ensures !ClearDies(o, e.job, target, e.tagged) && Revives(o, e.job) <==>
              !settled && before.lastJob == Some(e.job) && Job(e.job) in o.rows && Saves(target, before, e.tagged)
  {
  }

  // ---- A machine lost to a cleared job ----

  const MACHINE := ObjectRow(0, "vm.example.org", Some(2), true, None, None, None, false, FRESH)
  const SHELTER := ObjectRow(0, "cluster.example.org", None, false, None, None, None, false, FRESH)

  /** A cluster, a machine on it, and the job the machine waits for. */
  const WAITING := World(map[Cluster(0) := SHELTER, Vm(1) := MACHINE, Job(2) := JobRow(0, 7, Vm(1))], 3, 0, map[], {})

  /** The server answers nothing at all. */
  const SILENCE := Visit([2], [Failed(502)], None, 502, false, None, None, false, false)

  lemma WaitingIsSound()
    ensures Inv(WAITING) && VisitOk(WAITING, Vm(1), SILENCE)
  {
    WaitingRows();
    hide RowsSound;
    assert forall r :: OrderedHistory(History(WAITING, r), WAITING.now);
    assert JobsOf(WAITING.rows, Vm(1)) == {Job(2)};
  }

  lemma WaitingRows()
    ensures RowsSound(WAITING.rows)
  {
  }

  lemma SilentLoad()
    ensures LoadIn(WAITING, Vm(1), SILENCE) ==
              Outcome(WAITING.rows, Loaded(true, Apply(MACHINE, STOP_WAITING), true), false)
  {
    var rows := WAITING.rows;
    assert Poll(rows, Vm(1), MACHINE, SILENCE.jobs, SILENCE.replies, 0) == Progress(rows, true, map[], false);
    assert Effective(SILENCE.replies, 0) == NOTHING_KNOWN;
    assert Effective(SILENCE.replies, 1) == NOTHING_KNOWN;
    assert map[PendingDelete := False] + STOP_WAITING ==
           map[PendingDelete := False, IgnoreCache := False, LastJob := Null];
  }

  lemma SilentMismatch()
    ensures var o := LoadIn(WAITING, Vm(1), SILENCE);
            o.self.row.ObjectRow? && Mismatch(o, Vm(1), 2)
  {
    SilentLoad();
    hide LoadIn;
  }

  /** Clearing a pending job while the server cannot be reached deletes the
      machine's row, although no job removed the machine. */
  lemma ClearingInSilenceLosesTheMachine()
    ensures Inv(WAITING) && Enabled(WAITING, Clear(2, SILENCE, false))
    ensures Vm(1) in WAITING.rows && Vm(1) !in Exec(WAITING, Clear(2, SILENCE, false)).rows
  {
    WaitingIsSound();
    SilentMismatch();
    var w, e := WAITING, Clear(2, SILENCE, false);
    hide RowsSound, CachesCoherent, OrderedHistory, LoadIn, Cleared, ClearReady;
    ClearLoadReady(w, e);
    ClearedSound(LoadIn(w, Vm(1), SILENCE), w.next, Vm(1), 2);
  }

  // ---- Two jobs in one poll ----

  const DOOMED := MACHINE.(lastJob := Some(3), pendingDelete := true)

  /** The machine is pending deletion, and waits for a job started after that one. */
  const PAIR := World(map[Cluster(0) := SHELTER, Vm(1) := DOOMED,
                          Job(2) := JobRow(0, 7, Vm(1)), Job(3) := JobRow(0, 8, Vm(1))], 4, 0, map[], {})

  const REMOVED := Answer(JobInfo(SUCCESS, Some(["OP_INSTANCE_REMOVE"]), None))
  const RUNNING := Answer(JobInfo(Some("running"), Some(["OP_INSTANCE_REBOOT"]), None))
  const ARCHIVED := Failed(404)

  /** The server answers about both jobs, but not about the machine. */
  function Both(first: Reply, second: Reply): Visit {
    Visit([2, 3], [first, second], None, 502, false, None, None, true, false)
  }

  lemma PairIsSound(first: Reply, second: Reply)
    ensures Inv(PAIR) && VisitOk(PAIR, Vm(1), Both(first, second)) && Polls(PAIR, Vm(1))
  {
    PairRows();
    hide RowsSound;
    assert forall r :: OrderedHistory(History(PAIR, r), PAIR.now);
    assert JobsOf(PAIR.rows, Vm(1)) == {Job(2), Job(3)};
  }

  lemma PairRows()
    ensures RowsSound(PAIR.rows)
  {
  }

  lemma TwoReplies(first: Reply, second: Reply)
    ensures var replies := [first, second];
            && Effective(replies, 0) == NOTHING_KNOWN
            && Effective(replies, 1) ==
                 (if Informative(first) then Effect(first.info.status, ParseOp(first.info)) else NOTHING_KNOWN)
            && Effective(replies, 2) ==
                 (if Informative(second) then Effect(second.info.status, ParseOp(second.info))
                  else Effective(replies, 1))
            && Removals(Vm(1), replies, 2) ==
                 (if RemovalAt(Vm(1), replies, 1) then 1 else 0) + (if RemovalAt(Vm(1), replies, 2) then 1 else 0)
  {
    var replies := [first, second];
    assert Removals(Vm(1), replies, 0) == 0;
    assert Removals(Vm(1), replies, 1) == if RemovalAt(Vm(1), replies, 1) then 1 else 0;
  }

  /** The first job removes the machine, the second one is still under way. */
  lemma RemovedWhileRunning()
    ensures var v := Both(REMOVED, RUNNING);
            && Inv(PAIR) && VisitOk(PAIR, Vm(1), v) && RemovedBy(PAIR, Vm(1), v)
            && Lost(PAIR, Vm(1), v) == {Vm(1), Job(2)} && !Settled(v.replies)
  {
    var v := Both(REMOVED, RUNNING);
    PairIsSound(REMOVED, RUNNING);
    TwoReplies(REMOVED, RUNNING);
    assert v.replies == [REMOVED, RUNNING];
    assert !SawUnknown(Vm(1), v.replies, 2);
    assert RemovedBy(PAIR, Vm(1), v);
    assert FirstRemoval(Vm(1), v.replies, 2) == 0;
  }

  /** A machine that comes back: the first job removed it, the one being cleared is
      still under way. */
  lemma ClearingRevivesTheMachine()
    ensures Inv(PAIR) && Enabled(PAIR, Clear(3, Both(REMOVED, RUNNING), true))
    ensures var after := Exec(PAIR, Clear(3, Both(REMOVED, RUNNING), true)).rows;
            Vm(1) !in after && Vm(4) in after
  {
    var w, v := PAIR, Both(REMOVED, RUNNING);
    RemovedWhileRunning();
    hide Inv, VisitOk, LoadIn, RemovedBy, LoadDies, Lost, Settled;
    RevivesExactly(w, Clear(3, v, true));
    RowsLostExactly(w, Clear(3, v, true), Vm(1));
  }

  /** A machine that no visit removes: the second job is archived, inherits the first one's
      removal, and the visit dies. */
  lemma ArchivedJobBlocksTheRemoval()
    ensures Inv(PAIR) && Enabled(PAIR, Visiting(Vm(1), Both(REMOVED, ARCHIVED)))
    ensures Exec(PAIR, Visiting(Vm(1), Both(REMOVED, ARCHIVED))) == PAIR
  {
    var v := Both(REMOVED, ARCHIVED);
    PairIsSound(REMOVED, ARCHIVED);
    TwoReplies(REMOVED, ARCHIVED);
    assert v.replies == [REMOVED, ARCHIVED];
    DyingLoadChangesNothing(PAIR, Visiting(Vm(1), v), Vm(1));
  }

  /** A removal rolled back: the archived first job ends the pending deletion, the second one
      removes the machine, and the server's silence about it cannot be stored. */
  lemma UnstorableErrorUndoesTheRemoval()
    ensures Inv(PAIR) && Enabled(PAIR, Visiting(Vm(1), Both(ARCHIVED, REMOVED)))
    ensures Removals(Vm(1), Both(ARCHIVED, REMOVED).replies, 2) == 1
    ensures Exec(PAIR, Visiting(Vm(1), Both(ARCHIVED, REMOVED))) == PAIR
  {
    var v := Both(ARCHIVED, REMOVED);
    PairIsSound(ARCHIVED, REMOVED);
    TwoReplies(ARCHIVED, REMOVED);
    assert v.replies == [ARCHIVED, REMOVED];
    assert UnknownAt(v.replies, 1);
    assert SawUnknown(Vm(1), v.replies, 2);
    DyingLoadChangesNothing(PAIR, Visiting(Vm(1), v), Vm(1));
  }

  /** A broken pairing: giving the machine an owner with a save that need not update inserts
      a row that waits for a job of the removed one. */
  lemma PlainSaveBreaksThePairing()
    ensures Inv(PAIR) && VisitOk(PAIR, Vm(1), Both(REMOVED, RUNNING))
    ensures var after := SaveStep(PAIR, Save(Vm(1), Both(REMOVED, RUNNING), true, false));
            && !Inv(after)
            && Vm(1) !in after.rows && Vm(4) in after.rows && after.rows[Vm(4)].ObjectRow?
            && after.rows[Vm(4)].lastJob == Some(3)
            && Job(3) in after.rows && after.rows[Job(3)] == JobRow(0, 8, Vm(1))
  {
    var w, v := PAIR, Both(REMOVED, RUNNING);
    var e := Save(Vm(1), v, true, false);
    RemovedWhileRunning();
    SaveKeepsInvIff(w, e);
    SaveRemovedIff(w, e);
    LoadSound(w, Vm(1), v);
    hide Inv, VisitOk, LoadIn, RemovedBy, Lost, Settled, MemoryOk, RowsSound;
  }

  // ---- A machine that comes back with a false stamp ----

  const OLD := VmInfo(Some(1), 512, 1, [], "os", "running")
  const NEW := VmInfo(Some(2), 1024, 2, [], "os", "running")

  /** The same machine, not pending deletion, with metadata the server has replaced since. */
  const OUTDATED := World(
    PAIR.rows[Vm(1) := DOOMED.(pendingDelete := false, cache := Cache(Some(OLD), Some(1), Some(1), FieldsOf(OLD)))],
    4, 3, map[Vm(1) := [Version(0, OLD), Version(2, NEW)]], {})

  /** The server answers about the jobs, and still about the machine. */
  const ANSWERED := Both(REMOVED, RUNNING).(answer := Some(NEW))

  lemma OutdatedIsSound()
    ensures Inv(OUTDATED) && VisitOk(OUTDATED, Vm(1), ANSWERED) && Polls(OUTDATED, Vm(1))
  {
    OutdatedRows();
    OutdatedHistories();
    hide RowsSound, OrderedHistory;
    assert CurrentVersion(History(OUTDATED, Vm(1)), 1, OLD, 0);
    assert JobsOf(OUTDATED.rows, Vm(1)) == {Job(2), Job(3)};
  }

  lemma OutdatedRows()
    ensures RowsSound(OUTDATED.rows)
  {
    PairRows();
    var row := OUTDATED.rows[Vm(1)];
    assert MemoryOk(PAIR.rows, Vm(1), row);
    hide RowsSound;
    StoreOk(PAIR.rows, Vm(1), row);
  }

  lemma OutdatedHistories()
    ensures forall r :: OrderedHistory(History(OUTDATED, r), OUTDATED.now)
    ensures !WasCurrent(History(OUTDATED, Vm(1)), OUTDATED.now, OLD)
  {
  }

  /** Clearing the job inserts the machine with its old metadata, stamped as of now, so that
      it is served as fresh although the server had replaced them before. */
  lemma RevivedMachineIsMisdated()
    ensures Inv(OUTDATED) && Enabled(OUTDATED, Clear(3, ANSWERED, true))
    ensures var after := Exec(OUTDATED, Clear(3, ANSWERED, true));
            && Vm(4) in after.rows && after.rows[Vm(4)].ObjectRow?
            && after.rows[Vm(4)].cache.info == Some(OLD) && after.rows[Vm(4)].cache.cached == Some(after.now)
            && Vm(4) in after.misdated && !Coherent(after.rows[Vm(4)].cache, History(after, Vm(4)), after.now)
  {
    var w, v := OUTDATED, ANSWERED;
    var e := Clear(3, v, true);
    OutdatedIsSound();
    OutdatedHistories();
    TwoReplies(REMOVED, RUNNING);
    assert v.replies == [REMOVED, RUNNING];
    assert RemovedBy(w, Vm(1), v);
    assert FirstRemoval(Vm(1), v.replies, 2) == 0;
    assert Lost(w, Vm(1), v) == {Vm(1), Job(2)};
    assert !Settled(v.replies);
    assert LooksUp(w, Vm(1), v) && Misdated(w, Vm(1), v);
    hide Inv, VisitOk, LoadIn, RemovedBy, LoadDies, Lost, Settled, LooksUp, Misdated, WasCurrent;
    RevivesFromLoad(w, Vm(1), e);
    RevivedRow(w, e);
  }

  /** The row that a clear inserts holds what was in memory. */
  lemma RevivedRow(w: World, e: Event)
    requires Inv(w) && Enabled(w, e) && e.Clear? && w.rows[Job(e.job)].target in w.rows
    requires RemovedBy(w, w.rows[Job(e.job)].target, e.v)
    requires var o := LoadIn(w, w.rows[Job(e.job)].target, e.v);
             !ClearDies(o, e.job, w.rows[Job(e.job)].target, e.tagged) && Revives(o, e.job)
    ensures var target, after := w.rows[Job(e.job)].target, Exec(w, e);
            && Vm(w.next) in after.rows && after.rows[Vm(w.next)].ObjectRow?
            && after.now == w.now && History(after, Vm(w.next)) == History(w, target)
            && after.rows[Vm(w.next)].cache ==
                 (if LooksUp(w, target, e.v) && e.v.answer.Some?
                  then w.rows[target].cache.(cached := Some(w.now)) else w.rows[target].cache)
            && (target !in w.misdated ==> (Vm(w.next) in after.misdated <==>
                                             Vm(w.next) in w.misdated || Misdated(w, target, e.v)))
            && (target !in w.misdated ==>
                  (Coherent(after.rows[Vm(w.next)].cache, History(after, Vm(w.next)), w.now) <==>
                     !Misdated(w, target, e.v)))
  {
    hide Inv, VisitOk, LoadIn, RemovedBy, ClearReady, Cleared, Revives, LooksUp, Misdated, Coherent, ClearDies;
    var target := w.rows[Job(e.job)].target;
    VisitedIsObject(w, target, e.v);
    ClearedReady(w, target, e);
    LoadWithoutKey(w, target, e.v);
    if target !in w.misdated {
      RemovedCoherentIff(w, target, e.v);
    }
  }
}
