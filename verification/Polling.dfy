/** Polling the pending jobs of a cached object. */
module Polling {
  import opened Wrappers
  import opened JobReplies
  import opened Database

  const CREATE := Some("OP_INSTANCE_CREATE")
  const REMOVE := Some("OP_INSTANCE_REMOVE")

  // ---- The dictionary of updates ----

  datatype Attr = PendingDelete | Deleted | TemplateLink | IgnoreCache | LastJob
  datatype Value = False | True | Null

  type Updates = map<Attr, Value>

  /** Sets the attributes named in `u` on a row. */
  function Apply(row: Row, u: Updates): (after: Row)
    requires row.ObjectRow?
    ensures after.ObjectRow? && after.cache == row.cache
  {
    row.(pendingDelete := if PendingDelete in u then false else row.pendingDelete,
         template := if TemplateLink in u then None else row.template,
         ignoreCache := if IgnoreCache in u then false else row.ignoreCache,
         lastJob := if LastJob in u then None else row.lastJob)
  }

  // ---- What one job means ----

  /** The status and operation the loop holds after looking at some replies. */
  datatype Effect = Effect(status: Option<string>, op: Option<string>)

  const NOTHING_KNOWN := Effect(UNKNOWN, None)

  predicate Informative(reply: Reply) {
    reply.Answer? && ValidJob(reply.info)
  }

  /** A job whose reply is missing or void inherits from the job before it. */
  function Effective(replies: seq<Reply>, n: nat): Effect
    requires n <= |replies|
  {
    if n == 0 then NOTHING_KNOWN
    else if Informative(replies[n - 1]) then Effect(replies[n - 1].info.status, ParseOp(replies[n - 1].info))
    else Effective(replies, n - 1)
  }

  predicate Finished(status: Option<string>) {
    Final(status) || status == UNKNOWN
  }

  /** The updates a virtual machine's finished job asks for; nodes and clusters ask for none. */
  function Completion(self: Ref, e: Effect): Updates {
    if !self.Vm? || !Finished(e.status) then map[]
    else if e.status == UNKNOWN then map[PendingDelete := False]
    else if e.op == REMOVE then (if e.status == SUCCESS then map[Deleted := True] else map[])
    else if e.op == CREATE && e.status == SUCCESS then map[TemplateLink := Null]
    else map[]
  }

  /** Only a finished job asks for updates, and never for a deletion along with others. */
  lemma OneCompletion(self: Ref, e: Effect)
    ensures Completion(self, e) != map[] ==> Finished(e.status)
    ensures !(Deleted in Completion(self, e) && TemplateLink in Completion(self, e))
  {
  }

  predicate Removes(self: Ref, e: Effect) {
    self.Vm? && e.status == Some("success") && e.op == Some("OP_INSTANCE_REMOVE")
  }

  predicate Creates(self: Ref, e: Effect) {
    self.Vm? && e.status == Some("success") && e.op == Some("OP_INSTANCE_CREATE")
  }

  // ---- Completing a creation ----

  predicate Named(r: Ref, row: Row, cluster: nat, hostname: string) {
    r.Vm? && row.ObjectRow? && row.cluster == cluster && row.hostname == hostname
  }

  function ForgetTemplate(rows: Rows, cluster: nat, hostname: string): Rows {
    map r | r in rows ::
      if Named(r, rows[r], cluster, hostname) then rows[r].(template := None) else rows[r]
  }

  /** The templates some virtual machine of that name was made from. */
  function TemplatesOf(rows: Rows, cluster: nat, hostname: string): set<Ref> {
    set r | r in rows && Named(r, rows[r], cluster, hostname) && rows[r].template.Some? ::
      Template(rows[r].template.value)
  }

  function FinishCreation(rows: Rows, cluster: nat, hostname: string): Rows {
    var forgotten := ForgetTemplate(rows, cluster, hostname);
    Delete(forgotten, TemplatesOf(forgotten, cluster, hostname))
  }

  /** The template is looked for after the link to it is gone, so it stays, and
      so does every other row; the machines of that name on that cluster lose the link. */
  lemma CreationDeletesNothing(rows: Rows, cluster: nat, hostname: string)
    ensures FinishCreation(rows, cluster, hostname) == ForgetTemplate(rows, cluster, hostname)
    ensures FinishCreation(rows, cluster, hostname) == OnlyForgotten(rows, cluster, hostname)
  {
  }

  function OnlyForgotten(rows: Rows, cluster: nat, hostname: string): Rows {
    map r | r in rows ::
      match rows[r]
      case ObjectRow(c, h, lastJob, ignoreCache, template, primary, secondary, pendingDelete, cache) =>
        ObjectRow(c, h, lastJob, ignoreCache, if r.Vm? && c == cluster && h == hostname then None else template,
                  primary, secondary, pendingDelete, cache)
      case other => other
  }

  // ---- The loop over the jobs ----

  /** How far a poll has come: the database, whether the polled object still
      has its primary key, the merged updates, and whether an exception is out. */
  datatype Progress = Progress(rows: Rows, live: bool, updates: Updates, raised: bool)

  /** The `n`th job, given the progress made before it.  The second removal in
      one poll fails because the object has no primary key any more. */
  function Advance(p: Progress, self: Ref, row: Row, job: nat, e: Effect): Progress
    requires row.ObjectRow?
  {
    var got := Completion(self, e);
    if p.raised then p
    else if Deleted in got then
      if p.live then p.(rows := Delete(Delete(p.rows, {self}), {Job(job)}), live := false)
      else p.(raised := true)
    else
      p.(rows := if TemplateLink in got then FinishCreation(p.rows, row.cluster, row.hostname) else p.rows,
         updates := p.updates + got)
  }

  function Poll(rows: Rows, self: Ref, row: Row, jobs: seq<nat>, replies: seq<Reply>, n: nat): Progress
    requires row.ObjectRow?
    requires n <= |jobs| == |replies|
  {
    if n == 0 then Progress(rows, true, map[], false)
    else Advance(Poll(rows, self, row, jobs, replies, n - 1), self, row, jobs[n - 1], Effective(replies, n))
  }

  /** Only the very last job decides whether the object stops waiting. */
  predicate Settled(replies: seq<Reply>) {
    Finished(Effective(replies, |replies|).status)
  }

  const STOP_WAITING: Updates := map[IgnoreCache := False, LastJob := Null]

  function CheckJobs(rows: Rows, self: Ref, row: Row, jobs: seq<nat>, replies: seq<Reply>): Progress
    requires row.ObjectRow?
    requires |jobs| == |replies|
  {
    if row.lastJob.None? then Progress(rows, true, map[], false)
    else
      var p := Poll(rows, self, row, jobs, replies, |jobs|);
      if !p.raised && Settled(replies) then p.(updates := p.updates + STOP_WAITING) else p
  }

  // ---- What a poll amounts to ----

  /** `i` is the last informative one among the first `n` replies. */
  ghost predicate LastInformative(replies: seq<Reply>, n: nat, i: int)
    requires n <= |replies|
  {
    0 <= i < n && Informative(replies[i]) && forall k :: i < k < n ==> !Informative(replies[k])
  }

  /** The effect in force is that of the last informative reply so far. */
  lemma {:induction false} EffectiveIsLastInformative(replies: seq<Reply>, n: nat)
    requires n <= |replies|
    ensures (forall i :: 0 <= i < n ==> !Informative(replies[i])) ==> Effective(replies, n) == NOTHING_KNOWN
    ensures forall i :: LastInformative(replies, n, i) ==>
              Effective(replies, n) == Effect(replies[i].info.status, ParseOp(replies[i].info))
  {
    if n > 0 {
      EffectiveIsLastInformative(replies, n - 1);
      forall i | LastInformative(replies, n, i)
        ensures Effective(replies, n) == Effect(replies[i].info.status, ParseOp(replies[i].info))
      {
        if i < n - 1 {
          assert !Informative(replies[n - 1]) && LastInformative(replies, n - 1, i);
        }
      }
    }
  }

  /** How many of the first `n` jobs count as a successful removal. */
  function Removals(self: Ref, replies: seq<Reply>, n: nat): nat
    requires n <= |replies|
  {
    if n == 0 then 0
    else Removals(self, replies, n - 1) + (if Removes(self, Effective(replies, n)) then 1 else 0)
  }

  /** The object's primary key goes with the first removal, and the second one raises. */
  lemma {:induction false} PollRemovals(rows: Rows, self: Ref, row: Row, jobs: seq<nat>, replies: seq<Reply>, n: nat)
    requires row.ObjectRow?
    requires n <= |jobs| == |replies|
    ensures var p := Poll(rows, self, row, jobs, replies, n);
            && (p.live <==> Removals(self, replies, n) == 0)
            && (p.raised <==> Removals(self, replies, n) >= 2)
  {
    hide FinishCreation, Delete;
    if n > 0 {
      PollRemovals(rows, self, row, jobs, replies, n - 1);
    }
  }

  predicate RemovalAt(self: Ref, replies: seq<Reply>, i: nat)
    requires i <= |replies|
  {
    Removes(self, Effective(replies, i))
  }

  /** The count says whether there is a removal, and whether there are two. */
  lemma {:induction false} RemovalsSeen(self: Ref, replies: seq<Reply>, n: nat)
    requires n <= |replies|
    ensures Removals(self, replies, n) >= 1 <==> exists i :: 0 < i <= n && RemovalAt(self, replies, i)
    ensures Removals(self, replies, n) >= 2 <==>
              exists i, j :: 0 < i < j <= n && RemovalAt(self, replies, i) && RemovalAt(self, replies, j)
  {
    if n > 0 {
      RemovalsSeen(self, replies, n - 1);
      assert RemovalAt(self, replies, n) <==> Removes(self, Effective(replies, n));
    }
  }

  /** A removal followed by a job without a usable reply counts twice. */
  lemma RemovalRepeats(self: Ref, replies: seq<Reply>, i: nat)
    requires i < |replies| && RemovalAt(self, replies, i) && !Informative(replies[i])
    ensures Removals(self, replies, |replies|) >= 2
  {
    RemovalsSeen(self, replies, |replies|);
    assert i > 0 && RemovalAt(self, replies, i + 1);
  }

  predicate UnknownAt(replies: seq<Reply>, i: nat)
    requires i <= |replies|
  {
    Effective(replies, i).status == Some("unknown")
  }

  predicate CreationAt(self: Ref, replies: seq<Reply>, i: nat)
    requires i <= |replies|
  {
    Creates(self, Effective(replies, i))
  }

  ghost predicate SawUnknown(self: Ref, replies: seq<Reply>, n: nat)
    requires n <= |replies|
  {
    self.Vm? && exists i :: 0 < i <= n && UnknownAt(replies, i)
  }

  ghost predicate SawCreation(self: Ref, replies: seq<Reply>, n: nat)
    requires n <= |replies|
  {
    exists i :: 0 < i <= n && CreationAt(self, replies, i)
  }

  /** One job's contribution to the merged updates. */
  lemma AdvanceUpdates(p: Progress, self: Ref, row: Row, job: nat, e: Effect)
    requires row.ObjectRow?
    ensures var u := Advance(p, self, row, job, e).updates;
            && (Deleted in u <==> Deleted in p.updates)
            && (IgnoreCache in u <==> IgnoreCache in p.updates)
            && (LastJob in u <==> LastJob in p.updates)
            && (PendingDelete in u <==> PendingDelete in p.updates || (!p.raised && self.Vm? && e.status == UNKNOWN))
            && (TemplateLink in u <==> TemplateLink in p.updates || (!p.raised && Creates(self, e)))
            && (forall a :: a in u && (a in p.updates ==>
                                         p.updates[a] == if a == PendingDelete then False else Null) ==>
                  u[a] == if a == PendingDelete then False else Null)
  {
  }

  /** The merged updates, attribute by attribute, without mentioning the merge. */
  lemma {:induction false} PollUpdates(rows: Rows, self: Ref, row: Row, jobs: seq<nat>, replies: seq<Reply>, n: nat)
    requires row.ObjectRow?
    requires n <= |jobs| == |replies|
    requires Removals(self, replies, n) < 2
    ensures var u := Poll(rows, self, row, jobs, replies, n).updates;
            && (PendingDelete in u <==> SawUnknown(self, replies, n))
            && (TemplateLink in u <==> SawCreation(self, replies, n))
            && Deleted !in u && IgnoreCache !in u && LastJob !in u
            && (forall a :: a in u ==> u[a] == if a == PendingDelete then False else Null)
  {
    hide Advance;
    if n > 0 {
      PollUpdates(rows, self, row, jobs, replies, n - 1);
      PollRemovals(rows, self, row, jobs, replies, n - 1);
      var e := Effective(replies, n);
      AdvanceUpdates(Poll(rows, self, row, jobs, replies, n - 1), self, row, jobs[n - 1], e);
      assert UnknownAt(replies, n) <==> e.status == UNKNOWN;
      assert CreationAt(self, replies, n) <==> Creates(self, e);
    }
  }

  /** The words that end a wait. */
  predicate Over(status: Option<string>) {
    status == Some("success") || status == Some("error") || status == Some("unknown")
  }

  /** The polled object stops waiting exactly when it has no jobs or the last effective
      status is success, error or unknown; both flags always change together. */
  lemma CheckJobsUpdates(rows: Rows, self: Ref, row: Row, jobs: seq<nat>, replies: seq<Reply>)
    requires row.ObjectRow? && row.lastJob.Some?
    requires |jobs| == |replies|
    requires Removals(self, replies, |replies|) < 2
    ensures var u := CheckJobs(rows, self, row, jobs, replies).updates;
            && (IgnoreCache in u <==> LastJob in u)
            && (LastJob in u <==> |jobs| == 0 || Over(Effective(replies, |replies|).status))
            && (PendingDelete in u <==> SawUnknown(self, replies, |jobs|))
            && (TemplateLink in u <==> SawCreation(self, replies, |jobs|))
            && Deleted !in u
            && (forall a :: a in u ==> u[a] == if a == PendingDelete || a == IgnoreCache then False else Null)
  {
    PollRemovals(rows, self, row, jobs, replies, |jobs|);
    PollUpdates(rows, self, row, jobs, replies, |jobs|);
  }

  /** What a poll of one job amounts to, by the words in the reply: an error ends the wait
      like a success, a canceled job or one under way changes nothing; only a removal takes
      rows out, and only a creation forgets a template. */
  lemma OneJobDecides(rows: Rows, self: Ref, row: Row, job: nat, status: string, ops: seq<string>,
                      endTs: Option<(nat, nat)>)
    requires row.ObjectRow? && row.lastJob.Some? && ops != []
    ensures var p := CheckJobs(rows, self, row, [job], [Answer(JobInfo(Some(status), Some(ops), endTs))]);
            var op := ops[|ops| - 1];
            var removes := self.Vm? && status == "success" && op == "OP_INSTANCE_REMOVE";
            var creates := self.Vm? && status == "success" && op == "OP_INSTANCE_CREATE";
            && !p.raised && p.live == !removes
            && p.rows == (if removes then Delete(Delete(rows, {self}), {Job(job)})
                          else if creates then OnlyForgotten(rows, row.cluster, row.hostname) else rows)
            && (LastJob in p.updates <==> status in {"success", "error", "unknown"})
            && (IgnoreCache in p.updates <==> status in {"success", "error", "unknown"})
            && (PendingDelete in p.updates <==> self.Vm? && status == "unknown")
            && (TemplateLink in p.updates <==> creates)
            && (status == "canceled" || status == "running" ==> p == Progress(rows, true, map[], false))
  {
    var replies := [Answer(JobInfo(Some(status), Some(ops), endTs))];
    assert Poll(rows, self, row, [job], replies, 0) == Progress(rows, true, map[], false);
    assert Effective(replies, 1) == Effect(Some(status), Some(ops[|ops| - 1]));
    CreationDeletesNothing(rows, row.cluster, row.hostname);
    hide Delete, FinishCreation, OnlyForgotten;
    assert Poll(rows, self, row, [job], replies, 1) ==
           Advance(Progress(rows, true, map[], false), self, row, job, Effect(Some(status), Some(ops[|ops| - 1])));
  }

  /** While no job removes it, the polled row changes in nothing but the link to its template,
      which goes with the first successful creation. */
  lemma {:induction false} PollForgets(rows: Rows, self: Ref, row: Row, jobs: seq<nat>, replies: seq<Reply>, n: nat)
    requires self in rows && rows[self] == row && row.ObjectRow? && n <= |jobs| == |replies|
    requires Removals(self, replies, n) == 0
    ensures var p := Poll(rows, self, row, jobs, replies, n);
            self in p.rows && p.rows[self] == if SawCreation(self, replies, n) then row.(template := None) else row
  {
    if n > 0 {
      PollForgets(rows, self, row, jobs, replies, n - 1);
      PollRemovals(rows, self, row, jobs, replies, n - 1);
      var before := Poll(rows, self, row, jobs, replies, n - 1);
      CreationDeletesNothing(before.rows, row.cluster, row.hostname);
      hide FinishCreation, Delete;
      assert CreationAt(self, replies, n) <==> Creates(self, Effective(replies, n));
    }
  }

  // ---- What a poll does to the database ----

  /** `after` is `before` without `gone`, except that some links to templates are dropped. */
  ghost predicate OnlyLost(before: Rows, after: Rows, gone: set<Ref>) {
    && after.Keys == before.Keys - gone
    && forall r :: r in after ==> after[r] == before[r] || (r.Vm? && after[r] == WithoutTemplate(before[r]))
  }

  function WithoutTemplate(row: Row): Row {
    if row.ObjectRow? then row.(template := None) else row
  }

  lemma OnlyLostKeeps(before: Rows, after: Rows, gone: set<Ref>)
    requires Typed(before) && Pending(before) && OnlyLost(before, after, gone)
    requires forall r :: r in after ==> ForeignKeys(r, before[r]) !! gone
    ensures Typed(after) && Pending(after)
    ensures Integrity(before) ==> Integrity(after)
  {
  }

  /** Which of the first `n` jobs brought the removal. */
  function FirstRemoval(self: Ref, replies: seq<Reply>, n: nat): nat
    requires n <= |replies| && Removals(self, replies, n) > 0
    ensures FirstRemoval(self, replies, n) < n
  {
    if Removals(self, replies, n - 1) > 0 then FirstRemoval(self, replies, n - 1) else n - 1
  }

  /** The rows a poll takes out: the object itself and the job that removed it, or nothing. */
  function Gone(self: Ref, jobs: seq<nat>, replies: seq<Reply>, n: nat): set<Ref>
    requires n <= |jobs| == |replies|
  {
    if Removals(self, replies, n) == 0 then {} else {self, Job(jobs[FirstRemoval(self, replies, n)])}
  }

  ghost predicate JobList(rows: Rows, self: Ref, jobs: seq<nat>) {
    Distinct(jobs) && forall i :: 0 <= i < |jobs| ==> Job(jobs[i]) in JobsOf(rows, self)
  }

  /** Whatever the server replies, a poll takes out no more than that, and the
      database stays sound. */
  lemma {:induction false} PollRows(rows: Rows, self: Ref, row: Row, jobs: seq<nat>, replies: seq<Reply>, n: nat)
    requires row.ObjectRow? && n <= |jobs| == |replies|
    requires Typed(rows) && Pending(rows) && JobList(rows, self, jobs)
    ensures var p := Poll(rows, self, row, jobs, replies, n);
            && OnlyLost(rows, p.rows, Gone(self, jobs, replies, n))
            && Typed(p.rows) && Pending(p.rows) && (Integrity(rows) ==> Integrity(p.rows))
  {
    hide Advance, OnlyLost, Typed, Pending, Integrity, JobsOf, Gone;
    GoneStep(self, jobs, replies, n);
    if n == 0 {
      NothingLost(rows);
    } else {
      PollRows(rows, self, row, jobs, replies, n - 1);
      PollRemovals(rows, self, row, jobs, replies, n - 1);
      GoneStep(self, jobs, replies, n - 1);
      AdvanceRows(rows, Poll(rows, self, row, jobs, replies, n - 1), Gone(self, jobs, replies, n - 1),
                  self, row, jobs[n - 1], Effective(replies, n));
    }
  }

  lemma NothingLost(rows: Rows)
    ensures OnlyLost(rows, rows, {})
  {
  }

  lemma GoneStep(self: Ref, jobs: seq<nat>, replies: seq<Reply>, n: nat)
    requires n <= |jobs| == |replies|
    ensures Gone(self, jobs, replies, n) ==
              if n == 0 then {}
              else if Removals(self, replies, n - 1) == 0 && Removes(self, Effective(replies, n))
              then {self, Job(jobs[n - 1])}
              else Gone(self, jobs, replies, n - 1)
    ensures Removals(self, replies, n) == 0 ==> Gone(self, jobs, replies, n) == {}
  {
  }

  /** One step of that: a removal takes out the live object and the job at hand. */
  lemma AdvanceRows(rows: Rows, p: Progress, gone: set<Ref>, self: Ref, row: Row, job: nat, e: Effect)
    requires row.ObjectRow?
    requires Job(job) in JobsOf(rows, self)
    requires OnlyLost(rows, p.rows, gone) && Typed(p.rows) && Pending(p.rows) && (Integrity(rows) ==> Integrity(p.rows))
    requires p.live ==> gone == {}
    ensures var q := Advance(p, self, row, job, e);
            && OnlyLost(rows, q.rows, if !p.raised && p.live && Removes(self, e) then {self, Job(job)} else gone)
            && Typed(q.rows) && Pending(q.rows) && (Integrity(rows) ==> Integrity(q.rows))
  {
    hide OnlyLost, Typed, Pending, Integrity, Delete, FinishCreation;
    var got := Completion(self, e);
    assert Deleted in got <==> Removes(self, e);
    if p.raised {
    } else if Deleted in got {
      if p.live {
        RemovalRows(rows, p.rows, self, job);
      }
    } else if TemplateLink in got {
      ForgetRows(rows, p.rows, gone, row.cluster, row.hostname);
    }
  }

  lemma RemovalRows(rows: Rows, now: Rows, self: Ref, job: nat)
    requires self.Vm? && Job(job) in JobsOf(rows, self)
    requires OnlyLost(rows, now, {}) && Typed(now) && Pending(now) && (Integrity(rows) ==> Integrity(now))
    ensures var after := Delete(Delete(now, {self}), {Job(job)});
            && OnlyLost(rows, after, {self, Job(job)})
            && Typed(after) && Pending(after) && (Integrity(rows) ==> Integrity(after))
  {
    hide Typed, Pending, Integrity, Delete;
    assert rows.Keys - {} == rows.Keys;
    RemoveSelf(now, self, job);
  }

  lemma ForgetRows(rows: Rows, now: Rows, gone: set<Ref>, cluster: nat, hostname: string)
    requires OnlyLost(rows, now, gone) && Typed(now) && Pending(now)
    ensures var after := FinishCreation(now, cluster, hostname);
            && OnlyLost(rows, after, gone)
            && Typed(after) && Pending(after) && (Integrity(now) ==> Integrity(after))
  {
    CreationDeletesNothing(now, cluster, hostname);
    var after := ForgetTemplate(now, cluster, hostname);
    OnlyLostKeeps(now, after, {});
    forall r | r in after
      ensures after[r] == rows[r] || (r.Vm? && after[r] == WithoutTemplate(rows[r]))
    {
      assert after[r] == now[r] || (r.Vm? && after[r] == WithoutTemplate(now[r]));
    }
  }

  /** Deleting a virtual machine and then one of its jobs takes out these two rows only. */
  lemma RemoveSelf(rows: Rows, self: Ref, job: nat)
    requires Typed(rows) && Pending(rows)
    requires self.Vm? && Job(job) in JobsOf(rows, self)
    ensures var after := Delete(Delete(rows, {self}), {Job(job)});
            && after == rows - {self, Job(job)}
            && Typed(after) && Pending(after) && (Integrity(rows) ==> Integrity(after))
  {
    NothingRefersToVm(rows, self.pk);
    DeleteExactly(rows, {self});
    DeleteKeepsPending(rows, {self});
    var without := Delete(rows, {self});
    DeletingJobs(without, self, {Job(job)});
    DeleteKeepsPending(without, {Job(job)});
    if Integrity(rows) {
      DeleteKeepsIntegrity(rows, {self});
      DeleteKeepsIntegrity(without, {Job(job)});
    }
    assert {Job(job)} + Waiting(without, self, {Job(job)}) == {Job(job)};
    assert rows - {self} - {Job(job)} == rows - {self, Job(job)};
  }
}
