/** Every request that touches the cached rows, as a step, and what any run of
    such steps keeps. */
module Requests {
  import opened Wrappers
  import opened RemoteInfo
  import opened Database
  import opened Polling
  import opened Caching
  import opened Coherence
  import opened Lifecycle

  /** What the server says when asked whether a machine still exists. */
  datatype Lookup = Found | Missing | Unreachable

  /** `tagged` says whether a save can settle the owner tags, `accepted` whether the
      server takes the job, `forced` whether a save must update. */
  datatype Event =
    | Tick(d: nat)
    | Publish(r: Ref, info: Info)
    | Visiting(r: Ref, v: Visit)
    | StartJob(r: Ref, jobId: int, hostname: Option<string>)
    | Destroy(r: Ref, v: Visit, lookup: Lookup, accepted: bool, jobId: int, tagged: bool)
    | Clear(job: nat, v: Visit, tagged: bool)
    | Save(r: Ref, v: Visit, tagged: bool, forced: bool)
    | Deploy(cluster: nat, name: string, template: Option<nat>, jobId: int)
    | Create(kind: Kind, cluster: nat, name: string)
    | Remove(doomed: set<Ref>)

  datatype Kind = AVm | ANode | ACluster | ATemplate

  // ---- The steps ----

  function HomeOf(r: Ref, row: Row): nat
    requires row.ObjectRow?
  {
    if r.Cluster? then r.pk else row.cluster
  }

  /** Records a job the server accepted and makes the object wait for it. */
  function Started(rows: Rows, next: nat, r: Ref, jobId: int, hostname: Option<string>): Rows
    requires r in rows && rows[r].ObjectRow?
  {
    var row := rows[r];
    rows[Job(next) := JobRow(HomeOf(r, row), jobId, r)]
        [r := row.(lastJob := Some(next), ignoreCache := true,
                   hostname := if hostname.Some? then hostname.value else row.hostname)]
  }

  function PendingDeletion(row: Row, job: nat): Row
    requires row.ObjectRow?
  {
    row.(lastJob := Some(job), ignoreCache := true, pendingDelete := true)
  }

  /** Whether destroying the machine just loaded as `o` ends in an exception: the
      load did, or it removed the machine, whose missing key then trips every way on; the
      server cannot say whether it knows the machine, refuses the job, or fails the tag calls. */
  predicate DestroyDies(o: Outcome, e: Event)
    requires e.Destroy? && o.self.row.ObjectRow?
  {
    o.raised || !o.self.live ||
    if Fetches(e.r, o.self.row) && e.lookup != Found then e.lookup == Unreachable
    else !e.accepted || !Saves(e.r, o.self.row, e.tagged)
  }

  /** Whether the server no longer knows the machine, which then goes at once. */
  predicate AlreadyGone(o: Outcome, e: Event)
    requires e.Destroy?
  {
    Fetches(e.r, o.self.row) && e.lookup == Missing
  }

  /** Destroying the machine just loaded as `o`, when nothing fails.  Its old jobs are
      deleted first, which takes the row along if it waits for one of them; the final
      save puts it back. */
  function Destroyed(o: Outcome, next: nat, e: Event): Rows
    requires e.Destroy? && o.self.row.ObjectRow?
  {
    if AlreadyGone(o, e) then Delete(o.rows, {e.r})
    else
      var cleared := Delete(o.rows, JobsOf(o.rows, e.r));
      cleared[Job(next) := JobRow(HomeOf(e.r, o.self.row), e.jobId, e.r)][e.r := PendingDeletion(o.self.row, next)]
  }

  function Forgetting(row: Row): Row
    requires row.ObjectRow?
  {
    row.(lastJob := None, ignoreCache := false)
  }

  /** Whether clearing a job first detaches the object just loaded as `o` from it. */
  predicate Detaches(o: Outcome, job: nat) {
    !o.raised && o.self.row.ObjectRow? && o.self.row.lastJob == Some(job) && Job(job) in o.rows
  }

  /** Whether the request dies looking at a job that the load deleted. */
  predicate Dangling(o: Outcome) {
    o.self.row.ObjectRow? && o.self.row.lastJob.Some? && Job(o.self.row.lastJob.value) !in o.rows
  }

  /** Whether clearing a job ends in an exception. */
  predicate ClearDies(o: Outcome, job: nat, target: Ref, tagged: bool) {
    o.raised || Dangling(o) || (Detaches(o, job) && !Saves(target, o.self.row, tagged))
  }

  /** Clearing a job, when nothing fails.  A row without a primary key is inserted anew. */
  function Cleared(o: Outcome, next: nat, target: Ref, job: nat): Rows
    requires o.self.row.ObjectRow?
  {
    if Detaches(o, job) then
      Delete(o.rows[if o.self.live then target else Vm(next) := Forgetting(o.self.row)], {Job(job)})
    else Delete(o.rows, {Job(job)})
  }

  /** Whether that inserts a row for a machine the load has just removed. */
  predicate Revives(o: Outcome, job: nat) {
    Detaches(o, job) && !o.self.live
  }

  /** Whether saving the object just loaded ends in an exception.  Without a primary
      key a save that must update fails, and so does one that inserts a key to no row. */
  predicate SaveDies(o: Outcome, r: Ref, tagged: bool, forced: bool) {
    o.raised || (!o.self.live && (forced || Dangling(o))) || !Saves(r, o.self.row, tagged)
  }

  /** A save that inserts a row for a machine that its load removed, which still waits for
      a job in memory; that job points at the removed row. */
  ghost predicate BreaksPairing(w: World, r: Ref, v: Visit, tagged: bool)
    requires r in w.rows && |v.jobs| == |v.replies|
  {
    && w.rows[r].ObjectRow? && RemovedBy(w, r, v) && !Settled(v.replies) && w.rows[r].lastJob.Some?
    && Job(w.rows[r].lastJob.value) !in Lost(w, r, v) && Saves(r, w.rows[r], tagged)
  }

  const FRESH := Cache(None, None, None, NoFields)

  function Deployed(rows: Rows, next: nat, e: Event): Rows
    requires e.Deploy?
  {
    rows[Vm(next) := ObjectRow(e.cluster, e.name, Some(next + 1), true, e.template, None, None, false, FRESH)]
        [Job(next + 1) := JobRow(e.cluster, e.jobId, Vm(next))]
  }

  function NewRef(kind: Kind, pk: nat): Ref {
    match kind
    case AVm => Vm(pk)
    case ANode => Node(pk)
    case ACluster => Cluster(pk)
    case ATemplate => Template(pk)
  }

  /** A row as it is first stored, with nothing fetched yet. */
  function NewRow(e: Event): Row
    requires e.Create?
  {
    if e.kind == ATemplate then TemplateRow(Some(e.cluster))
    else ObjectRow(e.cluster, e.name, None, false, None, None, None, false, FRESH)
  }

  ghost predicate Enabled(w: World, e: Event) {
    match e
    case Tick(_) => true
    case Publish(r, info) =>
      && info.mtime.Some? && 0 < info.mtime.value
      && (forall i :: 0 <= i < |History(w, r)| ==> OptionBelow(History(w, r)[i].info.mtime, info.mtime.value))
    case Visiting(r, v) => VisitOk(w, r, v)
    case StartJob(r, _, _) => r in w.rows && IsObject(r)
    case Destroy(r, v, _, _, _, _) => r.Vm? && VisitOk(w, r, v)
    case Clear(job, v, _) =>
      && Job(job) in w.rows && w.rows[Job(job)].JobRow?
      && (w.rows[Job(job)].target in w.rows ==> VisitOk(w, w.rows[Job(job)].target, v))
    case Save(r, v, tagged, forced) => VisitOk(w, r, v) && (forced || !BreaksPairing(w, r, v, tagged))
    case Deploy(cluster, _, template, _) => Cluster(cluster) in w.rows && TemplateKey(template) <= w.rows.Keys
    case Create(kind, cluster, _) => kind == ACluster || Cluster(cluster) in w.rows
    case Remove(_) => true
  }

  predicate OptionBelow(x: Option<int>, bound: int) {
    x.Some? && x.value < bound
  }

  /** The server's past of `q` becomes that of the row about to be inserted for it. */
  function Adopting(w: World, q: Ref): World {
    w.(histories := w.histories[Vm(w.next) := History(w, q)])
  }

  /** The removed machine `q` is inserted again as the next row. */
  ghost function Reborn(w: World, rows: Rows, q: Ref, v: Visit): World
    requires q in w.rows && w.rows[q].ObjectRow?
  {
    Adopting(w, q).(rows := rows, next := w.next + 1,
                    misdated := if q in w.misdated || Misdated(w, q, v) then w.misdated + {Vm(w.next)} else w.misdated)
  }

  /** A save, whether or not it keeps jobs and objects paired. */
  ghost function SaveStep(w: World, e: Event): World
    requires e.Save? && Inv(w) && VisitOk(w, e.r, e.v)
  {
    var o := LoadIn(w, e.r, e.v);
    if SaveDies(o, e.r, e.tagged, e.forced) then w
    else if o.self.live then w.(rows := o.rows[e.r := o.self.row])
    else Reborn(w, o.rows[Vm(w.next) := o.self.row], e.r, e.v)
  }

  ghost function DestroyStep(w: World, e: Event): World
    requires e.Destroy? && Inv(w) && VisitOk(w, e.r, e.v)
  {
    LoadSound(w, e.r, e.v);
    var o := LoadIn(w, e.r, e.v);
    if DestroyDies(o, e) then w else w.(rows := Destroyed(o, w.next, e), next := w.next + 1)
  }

  ghost function ClearStep(w: World, e: Event): World
    requires e.Clear? && Inv(w) && Enabled(w, e)
  {
    var target := w.rows[Job(e.job)].target;
    if target !in w.rows then w.(rows := Delete(w.rows, {Job(e.job)}))
    else
      LoadSound(w, target, e.v);
      var o := LoadIn(w, target, e.v);
      if ClearDies(o, e.job, target, e.tagged) then w
      else if Revives(o, e.job) then Reborn(w, Cleared(o, w.next, target, e.job), target, e.v)
      else w.(rows := Cleared(o, w.next, target, e.job), next := w.next + 1)
  }

  /** What a request leaves behind.  Its writes are one transaction: an exception
      that ends it takes all of them back. */
  ghost function Exec(w: World, e: Event): World
    requires Inv(w) && Enabled(w, e)
  {
    match e
    case Tick(d) => w.(now := w.now + d)
    case Publish(r, info) => w.(histories := w.histories[r := History(w, r) + [Version(w.now, info)]])
    case Visiting(r, v) => w.(rows := LoadIn(w, r, v).rows)
    case StartJob(r, jobId, hostname) =>
      w.(rows := Started(w.rows, w.next, r, jobId, hostname), next := w.next + 1)
    case Destroy(_, _, _, _, _, _) => DestroyStep(w, e)
    case Clear(_, _, _) => ClearStep(w, e)
    case Save(_, _, _, _) => SaveStep(w, e)
    case Deploy(_, _, _, _) => w.(rows := Deployed(w.rows, w.next, e), next := w.next + 2)
    case Create(kind, _, _) => w.(rows := w.rows[NewRef(kind, w.next) := NewRow(e)], next := w.next + 1)
    case Remove(doomed) => w.(rows := Delete(w.rows, doomed))
  }

  // ---- Every step keeps the invariant ----

  lemma AddJob(rows: Rows, job: nat, row: Row)
    requires RowsSound(rows) && Job(job) !in rows
    requires row.JobRow? && IsObject(row.target) && Cluster(row.cluster) in rows
    ensures RowsSound(rows[Job(job) := row])
  {
  }

  lemma DeleteSound(rows: Rows, doomed: set<Ref>)
    requires RowsSound(rows)
    ensures RowsSound(Delete(rows, doomed))
  {
    DeleteKeepsIntegrity(rows, doomed);
    DeleteKeepsPending(rows, doomed);
  }

  /** A row's cache is as it was, or coherent anew. */
  ghost predicate CarriedOver(w: World, rows: Rows, r: Ref) {
    r in rows && rows[r].ObjectRow? ==>
      || (r in w.rows && r !in w.misdated && w.rows[r].ObjectRow? && rows[r].cache == w.rows[r].cache)
      || Coherent(rows[r].cache, History(w, r), w.now)
  }

  /** What a step that only changes rows has to show. */
  lemma RowsChanged(w: World, w': World)
    requires Inv(w) && RowsSound(w'.rows)
    requires w'.now == w.now && w'.histories == w.histories && w.next <= w'.next
    requires forall r :: r in w'.rows && r !in w.rows ==> r.pk < w'.next
    requires forall r :: r in w'.rows && IsObject(r) && r !in w'.misdated ==> CarriedOver(w, w'.rows, r)
    ensures Inv(w')
  {
    hide RowsSound, OrderedHistory;
    assert forall r :: History(w', r) == History(w, r);
  }

  /** What a step that inserts a removed machine again has to show. */
  lemma RebornInv(w: World, rows: Rows, q: Ref, v: Visit, o: Outcome)
    requires Inv(w) && VisitOk(w, q, v) && w.rows[q].ObjectRow? && RemovedBy(w, q, v) && o == LoadIn(w, q, v)
    requires RowsSound(rows) && Vm(w.next) in rows && rows[Vm(w.next)].ObjectRow?
    requires o.self.row.ObjectRow? && rows[Vm(w.next)].cache == o.self.row.cache
    requires forall r :: r in rows && r != Vm(w.next) ==> r in w.rows
    requires forall r :: r in rows && r != Vm(w.next) && IsObject(r) && r !in w.misdated ==> CarriedOver(w, rows, r)
    ensures Inv(Reborn(w, rows, q, v))
  {
    if q !in w.misdated {
      RemovedCoherentIff(w, q, v);
    }
    hide Inv, RowsSound, Coherent, LoadIn, VisitOk, Misdated, RemovedBy, CarriedOver, Reborn;
    RebornRows(w, rows, q, v);
  }

  lemma RebornRows(w: World, rows: Rows, q: Ref, v: Visit)
    requires Inv(w) && q in w.rows && w.rows[q].ObjectRow?
    requires RowsSound(rows) && Vm(w.next) in rows && rows[Vm(w.next)].ObjectRow?
    requires q !in w.misdated && !Misdated(w, q, v) ==> Coherent(rows[Vm(w.next)].cache, History(w, q), w.now)
    requires forall r :: r in rows && r != Vm(w.next) ==> r in w.rows
    requires forall r :: r in rows && r != Vm(w.next) && IsObject(r) && r !in w.misdated ==> CarriedOver(w, rows, r)
    ensures Inv(Reborn(w, rows, q, v))
  {
    var base, after := Adopting(w, q), Reborn(w, rows, q, v);
    AdoptingInv(w, q);
    AdoptedCarries(w, rows, q);
    hide RowsSound, OrderedHistory, CachesCoherent, Coherent, Misdated, History;
    RowsChanged(base, after);
  }

  lemma AdoptedCarries(w: World, rows: Rows, q: Ref)
    ensures forall r :: r != Vm(w.next) && CarriedOver(w, rows, r) ==> CarriedOver(Adopting(w, q), rows, r)
    ensures History(Adopting(w, q), Vm(w.next)) == History(w, q)
  {
    hide Coherent;
    assert forall r :: r != Vm(w.next) ==> History(Adopting(w, q), r) == History(w, r);
  }

  lemma AdoptingInv(w: World, q: Ref)
    requires Inv(w)
    ensures Inv(Adopting(w, q))
  {
    hide RowsSound, OrderedHistory, Coherent;
    var after := Adopting(w, q);
    assert forall r :: History(after, r) == if r == Vm(w.next) then History(w, q) else History(w, r);
  }

  lemma TickInv(w: World, d: nat)
    requires Inv(w)
    ensures Inv(w.(now := w.now + d))
  {
    hide RowsSound;
    var after := w.(now := w.now + d);
    forall r
      ensures OrderedHistory(History(after, r), after.now)
    {
      assert History(after, r) == History(w, r);
    }
    forall r | r in w.rows && IsObject(r) && r !in w.misdated && w.rows[r].ObjectRow?
      ensures Coherent(w.rows[r].cache, History(after, r), after.now)
    {
      assert Coherent(w.rows[r].cache, History(w, r), w.now);
    }
  }

  lemma PublishInv(w: World, r: Ref, info: Info)
    requires Inv(w) && Enabled(w, Publish(r, info))
    ensures Inv(Exec(w, Publish(r, info)))
  {
    hide RowsSound;
    var after := Exec(w, Publish(r, info));
    var h := History(w, r);
    forall q
      ensures OrderedHistory(History(after, q), w.now)
    {
      assert q != r ==> History(after, q) == History(w, q);
    }
    forall q | q in w.rows && IsObject(q) && q !in w.misdated && w.rows[q].ObjectRow?
      ensures Coherent(w.rows[q].cache, History(after, q), w.now)
    {
      var c := w.rows[q].cache;
      assert Coherent(c, History(w, q), w.now);
      if q != r {
        assert History(after, q) == History(w, q);
      } else if c.info.Some? {
        var k :| CurrentVersion(h, c.cached.value, c.info.value, k);
        assert CurrentVersion(h + [Version(w.now, info)], c.cached.value, c.info.value, k);
      }
    }
  }

  /** What a step may rely on after its load. */
  ghost predicate Carried(w: World, self: Ref, v: Visit, o: Outcome)
    requires self in w.rows && w.rows[self].ObjectRow? && |v.jobs| == |v.replies|
  {
    && LoadFacts(w, self, v, o)
    && (forall r :: r in o.rows && IsObject(r) && r !in w.misdated ==> CarriedOver(w, o.rows, r))
    && (forall r :: r in o.rows ==> r in w.rows)
    && (o.self.live && self !in w.misdated ==> Coherent(o.self.row.cache, History(w, self), w.now))
  }

  lemma LoadCarries(w: World, self: Ref, v: Visit)
    requires Inv(w) && VisitOk(w, self, v)
    ensures Carried(w, self, v, LoadIn(w, self, v))
  {
    LoadSound(w, self, v);
    if self !in w.misdated {
      LoadCoherent(w, self, v);
    }
    hide RowsSound, Load, MemoryOk, OrderedHistory;
    VisitCarries(w, self, v, LoadIn(w, self, v));
  }

  lemma VisitInv(w: World, r: Ref, v: Visit)
    requires Inv(w) && VisitOk(w, r, v)
    ensures Inv(Exec(w, Visiting(r, v)))
  {
    LoadCarries(w, r, v);
    hide RowsSound, Load, MemoryOk, OrderedHistory, CarriedOver;
    RowsChanged(w, Exec(w, Visiting(r, v)));
  }

  /** A load leaves every other cache alone and keeps its own coherent. */
  lemma VisitCarries(w: World, self: Ref, v: Visit, o: Outcome)
    requires self in w.rows && w.rows[self].ObjectRow? && |v.jobs| == |v.replies|
    requires LoadFacts(w, self, v, o) && Typed(w.rows)
    requires self in o.rows && self !in w.misdated ==>
               o.rows[self].ObjectRow? && Coherent(o.rows[self].cache, History(w, self), w.now)
    ensures forall r :: r in o.rows && IsObject(r) && r !in w.misdated ==> CarriedOver(w, o.rows, r)
    ensures forall r :: r in o.rows ==> r in w.rows
  {
  }

  lemma StartInv(w: World, r: Ref, jobId: int, hostname: Option<string>)
    requires Inv(w) && Enabled(w, StartJob(r, jobId, hostname))
    ensures Inv(Exec(w, StartJob(r, jobId, hostname)))
  {
    StartedSound(w.rows, w.next, r, jobId, hostname);
    hide RowsSound, OrderedHistory;
    var after := Started(w.rows, w.next, r, jobId, hostname);
    assert after[r].cache == w.rows[r].cache;
    RowsChanged(w, Exec(w, StartJob(r, jobId, hostname)));
  }

  lemma StartedSound(rows: Rows, next: nat, r: Ref, jobId: int, hostname: Option<string>)
    requires RowsSound(rows) && Job(next) !in rows && r in rows && IsObject(r)
    ensures RowsSound(Started(rows, next, r, jobId, hostname))
  {
    var row := rows[r];
    assert ForeignKeys(r, row) <= rows.Keys;
    var job := JobRow(HomeOf(r, row), jobId, r);
    AddJob(rows, next, job);
    var noted := rows[Job(next) := job];
    var after := Started(rows, next, r, jobId, hostname);
    hide RowsSound;
    assert MemoryOk(noted, r, after[r]);
    StoreOk(noted, r, after[r]);
  }

  // ---- Destroying a machine ----

  /** The rows after the old jobs are gone. */
  lemma OldJobsGone(rows: Rows, r: Ref)
    requires RowsSound(rows) && r.Vm?
    ensures var cleared := Delete(rows, JobsOf(rows, r));
            && RowsSound(cleared)
            && cleared == rows - (JobsOf(rows, r) + Waiting(rows, r, JobsOf(rows, r)))
            && (r in cleared <==> r in rows && !(rows[r].ObjectRow? && rows[r].lastJob.Some?))
            && JobsOf(cleared, r) == {}
            && (forall q :: q in rows && !q.Job? && !q.Vm? ==> q in cleared)
  {
    DeletingJobs(rows, r, JobsOf(rows, r));
    DeleteSound(rows, JobsOf(rows, r));
    if r in rows && rows[r].lastJob.Some? {
      assert PendingRow(rows, r, rows[r]);
    }
  }

  lemma DeletionNoted(rows: Rows, next: nat, r: Ref, row: Row, jobId: int)
    requires RowsSound(rows) && r.Vm? && Job(next) !in rows
    requires row.ObjectRow? && ForeignKeys(r, row) - JobKey(row.lastJob) <= rows.Keys
    ensures var noted := rows[Job(next) := JobRow(HomeOf(r, row), jobId, r)];
            RowsSound(noted) && RowsSound(noted[r := PendingDeletion(row, next)])
  {
    assert Cluster(row.cluster) in ForeignKeys(r, row) - JobKey(row.lastJob);
    var job := JobRow(HomeOf(r, row), jobId, r);
    AddJob(rows, next, job);
    var noted := rows[Job(next) := job];
    var doomed := PendingDeletion(row, next);
    assert ForeignKeys(r, doomed) <= noted.Keys by {
      assert ForeignKeys(r, doomed) <= {Job(next)} + (ForeignKeys(r, row) - JobKey(row.lastJob));
    }
    assert MemoryOk(noted, r, doomed);
    StoreOk(noted, r, doomed);
  }

  /** `after` differs from `before` in rows `own` only, and otherwise has no row more. */
  ghost predicate Outside(before: Rows, after: Rows, own: set<Ref>) {
    forall q :: q in after && q !in own ==> q in before && after[q] == before[q]
  }

  /** A row as it was but for the deletion it waits for. */
  function AwaitingDeletion(row: Row, job: nat): Row
    requires row.ObjectRow?
  {
    ObjectRow(row.cluster, row.hostname, Some(job), true, row.template, row.primary, row.secondary, true, row.cache)
  }

  /** A row as it was but for the job it waits for no more. */
  function WaitingNoMore(row: Row): Row
    requires row.ObjectRow?
  {
    ObjectRow(row.cluster, row.hostname, None, false, row.template, row.primary, row.secondary, row.pendingDelete,
              row.cache)
  }

  ghost predicate DestroyedFacts(o: Outcome, next: nat, e: Event)
    requires e.Destroy? && o.self.row.ObjectRow?
  {
    var after := Destroyed(o, next, e);
    && Outside(o.rows, after, {e.r, Job(next)})
    && (e.r in after <==> !AlreadyGone(o, e))
    && (e.r in after ==> after[e.r] == AwaitingDeletion(o.self.row, next))
    && (Job(next) in after ==> after[Job(next)] == JobRow(HomeOf(e.r, o.self.row), e.jobId, e.r))
    && (forall q :: q in o.rows && IsObject(q) && q != e.r ==> q in after)
  }

  /** What a destroy that gets through does to the rows. */
  lemma DestroyedSound(o: Outcome, next: nat, e: Event)
    requires e.Destroy? && e.r.Vm? && RowsSound(o.rows) && Job(next) !in o.rows && e.r in o.rows
    requires MemoryOk(o.rows, e.r, o.self.row)
    ensures RowsSound(Destroyed(o, next, e))
    ensures DestroyedFacts(o, next, e)
  {
    if AlreadyGone(o, e) {
      MachineGone(o, next, e);
    } else {
      MachineDoomed(o, next, e);
    }
  }

  lemma OtherKeysStay(rows: Rows, cleared: Rows, r: Ref, row: Row)
    requires MemoryOk(rows, r, row)
    requires forall q :: q in rows && !q.Job? && !q.Vm? ==> q in cleared
    ensures ForeignKeys(r, row) - JobKey(row.lastJob) <= cleared.Keys
  {
  }

  lemma MachineDoomed(o: Outcome, next: nat, e: Event)
    requires e.Destroy? && e.r.Vm? && RowsSound(o.rows) && Job(next) !in o.rows && e.r in o.rows
    requires MemoryOk(o.rows, e.r, o.self.row) && !AlreadyGone(o, e)
    ensures RowsSound(Destroyed(o, next, e))
    ensures DestroyedFacts(o, next, e)
  {
    var cleared := Delete(o.rows, JobsOf(o.rows, e.r));
    hide RowsSound, DestroyedFacts, Delete, MemoryOk, Fetches, JobsOf, Waiting, ForeignKeys;
    OldJobsGone(o.rows, e.r);
    OtherKeysStay(o.rows, cleared, e.r, o.self.row);
    DeletionNoted(cleared, next, e.r, o.self.row, e.jobId);
    JobsReplaced(o, next, e, cleared);
  }

  /** The row deleted with the old jobs is the machine's own, and a save puts it back. */
  lemma JobsReplaced(o: Outcome, next: nat, e: Event, cleared: Rows)
    requires e.Destroy? && e.r.Vm? && o.self.row.ObjectRow? && !AlreadyGone(o, e)
    requires cleared == Delete(o.rows, JobsOf(o.rows, e.r))
    requires cleared == o.rows - (JobsOf(o.rows, e.r) + Waiting(o.rows, e.r, JobsOf(o.rows, e.r)))
    ensures DestroyedFacts(o, next, e)
  {
    hide Delete, AlreadyGone;
  }

  lemma MachineGone(o: Outcome, next: nat, e: Event)
    requires e.Destroy? && e.r.Vm? && RowsSound(o.rows) && Job(next) !in o.rows && e.r in o.rows
    requires o.self.row.ObjectRow? && AlreadyGone(o, e)
    ensures RowsSound(Destroyed(o, next, e))
    ensures DestroyedFacts(o, next, e)
  {
    NothingRefersToVm(o.rows, e.r.pk);
    DeleteExactly(o.rows, {e.r});
    DeleteSound(o.rows, {e.r});
    hide RowsSound, Delete;
  }

  /** A destroy leaves every cache as the load left it. */
  lemma DestroyCarries(w: World, o: Outcome, e: Event)
    requires e.Destroy? && e.r.Vm? && o.self.row.ObjectRow?
    requires DestroyedFacts(o, w.next, e)
    requires forall q :: q in o.rows && IsObject(q) && q !in w.misdated ==> CarriedOver(w, o.rows, q)
    requires e.r !in w.misdated ==> Coherent(o.self.row.cache, History(w, e.r), w.now)
    ensures forall q :: q in Destroyed(o, w.next, e) && IsObject(q) && q !in w.misdated ==>
              CarriedOver(w, Destroyed(o, w.next, e), q)
  {
    hide Destroyed, AlreadyGone, Coherent;
  }

  lemma KnownKey(w: World, r: Ref)
    requires Inv(w) && r in w.rows
    ensures r.pk < w.next
  {
    hide RowsSound, OrderedHistory, CachesCoherent;
  }

  lemma NextIsFree(w: World)
    requires Inv(w)
    ensures forall r: Ref :: r.pk == w.next ==> r !in w.rows
  {
    hide RowsSound, OrderedHistory, CachesCoherent;
  }

  lemma VisitedIsObject(w: World, q: Ref, v: Visit)
    requires Inv(w) && VisitOk(w, q, v)
    ensures q in w.rows && IsObject(q) && w.rows[q].ObjectRow? && |v.jobs| == |v.replies|
    ensures LoadIn(w, q, v).self.row.ObjectRow?
  {
    LoadSound(w, q, v);
    hide LoadIn, CachesCoherent, OrderedHistory;
  }

  lemma DestroyInv(w: World, e: Event)
    requires Inv(w) && Enabled(w, e) && e.Destroy?
    ensures Inv(DestroyStep(w, e))
  {
    hide Inv, VisitOk, Carried, LoadIn, Destroyed, DestroyDies;
    VisitedIsObject(w, e.r, e.v);
    LoadCarries(w, e.r, e.v);
    var o := LoadIn(w, e.r, e.v);
    if !DestroyDies(o, e) {
      DestroyLives(o, e);
      DestroyedInv(w, o, e);
    }
  }

  lemma DestroyLives(o: Outcome, e: Event)
    requires e.Destroy? && o.self.row.ObjectRow? && !DestroyDies(o, e)
    ensures !o.raised && o.self.live
  {
  }

  lemma DestroyedInv(w: World, o: Outcome, e: Event)
    requires Inv(w) && e.Destroy? && e.r.Vm? && e.r in w.rows && w.rows[e.r].ObjectRow? && |e.v.jobs| == |e.v.replies|
    requires Carried(w, e.r, e.v, o) && o.self.live
    ensures Inv(w.(rows := Destroyed(o, w.next, e), next := w.next + 1))
  {
    hide RowsSound, MemoryOk, OrderedHistory, Destroyed, AlreadyGone, CarriedOver, CachesCoherent;
    DestroyedSound(o, w.next, e);
    DestroyCarries(w, o, e);
    RowsChanged(w, w.(rows := Destroyed(o, w.next, e), next := w.next + 1));
  }

  // ---- The remaining steps ----

  /** The object just loaded waits for `job` in the database but no longer in
      memory: the load found its jobs settled but could not write that down. */
  ghost predicate Mismatch(o: Outcome, target: Ref, job: nat)
    requires o.self.row.ObjectRow?
  {
    && !o.raised && !Dangling(o) && !Detaches(o, job)
    && target in o.rows && o.rows[target].ObjectRow? && o.rows[target].lastJob == Some(job)
  }

  /** Nobody in the database waits for `job`. */
  ghost predicate Unawaited(rows: Rows, job: nat) {
    forall r :: r in rows ==> Job(job) !in ForeignKeys(r, rows[r])
  }

  lemma DeleteUnawaited(rows: Rows, job: nat)
    requires Unawaited(rows, job)
    ensures Delete(rows, {Job(job)}) == rows - {Job(job)}
  {
  }

  lemma OnlyTargetAwaits(rows: Rows, target: Ref, job: nat)
    requires Typed(rows) && Pending(rows)
    requires Job(job) in rows ==> rows[Job(job)].target == target
    requires target in rows && rows[target].ObjectRow? ==> rows[target].lastJob != Some(job)
    ensures Unawaited(rows, job)
  {
  }

  /** What a request that saves after its load needs of it. */
  ghost predicate SaveReady(o: Outcome, next: nat, target: Ref) {
    && RowsSound(o.rows) && Vm(next) !in o.rows && IsObject(target) && target != Vm(next)
    && o.self.row.ObjectRow? && (o.self.live <==> target in o.rows)
    && (o.self.live ==> MemoryOk(o.rows, target, o.self.row))
    && (!o.self.live && !o.raised ==> target.Vm?)
    && (forall k :: k in ForeignKeys(target, o.self.row) - JobKey(o.self.row.lastJob) ==> k in o.rows)
  }

  /** What clearing needs. */
  ghost predicate ClearReady(o: Outcome, next: nat, target: Ref, job: nat) {
    SaveReady(o, next, target) && (Job(job) in o.rows ==> o.rows[Job(job)].target == target)
  }

  /** What clearing does to the rows. */
  ghost predicate ClearedFacts(o: Outcome, next: nat, target: Ref, job: nat)
    requires o.self.row.ObjectRow?
  {
    var after := Cleared(o, next, target, job);
    && Outside(o.rows, after, {target, Vm(next)})
    && (Vm(next) in after <==> Revives(o, job))
    && (Vm(next) in after ==> after[Vm(next)] == WaitingNoMore(o.self.row))
    && (target in after ==>
          target in o.rows && (after[target] == o.rows[target] || after[target] == WaitingNoMore(o.self.row)))
    && (if Mismatch(o, target, job) then target !in after
        else forall q :: q in o.rows && q != Job(job) ==> q in after)
  }

  lemma ForgetLinks(rows: Rows, at: Ref, target: Ref, row: Row)
    requires row.ObjectRow? && (at == target || (at.Vm? && target.Vm?))
    requires forall k :: k in ForeignKeys(target, row) - JobKey(row.lastJob) ==> k in rows
    ensures MemoryOk(rows, at, Forgetting(row))
  {
  }

  lemma DetachedSound(o: Outcome, next: nat, target: Ref, job: nat, at: Ref)
    requires ClearReady(o, next, target, job) && Detaches(o, job)
    requires at == if o.self.live then target else Vm(next)
    ensures var base := o.rows[at := Forgetting(o.self.row)];
            Delete(base, {Job(job)}) == base - {Job(job)} && RowsSound(Delete(base, {Job(job)}))
  {
    var base := o.rows[at := Forgetting(o.self.row)];
    ForgetLinks(o.rows, at, target, o.self.row);
    StoreOk(o.rows, at, Forgetting(o.self.row));
    OnlyTargetAwaits(base, target, job);
    DeleteUnawaited(base, job);
    DeleteSound(base, {Job(job)});
  }

  lemma UndetachedSound(o: Outcome, next: nat, target: Ref, job: nat)
    requires ClearReady(o, next, target, job) && !o.raised && !Dangling(o) && !Detaches(o, job)
    ensures var after := Delete(o.rows, {Job(job)});
            && RowsSound(after)
            && Outside(o.rows, after, {})
            && (if Mismatch(o, target, job) then target !in after else after == o.rows - {Job(job)})
  {
    DeleteSound(o.rows, {Job(job)});
    if Mismatch(o, target, job) {
      CollectIsLeastClosed(o.rows, {Job(job)});
      Closed(o.rows, Collect(o.rows, {Job(job)}));
      assert Job(job) in ForeignKeys(target, o.rows[target]);
    } else {
      OnlyTargetAwaits(o.rows, target, job);
      DeleteUnawaited(o.rows, job);
    }
  }

  /** What a clear that gets through does to the rows. */
  lemma ClearedSound(o: Outcome, next: nat, target: Ref, job: nat)
    requires ClearReady(o, next, target, job) && !o.raised && !Dangling(o)
    ensures RowsSound(Cleared(o, next, target, job))
    ensures ClearedFacts(o, next, target, job)
  {
    hide RowsSound, Delete, MemoryOk, ForeignKeys;
    if !Detaches(o, job) {
      UndetachedSound(o, next, target, job);
    } else {
      var at := if o.self.live then target else Vm(next);
      DetachedSound(o, next, target, job, at);
      assert Cleared(o, next, target, job) == Delete(o.rows[at := Forgetting(o.self.row)], {Job(job)});
    }
  }

  lemma LoadReady(w: World, q: Ref, v: Visit)
    requires Inv(w) && VisitOk(w, q, v)
    ensures Carried(w, q, v, LoadIn(w, q, v)) && SaveReady(LoadIn(w, q, v), w.next, q)
  {
    var o := LoadIn(w, q, v);
    LoadCarries(w, q, v);
    MemoryLinks(w, q, v);
    MemoryKeys(w, q, v, o.self.row);
    OnlyMachinesRemoved(q, v.replies, |v.jobs|);
    hide RowsSound, CarriedOver, MemoryOk, LinksWithin, Load, ForeignKeys, Removals;
  }

  lemma ClearLoadReady(w: World, e: Event)
    requires Inv(w) && e.Clear? && Enabled(w, e) && w.rows[Job(e.job)].target in w.rows
    ensures var target := w.rows[Job(e.job)].target;
            var o := LoadIn(w, target, e.v);
            Carried(w, target, e.v, o) && ClearReady(o, w.next, target, e.job)
  {
    LoadReady(w, w.rows[Job(e.job)].target, e.v);
    hide LoadIn, RowsSound, CachesCoherent, OrderedHistory, CarriedOver, MemoryOk;
  }

  /** Every row but a newly inserted one has its cache as the load left it. */
  lemma ClearCarries(w: World, o: Outcome, target: Ref, job: nat)
    requires o.self.row.ObjectRow? && ClearedFacts(o, w.next, target, job)
    requires forall q :: q in o.rows && IsObject(q) && q !in w.misdated ==> CarriedOver(w, o.rows, q)
    requires target in o.rows ==> o.self.live
    requires target !in w.misdated && o.self.live ==> Coherent(o.self.row.cache, History(w, target), w.now)
    ensures var after := Cleared(o, w.next, target, job);
            forall q :: q in after && q != Vm(w.next) && IsObject(q) && q !in w.misdated ==> CarriedOver(w, after, q)
  {
    hide Cleared, Mismatch, Revives, Coherent;
  }

  lemma ClearInv(w: World, e: Event)
    requires Inv(w) && e.Clear? && Enabled(w, e)
    ensures Inv(ClearStep(w, e))
  {
    hide Inv, LoadIn, Cleared, Revives, VisitOk;
    if w.rows[Job(e.job)].target in w.rows {
      ClearTargeted(w, e);
    } else {
      RemoveInv(w, {Job(e.job)});
    }
  }

  lemma ClearTargeted(w: World, e: Event)
    requires Inv(w) && e.Clear? && Enabled(w, e) && w.rows[Job(e.job)].target in w.rows
    ensures Inv(ClearStep(w, e))
  {
    hide Inv, VisitOk, Carried, LoadIn, ClearReady, Cleared, Revives;
    var target := w.rows[Job(e.job)].target;
    VisitedIsObject(w, target, e.v);
    ClearLoadReady(w, e);
    var o := LoadIn(w, target, e.v);
    if !ClearDies(o, e.job, target, e.tagged) {
      if Revives(o, e.job) {
        ClearRevivesInv(w, o, target, e);
      } else {
        ClearedInv(w, o, target, e);
      }
    }
  }

  lemma ClearedInv(w: World, o: Outcome, target: Ref, e: Event)
    requires Inv(w) && e.Clear? && target in w.rows && w.rows[target].ObjectRow? && |e.v.jobs| == |e.v.replies|
    requires Carried(w, target, e.v, o) && ClearReady(o, w.next, target, e.job)
    requires !o.raised && !Dangling(o) && !Revives(o, e.job)
    ensures Inv(w.(rows := Cleared(o, w.next, target, e.job), next := w.next + 1))
  {
    hide RowsSound, CarriedOver, OrderedHistory, Cleared, ClearReady, Revives;
    ClearedSound(o, w.next, target, e.job);
    ClearCarries(w, o, target, e.job);
    RowsChanged(w, w.(rows := Cleared(o, w.next, target, e.job), next := w.next + 1));
  }

  lemma ClearRevivesInv(w: World, o: Outcome, target: Ref, e: Event)
    requires Inv(w) && e.Clear? && VisitOk(w, target, e.v) && o == LoadIn(w, target, e.v)
    requires Carried(w, target, e.v, o) && ClearReady(o, w.next, target, e.job)
    requires !o.raised && !Dangling(o) && Revives(o, e.job)
    ensures Inv(Reborn(w, Cleared(o, w.next, target, e.job), target, e.v))
  {
    LiveIff(w, target, e.v);
    hide RowsSound, CarriedOver, OrderedHistory, CachesCoherent, Cleared, LoadIn, VisitOk, RemovedBy, MemoryOk, Lost;
    ClearedSound(o, w.next, target, e.job);
    ClearCarries(w, o, target, e.job);
    RebornInv(w, Cleared(o, w.next, target, e.job), target, e.v, o);
  }

  // ---- Saving ----

  lemma SaveCarries(w: World, o: Outcome, r: Ref, rows: Rows)
    requires o.self.live && r in o.rows && rows == o.rows[r := o.self.row]
    requires forall q :: q in o.rows && IsObject(q) && q !in w.misdated ==> CarriedOver(w, o.rows, q)
    requires o.self.row.ObjectRow?
    requires r !in w.misdated && o.self.live ==> Coherent(o.self.row.cache, History(w, r), w.now)
    ensures forall q :: q in rows && IsObject(q) && q !in w.misdated ==> CarriedOver(w, rows, q)
  {
  }

  lemma SavedInv(w: World, o: Outcome, e: Event)
    requires Inv(w) && e.Save? && VisitOk(w, e.r, e.v)
    requires Carried(w, e.r, e.v, o) && o.self.live
    ensures Inv(w.(rows := o.rows[e.r := o.self.row]))
  {
    hide RowsSound, OrderedHistory, MemoryOk, CarriedOver;
    StoreOk(o.rows, e.r, o.self.row);
    var rows := o.rows[e.r := o.self.row];
    SaveCarries(w, o, e.r, rows);
    RowsChanged(w, w.(rows := rows));
  }

  /** Inserting what is in memory keeps the rows sound exactly if it waits for no job. */
  lemma InsertSoundIff(o: Outcome, next: nat, target: Ref)
    requires SaveReady(o, next, target) && target.Vm? && !Dangling(o)
    requires o.self.row.lastJob.Some? && Job(o.self.row.lastJob.value) in o.rows ==>
               o.rows[Job(o.self.row.lastJob.value)].target == target
    ensures RowsSound(o.rows[Vm(next) := o.self.row]) <==> o.self.row.lastJob.None?
  {
    var at, after := Vm(next), o.rows[Vm(next) := o.self.row];
    if o.self.row.lastJob.None? {
      ForgetLinks(o.rows, at, target, o.self.row);
      assert MemoryOk(o.rows, at, o.self.row);
      StoreOk(o.rows, at, o.self.row);
    } else {
      assert !PendingRow(after, at, after[at]);
    }
  }

  /** A save whose load removed the machine dies, or inserts a row, in terms of its inputs. */
  lemma SaveRemovedIff(w: World, e: Event)
    requires Inv(w) && e.Save? && VisitOk(w, e.r, e.v) && RemovedBy(w, e.r, e.v)
    ensures var o := LoadIn(w, e.r, e.v);
            && !o.raised && !o.self.live && o.self.row.ObjectRow?
            && (SaveDies(o, e.r, e.tagged, e.forced) <==>
                  || e.forced || !Saves(e.r, w.rows[e.r], e.tagged)
                  || (!Settled(e.v.replies) && w.rows[e.r].lastJob.Some?
                      && Job(w.rows[e.r].lastJob.value) in Lost(w, e.r, e.v)))
            && o.self.row.lastJob == (if Settled(e.v.replies) then None else w.rows[e.r].lastJob)
  {
    assert PendingRow(w.rows, e.r, w.rows[e.r]);
    LoadSound(w, e.r, e.v);
    LoadWithoutKey(w, e.r, e.v);
    hide RowsSound, CachesCoherent, OrderedHistory, LoadIn, Lost, Settled, MemoryOk, Honest, JobList, RemovedBy;
  }

  lemma InsertedInvIff(w: World, e: Event)
    requires Inv(w) && e.Save? && VisitOk(w, e.r, e.v) && RemovedBy(w, e.r, e.v)
    requires !SaveDies(LoadIn(w, e.r, e.v), e.r, e.tagged, e.forced)
    ensures var o := LoadIn(w, e.r, e.v);
            && o.self.row.ObjectRow?
            && (Inv(Reborn(w, o.rows[Vm(w.next) := o.self.row], e.r, e.v)) <==> o.self.row.lastJob.None?)
  {
    var o := LoadIn(w, e.r, e.v);
    var rows := o.rows[Vm(w.next) := o.self.row];
    SaveRemovedIff(w, e);
    LoadReady(w, e.r, e.v);
    assert PendingRow(w.rows, e.r, w.rows[e.r]);
    assert e.r.Vm?;
    hide OrderedHistory, CachesCoherent, LoadIn, VisitOk, RemovedBy, MemoryOk, Lost, Settled, RowsSound;
    InsertSoundIff(o, w.next, e.r);
    if RowsSound(rows) {
      InsertedCarries(w, o);
      RebornInv(w, rows, e.r, e.v, o);
    }
  }

  lemma InsertedCarries(w: World, o: Outcome)
    requires o.self.row.ObjectRow?
    requires forall q :: q in o.rows && IsObject(q) && q !in w.misdated ==> CarriedOver(w, o.rows, q)
    ensures var rows := o.rows[Vm(w.next) := o.self.row];
            forall q :: q in rows && q != Vm(w.next) && IsObject(q) && q !in w.misdated ==> CarriedOver(w, rows, q)
  {
    hide Coherent;
  }

  /** A save keeps the invariant exactly unless it may insert and breaks the pairing. */
  lemma SaveKeepsInvIff(w: World, e: Event)
    requires Inv(w) && e.Save? && VisitOk(w, e.r, e.v)
    ensures Inv(SaveStep(w, e)) <==> e.forced || !BreaksPairing(w, e.r, e.v, e.tagged)
  {
    LiveIff(w, e.r, e.v);
    LoadCarries(w, e.r, e.v);
    if RemovedBy(w, e.r, e.v) {
      SaveRemovedIff(w, e);
      if !SaveDies(LoadIn(w, e.r, e.v), e.r, e.tagged, e.forced) {
        InsertedInvIff(w, e);
      }
    }
    hide RowsSound, CachesCoherent, OrderedHistory, LoadIn, RemovedBy, Lost, Settled, MemoryOk, CarriedOver, Saves;
    var o := LoadIn(w, e.r, e.v);
    if o.self.live && !SaveDies(o, e.r, e.tagged, e.forced) {
      SavedInv(w, o, e);
    }
  }

  lemma DeployInv(w: World, e: Event)
    requires Inv(w) && e.Deploy? && Enabled(w, e)
    ensures Inv(Exec(w, e))
  {
    DeployedSound(w.rows, w.next, e);
    hide RowsSound, OrderedHistory;
    RowsChanged(w, Exec(w, e));
  }

  lemma DeployedSound(rows: Rows, next: nat, e: Event)
    requires RowsSound(rows) && e.Deploy? && Vm(next) !in rows && Job(next + 1) !in rows
    requires Cluster(e.cluster) in rows && TemplateKey(e.template) <= rows.Keys
    ensures RowsSound(Deployed(rows, next, e))
  {
    var job := JobRow(e.cluster, e.jobId, Vm(next));
    AddJob(rows, next + 1, job);
    var noted := rows[Job(next + 1) := job];
    var after := Deployed(rows, next, e);
    assert MemoryOk(noted, Vm(next), after[Vm(next)]);
    StoreOk(noted, Vm(next), after[Vm(next)]);
    assert after == noted[Vm(next) := after[Vm(next)]];
  }

  lemma CreateInv(w: World, e: Event)
    requires Inv(w) && e.Create? && Enabled(w, e)
    ensures Inv(Exec(w, e))
  {
    var r := NewRef(e.kind, w.next);
    var after := w.rows[r := NewRow(e)];
    assert RowsSound(after) by {
      forall q | q in after
        ensures ForeignKeys(q, after[q]) <= after.Keys && PendingRow(after, q, after[q])
      {
        assert q != r ==> ForeignKeys(q, w.rows[q]) <= w.rows.Keys && PendingRow(w.rows, q, w.rows[q]);
      }
    }
    hide RowsSound, OrderedHistory;
    RowsChanged(w, Exec(w, e));
  }

  lemma RemoveInv(w: World, doomed: set<Ref>)
    requires Inv(w)
    ensures Inv(Exec(w, Remove(doomed)))
  {
    DeleteSound(w.rows, doomed);
    hide RowsSound, OrderedHistory;
    RowsChanged(w, Exec(w, Remove(doomed)));
  }

  /** Every request keeps the keys sound, the pending-job flags paired, and the
      caches coherent. */
  lemma StepKeepsInv(w: World, e: Event)
    requires Inv(w) && Enabled(w, e)
    ensures Inv(Exec(w, e))
  {
    match e
    case Tick(d) => TickInv(w, d);
    case Publish(r, info) => PublishInv(w, r, info);
    case Visiting(r, v) => VisitInv(w, r, v);
    case StartJob(r, jobId, hostname) => StartInv(w, r, jobId, hostname);
    case Destroy(_, _, _, _, _, _) => DestroyInv(w, e);
    case Clear(_, _, _) => ClearInv(w, e);
    case Save(_, _, _, _) => SaveKeepsInvIff(w, e);
    case Deploy(_, _, _, _) => DeployInv(w, e);
    case Create(_, _, _) => CreateInv(w, e);
    case Remove(doomed) => RemoveInv(w, doomed);
  }
}
