/** The part of the relational database the cache lives in: object rows, job
    rows and template rows, with the cascading deletes of their foreign keys. */
module Database {
  import opened Wrappers
  import opened RemoteInfo

  datatype Ref = Vm(pk: nat) | Node(pk: nat) | Cluster(pk: nat) | Job(pk: nat) | Template(pk: nat)

  /** The cached copy of the remote metadata that every object row carries. */
  datatype Cache = Cache(info: Option<Info>, mtime: Option<int>, cached: Option<int>, fields: Fields)

  /** Virtual machines, nodes and clusters share one row shape; `template`,
      `primary`, `secondary` and `pendingDelete` mean something for virtual
      machines only. */
  datatype Row =
    | ObjectRow(cluster: nat, hostname: string, lastJob: Option<nat>, ignoreCache: bool,
                template: Option<nat>, primary: Option<nat>, secondary: Option<nat>,
                pendingDelete: bool, cache: Cache)
    | JobRow(cluster: nat, jobId: int, target: Ref)
    | TemplateRow(home: Option<nat>)

  type Rows = map<Ref, Row>

  predicate IsObject(r: Ref) {
    r.Vm? || r.Node? || r.Cluster?
  }

  ghost predicate Typed(rows: Rows) {
    forall r :: r in rows ==>
      && (IsObject(r) <==> rows[r].ObjectRow?)
      && (r.Job? <==> rows[r].JobRow?)
      && (r.Job? ==> IsObject(rows[r].target))
  }

  function JobKey(pk: Option<nat>): set<Ref> {
    if pk.Some? then {Job(pk.value)} else {}
  }

  function NodeKey(pk: Option<nat>): set<Ref> {
    if pk.Some? then {Node(pk.value)} else {}
  }

  function TemplateKey(pk: Option<nat>): set<Ref> {
    if pk.Some? then {Template(pk.value)} else {}
  }

  /** The rows that `row`, stored under `r`, refers to through a cascading key.
      A job's target is a generic relation and does not cascade. */
  function ForeignKeys(r: Ref, row: Row): set<Ref> {
    match row
    case ObjectRow(cluster, _, lastJob, _, template, primary, secondary, _, _) =>
      JobKey(lastJob)
      + (if r.Cluster? then {} else {Cluster(cluster)})
      + (if r.Vm? then TemplateKey(template) + NodeKey(primary) + NodeKey(secondary) else {})
    case JobRow(cluster, _, _) => {Cluster(cluster)}
    case TemplateRow(home) => if home.Some? then {Cluster(home.value)} else {}
  }

  /** Rows outside `doomed` that refer into it. */
  function Dependents(rows: Rows, doomed: set<Ref>): set<Ref> {
    set r | r in rows && r !in doomed && ForeignKeys(r, rows[r]) * doomed != {}
  }

  /** Everything a delete of `doomed` takes along, collected level by level. */
  function Collect(rows: Rows, doomed: set<Ref>): set<Ref>
    decreases rows.Keys - doomed
  {
    var more := Dependents(rows, doomed);
    if more == {} then doomed
    else
      assert var r :| r in more; r in rows.Keys - doomed && r !in rows.Keys - (doomed + more);
      Collect(rows, doomed + more)
  }

  function Delete(rows: Rows, doomed: set<Ref>): Rows {
    rows - Collect(rows, doomed)
  }

  /** A set without dependents outside it contains every row that refers into it. */
  lemma Closed(rows: Rows, s: set<Ref>)
    requires Dependents(rows, s) == {}
    ensures forall r, k :: r in rows && k in ForeignKeys(r, rows[r]) && k in s ==> r in s
  {
    forall r, k | r in rows && k in ForeignKeys(r, rows[r]) && k in s
      ensures r in s
    {
      assert k in ForeignKeys(r, rows[r]) * s;
      assert r !in s ==> r in Dependents(rows, s);
    }
  }

  /** The collected set is closed under dependence, contains what was asked for,
      and is contained in every such set. */
  lemma {:induction false} CollectIsLeastClosed(rows: Rows, doomed: set<Ref>)
    ensures doomed <= Collect(rows, doomed)
    ensures Dependents(rows, Collect(rows, doomed)) == {}
    ensures forall s: set<Ref> :: doomed <= s && Dependents(rows, s) == {} ==> Collect(rows, doomed) <= s
    decreases rows.Keys - doomed
  {
    var more := Dependents(rows, doomed);
    if more != {} {
      var r :| r in more;
      assert r in rows.Keys - doomed && r !in rows.Keys - (doomed + more);
      CollectIsLeastClosed(rows, doomed + more);
      forall s: set<Ref> | doomed <= s && Dependents(rows, s) == {}
        ensures Collect(rows, doomed) <= s
      {
        Closed(rows, s);
        forall d | d in more
          ensures d in s
        {
          var k :| k in ForeignKeys(d, rows[d]) * doomed;
          assert k in s;
        }
        assert doomed + more <= s;
      }
    }
  }

  ghost predicate Integrity(rows: Rows) {
    forall r :: r in rows ==> ForeignKeys(r, rows[r]) <= rows.Keys
  }

  /** A cascading delete never leaves a dangling key behind. */
  lemma DeleteKeepsIntegrity(rows: Rows, doomed: set<Ref>)
    requires Integrity(rows)
    ensures Integrity(Delete(rows, doomed))
  {
    CollectIsLeastClosed(rows, doomed);
    Closed(rows, Collect(rows, doomed));
  }

  /** What is left after a delete refers to nothing deleted: a machine, node, job or
      template not to its cluster, a machine not to its nodes and template, and no object to
      the job it waits for. */
  lemma SurvivorsReferToNone(rows: Rows, doomed: set<Ref>)
    ensures forall r :: r in Delete(rows, doomed) ==>
              r in rows && Delete(rows, doomed)[r] == rows[r] && r !in doomed && RefersToNone(r, rows[r], doomed)
  {
    CollectIsLeastClosed(rows, doomed);
    Closed(rows, Collect(rows, doomed));
    forall r | r in Delete(rows, doomed)
      ensures RefersToNone(r, rows[r], doomed)
    {
      assert forall k :: k in ForeignKeys(r, rows[r]) ==> k !in doomed;
    }
  }

  ghost predicate RefersToNone(r: Ref, row: Row, doomed: set<Ref>) {
    match row
    case ObjectRow(cluster, _, lastJob, _, template, primary, secondary, _, _) =>
      && (r.Vm? || r.Node? ==> Cluster(cluster) !in doomed)
      && (lastJob.Some? ==> Job(lastJob.value) !in doomed)
      && (r.Vm? && template.Some? ==> Template(template.value) !in doomed)
      && (r.Vm? && primary.Some? ==> Node(primary.value) !in doomed)
      && (r.Vm? && secondary.Some? ==> Node(secondary.value) !in doomed)
    case JobRow(cluster, _, _) => Cluster(cluster) !in doomed
    case TemplateRow(home) => home.Some? ==> Cluster(home.value) !in doomed
  }

  /** With no row referring into `doomed` nothing else goes. */
  lemma DeleteExactly(rows: Rows, doomed: set<Ref>)
    requires Dependents(rows, doomed) == {}
    ensures Delete(rows, doomed) == rows - doomed
  {
  }

  // ---- The pending-job invariant ----

  /** `row`, stored under `r`, is consistent about the job it waits for. */
  ghost predicate PendingRow(rows: Rows, r: Ref, row: Row) {
    row.ObjectRow? && row.lastJob.Some? ==>
      var j := Job(row.lastJob.value);
      row.ignoreCache && j in rows && rows[j].JobRow? && rows[j].target == r
  }

  ghost predicate Pending(rows: Rows) {
    forall r :: r in rows ==> PendingRow(rows, r, rows[r])
  }

  lemma DeleteKeepsPending(rows: Rows, doomed: set<Ref>)
    requires Pending(rows)
    ensures Pending(Delete(rows, doomed))
  {
    CollectIsLeastClosed(rows, doomed);
    Closed(rows, Collect(rows, doomed));
    forall r | r in rows && rows[r].ObjectRow? && rows[r].lastJob.Some?
      ensures Job(rows[r].lastJob.value) in ForeignKeys(r, rows[r])
    {
    }
  }

  /** Nothing refers to a virtual machine. */
  lemma NothingRefersToVm(rows: Rows, pk: nat)
    ensures Dependents(rows, {Vm(pk)}) == {}
  {
  }

  /** The job rows that point at `r`. */
  function JobsOf(rows: Rows, r: Ref): set<Ref> {
    set j | j in rows && j.Job? && rows[j].JobRow? && rows[j].target == r
  }

  /** `r`, if it is a row that waits for one of `jobs`. */
  function Waiting(rows: Rows, r: Ref, jobs: set<Ref>): set<Ref> {
    if r in rows && rows[r].ObjectRow? && rows[r].lastJob.Some? && Job(rows[r].lastJob.value) in jobs then {r} else {}
  }

  lemma JobsDependents(rows: Rows, r: Ref, jobs: set<Ref>)
    requires Typed(rows) && Pending(rows)
    requires r.Vm? && jobs <= JobsOf(rows, r)
    ensures Dependents(rows, jobs) == Waiting(rows, r, jobs)
    ensures Dependents(rows, jobs + Waiting(rows, r, jobs)) == {}
  {
  }

  /** Deleting some of a machine's jobs takes the machine along exactly when it
      waits for one of them, and never takes anything else. */
  lemma DeletingJobs(rows: Rows, r: Ref, jobs: set<Ref>)
    requires Typed(rows) && Pending(rows)
    requires r.Vm? && jobs <= JobsOf(rows, r)
    ensures Delete(rows, jobs) == rows - (jobs + Waiting(rows, r, jobs))
  {
    JobsDependents(rows, r, jobs);
    var waiting := Waiting(rows, r, jobs);
    assert waiting == {} ==> jobs + waiting == jobs;
    assert Collect(rows, jobs + waiting) == jobs + waiting;
    assert Collect(rows, jobs) == jobs + waiting;
  }
}
