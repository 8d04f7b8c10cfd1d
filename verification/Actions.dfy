/** The requests as the views carry them out, step by step on the database. */
module Actions {
  import opened Wrappers
  import opened Database
  import opened Caching
  import opened Lifecycle
  import opened Requests

  lemma LoadedIsObject(rows: Rows, r: Ref, v: Visit, now: int)
    requires r in rows && rows[r].ObjectRow? && |v.jobs| == |v.replies|
    ensures Load(rows, r, v, now).self.row.ObjectRow?
  {
  }

  /** Instantiates an object, which loads its info. */
  method Instantiate(store: Store, r: Ref, v: Visit, now: int) returns (obj: CachedClusterObject, raised: bool)
    requires r in store.rows && store.rows[r].ObjectRow? && |v.jobs| == |v.replies|
    modifies store
    ensures fresh(obj) && obj.ref == r && obj.store == store
    ensures Outcome(store.rows, Loaded(obj.live, obj.row, obj.error), raised) == Load(old(store.rows), r, v, now)
    ensures obj.row.ObjectRow?
  {
    LoadedIsObject(store.rows, r, v, now);
    obj := new CachedClusterObject(r, store);
    raised := obj.LoadInfo(v, now);
  }

  /** Every method that starts a job ends like this: record the job, then make the row wait for it. */
  method StartJob(store: Store, next: nat, r: Ref, jobId: int, hostname: Option<string>)
    requires r in store.rows && store.rows[r].ObjectRow?
    modifies store
    ensures store.rows == Started(old(store.rows), next, r, jobId, hostname)
  {
    var row := store.rows[r];
    store.rows := store.rows[Job(next) := JobRow(HomeOf(r, row), jobId, r)];
    row := row.(lastJob := Some(next), ignoreCache := true);
    if hostname.Some? {
      row := row.(hostname := hostname.value);
    }
    store.rows := store.rows[r := row];
  }

  /** Views report an exception that leaves them as `raised`; what they have
      written by then is for the transaction to take back. */
  method Destroy(store: Store, next: nat, e: Event, now: int) returns (raised: bool)
    requires e.Destroy? && e.r in store.rows && store.rows[e.r].ObjectRow? && |e.v.jobs| == |e.v.replies|
    modifies store
    ensures var o := Load(old(store.rows), e.r, e.v, now);
            && o.self.row.ObjectRow?
            && (raised <==> DestroyDies(o, e))
            && (!raised ==> store.rows == Destroyed(o, next, e))
  {
    var vm;
    vm, raised := Instantiate(store, e.r, e.v, now);
    if raised {
      return;
    }
    if Fetches(e.r, vm.row) {
      // The server is asked whether it still knows the machine.
      if e.lookup == Missing {
        store.rows := if vm.live then Delete(store.rows, {e.r}) else store.rows;
        return !vm.live;
      } else if e.lookup == Unreachable {
        return true;
      }
    }
    if vm.live {
      store.rows := Delete(store.rows, JobsOf(store.rows, e.r));
    }
    if !e.accepted || !vm.live {
      // The server refuses, or the job has no key to point at.
      return true;
    }
    store.rows := store.rows[Job(next) := JobRow(HomeOf(e.r, vm.row), e.jobId, e.r)];
    var row := vm.row.(lastJob := Some(next), ignoreCache := true, pendingDelete := true);
    if !Saves(e.r, row, e.tagged) {
      return true;
    }
    store.rows := store.rows[e.r := row];
  }

  method Clear(store: Store, next: nat, job: nat, v: Visit, tagged: bool, now: int) returns (raised: bool)
    requires Job(job) in store.rows && store.rows[Job(job)].JobRow?
    requires var target := store.rows[Job(job)].target;
             target in store.rows ==> store.rows[target].ObjectRow? && |v.jobs| == |v.replies|
    modifies store
    ensures var target := old(store.rows)[Job(job)].target;
            if target !in old(store.rows) then !raised && store.rows == Delete(old(store.rows), {Job(job)})
            else
              var o := Load(old(store.rows), target, v, now);
              && o.self.row.ObjectRow?
              && (raised <==> ClearDies(o, job, target, tagged))
              && (!raised ==> store.rows == Cleared(o, next, target, job))
  {
    raised := false;
    var target := store.rows[Job(job)].target;
    if target in store.rows {
      var obj;
      obj, raised := Instantiate(store, target, v, now);
      if raised {
        return;
      }
      if obj.row.lastJob.Some? && Job(obj.row.lastJob.value) !in store.rows {
        // The key is followed to a job that is gone.
        return true;
      }
      if obj.row.lastJob == Some(job) {
        var row := obj.row.(lastJob := None, ignoreCache := false);
        if !Saves(target, row, tagged) {
          return true;
        }
        if obj.live {
          store.rows := store.rows[target := row];
        } else {
          store.rows := store.rows[Vm(next) := row];
        }
      }
    }
    store.rows := Delete(store.rows, {Job(job)});
  }

  /** Changing a machine's owner: the loaded row is saved.  A forced save must find it;
      any other inserts it under the next key if it is gone. */
  method Save(store: Store, next: nat, e: Event, now: int) returns (raised: bool)
    requires e.Save? && e.r in store.rows && store.rows[e.r].ObjectRow? && |e.v.jobs| == |e.v.replies|
    modifies store
    ensures var o := Load(old(store.rows), e.r, e.v, now);
            && o.self.row.ObjectRow?
            && raised == SaveDies(o, e.r, e.tagged, e.forced)
            && (!raised ==> store.rows == o.rows[if o.self.live then e.r else Vm(next) := o.self.row])
  {
    var obj;
    obj, raised := Instantiate(store, e.r, e.v, now);
    if raised || !Saves(e.r, obj.row, e.tagged) {
      return true;
    }
    if obj.live {
      store.rows := store.rows[e.r := obj.row];
    } else if e.forced || (obj.row.lastJob.Some? && Job(obj.row.lastJob.value) !in store.rows) {
      // There is no key to update, or the new row's own key would dangle.
      return true;
    } else {
      store.rows := store.rows[Vm(next) := obj.row];
    }
  }

  /** Runs the view a request asks for. */
  method Dispatch(store: Store, next: nat, now: int, e: Event) returns (raised: bool)
    requires e.Visiting? || e.StartJob? || e.Destroy? || e.Clear? || e.Save?
    requires if e.Clear? then Job(e.job) in store.rows && store.rows[Job(e.job)].JobRow?
             else e.r in store.rows && store.rows[e.r].ObjectRow?
    requires e.Visiting? || e.Destroy? || e.Save? ==> |e.v.jobs| == |e.v.replies|
    requires e.Clear? ==>
               var target := store.rows[Job(e.job)].target;
               target in store.rows ==> store.rows[target].ObjectRow? && |e.v.jobs| == |e.v.replies|
    modifies store
    ensures Dispatched(old(store.rows), next, now, e, store.rows, raised)
  {
    match e
    case Visiting(r, v) =>
      var obj;
      obj, raised := Instantiate(store, r, v, now);
    case StartJob(r, jobId, hostname) =>
      StartJob(store, next, r, jobId, hostname);
      raised := false;
    case Destroy(_, _, _, _, _, _) =>
      raised := Destroy(store, next, e, now);
    case Clear(job, v, tagged) =>
      raised := Clear(store, next, job, v, tagged, now);
    case Save(_, _, _, _) =>
      raised := Save(store, next, e, now);
  }

  /** What the views' contracts say, in one predicate. */
  ghost predicate Dispatched(before: Rows, next: nat, now: int, e: Event, after: Rows, raised: bool) {
    match e
    case Visiting(r, v) =>
      r in before && before[r].ObjectRow? && |v.jobs| == |v.replies| &&
      var o := Load(before, r, v, now);
      after == o.rows && raised == o.raised
    case StartJob(r, jobId, hostname) =>
      r in before && before[r].ObjectRow? && !raised && after == Started(before, next, r, jobId, hostname)
    case Destroy(r, v, _, _, _, _) =>
      r in before && before[r].ObjectRow? && |v.jobs| == |v.replies| &&
      var o := Load(before, r, v, now);
      o.self.row.ObjectRow? && raised == DestroyDies(o, e) && (!raised ==> after == Destroyed(o, next, e))
    case Clear(job, v, tagged) =>
      Job(job) in before && before[Job(job)].JobRow? &&
      var target := before[Job(job)].target;
      if target !in before then !raised && after == Delete(before, {Job(job)})
      else
        before[target].ObjectRow? && |v.jobs| == |v.replies| &&
        var o := Load(before, target, v, now);
        && o.self.row.ObjectRow? && raised == ClearDies(o, job, target, tagged)
        && (!raised ==> after == Cleared(o, next, target, job))
    case Save(r, v, tagged, forced) =>
      r in before && before[r].ObjectRow? && |v.jobs| == |v.replies| &&
      var o := Load(before, r, v, now);
      && o.self.row.ObjectRow? && raised == SaveDies(o, r, tagged, forced)
      && (!raised ==> after == o.rows[if o.self.live then r else Vm(next) := o.self.row])
    case _ => false
  }

  /** A request: its view runs in one transaction, which an exception rolls back.
      What is left is the step that the theorems about runs are about. */
  method Handle(store: Store, ghost w: World, next: nat, now: int, e: Event)
    requires e.Visiting? || e.StartJob? || e.Destroy? || e.Clear? || e.Save?
    requires w.rows == store.rows && w.next == next && w.now == now && Inv(w) && Enabled(w, e)
    modifies store
    ensures store.rows == Exec(w, e).rows
  {
    TypedEnough(w, e);
    var before := store.rows;
    var raised := Dispatch(store, next, now, e);
    DispatchedIsExec(w, e, store.rows, raised);
    if raised {
      store.rows := before;
    }
  }

  lemma TypedEnough(w: World, e: Event)
    requires Inv(w) && Enabled(w, e)
    requires e.Visiting? || e.StartJob? || e.Destroy? || e.Clear? || e.Save?
    ensures if e.Clear? then Job(e.job) in w.rows && w.rows[Job(e.job)].JobRow?
            else e.r in w.rows && w.rows[e.r].ObjectRow?
    ensures e.Visiting? || e.Destroy? || e.Save? ==> |e.v.jobs| == |e.v.replies|
    ensures e.Clear? ==>
              var target := w.rows[Job(e.job)].target;
              target in w.rows ==> w.rows[target].ObjectRow? && |e.v.jobs| == |e.v.replies|
  {
  }

  /** Committing what a view wrote, or rolling it back, is the request's step. */
  lemma DispatchedIsExec(w: World, e: Event, after: Rows, raised: bool)
    requires Inv(w) && Enabled(w, e)
    requires Dispatched(w.rows, w.next, w.now, e, after, raised)
    ensures Exec(w, e).rows == if raised then w.rows else after
  {
    hide Inv, VisitOk, Load, Destroyed, Cleared, Fetches, Saves, Dangling, Detaches;
  }
}
