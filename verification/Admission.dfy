/** Quota checks before starting or modifying a machine, and what they guarantee over runs. */
module Admission {
  import opened Wrappers
  import opened Tallies
  import opened Resources
  import opened Quotas

  // ---- The checks ----

  predicate NonZero(x: Option<int>) {
    x.Some? && x.value != 0
  }

  /** Whether any entry of the quota dictionary is truthy; a default quota carries a one. */
  predicate AnyTruthy(q: Quota) {
    q.byDefault || NonZero(q.limits.ram) || NonZero(q.limits.disk) || NonZero(q.limits.virtualCpus)
  }

  predicate Over(amount: int, limit: Option<int>) {
    limit.Some? && amount > limit.value
  }

  /** The start view's check for an owned machine of somebody who is no superuser. */
  method MayStart(m: Machine, q: Quota, used: Usage) returns (allowed: bool)
    ensures allowed <==> StartAllowed(m, q, used)
  {
    if AnyTruthy(q) {
      if q.limits.ram.Some? && used.ram + m.ram > q.limits.ram.value {
        return false;
      }
      if NonZero(q.limits.virtualCpus) && used.cpus + m.cpus > q.limits.virtualCpus.value {
        return false;
      }
    }
    return true;
  }

  predicate StartAllowed(m: Machine, q: Quota, used: Usage) {
    AnyTruthy(q) ==>
      && !Over(used.ram + m.ram, q.limits.ram)
      && !(NonZero(q.limits.virtualCpus) && Over(used.cpus + m.cpus, q.limits.virtualCpus))
  }

  datatype Key = Memory | MaxMemory | Vcpus | DiskSize

  /** The part of a modify form the quota check works on. */
  class ModifyForm {
    var data: map<Key, int>
    var errors: set<Key>

    constructor (data: map<Key, int>)
      ensures this.data == data && errors == {}
    {
      this.data := data;
      errors := {};
    }

    /** Drops every entry over quota and marks it as an error. */
    method CheckQuotaModify(balloon: bool, owned: bool, start: bool, m: Machine, q: Quota, used: Usage)
      requires owned && start ==> (if balloon then MaxMemory else Memory) in data && Vcpus in data
      requires errors == {}
      modifies this
      ensures errors == if owned then OverQuota(old(data), balloon, start, m, q, used) else {}
      ensures data == old(data) - errors
    {
      var memory := if balloon then MaxMemory else Memory;
      if owned {
        if start && q.limits.ram.Some? && used.ram + data[memory] - m.ram > q.limits.ram.value {
          data := data - {memory};
          errors := errors + {memory};
        }
        if DiskSize in data && data[DiskSize] != 0 {
          if NonZero(q.limits.disk) && used.disk + data[DiskSize] > q.limits.disk.value {
            data := data - {DiskSize};
            errors := errors + {DiskSize};
          }
        }
        if start && q.limits.virtualCpus.Some? && used.cpus + data[Vcpus] - m.cpus > q.limits.virtualCpus.value {
          data := data - {Vcpus};
          errors := errors + {Vcpus};
        }
      }
    }
  }

  /** The entries of a form that go over quota. */
  function OverQuota(data: map<Key, int>, balloon: bool, start: bool, m: Machine, q: Quota, used: Usage): set<Key> {
    var memory := if balloon then MaxMemory else Memory;
    (if start && memory in data && Over(used.ram + data[memory] - m.ram, q.limits.ram) then {memory} else {})
    + (if DiskSize in data && data[DiskSize] != 0 && NonZero(q.limits.disk)
          && Over(used.disk + data[DiskSize], q.limits.disk) then {DiskSize} else {})
    + (if start && Vcpus in data && Over(used.cpus + data[Vcpus] - m.cpus, q.limits.virtualCpus) then {Vcpus} else {})
  }

  /** A confirmed change of a machine's memory and processors passes the check. */
  predicate ModifyAllowed(m: Machine, ram: int, cpus: int, q: Quota, used: Usage) {
    OverQuota(map[Memory := ram, Vcpus := cpus], false, m.running, m, q, used) == {}
  }

  lemma ModifyAllowedIff(m: Machine, ram: int, cpus: int, q: Quota, used: Usage)
    ensures ModifyAllowed(m, ram, cpus, q, used) <==>
              (m.running ==>
                && !Over(used.ram + ram - m.ram, q.limits.ram)
                && !Over(used.cpus + cpus - m.cpus, q.limits.virtualCpus))
  {
  }

  // ---- Totals ----

  /** What one machine adds to the running totals of an owner on a cluster. */
  function Share(m: Machine, owner: nat, cluster: nat): Usage {
    if Counts(m, owner) && m.cluster == cluster && m.running then Usage(m.ram, 0, m.cpus) else NO_USAGE
  }

  /** The running totals in memory and processors. */
  function Running(ms: seq<Machine>, owner: nat, cluster: nat): Usage {
    if ms == [] then NO_USAGE
    else
      var before, share := Running(ms[..|ms| - 1], owner, cluster), Share(ms[|ms| - 1], owner, cluster);
      Usage(before.ram + share.ram, 0, before.cpus + share.cpus)
  }

  /** They are what the sum query over running machines returns. */
  lemma {:induction false} RunningIsUsed(ms: seq<Machine>, owner: nat, cluster: nat)
    ensures UsedOn(ms, owner, cluster, true).ram == Running(ms, owner, cluster).ram
    ensures UsedOn(ms, owner, cluster, true).cpus == Running(ms, owner, cluster).cpus
  {
    hide UsedOn, Share, Counts;
    if ms == [] {
      NothingUsed(owner, cluster, true);
    } else {
      RunningIsUsed(ms[..|ms| - 1], owner, cluster);
      ShareStep(ms, owner, cluster);
    }
  }

  lemma ShareStep(ms: seq<Machine>, owner: nat, cluster: nat)
    requires ms != []
    ensures var before, after, share := UsedOn(ms[..|ms| - 1], owner, cluster, true), UsedOn(ms, owner, cluster, true),
                                        Share(ms[|ms| - 1], owner, cluster);
            after.ram == before.ram + share.ram && after.cpus == before.cpus + share.cpus
  {
    assert ms == ms[..|ms| - 1] + [ms[|ms| - 1]];
    hide UsedOn;
    UsedGrows(ms[..|ms| - 1], ms[|ms| - 1], owner, cluster, true);
  }

  /** Replacing one machine moves the totals by the difference of the shares. */
  lemma {:induction false} RunningReplace(ms: seq<Machine>, i: nat, m: Machine, owner: nat, cluster: nat)
    requires i < |ms|
    ensures var before, after := Running(ms, owner, cluster), Running(ms[i := m], owner, cluster);
            && after.ram == before.ram - Share(ms[i], owner, cluster).ram + Share(m, owner, cluster).ram
            && after.cpus == before.cpus - Share(ms[i], owner, cluster).cpus + Share(m, owner, cluster).cpus
  {
    if i == |ms| - 1 {
      assert ms[i := m][..|ms| - 1] == ms[..|ms| - 1];
    } else {
      assert ms[i := m][..|ms| - 1] == ms[..|ms| - 1][i := m];
      RunningReplace(ms[..|ms| - 1], i, m, owner, cluster);
    }
  }

  // ---- Runs ----

  /** What users who are no superusers do to machines; an admitted action takes effect at once. */
  datatype Action = Start(i: nat) | Stop(i: nat) | Modify(i: nat, ram: nat, cpus: nat)

  function Effect(m: Machine, a: Action): Machine {
    match a
    case Start(_) => m.(running := true)
    case Stop(_) => m.(running := false)
    case Modify(_, ram, cpus) => m.(ram := ram, cpus := cpus)
  }

  /** `q` is the quota of `owner` on `cluster`; other machines answer to other quotas. */
  predicate Admitted(ms: seq<Machine>, a: Action, owner: nat, cluster: nat, q: Quota) {
    && a.i < |ms|
    && var m := ms[a.i];
       (m.owner == Some(owner) && m.cluster == cluster ==>
          match a
          case Start(_) => StartAllowed(m, q, UsedOn(ms, owner, cluster, true))
          case Stop(_) => true
          case Modify(_, ram, cpus) => ModifyAllowed(m, ram, cpus, q, UsedOn(ms, owner, cluster, true)))
  }

  ghost predicate AllAdmitted(ms: seq<Machine>, acts: seq<Action>, owner: nat, cluster: nat, q: Quota)
    decreases |acts|
  {
    acts == [] ||
    (Admitted(ms, acts[0], owner, cluster, q)
     && AllAdmitted(ms[acts[0].i := Effect(ms[acts[0].i], acts[0])], acts[1..], owner, cluster, q))
  }

  function Run(ms: seq<Machine>, acts: seq<Action>): seq<Machine>
    decreases |acts|
  {
    if acts == [] then ms
    else if acts[0].i < |ms| then Run(ms[acts[0].i := Effect(ms[acts[0].i], acts[0])], acts[1..])
    else Run(ms, acts[1..])
  }

  /** A row's sizes are written together: they are all unknown or all known. */
  predicate WellSized(m: Machine) {
    (m.ram == -1 && m.disk == -1 && m.cpus == -1) || (m.ram >= 0 && m.cpus >= 0)
  }

  ghost predicate AllSized(ms: seq<Machine>) {
    forall i :: 0 <= i < |ms| ==> WellSized(ms[i])
  }

  /** The running totals respect the memory limit and a positive processor limit. */
  predicate Within(ms: seq<Machine>, owner: nat, cluster: nat, q: Quota) {
    && !Over(Running(ms, owner, cluster).ram, q.limits.ram)
    && (q.limits.virtualCpus.Some? && q.limits.virtualCpus.value > 0 ==>
          !Over(Running(ms, owner, cluster).cpus, q.limits.virtualCpus))
  }

  lemma AdmittedStaysWithin(ms: seq<Machine>, a: Action, owner: nat, cluster: nat, q: Quota)
    requires AllSized(ms) && AnyTruthy(q) && Within(ms, owner, cluster, q)
    requires Admitted(ms, a, owner, cluster, q)
    ensures var after := ms[a.i := Effect(ms[a.i], a)]; AllSized(after) && Within(after, owner, cluster, q)
  {
    var m := ms[a.i];
    assert WellSized(m);
    RunningReplace(ms, a.i, Effect(m, a), owner, cluster);
    RunningIsUsed(ms, owner, cluster);
    if a.Modify? {
      ModifyAllowedIff(m, a.ram, a.cpus, q, UsedOn(ms, owner, cluster, true));
    }
  }

  /** No run of admitted actions takes the running totals over a quota that has some truthy entry. */
  lemma {:induction false} RunsStayWithin(ms: seq<Machine>, acts: seq<Action>, owner: nat, cluster: nat, q: Quota)
    requires AllSized(ms) && AnyTruthy(q) && Within(ms, owner, cluster, q)
    requires AllAdmitted(ms, acts, owner, cluster, q)
    ensures Within(Run(ms, acts), owner, cluster, q)
    decreases |acts|
  {
    if acts != [] {
      AdmittedStaysWithin(ms, acts[0], owner, cluster, q);
      RunsStayWithin(ms[acts[0].i := Effect(ms[acts[0].i], acts[0])], acts[1..], owner, cluster, q);
    }
  }

  /** For a running machine the modify check accepts exactly the changes after which
      both totals fit; if none of the machine's sizes is known, with one to spare, since
      the check takes off the -1 that the totals never had. */
  lemma ModifyCheckIsExact(ms: seq<Machine>, i: nat, ram: nat, cpus: nat, owner: nat, cluster: nat, q: Quota)
    requires i < |ms| && ms[i].running && ms[i].owner == Some(owner) && ms[i].cluster == cluster
    ensures var after := Running(ms[i := ms[i].(ram := ram, cpus := cpus)], owner, cluster);
            var spare := if ms[i].ram == -1 && ms[i].disk == -1 && ms[i].cpus == -1 then 1 else 0;
            Admitted(ms, Modify(i, ram, cpus), owner, cluster, q) <==>
              && (q.limits.ram.Some? ==> after.ram + spare <= q.limits.ram.value)
              && (q.limits.virtualCpus.Some? ==> after.cpus + spare <= q.limits.virtualCpus.value)
  {
    hide Running, UsedOn, ModifyAllowed;
    RunningReplace(ms, i, Effect(ms[i], Modify(i, ram, cpus)), owner, cluster);
    RunningIsUsed(ms, owner, cluster);
    ModifyAllowedIff(ms[i], ram, cpus, q, UsedOn(ms, owner, cluster, true));
  }

  /** A shutdown, always admitted, gives back what the machine added to the totals. */
  lemma StopGivesBack(ms: seq<Machine>, i: nat, owner: nat, cluster: nat, q: Quota)
    requires i < |ms|
    ensures var before, after := Running(ms, owner, cluster), Running(Run(ms, [Stop(i)]), owner, cluster);
            var m := ms[i];
            var added := && m.running && m.owner == Some(owner) && m.cluster == cluster
                         && !(m.ram == m.disk == m.cpus == -1);
            && Admitted(ms, Stop(i), owner, cluster, q)
            && after.ram == before.ram - (if added then m.ram else 0)
            && after.cpus == before.cpus - (if added then m.cpus else 0)
  {
    hide Running;
    assert [Stop(i)][1..] == [];
    RunningReplace(ms, i, Effect(ms[i], Stop(i)), owner, cluster);
  }

  /** One owner's quota on one cluster stands in no other machine's way. */
  lemma OthersAreAdmitted(ms: seq<Machine>, a: Action, owner: nat, cluster: nat, q: Quota)
    requires a.i < |ms| && (ms[a.i].owner != Some(owner) || ms[a.i].cluster != cluster)
    ensures Admitted(ms, a, owner, cluster, q)
  {
  }

  /** For a stopped machine the start check admits exactly the starts after which the
      totals fit, as far as limits are looked at: none under a custom quota of zeros, and of the
      processors only a limit that is not zero.  If none of the machine's sizes is known, there
      is one more to spare, since the check adds the -1 that the totals never get. */
  lemma StartCheckIsExact(ms: seq<Machine>, i: nat, owner: nat, cluster: nat, q: Quota)
    requires i < |ms| && !ms[i].running && ms[i].owner == Some(owner) && ms[i].cluster == cluster
    ensures var after := Running(ms[i := ms[i].(running := true)], owner, cluster);
            var spare := if ms[i].ram == -1 && ms[i].disk == -1 && ms[i].cpus == -1 then 1 else 0;
            var Limits(ram, disk, cpus) := q.limits;
            var looked := || q.byDefault || (ram.Some? && ram.value != 0) || (disk.Some? && disk.value != 0)
                          || (cpus.Some? && cpus.value != 0);
            Admitted(ms, Start(i), owner, cluster, q) <==>
              (looked ==>
                 && (ram.Some? ==> after.ram - spare <= ram.value)
                 && (cpus.Some? && cpus.value != 0 ==> after.cpus - spare <= cpus.value))
  {
    hide Running, UsedOn;
    RunningReplace(ms, i, Effect(ms[i], Start(i)), owner, cluster);
    RunningIsUsed(ms, owner, cluster);
  }

  /** Which entries of a modify form are refused: the memory and the processors of a machine that
      runs or is to be started if the owner's totals would not fit with them in place of the
      machine's own; a disk size on top of all that is used already. */
  lemma OverQuotaIff(data: map<Key, int>, balloon: bool, start: bool, m: Machine, q: Quota, used: Usage)
    ensures var over := OverQuota(data, balloon, start, m, q, used);
            && (Memory in over <==> && start && !balloon && Memory in data && q.limits.ram.Some?
                                    && used.ram - m.ram + data[Memory] > q.limits.ram.value)
            && (MaxMemory in over <==> && start && balloon && MaxMemory in data && q.limits.ram.Some?
                                       && used.ram - m.ram + data[MaxMemory] > q.limits.ram.value)
            && (Vcpus in over <==> && start && Vcpus in data && q.limits.virtualCpus.Some?
                                   && used.cpus - m.cpus + data[Vcpus] > q.limits.virtualCpus.value)
            && (DiskSize in over <==> && DiskSize in data && data[DiskSize] != 0
                                      && q.limits.disk.Some? && q.limits.disk.value != 0
                                      && used.disk + data[DiskSize] > q.limits.disk.value)
  {
  }

  // ---- Where the start check does not hold ----

  /** No admitted start takes the memory total from within the limit to beyond it. */
  ghost predicate StartsKeepRam(ms: seq<Machine>, i: nat, owner: nat, cluster: nat, q: Quota) {
    i < |ms| && AllSized(ms) && !Over(Running(ms, owner, cluster).ram, q.limits.ram)
    && Admitted(ms, Start(i), owner, cluster, q)
    ==> !Over(Running(ms[i := Effect(ms[i], Start(i))], owner, cluster).ram, q.limits.ram)
  }

  ghost predicate StartsKeepCpus(ms: seq<Machine>, i: nat, owner: nat, cluster: nat, q: Quota) {
    i < |ms| && AllSized(ms) && !Over(Running(ms, owner, cluster).cpus, q.limits.virtualCpus)
    && Admitted(ms, Start(i), owner, cluster, q)
    ==> !Over(Running(ms[i := Effect(ms[i], Start(i))], owner, cluster).cpus, q.limits.virtualCpus)
  }

  /** A stopped machine of these sizes. */
  function Stopped(owner: nat, cluster: nat, ram: int, cpus: int): Machine {
    Machine(Some(owner), cluster, None, false, ram, 0, cpus)
  }

  lemma StoppedTotals(owner: nat, cluster: nat, ram: int, cpus: int)
    ensures var ms := [Stopped(owner, cluster, ram, cpus)];
            && Running(ms, owner, cluster) == NO_USAGE
            && UsedOn(ms, owner, cluster, true).ram == 0 && UsedOn(ms, owner, cluster, true).cpus == 0
            && Running(ms[0 := Effect(ms[0], Start(0))], owner, cluster) == Usage(ram, 0, cpus)
  {
    var ms := [Stopped(owner, cluster, ram, cpus)];
    assert ms[..0] == [];
    assert Running([], owner, cluster) == NO_USAGE;
    RunningIsUsed(ms, owner, cluster);
    RunningReplace(ms, 0, Effect(ms[0], Start(0)), owner, cluster);
  }

  /** A memory limit is enforced on starts exactly when the quota has a truthy
      entry; a custom quota of zeros admits everything. */
  lemma RamEnforcedIff(owner: nat, cluster: nat, q: Quota)
    requires q.limits.ram.Some? && q.limits.ram.value >= 0
    ensures (forall ms, i :: StartsKeepRam(ms, i, owner, cluster, q)) <==> AnyTruthy(q)
  {
    if AnyTruthy(q) {
      forall ms: seq<Machine>, i: nat | i < |ms| && AllSized(ms)
        ensures StartsKeepRam(ms, i, owner, cluster, q)
      {
        RunningReplace(ms, i, Effect(ms[i], Start(i)), owner, cluster);
        RunningIsUsed(ms, owner, cluster);
      }
    } else {
      StoppedTotals(owner, cluster, 1, 0);
      assert !StartsKeepRam([Stopped(owner, cluster, 1, 0)], 0, owner, cluster, q);
    }
  }

  /** A processor limit is enforced on starts exactly when it is positive. */
  lemma CpusEnforcedIff(owner: nat, cluster: nat, q: Quota)
    requires q.limits.virtualCpus.Some? && q.limits.virtualCpus.value >= 0
    requires q.limits.ram.Some? ==> q.limits.ram.value >= 0
    ensures (forall ms, i :: StartsKeepCpus(ms, i, owner, cluster, q)) <==> q.limits.virtualCpus.value > 0
  {
    if q.limits.virtualCpus.value > 0 {
      forall ms: seq<Machine>, i: nat | i < |ms| && AllSized(ms)
        ensures StartsKeepCpus(ms, i, owner, cluster, q)
      {
        RunningReplace(ms, i, Effect(ms[i], Start(i)), owner, cluster);
        RunningIsUsed(ms, owner, cluster);
      }
    } else {
      StoppedTotals(owner, cluster, 0, 1);
      assert !StartsKeepCpus([Stopped(owner, cluster, 0, 1)], 0, owner, cluster, q);
    }
  }
}
