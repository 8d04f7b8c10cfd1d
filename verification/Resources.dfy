/** Resource sums of owners and nodes: the fast grouped queries against the simple ones. */
module Resources {
  import opened Wrappers
  import opened Tallies

  datatype Machine = Machine(owner: Option<nat>, cluster: nat, node: Option<nat>, running: bool,
                             ram: int, disk: int, cpus: int)

  datatype Usage = Usage(ram: int, disk: int, cpus: int)

  const NO_USAGE := Usage(0, 0, 0)

  // ---- What an owner uses ----

  /** A machine none of whose sizes is known does not count; one unknown size alone does. */
  predicate Sized(m: Machine) {
    !(m.ram == -1 && m.disk == -1 && m.cpus == -1)
  }

  predicate Counts(m: Machine, owner: nat) {
    m.owner == Some(owner) && Sized(m)
  }

  datatype Column = Ram | Disk | Cpus

  /** What a machine adds to a column; memory and processors only while it runs, if so asked. */
  function Amount(m: Machine, column: Column, onlyRunning: bool): Option<int> {
    match column
    case Ram => if !onlyRunning || m.running then Some(m.ram) else None
    case Disk => Some(m.disk)
    case Cpus => if !onlyRunning || m.running then Some(m.cpus) else None
  }

  /** The owner's machines as the query sees them, keyed by cluster. */
  function Items(ms: seq<Machine>, owner: nat, column: Column, onlyRunning: bool): seq<Item<nat>> {
    if ms == [] then []
    else
      var m := ms[|ms| - 1];
      Items(ms[..|ms| - 1], owner, column, onlyRunning)
      + (if Counts(m, owner) then [Item(m.cluster, Amount(m, column, onlyRunning))] else [])
  }

  /** The use on one cluster. */
  function UsedOn(ms: seq<Machine>, owner: nat, cluster: nat, onlyRunning: bool): Usage {
    Usage(OrZero(Total(Only(Items(ms, owner, Ram, onlyRunning), cluster))),
          OrZero(Total(Only(Items(ms, owner, Disk, onlyRunning), cluster))),
          OrZero(Total(Only(Items(ms, owner, Cpus, onlyRunning), cluster))))
  }

  ghost predicate HasCounted(ms: seq<Machine>, owner: nat, cluster: nat) {
    exists m :: m in ms && Counts(m, owner) && m.cluster == cluster
  }

  /** The use on all clusters, from one grouped query, repacked as a dictionary. */
  method UsedResources(ms: seq<Machine>, owner: nat, onlyRunning: bool) returns (result: map<nat, Usage>)
    ensures forall c :: c in result <==> HasCounted(ms, owner, c)
    ensures forall c :: c in result ==> result[c] == UsedOn(ms, owner, c, onlyRunning)
    ensures forall c :: c !in result ==> UsedOn(ms, owner, c, onlyRunning) == NO_USAGE
  {
    hide HasCounted, Items, Only, Total, Grouped;
    var uram := ComputeGroups(Items(ms, owner, Ram, onlyRunning));
    var udisk := ComputeGroups(Items(ms, owner, Disk, onlyRunning));
    var ucpus := ComputeGroups(Items(ms, owner, Cpus, onlyRunning));
    result := map[];
    var rest := uram.Keys;
    while rest != {}
      invariant rest <= uram.Keys
      invariant result.Keys == uram.Keys - rest
      invariant forall c :: c in result ==> result[c] == UsedOn(ms, owner, c, onlyRunning)
      decreases |rest|
    {
      var c :| c in rest;
      GroupsMatch(ms, owner, c, onlyRunning);
      result := result[c := Usage(OrZero(uram[c]), OrZero(udisk[c]), OrZero(ucpus[c]))];
      rest := rest - {c};
    }
    forall c
      ensures c in result <==> HasCounted(ms, owner, c)
      ensures c !in result ==> UsedOn(ms, owner, c, onlyRunning) == NO_USAGE
    {
      GroupsMatch(ms, owner, c, onlyRunning);
    }
  }

  ghost predicate GroupMatches(ms: seq<Machine>, owner: nat, c: nat, column: Column, onlyRunning: bool) {
    var items := Items(ms, owner, column, onlyRunning);
    && (c in Grouped(items) <==> HasCounted(ms, owner, c))
    && At(Grouped(items), c) == Total(Only(items, c))
    && (!HasCounted(ms, owner, c) ==> Total(Only(items, c)) == None)
  }

  /** The three grouped columns have the same keys and agree with the queries per cluster. */
  lemma GroupsMatch(ms: seq<Machine>, owner: nat, c: nat, onlyRunning: bool)
    ensures GroupMatches(ms, owner, c, Ram, onlyRunning)
    ensures GroupMatches(ms, owner, c, Disk, onlyRunning)
    ensures GroupMatches(ms, owner, c, Cpus, onlyRunning)
  {
    ColumnMatches(ms, owner, c, Ram, onlyRunning);
    ColumnMatches(ms, owner, c, Disk, onlyRunning);
    ColumnMatches(ms, owner, c, Cpus, onlyRunning);
  }

  lemma ColumnMatches(ms: seq<Machine>, owner: nat, c: nat, column: Column, onlyRunning: bool)
    ensures GroupMatches(ms, owner, c, column, onlyRunning)
  {
    GroupedAgrees(Items(ms, owner, column, onlyRunning), c);
    SomethingCounted(ms, owner, c, column, onlyRunning);
  }

  lemma CountedStep(ms: seq<Machine>, owner: nat, cluster: nat)
    requires ms != []
    ensures var most, m := ms[..|ms| - 1], ms[|ms| - 1];
            HasCounted(ms, owner, cluster) <==>
              HasCounted(most, owner, cluster) || (Counts(m, owner) && m.cluster == cluster)
  {
  }

  lemma {:induction false} SomethingCounted(ms: seq<Machine>, owner: nat, cluster: nat, column: Column,
                                            onlyRunning: bool)
    ensures Only(Items(ms, owner, column, onlyRunning), cluster) != [] <==> HasCounted(ms, owner, cluster)
  {
    if ms != [] {
      hide HasCounted, Counts, Amount;
      var most, m := ms[..|ms| - 1], ms[|ms| - 1];
      SomethingCounted(most, owner, cluster, column, onlyRunning);
      CountedStep(ms, owner, cluster);
      var items := Items(ms, owner, column, onlyRunning);
      if Counts(m, owner) {
        assert items[..|items| - 1] == Items(most, owner, column, onlyRunning);
      } else {
        assert items == Items(most, owner, column, onlyRunning);
      }
    }
  }

  lemma ColumnStep(ms: seq<Machine>, m: Machine, owner: nat, cluster: nat, column: Column, onlyRunning: bool)
    ensures Total(Only(Items(ms + [m], owner, column, onlyRunning), cluster)) ==
              if Counts(m, owner) && m.cluster == cluster
              then Plus(Total(Only(Items(ms, owner, column, onlyRunning), cluster)), Amount(m, column, onlyRunning))
              else Total(Only(Items(ms, owner, column, onlyRunning), cluster))
  {
    assert (ms + [m])[..|ms|] == ms;
    var items, before := Items(ms + [m], owner, column, onlyRunning), Items(ms, owner, column, onlyRunning);
    if Counts(m, owner) {
      assert items[..|items| - 1] == before;
      var after := Only(items, cluster);
      if m.cluster == cluster {
        assert after[..|after| - 1] == Only(before, cluster);
      } else {
        assert after == Only(before, cluster);
      }
    } else {
      assert items == before;
    }
  }

  /** The use on a cluster, machine by machine: the disk of every counted machine of the owner
      there, and its memory and processors, while it runs if only running ones are asked for. */
  lemma UsedGrows(ms: seq<Machine>, m: Machine, owner: nat, cluster: nat, onlyRunning: bool)
    ensures UsedOn([], owner, cluster, onlyRunning) == Usage(0, 0, 0)
    ensures var before, after := UsedOn(ms, owner, cluster, onlyRunning), UsedOn(ms + [m], owner, cluster, onlyRunning);
            var counted := m.owner == Some(owner) && m.cluster == cluster && !(m.ram == m.disk == m.cpus == -1);
            var runs := !onlyRunning || m.running;
            && after.ram == before.ram + (if counted && runs then m.ram else 0)
            && after.disk == before.disk + (if counted then m.disk else 0)
            && after.cpus == before.cpus + (if counted && runs then m.cpus else 0)
  {
    hide Items, Only, Total;
    NothingUsed(owner, cluster, onlyRunning);
    ColumnStep(ms, m, owner, cluster, Ram, onlyRunning);
    ColumnStep(ms, m, owner, cluster, Disk, onlyRunning);
    ColumnStep(ms, m, owner, cluster, Cpus, onlyRunning);
  }

  lemma NothingUsed(owner: nat, cluster: nat, onlyRunning: bool)
    ensures UsedOn([], owner, cluster, onlyRunning) == NO_USAGE
  {
  }

  // ---- What runs on the nodes ----

  predicate Occupies(m: Machine) {
    m.running && m.cpus != -1
  }

  /** The running machines of a cluster, or of every cluster, keyed by primary node. */
  function Placed(ms: seq<Machine>, cluster: Option<nat>): seq<Item<Option<nat>>> {
    if ms == [] then []
    else
      var m := ms[|ms| - 1];
      Placed(ms[..|ms| - 1], cluster)
      + (if Occupies(m) && (cluster.None? || m.cluster == cluster.value) then [Item(m.node, Some(m.cpus))] else [])
  }

  /** The processors allocated on a node, wherever its machines belong. */
  function AllocatedCpus(ms: seq<Machine>, node: nat): int {
    OrZero(Total(Only(Placed(ms, None), Some(node))))
  }

  /** The processors running machines of one cluster use. */
  function RunningCpus(ms: seq<Machine>, cluster: nat): int {
    OrZero(Total(Placed(ms, Some(cluster))))
  }

  /** The processors on a node that belong to machines of other clusters. */
  function ForeignCpus(ms: seq<Machine>, cluster: nat, node: nat): int {
    if ms == [] then 0
    else
      var m := ms[|ms| - 1];
      ForeignCpus(ms[..|ms| - 1], cluster, node)
      + (if Occupies(m) && m.cluster != cluster && m.node == Some(node) then m.cpus else 0)
  }

  /** The table of a cluster's nodes: one grouped query, then zeros for the nodes without machines. */
  method NodeCpus(ms: seq<Machine>, cluster: nat, nodes: seq<nat>) returns (cpus: map<Option<nat>, Option<int>>)
    ensures forall n :: n in nodes ==> Some(n) in cpus
    ensures forall n: nat :: Some(n) in cpus ==>
              cpus[Some(n)].Some? && AllocatedCpus(ms, n) == cpus[Some(n)].value + ForeignCpus(ms, cluster, n)
    ensures SumValues(cpus) == RunningCpus(ms, cluster)
  {
    var values := ComputeGroups(Placed(ms, Some(cluster)));
    GroupsAddUp(Placed(ms, Some(cluster)));
    cpus := values;
    for i := 0 to |nodes|
      invariant forall j :: 0 <= j < i ==> Some(nodes[j]) in cpus
      invariant forall k :: k in values ==> k in cpus && cpus[k] == values[k]
      invariant forall k :: k in cpus && k !in values ==> cpus[k] == Some(0)
      invariant SumValues(cpus) == RunningCpus(ms, cluster)
    {
      if Some(nodes[i]) !in cpus {
        SumValuesUpdate(cpus, Some(nodes[i]), Some(0));
        cpus := cpus[Some(nodes[i]) := Some(0)];
      }
    }
    forall n: nat | Some(n) in cpus
      ensures cpus[Some(n)].Some? && AllocatedCpus(ms, n) == cpus[Some(n)].value + ForeignCpus(ms, cluster, n)
    {
      GroupedAgrees(Placed(ms, Some(cluster)), Some(n));
      SplitByCluster(ms, cluster, n);
    }
  }

  /** A node's processors are those of the cluster's machines on it and the foreign ones. */
  lemma {:induction false} SplitByCluster(ms: seq<Machine>, cluster: nat, node: nat)
    ensures var own := Only(Placed(ms, Some(cluster)), Some(node));
            && AllocatedCpus(ms, node) == OrZero(Total(own)) + ForeignCpus(ms, cluster, node)
            && (own != [] <==> Total(own).Some?)
  {
    if ms != [] {
      hide Only, Total, Placed;
      var most, m := ms[..|ms| - 1], ms[|ms| - 1];
      SplitByCluster(most, cluster, node);
      PlacedStep(ms, None, node);
      PlacedStep(ms, Some(cluster), node);
    }
  }

  /** The processors on a node and in a cluster, machine by machine: those of machines that
      run and whose number is known, on a node by where the machine is placed first. */
  lemma CpusGrow(ms: seq<Machine>, m: Machine, node: nat, cluster: nat)
    ensures AllocatedCpus([], node) == 0 && RunningCpus([], cluster) == 0 && ForeignCpus([], cluster, node) == 0
    ensures var cpus := if m.running && m.cpus != -1 then m.cpus else 0;
            && AllocatedCpus(ms + [m], node) == AllocatedCpus(ms, node) + (if m.node == Some(node) then cpus else 0)
            && RunningCpus(ms + [m], cluster) == RunningCpus(ms, cluster) + (if m.cluster == cluster then cpus else 0)
            && ForeignCpus(ms + [m], cluster, node) ==
                 ForeignCpus(ms, cluster, node) + (if m.node == Some(node) && m.cluster != cluster then cpus else 0)
  {
    assert (ms + [m])[..|ms|] == ms;
    PlacedStep(ms + [m], None, node);
    var here, before := Placed(ms + [m], Some(cluster)), Placed(ms, Some(cluster));
    if m.running && m.cpus != -1 && m.cluster == cluster {
      assert here[..|here| - 1] == before;
    } else {
      assert here == before;
    }
  }

  lemma PlacedStep(ms: seq<Machine>, cluster: Option<nat>, node: nat)
    requires ms != []
    ensures var most, m := ms[..|ms| - 1], ms[|ms| - 1];
            var before, after := Only(Placed(most, cluster), Some(node)), Only(Placed(ms, cluster), Some(node));
            if Occupies(m) && (cluster.None? || m.cluster == cluster.value) && m.node == Some(node)
            then after != [] && Total(after) == Plus(Total(before), Some(m.cpus))
            else after == before
  {
    var most, m := ms[..|ms| - 1], ms[|ms| - 1];
    var items := Placed(ms, cluster);
    if Occupies(m) && (cluster.None? || m.cluster == cluster.value) {
      assert items[..|items| - 1] == Placed(most, cluster);
      var after := Only(items, Some(node));
      if m.node == Some(node) {
        assert after[..|after| - 1] == Only(Placed(most, cluster), Some(node));
      }
    } else {
      assert items == Placed(most, cluster);
    }
  }

  /** With no foreign machine on the cluster's nodes the table agrees with asking node by node. */
  lemma {:induction false} NoForeignCpus(ms: seq<Machine>, cluster: nat, node: nat)
    requires forall m :: m in ms && m.node == Some(node) ==> m.cluster == cluster
    ensures ForeignCpus(ms, cluster, node) == 0
  {
    if ms != [] {
      NoForeignCpus(ms[..|ms| - 1], cluster, node);
      assert ms[|ms| - 1] in ms;
    }
  }
}
