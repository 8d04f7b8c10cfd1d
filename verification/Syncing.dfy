/** Reconciling the machines or nodes of a cluster with the list the server gives. */
module Syncing {
  import opened Wrappers
  import opened RemoteInfo
  import opened Database

  datatype Kind = Machines | Nodes

  function LowerChar(c: char): char {
    if 'A' <= c <= 'Z' then (c as int + 32) as char else c
  }

  function Lower(s: string): string {
    if s == "" then "" else [LowerChar(s[0])] + Lower(s[1..])
  }

  predicate OfKind(k: Kind, r: Ref) {
    if k == Machines then r.Vm? else r.Node?
  }

  function NewRef(k: Kind, pk: nat): Ref {
    if k == Machines then Vm(pk) else Node(pk)
  }

  /** A row of this cluster. */
  predicate Mine(k: Kind, cluster: nat, r: Ref, row: Row) {
    OfKind(k, r) && row.ObjectRow? && row.cluster == cluster
  }

  /** A row whose name a new row of the cluster must not have: machine names are
      unique within a cluster, node names everywhere. */
  predicate Rival(k: Kind, cluster: nat, r: Ref, row: Row) {
    OfKind(k, r) && row.ObjectRow? && (k == Nodes || row.cluster == cluster)
  }

  function Hosts(rows: Rows, k: Kind, cluster: nat): set<string> {
    set r | r in rows && Mine(k, cluster, r, rows[r]) :: rows[r].hostname
  }

  function Taken(rows: Rows, k: Kind, cluster: nat): set<string> {
    set r | r in rows && Rival(k, cluster, r, rows[r]) :: rows[r].hostname
  }

  /** The rows to delete: those known before whose name is not listed. */
  function Doomed(rows: Rows, k: Kind, cluster: nat, known: set<string>, listed: seq<string>): set<Ref> {
    set r | r in rows && Mine(k, cluster, r, rows[r]) && rows[r].hostname in known && rows[r].hostname !in listed
  }

  function FreshRow(cluster: nat, name: string): Row {
    ObjectRow(cluster, name, None, false, None, None, None, false, Cache(None, None, None, NoFields))
  }

  /** The stored names of the listed hosts that are not known yet, among the first `n`. */
  function NewNames(listed: seq<string>, n: nat, known: set<string>): set<string>
    requires n <= |listed|
  {
    set i | 0 <= i < n && listed[i] !in known :: Lower(listed[i])
  }

  /** Adding the first `n` listed hosts hits the unique constraint. */
  ghost predicate Collides(listed: seq<string>, n: nat, known: set<string>, taken: set<string>)
    requires n <= |listed|
  {
    exists i :: 0 <= i < n && listed[i] !in known &&
      (Lower(listed[i]) in taken || Lower(listed[i]) in NewNames(listed, i, known))
  }

  class Table {
    var rows: Rows
    var next: nat

    ghost predicate Valid()
      reads this
    {
      forall r :: r in rows ==> r.pk < next
    }

    constructor (rows: Rows, next: nat)
      requires forall r :: r in rows ==> r.pk < next
      ensures Valid() && this.rows == rows && this.next == next
    {
      this.rows, this.next := rows, next;
    }

    /** Inserts a row under a lower-case name, unless the name is taken. */
    method Create(k: Kind, cluster: nat, hostname: string) returns (raised: bool)
      requires Valid()
      modifies this
      ensures Valid() && next == old(next) + 1
      ensures raised <==> Lower(hostname) in Taken(old(rows), k, cluster)
      ensures rows == if raised then old(rows)
                      else old(rows)[NewRef(k, old(next)) := FreshRow(cluster, Lower(hostname))]
    {
      raised := Lower(hostname) in Taken(rows, k, cluster);
      if !raised {
        rows := rows[NewRef(k, next) := FreshRow(cluster, Lower(hostname))];
      }
      next := next + 1;
    }

    method Sync(k: Kind, cluster: nat, listed: seq<string>, remove: bool) returns (raised: bool)
      requires Valid()
      modifies this
      ensures Valid()
      ensures raised <==> Collides(listed, |listed|, Hosts(old(rows), k, cluster), Taken(old(rows), k, cluster))
      ensures !raised ==> Synced(old(rows), rows, k, cluster, listed, remove)
      ensures Unique(old(rows), k) ==> Unique(rows, k)
    {
      hide Hosts, Taken, Added, NewNames, Collides, Unique;
      raised := false;
      var known := Hosts(rows, k, cluster);
      StartAdding(rows, k, cluster, listed);
      ghost var taken := Taken(rows, k, cluster);
      for i := 0 to |listed|
        invariant Valid() && !raised
        invariant Added(old(rows), rows, k, cluster, known, NewNames(listed, i, known))
        invariant Taken(rows, k, cluster) == taken + NewNames(listed, i, known)
        invariant !Collides(listed, i, known, taken)
        invariant Unique(old(rows), k) ==> Unique(rows, k)
      {
        NewNamesStep(listed, i, known);
        CollidesStep(listed, i, known, taken);
        if listed[i] !in known {
          ghost var before := rows;
          ghost var r := NewRef(k, next);
          raised := Create(k, cluster, listed[i]);
          if raised {
            CollidesStays(listed, i + 1, known, taken);
            return;
          }
          StillUnique(before, k, cluster, r, Lower(listed[i]));
          OneAdded(old(rows), before, k, cluster, known, NewNames(listed, i, known), r, listed[i]);
        }
      }
      ghost var mid := rows;
      if remove {
        var doomed := Doomed(rows, k, cluster, known, listed);
        DeleteNothing(rows);
        if doomed != {} {
          rows := Delete(rows, doomed);
        }
        FewerAreUnique(mid, rows, k);
      }
      SyncedBy(old(rows), mid, rows, k, cluster, listed, remove);
    }
  }

  // ---- Names ----

  /** No two machines of a cluster have the same name, and no two nodes at all. */
  ghost predicate Unique(rows: Rows, k: Kind) {
    forall r, s :: r in rows && s in rows && r != s && rows[r].ObjectRow? && rows[s].ObjectRow? ==>
      && (k == Machines && r.Vm? && s.Vm? && rows[r].cluster == rows[s].cluster ==>
            rows[r].hostname != rows[s].hostname)
      && (k == Nodes && r.Node? && s.Node? ==> rows[r].hostname != rows[s].hostname)
  }

  lemma StillUnique(rows: Rows, k: Kind, cluster: nat, r: Ref, name: string)
    requires r !in rows && OfKind(k, r) && name !in Taken(rows, k, cluster)
    ensures Unique(rows, k) ==> Unique(rows[r := FreshRow(cluster, name)], k)
  {
    forall s | s in rows && OfKind(k, s) && rows[s].ObjectRow? && (k == Nodes || rows[s].cluster == cluster)
      ensures rows[s].hostname != name
    {
      assert Rival(k, cluster, s, rows[s]);
    }
  }

  /** A name is taken exactly if another row of that name would not be unique. */
  lemma TakenIff(rows: Rows, k: Kind, cluster: nat, r: Ref, name: string)
    requires r !in rows && OfKind(k, r) && Unique(rows, k)
    ensures name !in Taken(rows, k, cluster) <==> Unique(rows[r := FreshRow(cluster, name)], k)
  {
    if name in Taken(rows, k, cluster) {
      var s :| s in rows && Rival(k, cluster, s, rows[s]) && rows[s].hostname == name;
      var after := rows[r := FreshRow(cluster, name)];
      assert after[s] == rows[s] && after[r].hostname == name;
    } else {
      StillUnique(rows, k, cluster, r, name);
    }
  }

  lemma FewerAreUnique(before: Rows, after: Rows, k: Kind)
    requires forall r :: r in after ==> r in before && after[r] == before[r]
    ensures Unique(before, k) ==> Unique(after, k)
  {
  }

  // ---- Adding ----

  /** `after` is `before` with fresh rows for exactly these names. */
  ghost predicate Added(before: Rows, after: Rows, k: Kind, cluster: nat, known: set<string>, names: set<string>) {
    && (forall r :: r in before ==> r in after && after[r] == before[r])
    && (forall r :: r in after && r !in before ==>
          && OfKind(k, r) && after[r].ObjectRow?
          && after[r].hostname in names && after[r] == FreshRow(cluster, after[r].hostname))
    && Hosts(after, k, cluster) == known + names
  }

  lemma StartAdding(rows: Rows, k: Kind, cluster: nat, listed: seq<string>)
    ensures NewNames(listed, 0, Hosts(rows, k, cluster)) == {}
    ensures Added(rows, rows, k, cluster, Hosts(rows, k, cluster), NewNames(listed, 0, Hosts(rows, k, cluster)))
    ensures !Collides(listed, 0, Hosts(rows, k, cluster), Taken(rows, k, cluster))
  {
  }

  lemma DeleteNothing(rows: Rows)
    ensures Delete(rows, {}) == rows
  {
  }

  lemma OneAdded(start: Rows, before: Rows, k: Kind, cluster: nat, known: set<string>, names: set<string>, r: Ref,
                 hostname: string)
    requires Added(start, before, k, cluster, known, names)
    requires r !in before && OfKind(k, r)
    ensures var after := before[r := FreshRow(cluster, Lower(hostname))];
            && Added(start, after, k, cluster, known, names + {Lower(hostname)})
            && Taken(after, k, cluster) == Taken(before, k, cluster) + {Lower(hostname)}
  {
    hide Hosts, Taken, Lower;
    HostsGrow(before, k, cluster, r, Lower(hostname));
    TakenGrow(before, k, cluster, r, Lower(hostname));
  }

  lemma HostsGrow(before: Rows, k: Kind, cluster: nat, r: Ref, name: string)
    requires r !in before && OfKind(k, r)
    ensures Hosts(before[r := FreshRow(cluster, name)], k, cluster) == Hosts(before, k, cluster) + {name}
  {
    var after := before[r := FreshRow(cluster, name)];
    assert forall q :: q in before ==> q in after && after[q] == before[q];
    assert Mine(k, cluster, r, after[r]);
  }

  lemma TakenGrow(before: Rows, k: Kind, cluster: nat, r: Ref, name: string)
    requires r !in before && OfKind(k, r)
    ensures Taken(before[r := FreshRow(cluster, name)], k, cluster) == Taken(before, k, cluster) + {name}
  {
    var after := before[r := FreshRow(cluster, name)];
    assert forall q :: q in before ==> q in after && after[q] == before[q];
    assert Rival(k, cluster, r, after[r]);
  }

  lemma NewNamesStep(listed: seq<string>, i: nat, known: set<string>)
    requires i < |listed|
    ensures NewNames(listed, i + 1, known) ==
              if listed[i] in known then NewNames(listed, i, known) else NewNames(listed, i, known) + {Lower(listed[i])}
  {
  }

  lemma CollidesStep(listed: seq<string>, i: nat, known: set<string>, taken: set<string>)
    requires i < |listed|
    ensures Collides(listed, i + 1, known, taken) <==>
              Collides(listed, i, known, taken)
              || (listed[i] !in known && (Lower(listed[i]) in taken || Lower(listed[i]) in NewNames(listed, i, known)))
  {
  }

  lemma CollidesStays(listed: seq<string>, n: nat, known: set<string>, taken: set<string>)
    requires n <= |listed| && Collides(listed, n, known, taken)
    ensures Collides(listed, |listed|, known, taken)
  {
  }

  // ---- The result of a sync ----

  /** After a sync: fresh rows for the new names, and with `remove` the rows of
      unlisted names gone together with everything that depends on them. */
  ghost predicate Synced(before: Rows, after: Rows, k: Kind, cluster: nat, listed: seq<string>, remove: bool) {
    var known := Hosts(before, k, cluster);
    exists mid: Rows ::
      && Added(before, mid, k, cluster, known, NewNames(listed, |listed|, known))
      && after == if remove then Delete(mid, Doomed(mid, k, cluster, known, listed)) else mid
  }

  lemma SyncedBy(before: Rows, mid: Rows, after: Rows, k: Kind, cluster: nat, listed: seq<string>, remove: bool)
    requires Added(before, mid, k, cluster, Hosts(before, k, cluster),
                   NewNames(listed, |listed|, Hosts(before, k, cluster)))
    requires after == if remove then Delete(mid, Doomed(mid, k, cluster, Hosts(before, k, cluster), listed)) else mid
    ensures Synced(before, after, k, cluster, listed, remove)
  {
  }

  /** A list without duplicates and in lower case, as stored names are. */
  ghost predicate Clean(listed: seq<string>) {
    Distinct(listed) && forall i :: 0 <= i < |listed| ==> Lower(listed[i]) == listed[i]
  }

  /** The rows a removal takes out: the doomed ones and, with nodes, the machines placed on them. */
  function Swept(rows: Rows, doomed: set<Ref>): set<Ref> {
    doomed + set r | r in rows && r.Vm? && rows[r].ObjectRow?
                     && (NodeKey(rows[r].primary) + NodeKey(rows[r].secondary)) * doomed != {}
  }

  lemma HeldKeys(rows: Rows, k: Kind, doomed: set<Ref>, r: Ref)
    requires r in rows && forall d :: d in doomed ==> OfKind(k, d)
    ensures ForeignKeys(r, rows[r]) * doomed ==
              if r.Vm? && rows[r].ObjectRow?
              then (NodeKey(rows[r].primary) + NodeKey(rows[r].secondary)) * doomed
              else {}
    ensures forall f :: f in ForeignKeys(r, rows[r]) ==> !f.Vm?
  {
  }

  lemma CollectSwept(rows: Rows, k: Kind, doomed: set<Ref>)
    requires forall d :: d in doomed ==> OfKind(k, d)
    ensures Collect(rows, doomed) == Swept(rows, doomed)
  {
    hide ForeignKeys, NodeKey;
    var swept := Swept(rows, doomed);
    forall r | r in rows
      ensures r !in doomed ==> (r in Dependents(rows, doomed) <==> r in swept)
      ensures r !in swept ==> ForeignKeys(r, rows[r]) * swept == {}
    {
      HeldKeys(rows, k, doomed, r);
    }
    assert doomed + Dependents(rows, doomed) == swept;
    assert Dependents(rows, swept) == {};
    assert Collect(rows, swept) == swept;
    assert Dependents(rows, doomed) == {} ==> swept == doomed;
  }

  /** A clean list only collides with nodes of other clusters. */
  lemma CleanNeverCollides(listed: seq<string>, n: nat, known: set<string>, taken: set<string>)
    requires Clean(listed) && n <= |listed|
    requires forall h :: h in listed && h in taken ==> h in known
    ensures !Collides(listed, n, known, taken)
  {
  }

  lemma CleanNames(listed: seq<string>, known: set<string>)
    requires Clean(listed)
    ensures NewNames(listed, |listed|, known) == (set h | h in listed) - known
  {
  }

  /** The hosts after a sync, whatever the list, if no stored name is new under another spelling. */
  lemma HostsAfter(before: Rows, after: Rows, k: Kind, cluster: nat, listed: seq<string>, remove: bool)
    requires Synced(before, after, k, cluster, listed, remove)
    requires remove ==> NewNames(listed, |listed|, Hosts(before, k, cluster)) !! Hosts(before, k, cluster)
    ensures var known := Hosts(before, k, cluster);
            Hosts(after, k, cluster) ==
              (set h | h in known && (remove ==> h in listed)) + NewNames(listed, |listed|, known)
  {
    var known := Hosts(before, k, cluster);
    var names := NewNames(listed, |listed|, known);
    var mid: Rows :| Added(before, mid, k, cluster, known, names)
                     && after == if remove then Delete(mid, Doomed(mid, k, cluster, known, listed)) else mid;
    assert Hosts(mid, k, cluster) == known + names;
    hide Hosts, NewNames, Synced, Swept, Doomed, Collect, Added;
    if remove {
      DoomedAreOfKind(mid, k, cluster, known, listed);
      CollectSwept(mid, k, Doomed(mid, k, cluster, known, listed));
      HostsLeft(mid, k, cluster, known, listed);
    }
  }

  lemma DoomedAreOfKind(rows: Rows, k: Kind, cluster: nat, known: set<string>, listed: seq<string>)
    ensures forall d :: d in Doomed(rows, k, cluster, known, listed) ==> OfKind(k, d)
  {
  }

  /** Syncing with a clean list leaves the listed names, and without removal
      also those known before; rows already there stay as they are, unless swept away. */
  lemma SyncLeavesListed(before: Rows, after: Rows, k: Kind, cluster: nat, listed: seq<string>, remove: bool)
    requires Clean(listed) && Synced(before, after, k, cluster, listed, remove)
    ensures Hosts(after, k, cluster) == (set h | h in listed) + (if remove then {} else Hosts(before, k, cluster))
    ensures var gone := if remove then Swept(before, Doomed(before, k, cluster, Hosts(before, k, cluster), listed))
                        else {};
            forall r :: r in before ==> (r in after <==> r !in gone) && (r in after ==> after[r] == before[r])
    ensures forall r :: r in after && r !in before ==> FreshlyListed(r, after[r], k, cluster, listed)
  {
    CleanNames(listed, Hosts(before, k, cluster));
    HostsAfter(before, after, k, cluster, listed, remove);
    SyncAddsFresh(before, after, k, cluster, listed, remove);
    SyncKeepsRows(before, after, k, cluster, listed, remove);
    hide Hosts, NewNames, Synced, Swept, Doomed, Clean;
  }

  /** A row as a sync inserts it: of that cluster and a listed name, waiting for nothing,
      placed nowhere, made from no template, with nothing fetched yet. */
  ghost predicate FreshlyListed(r: Ref, row: Row, k: Kind, cluster: nat, listed: seq<string>) {
    && (k == Machines ==> r.Vm?) && (k == Nodes ==> r.Node?)
    && row.ObjectRow? && row.cluster == cluster && row.hostname in listed
    && row.lastJob == None && !row.ignoreCache && !row.pendingDelete
    && row.template == None && row.primary == None && row.secondary == None
    && row.cache.info == None && row.cache.mtime == None && row.cache.cached == None
  }

  lemma SyncAddsFresh(before: Rows, after: Rows, k: Kind, cluster: nat, listed: seq<string>, remove: bool)
    requires Clean(listed) && Synced(before, after, k, cluster, listed, remove)
    ensures forall r :: r in after && r !in before ==> FreshlyListed(r, after[r], k, cluster, listed)
  {
    var known := Hosts(before, k, cluster);
    var names := NewNames(listed, |listed|, known);
    var mid: Rows :| Added(before, mid, k, cluster, known, names)
                     && after == if remove then Delete(mid, Doomed(mid, k, cluster, known, listed)) else mid;
    CleanNames(listed, known);
    hide Hosts, NewNames, Synced, Doomed, Clean, Collect;
    assert forall r :: r in after ==> r in mid && after[r] == mid[r];
  }

  lemma SyncKeepsRows(before: Rows, after: Rows, k: Kind, cluster: nat, listed: seq<string>, remove: bool)
    requires Clean(listed) && Synced(before, after, k, cluster, listed, remove)
    ensures var gone := if remove then Swept(before, Doomed(before, k, cluster, Hosts(before, k, cluster), listed))
                        else {};
            forall r :: r in before ==> (r in after <==> r !in gone) && (r in after ==> after[r] == before[r])
  {
    var known := Hosts(before, k, cluster);
    var names := NewNames(listed, |listed|, known);
    var mid: Rows :| Added(before, mid, k, cluster, known, names)
                     && after == if remove then Delete(mid, Doomed(mid, k, cluster, known, listed)) else mid;
    CleanNames(listed, known);
    if remove {
      var doomed := Doomed(mid, k, cluster, known, listed);
      SameDoomed(before, mid, k, cluster, known, names, listed);
      CollectSwept(mid, k, doomed);
      SameSwept(before, mid, k, cluster, known, names, doomed);
      hide Hosts, NewNames, Synced, Swept, Doomed, Clean, Collect;
    }
  }

  /** Fresh rows are not doomed, since their names are listed. */
  lemma SameDoomed(before: Rows, mid: Rows, k: Kind, cluster: nat, known: set<string>, names: set<string>,
                   listed: seq<string>)
    requires Added(before, mid, k, cluster, known, names) && names == (set h | h in listed) - known
    ensures Doomed(mid, k, cluster, known, listed) == Doomed(before, k, cluster, known, listed)
  {
  }

  /** Fresh rows are placed on no node. */
  lemma SameSwept(before: Rows, mid: Rows, k: Kind, cluster: nat, known: set<string>, names: set<string>,
                  doomed: set<Ref>)
    requires Added(before, mid, k, cluster, known, names)
    ensures Swept(mid, doomed) == Swept(before, doomed)
  {
  }

  /** A removal takes exactly the known hosts that are not listed. */
  lemma HostsLeft(mid: Rows, k: Kind, cluster: nat, known: set<string>, listed: seq<string>)
    ensures Hosts(mid - Swept(mid, Doomed(mid, k, cluster, known, listed)), k, cluster) ==
              set h | h in Hosts(mid, k, cluster) && !(h in known && h !in listed)
  {
    var left := mid - Swept(mid, Doomed(mid, k, cluster, known, listed));
    forall r | r in mid && Mine(k, cluster, r, mid[r])
      ensures r in left <==> !(mid[r].hostname in known && mid[r].hostname !in listed)
    {
      SweptHosts(mid, k, cluster, known, listed, r);
    }
    hide Swept, Doomed;
    forall h | h in Hosts(mid, k, cluster) && !(h in known && h !in listed)
      ensures h in Hosts(left, k, cluster)
    {
      var r :| r in mid && Mine(k, cluster, r, mid[r]) && mid[r].hostname == h;
      assert r in left && left[r] == mid[r];
    }
  }

  lemma SweptHosts(mid: Rows, k: Kind, cluster: nat, known: set<string>, listed: seq<string>, r: Ref)
    requires r in mid && Mine(k, cluster, r, mid[r])
    ensures r in Swept(mid, Doomed(mid, k, cluster, known, listed)) <==>
              mid[r].hostname in known && mid[r].hostname !in listed
  {
  }

  /** The lists of missing hosts, as the cluster page shows them. */
  function MissingInDb(rows: Rows, k: Kind, cluster: nat, listed: seq<string>): seq<string> {
    if listed == [] then []
    else (if listed[0] in Hosts(rows, k, cluster) then [] else [listed[0]]) + MissingInDb(rows, k, cluster, listed[1..])
  }

  function MissingInGaneti(rows: Rows, k: Kind, cluster: nat, listed: seq<string>): set<string> {
    set r | r in rows && Mine(k, cluster, r, rows[r]) && (k == Machines ==> rows[r].template.None?)
            && rows[r].hostname !in listed :: rows[r].hostname
  }

  ghost predicate HasRow(rows: Rows, k: Kind, cluster: nat, h: string, settled: bool) {
    exists r :: && r in rows && rows[r].ObjectRow? && rows[r].cluster == cluster && rows[r].hostname == h
                && (if k == Machines then r.Vm? && (settled ==> rows[r].template == None) else r.Node?)
  }

  /** Missing in the database are the listed names without a row on the cluster, in the order listed. */
  lemma {:induction false} MissingInOrder(rows: Rows, k: Kind, cluster: nat, listed: seq<string>, more: seq<string>)
    ensures MissingInDb(rows, k, cluster, listed + more) ==
              MissingInDb(rows, k, cluster, listed) + MissingInDb(rows, k, cluster, more)
  {
    hide Hosts;
    if listed == [] {
      assert listed + more == more;
    } else {
      assert (listed + more)[1..] == listed[1..] + more;
      MissingInOrder(rows, k, cluster, listed[1..], more);
    }
  }

  lemma MissingOne(rows: Rows, k: Kind, cluster: nat, h: string)
    ensures MissingInDb(rows, k, cluster, [h]) == if HasRow(rows, k, cluster, h, false) then [] else [h]
  {
    assert [h][1..] == [];
    assert HasRow(rows, k, cluster, h, false) <==> h in Hosts(rows, k, cluster);
  }

  /** Missing on the server are the names of rows on the cluster that are not listed, without
      those of machines still being deployed. */
  lemma MissingOnServer(rows: Rows, k: Kind, cluster: nat, listed: seq<string>, h: string)
    ensures h in MissingInGaneti(rows, k, cluster, listed) <==> h !in listed && HasRow(rows, k, cluster, h, true)
  {
  }

  lemma {:induction false} NoneMissing(rows: Rows, k: Kind, cluster: nat, listed: seq<string>)
    requires forall h :: h in listed ==> h in Hosts(rows, k, cluster)
    ensures MissingInDb(rows, k, cluster, listed) == []
  {
    if listed != [] {
      NoneMissing(rows, k, cluster, listed[1..]);
    }
  }

  /** After a sync with a clean list nothing is missing in the database, and
      after one with removal nothing is missing on the server either. */
  lemma SyncLeavesNothingMissing(before: Rows, after: Rows, k: Kind, cluster: nat, listed: seq<string>, remove: bool)
    requires Clean(listed) && Synced(before, after, k, cluster, listed, remove)
    ensures MissingInDb(after, k, cluster, listed) == []
    ensures remove ==> MissingInGaneti(after, k, cluster, listed) == {}
  {
    SyncLeavesListed(before, after, k, cluster, listed, remove);
    NoneMissing(after, k, cluster, listed);
    if remove {
      forall r | r in after && Mine(k, cluster, r, after[r])
        ensures after[r].hostname in listed
      {
        assert after[r].hostname in Hosts(after, k, cluster);
      }
    }
  }

  /** A second sync with the same list and the same setting changes nothing. */
  lemma SyncIsIdempotent(before: Rows, after: Rows, again: Rows, k: Kind, cluster: nat, listed: seq<string>,
                         remove: bool)
    requires Clean(listed)
    requires Synced(before, after, k, cluster, listed, remove) && Synced(after, again, k, cluster, listed, remove)
    ensures again == after
  {
    SyncLeavesListed(before, after, k, cluster, listed, remove);
    var known := Hosts(after, k, cluster);
    var mid: Rows :| Added(after, mid, k, cluster, known, NewNames(listed, |listed|, known))
                     && again == if remove then Delete(mid, Doomed(mid, k, cluster, known, listed)) else mid;
    CleanNames(listed, known);
    hide Added, Hosts, Doomed, NewNames, Delete, Synced, Swept;
    assert (set h | h in listed) - known == {};
    NothingAdded(after, mid, k, cluster, known);
    if remove {
      NothingDoomed(after, k, cluster, listed);
    }
  }

  lemma NothingAdded(before: Rows, after: Rows, k: Kind, cluster: nat, known: set<string>)
    requires Added(before, after, k, cluster, known, {})
    ensures after == before
  {
  }

  lemma NothingDoomed(rows: Rows, k: Kind, cluster: nat, listed: seq<string>)
    requires forall h :: h in Hosts(rows, k, cluster) ==> h in listed
    ensures Doomed(rows, k, cluster, Hosts(rows, k, cluster), listed) == {}
    ensures Delete(rows, Doomed(rows, k, cluster, Hosts(rows, k, cluster), listed)) == rows
  {
  }

  // ---- Lists that are not in lower case ----

  const CAPITALS: string := "ABCDEFGHIJKLMNOPQRSTUVWXYZ"
  const SMALL: string := "abcdefghijklmnopqrstuvwxyz"

  lemma {:induction false} LowerAt(s: string, i: nat, letter: nat)
    requires i < |s| && letter < 26
    ensures |Lower(s)| == |s|
    ensures s[i] == CAPITALS[letter] ==> Lower(s)[i] == SMALL[letter]
    ensures s[i] !in CAPITALS ==> Lower(s)[i] == s[i]
  {
    Letters(letter, s[i]);
    hide LowerChar;
    if i > 0 {
      LowerAt(s[1..], i - 1, letter);
    } else {
      LowerLength(s);
    }
  }

  lemma {:induction false} LowerLength(s: string)
    ensures |Lower(s)| == |s|
  {
    if s != "" {
      LowerLength(s[1..]);
    }
  }

  lemma Letters(letter: nat, c: char)
    requires letter < 26
    ensures LowerChar(CAPITALS[letter]) == SMALL[letter]
    ensures c !in CAPITALS ==> LowerChar(c) == c
  {
    if 'A' <= c <= 'Z' {
      assert CAPITALS[c as int - 'A' as int] == c;
    }
  }

  lemma {:induction false} LowerTwice(s: string)
    ensures Lower(Lower(s)) == Lower(s)
  {
    if s != "" {
      LowerTwice(s[1..]);
    }
  }

  lemma NewNamesAreFree(before: Rows, k: Kind, cluster: nat, listed: seq<string>)
    requires !Collides(listed, |listed|, Hosts(before, k, cluster), Taken(before, k, cluster))
    ensures NewNames(listed, |listed|, Hosts(before, k, cluster)) !! Hosts(before, k, cluster)
  {
    HostsAreTaken(before, k, cluster);
  }

  lemma HostsAreTaken(rows: Rows, k: Kind, cluster: nat)
    ensures Hosts(rows, k, cluster) <= Taken(rows, k, cluster)
  {
  }

  /** A second sync fails exactly when some listed name is not in lower case: its row
      exists under another spelling. */
  lemma SecondSyncFailsIff(before: Rows, after: Rows, k: Kind, cluster: nat, listed: seq<string>, remove: bool)
    requires forall h :: h in Hosts(before, k, cluster) ==> Lower(h) == h
    requires Synced(before, after, k, cluster, listed, remove)
    requires remove ==> !Collides(listed, |listed|, Hosts(before, k, cluster), Taken(before, k, cluster))
    ensures Collides(listed, |listed|, Hosts(after, k, cluster), Taken(after, k, cluster)) <==>
              exists i :: 0 <= i < |listed| && Lower(listed[i]) != listed[i]
  {
    var known := Hosts(before, k, cluster);
    var names := NewNames(listed, |listed|, known);
    var hosts := Hosts(after, k, cluster);
    if remove {
      NewNamesAreFree(before, k, cluster, listed);
    }
    HostsAfter(before, after, k, cluster, listed, remove);
    HostsAreTaken(after, k, cluster);
    hide Hosts, Taken, Synced;
    forall i | 0 <= i < |listed|
      ensures listed[i] in hosts <==> Lower(listed[i]) == listed[i]
      ensures listed[i] !in hosts ==> Lower(listed[i]) in hosts
    {
      LowerTwice(listed[i]);
      if listed[i] !in known {
        assert Lower(listed[i]) in names;
      }
      if listed[i] in names {
        var j :| 0 <= j < |listed| && listed[j] !in known && Lower(listed[j]) == listed[i];
        LowerTwice(listed[j]);
      }
    }
  }
}
