/** The store of errors met while talking to the clusters. */
module Errors {
  import opened Wrappers

  datatype Kind = ClusterKind | VmKind | NodeKind

  /** An object an error is about.  An object never changes its cluster. */
  datatype Obj = Obj(kind: Kind, pk: nat, cluster: nat)

  datatype ErrorRow = ErrorRow(msg: string, code: int, kind: Kind, pk: nat, cluster: nat, cleared: bool)

  function ClusterObj(cluster: nat): Obj {
    Obj(ClusterKind, cluster, cluster)
  }

  /** A cluster belongs to itself. */
  predicate ValidObj(o: Obj) {
    o.kind == ClusterKind ==> o.cluster == o.pk
  }

  /** Bad credentials are always the cluster's fault. */
  function Blamed(o: Obj, code: int): Obj {
    if code == 401 && o.kind != ClusterKind then ClusterObj(o.cluster) else o
  }

  predicate About(row: ErrorRow, msg: string, o: Obj, code: int) {
    row.msg == msg && row.code == code && row.kind == o.kind && row.pk == o.pk
  }

  /** The position of the first row of an error, uncleared if so asked, or the length. */
  function Find(rows: seq<ErrorRow>, msg: string, o: Obj, code: int, uncleared: bool): (i: nat)
    ensures i <= |rows|
    ensures i < |rows| ==> About(rows[i], msg, o, code) && (uncleared ==> !rows[i].cleared)
    ensures forall j :: 0 <= j < i ==> !(About(rows[j], msg, o, code) && (uncleared ==> !rows[j].cleared))
  {
    if rows == [] then 0
    else if About(rows[0], msg, o, code) && (uncleared ==> !rows[0].cleared) then 0
    else 1 + Find(rows[1..], msg, o, code, uncleared)
  }

  /** The rows of an object: all rows of its cluster if it is a cluster. */
  predicate Concerns(row: ErrorRow, o: Obj) {
    if o.kind == ClusterKind then row.cluster == o.pk else row.kind == o.kind && row.pk == o.pk
  }

  function Clear(rows: seq<ErrorRow>, o: Option<Obj>): (after: seq<ErrorRow>)
    ensures |after| == |rows|
  {
    if rows == [] then []
    else
      var last := rows[|rows| - 1];
      Clear(rows[..|rows| - 1], o) + [last.(cleared := last.cleared || o.None? || Concerns(last, o.value))]
  }

  /** The rows after an error has been stored, and the position of its row. */
  function Store(rows: seq<ErrorRow>, msg: string, o: Obj, code: int): (seq<ErrorRow>, nat) {
    var shared := Find(rows, msg, ClusterObj(o.cluster), code, true);
    if code == 404 && o.kind != ClusterKind && shared < |rows| then (rows, shared)
    else
      var b := Blamed(o, code);
      var known := Find(rows, msg, b, code, false);
      if known < |rows| then (rows, known)
      else (rows + [ErrorRow(msg, code, b.kind, b.pk, b.cluster, false)], |rows|)
  }

  class ErrorStore {
    var rows: seq<ErrorRow>

    constructor ()
      ensures rows == []
    {
      rows := [];
    }

    method StoreError(msg: string, obj: Obj, code: int) returns (index: nat)
      modifies this
      ensures (rows, index) == Store(old(rows), msg, obj, code)
    {
      var o := obj;
      if code == 401 {
        if o.kind != ClusterKind {
          o := ClusterObj(o.cluster);
        }
      } else if code == 404 {
        if o.kind != ClusterKind {
          var shared := Find(rows, msg, ClusterObj(o.cluster), code, true);
          if shared < |rows| {
            return shared;
          }
        }
      }
      index := Find(rows, msg, o, code, false);
      if index == |rows| {
        rows := rows + [ErrorRow(msg, code, o.kind, o.pk, o.cluster, false)];
      }
    }

    method ClearErrors(obj: Option<Obj>)
      modifies this
      ensures rows == Clear(old(rows), obj)
    {
      var updated := [];
      for i := 0 to |rows|
        invariant rows == old(rows)
        invariant updated == Clear(rows[..i], obj)
      {
        assert rows[..i + 1][..i] == rows[..i];
        var row := rows[i];
        updated := updated + [row.(cleared := row.cleared || obj.None? || Concerns(row, obj.value))];
      }
      assert rows[..|rows|] == rows;
      rows := updated;
    }
  }

  // ---- Runs ----

  datatype Event = Stored(msg: string, obj: Obj, code: int) | Clearing(scope: Option<Obj>)

  function Step(rows: seq<ErrorRow>, e: Event): seq<ErrorRow> {
    match e
    case Stored(msg, obj, code) => Store(rows, msg, obj, code).0
    case Clearing(scope) => Clear(rows, scope)
  }

  function Run(es: seq<Event>): seq<ErrorRow> {
    if es == [] then [] else Step(Run(es[..|es| - 1]), es[|es| - 1])
  }

  /** `homes` gives every object's cluster. */
  ghost predicate Consistent(es: seq<Event>, homes: (Kind, nat) -> nat) {
    forall i :: 0 <= i < |es| && es[i].Stored? ==>
      ValidObj(es[i].obj) && es[i].obj.cluster == homes(es[i].obj.kind, es[i].obj.pk)
  }

  ghost predicate OneRowEach(rows: seq<ErrorRow>) {
    forall i, j :: 0 <= i < j < |rows| ==>
      !(&& rows[i].msg == rows[j].msg && rows[i].code == rows[j].code
        && rows[i].kind == rows[j].kind && rows[i].pk == rows[j].pk)
  }

  ghost predicate WellPlaced(rows: seq<ErrorRow>, homes: (Kind, nat) -> nat) {
    forall i :: 0 <= i < |rows| ==>
      && (rows[i].code == 401 ==> rows[i].kind == ClusterKind)
      && rows[i].cluster == (if rows[i].kind == ClusterKind then rows[i].pk else homes(rows[i].kind, rows[i].pk))
  }

  /** Clearing changes nothing but the flag, and sets it on exactly the rows concerned: all of
      them, those of a cluster and its objects, or those of one machine or node. */
  lemma {:induction false} ClearExactly(rows: seq<ErrorRow>, o: Option<Obj>)
    ensures forall i :: 0 <= i < |rows| ==>
              var row := rows[i];
              Clear(rows, o)[i] == row.(cleared :=
                || row.cleared || o == None
                || (o.value.kind == ClusterKind && row.cluster == o.value.pk)
                || (o.value.kind != ClusterKind && row.kind == o.value.kind && row.pk == o.value.pk))
  {
    if rows != [] {
      ClearExactly(rows[..|rows| - 1], o);
    }
  }

  /** Over any run no error has two rows, every 401 is on a cluster, and every
      row names its object's cluster. */
  lemma {:induction false} RunsKeepTheStore(es: seq<Event>, homes: (Kind, nat) -> nat)
    requires Consistent(es, homes)
    ensures OneRowEach(Run(es)) && WellPlaced(Run(es), homes)
  {
    if es != [] {
      var most, e := es[..|es| - 1], es[|es| - 1];
      RunsKeepTheStore(most, homes);
      if e.Clearing? {
        ClearExactly(Run(most), e.scope);
      }
    }
  }

  /** So clearing a cluster clears the rows of its objects and its own, and no others. */
  lemma ClearingAClusterClearsIt(es: seq<Event>, homes: (Kind, nat) -> nat, cluster: nat, i: nat)
    requires Consistent(es, homes) && i < |Run(es)|
    ensures var row, after := Run(es)[i], Clear(Run(es), Some(ClusterObj(cluster)))[i];
            var home := if row.kind == ClusterKind then row.pk else homes(row.kind, row.pk);
            after == row.(cleared := row.cleared || home == cluster)
  {
    RunsKeepTheStore(es, homes);
    ClearExactly(Run(es), Some(ClusterObj(cluster)));
  }

  /** What storing an error leaves: the rows there were, and at most one more, uncleared, about
      the object, or for a 401 about its cluster.  It is added exactly if there was no such
      row before and the error is not a 404 that the cluster has uncleared. */
  lemma StoreAdds(rows: seq<ErrorRow>, msg: string, o: Obj, code: int)
    requires ValidObj(o)
    ensures var after := Store(rows, msg, o, code).0;
            var kind := if code == 401 then ClusterKind else o.kind;
            var pk := if code == 401 then o.cluster else o.pk;
            after == rows || after == rows + [ErrorRow(msg, code, kind, pk, o.cluster, false)]
    ensures var after := Store(rows, msg, o, code).0;
            var kind := if code == 401 then ClusterKind else o.kind;
            var pk := if code == 401 then o.cluster else o.pk;
            after == rows <==>
              exists i :: 0 <= i < |rows| && rows[i].msg == msg && rows[i].code == code
                && ((rows[i].kind == kind && rows[i].pk == pk)
                    || (code == 404 && o.kind != ClusterKind && !rows[i].cleared
                        && rows[i].kind == ClusterKind && rows[i].pk == o.cluster))
  {
    var after := Store(rows, msg, o, code).0;
    assert after != rows ==> |after| > |rows|;
  }

  /** A 404 of a machine or node adds no row exactly when its cluster has the
      same error uncleared or the object has had it before. */
  lemma ChildNotFoundAddsRowIff(rows: seq<ErrorRow>, msg: string, o: Obj)
    requires o.kind != ClusterKind
    ensures Store(rows, msg, o, 404).0 == rows <==>
              exists i :: 0 <= i < |rows| &&
                ((About(rows[i], msg, ClusterObj(o.cluster), 404) && !rows[i].cleared) || About(rows[i], msg, o, 404))
  {
  }

  /** The cluster has the error, as a 404 not cleared yet, so that its machines and nodes
      share it. */
  ghost predicate Shared(rows: seq<ErrorRow>, msg: string, o: Obj, code: int) {
    && code == 404 && o.kind != ClusterKind
    && exists i :: 0 <= i < |rows| && About(rows[i], msg, ClusterObj(o.cluster), 404) && !rows[i].cleared
  }

  /** An error that comes back is shown again exactly when its cluster shares it or
      its own row, which is found and left as it is, had not been cleared. */
  lemma ReturningErrorIsShownIff(rows: seq<ErrorRow>, msg: string, o: Obj, code: int)
    requires OneRowEach(rows)
    ensures var (after, index) := Store(rows, msg, o, code);
            var about := if Shared(rows, msg, o, code) then ClusterObj(o.cluster) else Blamed(o, code);
            && index < |after| && About(after[index], msg, about, code)
            && (!after[index].cleared <==>
                  || Shared(rows, msg, o, code)
                  || forall i :: 0 <= i < |rows| && About(rows[i], msg, about, code) ==> !rows[i].cleared)
  {
  }

  /** Storing the error comes out the same under any key the object might have. */
  ghost predicate KeyIsImmaterial(rows: seq<ErrorRow>, msg: string, o: Obj, code: int) {
    forall pk: nat :: Store(rows, msg, o.(pk := pk), code) == Store(rows, msg, o, code)
  }

  function AbovePks(rows: seq<ErrorRow>): (bound: nat)
    ensures forall i :: 0 <= i < |rows| ==> rows[i].pk < bound
  {
    if rows == [] then 0
    else
      var rest := AbovePks(rows[1..]);
      if rest <= rows[0].pk then rows[0].pk + 1 else rest
  }

  /** The errors of a machine or node that can be stored after it has lost its primary
      key are bad credentials and what its cluster shares. */
  lemma KeyIsImmaterialIff(rows: seq<ErrorRow>, msg: string, o: Obj, code: int)
    requires o.kind != ClusterKind
    ensures KeyIsImmaterial(rows, msg, o, code) <==> code == 401 || Shared(rows, msg, o, code)
  {
    if code == 401 || Shared(rows, msg, o, code) {
    } else {
      var unused := AbovePks(rows) + o.pk + 1;
      var (after, _) := Store(rows, msg, o.(pk := unused), code);
      assert after[|rows|].pk == unused;
      var (same, _) := Store(rows, msg, o, code);
      assert |same| > |rows| ==> same[|rows|].pk == o.pk;
    }
  }
}
