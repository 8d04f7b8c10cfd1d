/** Resource limits: cluster defaults and one custom quota per cluster and user. */
module Quotas {
  import opened Wrappers

  /** None means unlimited. */
  datatype Limits = Limits(ram: Option<int>, disk: Option<int>, virtualCpus: Option<int>)

  datatype Quota = Quota(byDefault: bool, limits: Limits)

  datatype QuotaRow = QuotaRow(cluster: nat, user: nat, limits: Limits)

  datatype ClusterLimits = ClusterLimits(id: nat, limits: Limits)

  datatype Resource = Ram | Disk | VirtualCpus

  /** Assigns the limits named in `data` and leaves the others. */
  function Overlay(l: Limits, data: map<Resource, Option<int>>): Limits {
    Limits(if Ram in data then data[Ram] else l.ram,
           if Disk in data then data[Disk] else l.disk,
           if VirtualCpus in data then data[VirtualCpus] else l.virtualCpus)
  }

  /** A quota row starts with zeros. */
  const ZEROS := Limits(Some(0), Some(0), Some(0))

  predicate IsFor(row: QuotaRow, cluster: nat, user: nat) {
    row.cluster == cluster && row.user == user
  }

  function Matching(rows: seq<QuotaRow>, cluster: nat, user: nat): seq<QuotaRow> {
    if rows == [] then []
    else
      Matching(rows[..|rows| - 1], cluster, user)
      + (if IsFor(rows[|rows| - 1], cluster, user) then [rows[|rows| - 1]] else [])
  }

  /** The user's own quota if there is one, else the cluster's defaults. */
  function GetQuota(rows: seq<QuotaRow>, cluster: ClusterLimits, user: Option<nat>): Quota {
    if user.None? then Quota(true, cluster.limits)
    else
      var custom := Matching(rows, cluster.id, user.value);
      if custom == [] then Quota(true, cluster.limits) else Quota(false, custom[0].limits)
  }

  /** The quota of the row that comes last, as the bulk query has it. */
  function LatestQuota(rows: seq<QuotaRow>, cluster: ClusterLimits, user: Option<nat>): Quota {
    if user.None? then Quota(true, cluster.limits)
    else
      var custom := Matching(rows, cluster.id, user.value);
      if custom == [] then Quota(true, cluster.limits) else Quota(false, custom[|custom| - 1].limits)
  }

  /** The first and the last of the user's rows carry the same limits. */
  predicate EndsAgree(rows: seq<QuotaRow>, cluster: nat, user: Option<nat>) {
    user.Some? ==>
      var custom := Matching(rows, cluster, user.value);
      custom != [] ==> custom[0].limits == custom[|custom| - 1].limits
  }

  ghost predicate AtMostOne(rows: seq<QuotaRow>) {
    forall c, u :: |Matching(rows, c, u)| <= 1
  }

  function Without(rows: seq<QuotaRow>, cluster: nat, user: nat): seq<QuotaRow> {
    if rows == [] then []
    else
      Without(rows[..|rows| - 1], cluster, user)
      + (if IsFor(rows[|rows| - 1], cluster, user) then [] else [rows[|rows| - 1]])
  }

  class QuotaTable {
    var rows: seq<QuotaRow>

    /** Sets the quota of a user, or removes it.  Raises if there is more than one to set. */
    method SetQuota(cluster: nat, user: nat, data: Option<map<Resource, Option<int>>>) returns (raised: bool)
      modifies this
      ensures (rows, raised) == Assigned(old(rows), cluster, user, data)
    {
      if data.None? {
        rows := Without(rows, cluster, user);
        return false;
      }
      var found := Matching(rows, cluster, user);
      if |found| > 1 {
        return true;
      }
      var quota := QuotaRow(cluster, user, ZEROS);
      if |found| == 1 {
        MatchingAreFor(rows, cluster, user);
        quota := found[0];
      }
      quota := quota.(limits := Overlay(quota.limits, data.value));
      rows := Without(rows, cluster, user) + [quota];
      return false;
    }

    /** The quotas of one user on many clusters, with one query for the custom ones.
        They are the single query's exactly where the first and last of a user's rows agree. */
    method GetQuotas(clusters: seq<ClusterLimits>, user: Option<nat>) returns (quotas: map<nat, Quota>)
      requires SameRows(clusters)
      ensures forall k :: k in quotas <==> Listed(clusters, k)
      ensures forall i :: 0 <= i < |clusters| ==>
                && clusters[i].id in quotas
                && quotas[clusters[i].id] == LatestQuota(rows, clusters[i], user)
                && (quotas[clusters[i].id] == GetQuota(rows, clusters[i], user) <==>
                      EndsAgree(rows, clusters[i].id, user))
    {
      quotas := map[];
      for i := 0 to |clusters|
        invariant forall k :: k in quotas <==> Listed(clusters[..i], k)
        invariant forall j :: 0 <= j < i ==>
                    clusters[j].id in quotas && quotas[clusters[j].id] == Quota(true, clusters[j].limits)
      {
        quotas := quotas[clusters[i].id := Quota(true, clusters[i].limits)];
        ListedStep(clusters, i);
      }
      assert clusters[..|clusters|] == clusters;
      if user.Some? {
        for i := 0 to |rows|
          invariant forall k :: k in quotas <==> Listed(clusters, k)
          invariant forall j :: 0 <= j < |clusters| ==>
                      clusters[j].id in quotas && quotas[clusters[j].id] == LatestQuota(rows[..i], clusters[j], user)
        {
          var custom := rows[i];
          forall j | 0 <= j < |clusters|
            ensures LatestQuota(rows[..i + 1], clusters[j], user) ==
                      if IsFor(custom, clusters[j].id, user.value) then Quota(false, custom.limits)
                      else LatestQuota(rows[..i], clusters[j], user)
          {
            QuotaStep(rows, i, clusters[j], user.value);
          }
          if custom.user == user.value && custom.cluster in quotas {
            quotas := quotas[custom.cluster := Quota(false, custom.limits)];
          }
        }
        assert rows[..|rows|] == rows;
      }
    }
  }

  ghost predicate Listed(clusters: seq<ClusterLimits>, id: nat) {
    exists i :: 0 <= i < |clusters| && clusters[i].id == id
  }

  /** Equal identifiers mean the same row. */
  ghost predicate SameRows(clusters: seq<ClusterLimits>) {
    forall i, j :: 0 <= i < |clusters| && 0 <= j < |clusters| && clusters[i].id == clusters[j].id ==>
      clusters[i] == clusters[j]
  }

  lemma ListedStep(clusters: seq<ClusterLimits>, i: nat)
    requires i < |clusters|
    ensures forall k :: Listed(clusters[..i + 1], k) <==> Listed(clusters[..i], k) || k == clusters[i].id
  {
  }

  /** One more row changes a user's quota only if it is that user's on that cluster. */
  lemma QuotaStep(rows: seq<QuotaRow>, i: nat, cluster: ClusterLimits, user: nat)
    requires i < |rows|
    ensures LatestQuota(rows[..i + 1], cluster, Some(user)) ==
              if IsFor(rows[i], cluster.id, user) then Quota(false, rows[i].limits)
              else LatestQuota(rows[..i], cluster, Some(user))
  {
    assert rows[..i + 1][..i] == rows[..i];
  }

  /** One row per cluster and user agrees with itself, so setting quotas never lets
      the bulk query and the single one part. */
  lemma OneRowAgrees(rows: seq<QuotaRow>, cluster: nat, user: Option<nat>)
    requires AtMostOne(rows)
    ensures EndsAgree(rows, cluster, user)
  {
    if user.Some? {
      assert |Matching(rows, cluster, user.value)| <= 1;
    }
  }

  /** The table after setting or removing a quota; the row written moves to the end. */
  function Assigned(rows: seq<QuotaRow>, cluster: nat, user: nat, data: Option<map<Resource, Option<int>>>)
    : (seq<QuotaRow>, bool)
  {
    if data.None? then (Without(rows, cluster, user), false)
    else
      var found := Matching(rows, cluster, user);
      if |found| > 1 then (rows, true)
      else
        var current := if found == [] then ZEROS else found[0].limits;
        (Without(rows, cluster, user) + [QuotaRow(cluster, user, Overlay(current, data.value))], false)
  }

  lemma {:induction false} MatchingWithout(rows: seq<QuotaRow>, cluster: nat, user: nat, c: nat, u: nat)
    ensures Matching(Without(rows, cluster, user), c, u) ==
              if c == cluster && u == user then [] else Matching(rows, c, u)
  {
    if rows != [] {
      var most, last := rows[..|rows| - 1], rows[|rows| - 1];
      MatchingWithout(most, cluster, user, c, u);
      if IsFor(last, cluster, user) {
        assert Without(rows, cluster, user) == Without(most, cluster, user);
      } else {
        assert Without(rows, cluster, user)[..|Without(rows, cluster, user)| - 1] == Without(most, cluster, user);
      }
    }
  }

  /** Setting raises exactly if there are two rows of the user on the cluster, and then changes
      nothing; removing never raises. */
  lemma {:induction false} SetRaisesIff(rows: seq<QuotaRow>, cluster: nat, user: nat,
                                        data: Option<map<Resource, Option<int>>>)
    ensures var (after, raised) := Assigned(rows, cluster, user, data);
            && (raised <==> data.Some? && TwoFor(rows, cluster, user))
            && (raised ==> after == rows)
  {
    CountsTwo(rows, cluster, user);
  }

  ghost predicate TwoFor(rows: seq<QuotaRow>, cluster: nat, user: nat) {
    exists i, j :: 0 <= i < j < |rows| && IsFor(rows[i], cluster, user) && IsFor(rows[j], cluster, user)
  }

  lemma {:induction false} CountsTwo(rows: seq<QuotaRow>, cluster: nat, user: nat)
    ensures |Matching(rows, cluster, user)| >= 1 <==> exists i :: 0 <= i < |rows| && IsFor(rows[i], cluster, user)
    ensures |Matching(rows, cluster, user)| >= 2 <==> TwoFor(rows, cluster, user)
  {
    if rows != [] {
      var most := rows[..|rows| - 1];
      CountsTwo(most, cluster, user);
      assert forall i :: 0 <= i < |most| ==> most[i] == rows[i];
    }
  }

  lemma MatchingAppend(rows: seq<QuotaRow>, row: QuotaRow, c: nat, u: nat)
    ensures Matching(rows + [row], c, u) == Matching(rows, c, u) + (if IsFor(row, c, u) then [row] else [])
  {
  }

  lemma {:induction false} MatchingAreFor(rows: seq<QuotaRow>, c: nat, u: nat)
    ensures forall i :: 0 <= i < |Matching(rows, c, u)| ==> IsFor(Matching(rows, c, u)[i], c, u)
  {
    if rows != [] {
      MatchingAreFor(rows[..|rows| - 1], c, u);
    }
  }

  /** A limit that is set is the one in the data; another stays as it was, or is zero for a
      user who had none of their own. */
  function LimitAfter(before: Quota, limit: Option<int>, r: Resource, data: map<Resource, Option<int>>): Option<int> {
    if r in data then data[r] else if before.byDefault then Some(0) else limit
  }

  /** Setting a quota keeps one row per cluster and user; reading it back gives the
      data over what was there; removing it restores the defaults; no other pair notices. */
  lemma SetThenGet(rows: seq<QuotaRow>, cluster: ClusterLimits, user: nat, data: Option<map<Resource, Option<int>>>)
    requires AtMostOne(rows)
    ensures var (after, raised) := Assigned(rows, cluster.id, user, data);
            var before := GetQuota(rows, cluster, Some(user));
            var q := GetQuota(after, cluster, Some(user));
            && !raised && AtMostOne(after)
            && (data.None? ==> q == Quota(true, cluster.limits))
            && (data.Some? ==>
                  && !q.byDefault
                  && q.limits.ram == LimitAfter(before, before.limits.ram, Ram, data.value)
                  && q.limits.disk == LimitAfter(before, before.limits.disk, Disk, data.value)
                  && q.limits.virtualCpus == LimitAfter(before, before.limits.virtualCpus, VirtualCpus, data.value))
    ensures forall c: ClusterLimits, u: Option<nat> :: c.id != cluster.id || u != Some(user) ==>
              GetQuota(Assigned(rows, cluster.id, user, data).0, c, u) == GetQuota(rows, c, u)
  {
    var after := Assigned(rows, cluster.id, user, data).0;
    var rest := Without(rows, cluster.id, user);
    assert |Matching(rows, cluster.id, user)| <= 1;
    forall c, u
      ensures c == cluster.id && u == user && data.Some? ==>
                Matching(after, c, u) == [after[|after| - 1]]
      ensures c == cluster.id && u == user && data.None? ==> Matching(after, c, u) == []
      ensures c != cluster.id || u != user ==> Matching(after, c, u) == Matching(rows, c, u)
    {
      MatchingWithout(rows, cluster.id, user, c, u);
      if data.Some? {
        MatchingAppend(rest, after[|after| - 1], c, u);
      }
    }
  }
}
