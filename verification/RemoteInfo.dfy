/** What a Ganeti cluster answers about one object, and the columns this
    application parses out of the answer. */
module RemoteInfo {
  import opened Wrappers

  /** The metadata dictionary of an instance, a node or a cluster.  Node names
      inside an instance's answer are resolved elsewhere. */
  datatype Info =
    | VmInfo(mtime: Option<int>, memory: int, vcpus: int, disks: seq<int>, os: string, status: string)
    | NodeInfo(mtime: Option<int>, mtotal: Option<int>, mfree: Option<int>, dtotal: Option<int>,
               dfree: Option<int>, csockets: Option<int>, offline: bool, role: string)
    | ClusterInfo(mtime: Option<int>)

  /** The searchable columns. */
  datatype Fields =
    | VmFields(ram: int, virtualCpus: int, diskSize: int, os: string, status: string)
    | NodeFields(ramTotal: int, ramFree: int, diskTotal: int, diskFree: int,
                 cpus: Option<int>, offline: bool, role: string)
    | NoFields

  function OrZero(x: Option<int>): int {
    if x.Some? then x.value else 0
  }

  function FieldsOf(info: Info): Fields {
    match info
    case VmInfo(_, memory, vcpus, disks, os, status) => VmFields(memory, vcpus, Sum(disks), os, status)
    case NodeInfo(_, mtotal, mfree, dtotal, dfree, csockets, offline, role) =>
      NodeFields(OrZero(mtotal), OrZero(mfree), OrZero(dtotal), OrZero(dfree), csockets, offline, role)
    case ClusterInfo(_) => NoFields
  }

  /** Parses the persistent columns; an instance's disk size is summed up disk by disk. */
  method ParsePersistentInfo(info: Info) returns (fields: Fields)
    ensures fields == FieldsOf(info)
  {
    match info
    case VmInfo(_, memory, vcpus, disks, os, status) =>
      var diskSize := 0;
      for i := 0 to |disks|
        invariant diskSize == Sum(disks[..i])
      {
        assert disks[..i + 1][..i] == disks[..i];
        diskSize := diskSize + disks[i];
      }
      assert disks[..|disks|] == disks;
      fields := VmFields(memory, vcpus, diskSize, os, status);
    case NodeInfo(_, mtotal, mfree, dtotal, dfree, csockets, offline, role) =>
      fields := NodeFields(OrZero(mtotal), OrZero(mfree), OrZero(dtotal), OrZero(dfree), csockets, offline, role);
    case ClusterInfo(_) =>
      fields := NoFields;
  }

  /** One version of an object on the server, and when it came into force. */
  datatype Version = Version(at: int, info: Info)

  /** The server's past: every version carries a true mtime, later versions a later one. */
  ghost predicate OrderedHistory(history: seq<Version>, now: int) {
    && (forall i :: 0 <= i < |history| ==>
          history[i].at <= now && history[i].info.mtime.Some? && 0 < history[i].info.mtime.value)
    && (forall i, j :: 0 <= i < j < |history| ==>
          history[i].at <= history[j].at && history[i].info.mtime.value < history[j].info.mtime.value)
  }

  /** `info` was the server's version number `k` at time `t` (at a moment of
      change both the old and the new version count as current). */
  ghost predicate CurrentVersion(history: seq<Version>, t: int, info: Info, k: int) {
    && 0 <= k < |history|
    && history[k].info == info
    && history[k].at <= t
    && (k + 1 < |history| ==> t <= history[k + 1].at)
  }

  ghost predicate WasCurrent(history: seq<Version>, t: int, info: Info) {
    exists k :: CurrentVersion(history, t, info, k)
  }
}
