/** A job row: polled on every load until it is known to have ended, and frozen from then on. */
module Jobs {
  import opened Wrappers
  import opened JobReplies

  /** A row.  Status and operation are columns that cannot be null; `finished` is the
      server's pair, and reading it as a moment is another module's matter. */
  datatype JobState = JobState(ignoreCache: bool, info: Option<JobInfo>, status: string, op: string,
                               finished: Option<(nat, nat)>)

  /** A job just recorded. */
  const CREATED := JobState(true, None, "", "", None)

  predicate Polled(s: JobState) {
    s.ignoreCache || s.info.None?
  }

  /** What a row can take has a status and an operation.  A valid reply may lack one of them. */
  predicate Storable(info: JobInfo) {
    info.status.Some? && ParseOp(info).Some?
  }

  /** Stores a reply and the columns parsed from it. */
  function Stored(s: JobState, info: JobInfo): JobState
    requires Storable(info)
  {
    JobState(s.ignoreCache && !Final(info.status), Some(info), info.status.value, ParseOp(info).value,
             if info.endTs.Some? then info.endTs else s.finished)
  }

  /** The row after a load. */
  function Loaded(s: JobState, reply: Reply): JobState {
    if !Polled(s) then s
    else match reply
      case Failed(code) => if code == 404 then s.(status := "unknown") else s
      case Answer(info) => if Storable(info) then Stored(s, info) else s
  }

  /** A valid reply that the row cannot take fails in the save, and the request with it. */
  predicate LoadDies(s: JobState, reply: Reply) {
    Polled(s) && reply.Answer? && ValidJob(reply.info) && !Storable(reply.info)
  }

  /** A job in memory and its row. */
  class Job {
    var row: JobState
    var ignoreCache: bool
    var info: Option<JobInfo>
    var status: Option<string>
    var op: Option<string>
    var finished: Option<(nat, nat)>

    constructor (row: JobState)
      ensures this.row == row && InStep()
    {
      this.row := row;
      ignoreCache, info, finished := row.ignoreCache, row.info, row.finished;
      status, op := Some(row.status), Some(row.op);
    }

    /** Memory and row hold the same. */
    predicate InStep()
      reads this
    {
      && ignoreCache == row.ignoreCache && info == row.info && finished == row.finished
      && status == Some(row.status) && op == Some(row.op)
    }

    /** Writes the row, unless a column that cannot be null would be. */
    method Save() returns (raised: bool)
      modifies this`row
      ensures raised <==> status.None? || op.None?
      ensures if raised then row == old(row) else InStep()
    {
      raised := status.None? || op.None?;
      if !raised {
        row := JobState(ignoreCache, info, status.value, op.value, finished);
      }
    }

    /** Assigning the info parses it into the columns. */
    method SetInfo(value: JobInfo)
      modifies this
      ensures row == old(row) && info == Some(value) && status == value.status && op == ParseOp(value)
      ensures ignoreCache == (old(ignoreCache) && !Final(value.status))
      ensures finished == if value.endTs.Some? then value.endTs else old(finished)
    {
      info := Some(value);
      status := value.status;
      op := ParseOp(value);
      if Final(status) {
        ignoreCache := false;
      }
      if value.endTs.Some? {
        finished := value.endTs;
      }
    }

    method Refresh(reply: JobInfo) returns (raised: bool)
      requires InStep()
      modifies this
      ensures raised <==> ValidJob(reply) && !Storable(reply)
      ensures row == if Storable(reply) then Stored(old(row), reply) else old(row)
    {
      raised := false;
      if ValidJob(reply) {
        SetInfo(reply);
        raised := Save();
      }
    }

    method LoadInfo(reply: Reply) returns (polled: bool, raised: bool)
      requires InStep()
      modifies this
      ensures polled == Polled(old(row)) && raised == LoadDies(old(row), reply)
      ensures row == Loaded(old(row), reply)
    {
      polled, raised := ignoreCache || info.None?, false;
      if polled {
        match reply
        case Failed(code) =>
          if code == 404 {
            status := UNKNOWN;
            raised := Save();
          }
        case Answer(data) =>
          raised := Refresh(data);
      }
    }
  }

  // ---- Runs of loads ----

  /** The row after loading it once per reply. */
  function LoadAll(s: JobState, replies: seq<Reply>): JobState {
    if replies == [] then s else Loaded(LoadAll(s, replies[..|replies| - 1]), replies[|replies| - 1])
  }

  /** How many of these loads ask the server. */
  function PollCount(s: JobState, replies: seq<Reply>): nat {
    if replies == [] then 0
    else PollCount(s, replies[..|replies| - 1]) + (if Polled(LoadAll(s, replies[..|replies| - 1])) then 1 else 0)
  }

  /** A reply that the row takes and that reports success or an error. */
  predicate Decisive(reply: Reply) {
    Taken(reply) && (reply.info.status == Some("success") || reply.info.status == Some("error"))
  }

  ghost predicate FirstDecisive(replies: seq<Reply>, k: int) {
    0 <= k < |replies| && Decisive(replies[k]) && forall i :: 0 <= i < k ==> !Decisive(replies[i])
  }

  /** A reply with a status and a last operation. */
  predicate Taken(reply: Reply) {
    reply.Answer? && reply.info.status.Some? && reply.info.ops.Some? && reply.info.ops.value != []
  }

  function LastOp(reply: Reply): string
    requires Taken(reply)
  {
    reply.info.ops.value[|reply.info.ops.value| - 1]
  }

  predicate Ended(reply: Reply) {
    Taken(reply) && reply.info.endTs.Some?
  }

  /** A reply that sets the status: one the row takes, or a 404. */
  predicate Telling(reply: Reply) {
    Taken(reply) || reply == Failed(404)
  }

  /** The last reply of a kind. */
  function Latest(p: Reply -> bool, replies: seq<Reply>): (latest: Option<Reply>)
    ensures latest.Some? ==> p(latest.value)
  {
    if replies == [] then None
    else if p(replies[|replies| - 1]) then Some(replies[|replies| - 1])
    else Latest(p, replies[..|replies| - 1])
  }

  lemma {:induction false} LatestIsLast(p: Reply -> bool, replies: seq<Reply>)
    ensures Latest(p, replies).None? <==> forall i :: 0 <= i < |replies| ==> !p(replies[i])
    ensures forall k :: 0 <= k < |replies| && p(replies[k]) && (forall i :: k < i < |replies| ==> !p(replies[i])) ==>
              Latest(p, replies) == Some(replies[k])
  {
    if replies != [] {
      LatestIsLast(p, replies[..|replies| - 1]);
    }
  }

  /** Until a decisive reply comes every load polls.  The last reply taken gives metadata
      and operation, the last one with an end the finish time, and the last one taken
      or 404 the status. */
  lemma {:induction false} PolledUntilDecided(replies: seq<Reply>)
    requires forall i :: 0 <= i < |replies| ==> !Decisive(replies[i])
    ensures var s := LoadAll(CREATED, replies);
            var (taken, ended, telling) := (Latest(Taken, replies), Latest(Ended, replies), Latest(Telling, replies));
            && s.ignoreCache && PollCount(CREATED, replies) == |replies|
            && (if taken.None? then s.info == CREATED.info && s.op == CREATED.op
                else s.info == Some(taken.value.info) && s.op == LastOp(taken.value))
            && s.finished == (if ended.None? then None else ended.value.info.endTs)
            && Some(s.status) == (if telling.None? then Some(CREATED.status)
                                  else if Taken(telling.value) then telling.value.info.status else Some("unknown"))
  {
    if replies != [] {
      PolledUntilDecided(replies[..|replies| - 1]);
    }
  }

  /** With the first decisive reply the row is final: no later load asks the
      server again and nothing in the row changes. */
  lemma {:induction false} FrozenOnceDecided(replies: seq<Reply>, k: nat)
    requires FirstDecisive(replies, k)
    ensures var s := LoadAll(CREATED, replies);
            && s.info == Some(replies[k].info) && Some(s.status) == replies[k].info.status && s.op == LastOp(replies[k])
            && s.finished == (if Ended(replies[k]) then replies[k].info.endTs
                              else LoadAll(CREATED, replies[..k]).finished)
            && !Polled(s) && !s.ignoreCache
            && PollCount(CREATED, replies) == k + 1
  {
    var most := replies[..|replies| - 1];
    if k == |replies| - 1 {
      PolledUntilDecided(most);
    } else {
      assert FirstDecisive(most, k);
      assert most[..k] == replies[..k];
      FrozenOnceDecided(most, k);
    }
  }

  /** So a job is asked about again exactly when no reply with an operation ever said
      success or error. */
  lemma PolledIffUndecided(replies: seq<Reply>)
    ensures Polled(LoadAll(CREATED, replies)) <==> forall i :: 0 <= i < |replies| ==> !Decisive(replies[i])
  {
    if i :| 0 <= i < |replies| && Decisive(replies[i]) {
      var k := FindFirst(replies, i);
      FrozenOnceDecided(replies, k);
    } else {
      PolledUntilDecided(replies);
    }
  }

  /** A row without metadata is polled whatever its flag says, and takes what it can. */
  lemma NothingKnownIsPolled(s: JobState, reply: Reply)
    requires s.info == None
    ensures Taken(reply) ==> Loaded(s, reply).info == Some(reply.info) && Loaded(s, reply).op == LastOp(reply)
    ensures reply == Failed(404) ==> Loaded(s, reply) == s.(status := "unknown")
  {
  }

  /** A job that was canceled is asked about for ever. */
  lemma CanceledIsPolled(replies: seq<Reply>, ops: seq<string>, endTs: Option<(nat, nat)>)
    requires forall i :: 0 <= i < |replies| ==> replies[i] == Answer(JobInfo(Some("canceled"), Some(ops), endTs))
    ensures Polled(LoadAll(CREATED, replies)) && PollCount(CREATED, replies) == |replies|
  {
    PolledUntilDecided(replies);
  }

  /** After any loads the next one dies exactly when none was decisive and it brings a
      valid reply without status or operation. */
  lemma LoadDiesIff(replies: seq<Reply>, reply: Reply)
    ensures LoadDies(LoadAll(CREATED, replies), reply) <==>
              && (forall i :: 0 <= i < |replies| ==> !Decisive(replies[i]))
              && reply.Answer? && (reply.info.status.Some? || reply.info.ops.Some?) && !Taken(reply)
  {
    PolledIffUndecided(replies);
  }

  /** A success without operations is valid, but not taken: the load dies, and the
      row is polled as before. */
  lemma SuccessWithoutOperations(s: JobState, endTs: Option<(nat, nat)>)
    requires Polled(s)
    ensures var reply := Answer(JobInfo(SUCCESS, None, endTs));
            ValidJob(reply.info) && LoadDies(s, reply) && Loaded(s, reply) == s && !Decisive(reply)
  {
  }

  lemma FindFirst(replies: seq<Reply>, i: nat) returns (k: nat)
    requires i < |replies| && Decisive(replies[i])
    ensures FirstDecisive(replies, k)
  {
    k := 0;
    while !Decisive(replies[k])
      invariant 0 <= k <= i
      invariant forall j :: 0 <= j < k ==> !Decisive(replies[j])
      decreases i - k
    {
      k := k + 1;
    }
  }
}
