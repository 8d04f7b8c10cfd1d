/** From the confirmed modify form to the list of changes to a machine's network interfaces. */
module Nics {
  import opened Wrappers

  datatype Nic = Nic(link: string, mac: string)

  /** One entry of the list sent to the server. */
  datatype Change =
    | Modify(index: nat, link: string, mac: Option<string>)
    | Add(link: string, mac: Option<string>)
    | Remove

  /** Keys of the form data.  `Other` stands for every parameter that is not about interfaces. */
  datatype Key = NicLink(i: nat) | NicMac(i: nat) | NicCount | NicCountOriginal | Changes | Other(name: string)

  datatype Value = Text(text: string) | Null | Number(n: nat) | List(changes: seq<Change>)

  predicate AboutNics(k: Key) {
    k.NicLink? || k.NicMac? || k.NicCount? || k.NicCountOriginal?
  }

  // ---- What the server does with a list of changes ----

  /** An interface added without an address gets one the server makes up; changing
      or removing an interface that is not there is an error. */
  function ApplyOne(nics: seq<Nic>, c: Change, invented: string): Option<seq<Nic>> {
    match c
    case Modify(i, link, mac) =>
      if i < |nics| then Some(nics[i := Nic(link, if mac.Some? then mac.value else nics[i].mac)]) else None
    case Add(link, mac) => Some(nics + [Nic(link, if mac.Some? then mac.value else invented)])
    case Remove => if |nics| > 0 then Some(nics[..|nics| - 1]) else None
  }

  function Apply(nics: seq<Nic>, cs: seq<Change>, invented: string): Option<seq<Nic>> {
    if cs == [] then Some(nics)
    else match Apply(nics, cs[..|cs| - 1], invented)
      case None => None
      case Some(before) => ApplyOne(before, cs[|cs| - 1], invented)
  }

  // ---- The form data ----

  /** The data of a valid form for machine `original` asking for `requested`: links and
      addresses for the larger of the two counts, whatever they say beyond the requested one. */
  ghost predicate Describes(data: map<Key, Value>, original: seq<Nic>, requested: seq<Nic>) {
    && NicCount in data && data[NicCount] == Number(|requested|)
    && NicCountOriginal in data && data[NicCountOriginal] == Number(|original|)
    && (forall i: nat :: NicLink(i) in data <==> i < |requested| || i < |original|)
    && (forall i: nat :: NicMac(i) in data <==> i < |requested| || i < |original|)
    && (forall i :: 0 <= i < |requested| ==>
          data[NicLink(i)] == Text(requested[i].link) && data[NicMac(i)] == Text(requested[i].mac))
  }

  /** The same after dropping: an address is gone exactly when it equals the original one. */
  ghost predicate Dropped(data: map<Key, Value>, original: seq<Nic>, requested: seq<Nic>) {
    && NicCount in data && data[NicCount] == Number(|requested|)
    && NicCountOriginal in data && data[NicCountOriginal] == Number(|original|)
    && (forall i: nat :: NicLink(i) in data <==> i < |requested| || i < |original|)
    && (forall i: nat :: NicMac(i) in data ==> i < |requested| || i < |original|)
    && (forall i :: 0 <= i < |requested| ==> data[NicLink(i)] == Text(requested[i].link))
    && (forall i :: 0 <= i < |requested| && NicMac(i) in data ==> data[NicMac(i)] == Text(requested[i].mac))
    && (forall i :: 0 <= i < |requested| && NicMac(i) !in data ==>
          i < |original| && original[i].mac == requested[i].mac)
  }

  function OptionalText(data: map<Key, Value>, k: Key): Option<string> {
    if k in data && data[k].Text? then Some(data[k].text) else None
  }

  function LinkAt(data: map<Key, Value>, i: nat): string {
    if NicLink(i) in data && data[NicLink(i)].Text? then data[NicLink(i)].text else ""
  }

  /** The changes for the first `n` interfaces of a machine that has `o`. */
  function Edits(data: map<Key, Value>, n: nat, o: nat): seq<Change> {
    if n == 0 then []
    else
      var i := n - 1;
      var mac := OptionalText(data, NicMac(i));
      Edits(data, n - 1, o) + [if i < o then Modify(i, LinkAt(data, i), mac) else Add(LinkAt(data, i), mac)]
  }

  function Removals(k: nat): seq<Change> {
    if k == 0 then [] else Removals(k - 1) + [Remove]
  }

  class RapiDict {
    var data: map<Key, Value>

    constructor (data: map<Key, Value>)
      ensures this.data == data
    {
      this.data := data;
    }

    /** Drops every address the user has not changed. */
    method DropUnchangedMacs(original: seq<Nic>, ghost requested: seq<Nic>)
      requires Describes(data, original, requested)
      modifies this
      ensures Dropped(data, original, requested)
      ensures forall i: nat :: NicMac(i) in data <==>
                NicMac(i) in old(data) && !(i < |original| && old(data)[NicMac(i)] == Text(original[i].mac))
      ensures forall k :: !AboutNics(k) ==> (k in data <==> k in old(data)) && (k in data ==> data[k] == old(data)[k])
    {
      for i := 0 to |original|
        invariant NicCount in data && data[NicCount] == Number(|requested|)
        invariant NicCountOriginal in data && data[NicCountOriginal] == Number(|original|)
        invariant forall k: Key :: !k.NicMac? ==>
                    (k in data <==> k in old(data)) && (k in data ==> data[k] == old(data)[k])
        invariant forall j: nat :: NicMac(j) in data ==>
                    NicMac(j) in old(data) && data[NicMac(j)] == old(data)[NicMac(j)]
        invariant forall j: nat :: i <= j && NicMac(j) in old(data) ==> NicMac(j) in data
        invariant forall j :: 0 <= j < i ==> (NicMac(j) !in data <==> old(data)[NicMac(j)] == Text(original[j].mac))
      {
        if data[NicMac(i)] == Text(original[i].mac) {
          data := data - {NicMac(i)};
        }
      }
    }

    /** Builds the list of changes and takes everything about interfaces out of the data. */
    method BuildChanges(ghost original: seq<Nic>, ghost requested: seq<Nic>) returns (nics: seq<Change>)
      requires Dropped(data, original, requested)
      modifies this
      ensures nics == Edits(old(data), |requested|, |original|)
                      + Removals(if |original| > |requested| then |original| - |requested| else 0)
      ensures Changes in data && data[Changes] == List(nics)
      ensures forall k :: AboutNics(k) ==> k !in data
      ensures Kept(data, old(data))
    {
      hide Edits, Removals;
      var o := data[NicCountOriginal].n;
      data := data - {NicCountOriginal};
      var n := data[NicCount].n;
      data := data - {NicCount};
      ghost var start := data;
      assert start == old(data) - {NicCount, NicCountOriginal};
      nics := PopEdits(n, o);
      SameEdits(start, old(data), n, o);
      var removals := PopRemovals(n, o);
      nics := nics + removals;
      data := data[Changes := List(nics)];
    }

    /** Pops links and addresses of the first `n` interfaces into a list of edits. */
    method PopEdits(n: nat, o: nat) returns (nics: seq<Change>)
      requires forall i: nat :: i < n ==> NicLink(i) in data && data[NicLink(i)].Text?
      requires forall i: nat :: i < n && NicMac(i) in data ==> data[NicMac(i)].Text?
      modifies this
      ensures nics == Edits(old(data), n, o)
      ensures forall j: nat :: NicLink(j) in data <==> NicLink(j) in old(data) && n <= j
      ensures forall j: nat :: NicMac(j) in data ==> NicMac(j) in old(data) && n <= j
      ensures NicCount in data <==> NicCount in old(data)
      ensures NicCountOriginal in data <==> NicCountOriginal in old(data)
      ensures Kept(data, old(data))
    {
      nics := [];
      for i := 0 to n
        invariant nics == Edits(old(data), i, o)
        invariant forall j: nat :: NicLink(j) in data <==> NicLink(j) in old(data) && i <= j
        invariant forall j: nat :: NicMac(j) in data <==> NicMac(j) in old(data) && i <= j
        invariant forall k: Key :: !k.NicLink? && !k.NicMac? ==> (k in data <==> k in old(data))
        invariant forall k :: k in data ==> k in old(data) && data[k] == old(data)[k]
      {
        var link := data[NicLink(i)].text;
        data := data - {NicLink(i)};
        var mac := None;
        if NicMac(i) in data {
          mac := Some(data[NicMac(i)].text);
          data := data - {NicMac(i)};
        }
        nics := nics + [if i < o then Modify(i, link, mac) else Add(link, mac)];
      }
    }

    /** Marks the interfaces beyond `n` as removed and throws away what the data says about them. */
    method PopRemovals(n: nat, o: nat) returns (removals: seq<Change>)
      requires forall j: nat :: NicLink(j) in data ==> n <= j
      requires forall j: nat :: n <= j < o ==> NicLink(j) in data
      modifies this
      ensures removals == Removals(if o > n then o - n else 0)
      ensures forall j: nat :: NicLink(j) in data <==> NicLink(j) in old(data) && !(n <= j < o)
      ensures forall j: nat :: NicMac(j) in data <==> NicMac(j) in old(data) && !(n <= j < o)
      ensures NicCount in data <==> NicCount in old(data)
      ensures NicCountOriginal in data <==> NicCountOriginal in old(data)
      ensures Kept(data, old(data))
    {
      removals := [];
      var i := n;
      while i < o
        invariant n <= i && (i <= o || i == n)
        invariant removals == Removals(i - n)
        invariant forall j: nat :: NicLink(j) in data <==> NicLink(j) in old(data) && !(n <= j < i)
        invariant forall j: nat :: NicMac(j) in data <==> NicMac(j) in old(data) && !(n <= j < i)
        invariant forall k: Key :: !k.NicLink? && !k.NicMac? ==> (k in data <==> k in old(data))
        invariant forall k :: k in data ==> k in old(data) && data[k] == old(data)[k]
      {
        removals := removals + [Remove];
        data := data - {NicMac(i)};
        data := data - {NicLink(i)};
        i := i + 1;
      }
    }
  }

  /** Parameters that are not about interfaces are as they were. */
  ghost predicate Kept(after: map<Key, Value>, before: map<Key, Value>) {
    forall k :: !AboutNics(k) && k != Changes ==>
      (k in after <==> k in before) && (k in after ==> after[k] == before[k])
  }

  lemma {:induction false} SameEdits(a: map<Key, Value>, b: map<Key, Value>, n: nat, o: nat)
    requires a == b - {NicCount, NicCountOriginal}
    ensures Edits(a, n, o) == Edits(b, n, o)
  {
    if n > 0 {
      SameEdits(a, b, n - 1, o);
    }
  }

  // ---- The changes do what was asked ----

  /** The interfaces once the first `k` entries have been applied. */
  function Mixed(original: seq<Nic>, requested: seq<Nic>, k: nat): seq<Nic>
    requires k <= |requested|
  {
    requested[..k] + (if k < |original| then original[k..] else [])
  }

  lemma {:induction false} EditsApply(data: map<Key, Value>, original: seq<Nic>, requested: seq<Nic>, k: nat,
                                      invented: string)
    requires Dropped(data, original, requested) && k <= |requested|
    ensures Apply(original, Edits(data, k, |original|), invented) == Some(Mixed(original, requested, k))
  {
    var cs := Edits(data, k, |original|);
    if k == 0 {
      assert Mixed(original, requested, 0) == original;
    } else {
      EditsApply(data, original, requested, k - 1, invented);
      assert cs[..|cs| - 1] == Edits(data, k - 1, |original|);
      EditApplies(data, original, requested, k, invented);
    }
  }

  /** One edit brings the interfaces one step further. */
  lemma EditApplies(data: map<Key, Value>, original: seq<Nic>, requested: seq<Nic>, k: nat, invented: string)
    requires Dropped(data, original, requested) && 0 < k <= |requested|
    ensures var cs := Edits(data, k, |original|);
            && cs != []
            && ApplyOne(Mixed(original, requested, k - 1), cs[|cs| - 1], invented) ==
                 Some(Mixed(original, requested, k))
  {
    assert OptionalText(data, NicMac(k - 1)).None? ==>
             k - 1 < |original| && original[k - 1].mac == requested[k - 1].mac;
    MixedStep(original, requested, k, if NicMac(k - 1) in data then requested[k - 1].mac else original[k - 1].mac);
    hide Mixed;
  }

  lemma MixedStep(original: seq<Nic>, requested: seq<Nic>, k: nat, mac: string)
    requires 0 < k <= |requested| && mac == requested[k - 1].mac
    ensures var before, after := Mixed(original, requested, k - 1), Mixed(original, requested, k);
            if k - 1 < |original|
            then
              && k - 1 < |before| && before[k - 1] == original[k - 1]
              && before[k - 1 := Nic(requested[k - 1].link, mac)] == after
            else before + [Nic(requested[k - 1].link, mac)] == after
  {
  }

  lemma ApplyAppend(nics: seq<Nic>, cs: seq<Change>, c: Change, invented: string)
    ensures Apply(nics, cs + [c], invented) ==
              match Apply(nics, cs, invented) { case None => None case Some(before) => ApplyOne(before, c, invented) }
  {
  }

  lemma Associates(a: seq<Change>, b: seq<Change>, c: seq<Change>)
    ensures a + (b + c) == (a + b) + c
  {
  }

  lemma {:induction false} RemovalsApply(nics: seq<Nic>, cs: seq<Change>, before: seq<Nic>, k: nat, invented: string)
    requires Apply(nics, cs, invented) == Some(before) && k <= |before|
    ensures Apply(nics, cs + Removals(k), invented) == Some(before[..|before| - k])
  {
    if k == 0 {
      assert cs + Removals(0) == cs;
      assert before[..|before| - 0] == before;
    } else {
      RemovalsApply(nics, cs, before, k - 1, invented);
      RemoveLast(before, k);
      Associates(cs, Removals(k - 1), [Remove]);
      hide Apply;
      ApplyAppend(nics, cs + Removals(k - 1), Remove, invented);
    }
  }

  lemma RemoveLast(before: seq<Nic>, k: nat)
    requires 0 < k <= |before|
    ensures var rest := before[..|before| - (k - 1)];
            |rest| > 0 && rest[..|rest| - 1] == before[..|before| - k]
  {
  }

  /** The script built from dropped data turns any original interfaces into exactly
      the requested ones, whatever the two counts, and never makes the server invent an address. */
  lemma ScriptIsCorrect(data: map<Key, Value>, original: seq<Nic>, requested: seq<Nic>, invented: string)
    requires Dropped(data, original, requested)
    ensures var gone := if |original| > |requested| then |original| - |requested| else 0;
            Apply(original, Edits(data, |requested|, |original|) + Removals(gone), invented) == Some(requested)
  {
    EditsApply(data, original, requested, |requested|, invented);
    var before := Mixed(original, requested, |requested|);
    var gone := if |original| > |requested| then |original| - |requested| else 0;
    RemovalsApply(original, Edits(data, |requested|, |original|), before, gone, invented);
    assert before[..|before| - gone] == requested;
  }

  /** The script entry by entry. */
  lemma {:induction false} ScriptEntries(data: map<Key, Value>, n: nat, o: nat)
    ensures |Edits(data, n, o)| == n
    ensures forall i :: 0 <= i < n ==>
              var mac := if NicMac(i) in data && data[NicMac(i)].Text? then Some(data[NicMac(i)].text) else None;
              Edits(data, n, o)[i] == if i < o then Modify(i, LinkAt(data, i), mac) else Add(LinkAt(data, i), mac)
  {
    if n > 0 {
      ScriptEntries(data, n - 1, o);
    }
  }

  lemma {:induction false} RemovalEntries(k: nat)
    ensures |Removals(k)| == k && forall i :: 0 <= i < k ==> Removals(k)[i] == Remove
  {
    if k > 0 {
      RemovalEntries(k - 1);
    }
  }

  /** Entry `i` of the script for a form that asks for `requested`: the link, and the address
      only where it is new; beyond the requested interfaces a removal. */
  function Asked(original: seq<Nic>, requested: seq<Nic>, i: nat): Change {
    if i >= |requested| then Remove
    else if i >= |original| then Add(requested[i].link, Some(requested[i].mac))
    else Modify(i, requested[i].link, if requested[i].mac == original[i].mac then None else Some(requested[i].mac))
  }

  /** Both steps together, from the form to the server. */
  method ConfirmNics(dict: RapiDict, original: seq<Nic>, ghost requested: seq<Nic>, ghost invented: string)
    returns (nics: seq<Change>)
    requires Describes(dict.data, original, requested)
    modifies dict
    ensures Apply(original, nics, invented) == Some(requested)
    ensures |nics| == (if |original| > |requested| then |original| else |requested|)
    ensures forall i :: 0 <= i < |nics| ==> nics[i] == Asked(original, requested, i)
    ensures forall k :: AboutNics(k) ==> k !in dict.data
    ensures dict.data == (map k | k in old(dict.data) && !AboutNics(k) :: old(dict.data)[k])[Changes := List(nics)]
  {
    dict.DropUnchangedMacs(original, requested);
    ghost var dropped := dict.data;
    nics := dict.BuildChanges(original, requested);
    ScriptIsCorrect(dropped, original, requested, invented);
    ScriptEntries(dropped, |requested|, |original|);
    RemovalEntries(if |original| > |requested| then |original| - |requested| else 0);
  }
}
