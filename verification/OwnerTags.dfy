/** Keeping a machine's owner tag in step with its owner when the machine is saved. */
module OwnerTags {
  import opened Wrappers
  import opened Decimals

  const OWNER_TAG: string := "gwm:owner:"

  predicate IsOwnerTag(tag: string) {
    OWNER_TAG <= tag
  }

  /** The owner an owner tag names; None if the rest of the tag is no number. */
  function OwnerIn(tag: string): Option<int>
    requires IsOwnerTag(tag)
  {
    ParseInt(tag[|OWNER_TAG|..])
  }

  function TagFor(owner: nat): string {
    OWNER_TAG + Decimal(owner)
  }

  predicate Malformed(tag: string) {
    IsOwnerTag(tag) && OwnerIn(tag).None?
  }

  /** An owner tag of this very owner. */
  predicate Own(tag: string, owner: Option<nat>) {
    IsOwnerTag(tag) && owner.Some? && OwnerIn(tag) == Some(owner.value)
  }

  /** An owner tag of somebody else. */
  predicate Foreign(tag: string, owner: Option<nat>) {
    IsOwnerTag(tag) && !Own(tag, owner)
  }

  /** What is printed into a tag names the owner it was printed for. */
  lemma TagNamesOwner(owner: nat)
    ensures Own(TagFor(owner), Some(owner)) && !Malformed(TagFor(owner))
    ensures TagFor(owner) == "gwm:owner:" + Decimal(owner)
  {
    PrintedIsRead(owner);
    assert TagFor(owner)[|OWNER_TAG|..] == Decimal(owner);
  }

  // ---- Lists of tags ----

  function Foreigns(tags: seq<string>, owner: Option<nat>): seq<string> {
    if tags == [] then []
    else (if Foreign(tags[0], owner) then [tags[0]] else []) + Foreigns(tags[1..], owner)
  }

  function Kept(tags: seq<string>, owner: Option<nat>): seq<string> {
    if tags == [] then []
    else (if Foreign(tags[0], owner) then [] else [tags[0]]) + Kept(tags[1..], owner)
  }

  /** What is kept is kept in order, duplicates included. */
  lemma {:induction false} KeptInOrder(tags: seq<string>, more: seq<string>, owner: Option<nat>)
    ensures Kept(tags + more, owner) == Kept(tags, owner) + Kept(more, owner)
  {
    hide Foreign;
    if tags == [] {
      assert tags + more == more;
    } else {
      assert (tags + more)[1..] == tags[1..] + more;
      KeptInOrder(tags[1..], more, owner);
    }
  }

  /** It is every tag but an owner tag that does not name this owner. */
  lemma KeptOne(x: string, owner: Option<nat>)
    ensures Kept([x], owner) ==
              if "gwm:owner:" <= x && !(owner.Some? && ParseInt(x[10..]) == Some(owner.value)) then [] else [x]
  {
    hide ParseInt;
    assert [x][1..] == [];
  }

  function RemoveFirst(tags: seq<string>, tag: string): seq<string> {
    if tags == [] then []
    else if tags[0] == tag then tags[1..]
    else [tags[0]] + RemoveFirst(tags[1..], tag)
  }

  function RemoveEach(tags: seq<string>, gone: seq<string>): seq<string> {
    if gone == [] then tags else RemoveFirst(RemoveEach(tags, gone[..|gone| - 1]), gone[|gone| - 1])
  }

  lemma {:induction false} RemoveEachSkips(tag: string, tags: seq<string>, gone: seq<string>)
    requires tag !in gone
    ensures RemoveEach([tag] + tags, gone) == [tag] + RemoveEach(tags, gone)
  {
    if gone != [] {
      RemoveEachSkips(tag, tags, gone[..|gone| - 1]);
    }
  }

  lemma {:induction false} RemoveEachHead(tag: string, tags: seq<string>, gone: seq<string>)
    ensures RemoveEach([tag] + tags, [tag] + gone) == RemoveEach(tags, gone)
  {
    if gone == [] {
      assert RemoveEach([tag] + tags, [tag]) == RemoveFirst(RemoveEach([tag] + tags, []), tag);
    } else {
      RemoveEachHead(tag, tags, gone[..|gone| - 1]);
      assert ([tag] + gone)[..|gone|] == [tag] + gone[..|gone| - 1];
    }
  }

  lemma {:induction false} ForeignsAreForeign(tags: seq<string>, owner: Option<nat>)
    ensures forall t :: t in Foreigns(tags, owner) <==> t in tags && Foreign(t, owner)
    ensures forall t :: t in Kept(tags, owner) <==> t in tags && !Foreign(t, owner)
  {
    if tags != [] {
      ForeignsAreForeign(tags[1..], owner);
      assert forall t :: t in tags <==> t == tags[0] || t in tags[1..];
    }
  }

  /** Removing the foreign tags one occurrence at a time leaves the other tags, in order. */
  lemma {:induction false} RemovingForeigns(tags: seq<string>, owner: Option<nat>)
    ensures RemoveEach(tags, Foreigns(tags, owner)) == Kept(tags, owner)
  {
    if tags != [] {
      RemovingForeigns(tags[1..], owner);
      ForeignsAreForeign(tags[1..], owner);
      assert tags == [tags[0]] + tags[1..];
      if Foreign(tags[0], owner) {
        RemoveEachHead(tags[0], tags[1..], Foreigns(tags[1..], owner));
      } else {
        assert Foreigns(tags, owner) == Foreigns(tags[1..], owner);
        RemoveEachSkips(tags[0], tags[1..], Foreigns(tags[1..], owner));
      }
    }
  }

  // ---- Saving ----

  datatype Result = Saved | ApiError | ValueError

  /** What a save learns: the cluster's username, the machine's owner, and whether
      the server takes the tag calls. */
  datatype Setting = Setting(username: string, owner: Option<nat>, deletes: bool, adds: bool)

  predicate HasOwner(owner: Option<nat>) {
    owner.Some? && owner.value != 0
  }

  /** Local tags, the server's tags, and how many tag calls were made. */
  datatype Tags = Tags(local: seq<string>, server: set<string>, calls: nat)

  class VirtualMachine {
    var tags: seq<string>
    var server: set<string>
    var calls: nat

    constructor (tags: seq<string>)
      ensures State() == Tags(tags, set t | t in tags, 0)
    {
      this.tags, this.server, this.calls := tags, set t | t in tags, 0;
    }

    function State(): Tags
      reads this
    {
      Tags(tags, server, calls)
    }

    method Save(s: Setting) returns (result: Result)
      modifies this
      ensures (State(), result) == Settled(old(State()), s)
    {
      hide Foreigns, Kept, HasOwn, HasMalformed, RemoveEach, TagFor;
      if s.username == "" {
        return Saved;
      }
      var valid, found, remove := Classify(s.owner);
      if !valid {
        return ValueError;
      }
      if remove != [] {
        calls := calls + 1;
        if !s.deletes {
          return ApiError;
        }
        server := server - set t | t in remove;
        DropEach(remove);
        RemovingForeigns(old(tags), s.owner);
      }
      if HasOwner(s.owner) && !found {
        calls := calls + 1;
        if !s.adds {
          return ApiError;
        }
        server := server + {TagFor(s.owner.value)};
        tags := tags + [TagFor(s.owner.value)];
      }
      return Saved;
    }

    /** Looks for the owner's tag and collects everybody else's; not valid if some tag does not parse. */
    method Classify(owner: Option<nat>) returns (valid: bool, found: bool, remove: seq<string>)
      ensures valid <==> !HasMalformed(tags)
      ensures valid ==> (found <==> HasOwn(tags, owner)) && remove == Foreigns(tags, owner)
    {
      hide Foreigns, HasOwn, HasMalformed, ParseInt;
      EmptyTags(tags, owner);
      valid, found, remove := true, false, [];
      var i := 0;
      while i < |tags|
        invariant 0 <= i <= |tags| && valid
        invariant found <==> HasOwn(tags[..i], owner)
        invariant !HasMalformed(tags[..i])
        invariant remove + Foreigns(tags[i..], owner) == Foreigns(tags, owner)
      {
        assert tags[..i + 1] == tags[..i] + [tags[i]];
        OneMore(tags[..i], tags[i], owner);
        ForeignsStep(tags, i, owner);
        if IsOwnerTag(tags[i]) {
          var id := OwnerIn(tags[i]);
          if id.None? {
            MalformedSomewhere(tags, tags[i]);
            return false, false, [];
          }
          if owner.Some? && id == Some(owner.value) {
            found := true;
          } else {
            remove := remove + [tags[i]];
          }
        }
        i := i + 1;
      }
      assert tags[..i] == tags;
    }

    method DropEach(remove: seq<string>)
      modifies this`tags
      ensures tags == RemoveEach(old(tags), remove)
    {
      var i := 0;
      while i < |remove|
        invariant 0 <= i <= |remove|
        invariant tags == RemoveEach(old(tags), remove[..i])
      {
        assert remove[..i + 1][..i] == remove[..i];
        tags := RemoveFirst(tags, remove[i]);
        i := i + 1;
      }
      assert remove[..i] == remove;
    }
  }

  predicate HasOwn(tags: seq<string>, owner: Option<nat>) {
    exists x :: x in tags && Own(x, owner)
  }

  predicate HasMalformed(tags: seq<string>) {
    exists x :: x in tags && Malformed(x)
  }

  lemma EmptyTags(tags: seq<string>, owner: Option<nat>)
    ensures !HasOwn(tags[..0], owner) && !HasMalformed(tags[..0])
    ensures tags[0..] == tags && Foreigns(tags[|tags|..], owner) == []
  {
  }

  lemma MalformedSomewhere(tags: seq<string>, tag: string)
    requires tag in tags && Malformed(tag)
    ensures HasMalformed(tags)
  {
  }

  lemma OneMore(tags: seq<string>, tag: string, owner: Option<nat>)
    ensures HasOwn(tags + [tag], owner) <==> HasOwn(tags, owner) || Own(tag, owner)
    ensures HasMalformed(tags + [tag]) <==> HasMalformed(tags) || Malformed(tag)
  {
  }

  lemma ForeignsStep(tags: seq<string>, i: nat, owner: Option<nat>)
    requires i < |tags|
    ensures Foreigns(tags[i..], owner) ==
              (if Foreign(tags[i], owner) then [tags[i]] else []) + Foreigns(tags[i + 1..], owner)
  {
  }

  /** The state and result of a save, in one expression.  On a cluster without a
      username the tags are not looked at. */
  function Settled(t: Tags, s: Setting): (Tags, Result) {
    if s.username == "" then (t, Saved)
    else if HasMalformed(t.local) then (t, ValueError)
    else
      var remove := Foreigns(t.local, s.owner);
      if remove != [] && !s.deletes then (t.(calls := t.calls + 1), ApiError)
      else
        var clean := if remove == [] then t
                     else Tags(Kept(t.local, s.owner), t.server - (set x | x in remove), t.calls + 1);
        if HasOwner(s.owner) && !HasOwn(t.local, s.owner) then
          if !s.adds then (clean.(calls := clean.calls + 1), ApiError)
          else
            var tag := TagFor(s.owner.value);
            (Tags(clean.local + [tag], clean.server + {tag}, clean.calls + 1), Saved)
        else (clean, Saved)
  }

  /** Both sides hold the same tags. */
  ghost predicate Agree(t: Tags) {
    t.server == set x | x in t.local
  }

  /** However a save ends, both sides still hold the same tags. */
  lemma SaveKeepsAgreement(t: Tags, s: Setting)
    requires Agree(t)
    ensures Agree(Settled(t, s).0)
  {
    ForeignsAreForeign(t.local, s.owner);
  }

  lemma {:induction false} NothingForeign(tags: seq<string>, owner: Option<nat>)
    requires forall x :: x in tags ==> !Foreign(x, owner)
    ensures Foreigns(tags, owner) == [] && Kept(tags, owner) == tags
  {
    hide Foreign;
    if tags != [] {
      assert tags[0] in tags && [tags[0]] + tags[1..] == tags;
      NothingForeign(tags[1..], owner);
    }
  }

  /** What a successful save leaves behind on a cluster with a username. */
  function Tidy(tags: seq<string>, owner: Option<nat>): seq<string> {
    Kept(tags, owner) + (if HasOwner(owner) && !HasOwn(tags, owner) then [TagFor(owner.value)] else [])
  }

  lemma KeptHasOwn(tags: seq<string>, owner: Option<nat>)
    ensures HasOwn(Kept(tags, owner), owner) <==> HasOwn(tags, owner)
  {
    ForeignsAreForeign(tags, owner);
    if HasOwn(tags, owner) {
      var x :| x in tags && Own(x, owner);
      assert x in Kept(tags, owner);
    }
  }

  lemma TidyIsTidy(tags: seq<string>, owner: Option<nat>)
    ensures forall x :: x in Tidy(tags, owner) && IsOwnerTag(x) ==> Own(x, owner)
    ensures HasOwner(owner) ==> HasOwn(Tidy(tags, owner), owner)
    ensures Foreigns(Tidy(tags, owner), owner) == [] && !HasMalformed(Tidy(tags, owner))
  {
    ForeignsAreForeign(tags, owner);
    KeptHasOwn(tags, owner);
    if owner.Some? {
      TagNamesOwner(owner.value);
      OneMore(Kept(tags, owner), TagFor(owner.value), owner);
    }
    assert forall x :: x in Tidy(tags, owner) ==> !Foreign(x, owner) by {
      assert forall x :: x in Tidy(tags, owner) ==> x in Kept(tags, owner) || (owner.Some? && x == TagFor(owner.value));
    }
    NothingForeign(Tidy(tags, owner), owner);
  }

  /** On a cluster with a username a successful save leaves the tags in order
      without those of other owners, with the owner's own added at the end if it was
      missing: every owner tag left is the owner's, and there is one if there is an owner. */
  lemma SaveSettles(t: Tags, s: Setting)
    requires s.username != "" && Settled(t, s).1 == Saved
    ensures var after := Settled(t, s).0;
            && after.local == Tidy(t.local, s.owner)
            && (forall x :: x in after.local && IsOwnerTag(x) ==> Own(x, s.owner))
            && (s.owner.Some? && s.owner.value != 0 ==> HasOwn(after.local, s.owner))
            && (s.owner == Some(0) ==> |after.local| <= |t.local|)
            && Foreigns(after.local, s.owner) == [] && !HasMalformed(after.local)
            && after.calls == t.calls + (if Kept(t.local, s.owner) != t.local then 1 else 0)
                                      + (if HasOwner(s.owner) && !HasOwn(t.local, s.owner) then 1 else 0)
  {
    KeptShorter(t.local, s.owner);
    hide HasOwn, HasMalformed, IsOwnerTag, Own;
    if Foreigns(t.local, s.owner) == [] {
      NoForeigns(t.local, s.owner);
    }
    TidyIsTidy(t.local, s.owner);
  }

  /** How a save fails: over an owner tag that names no owner, before any call; or when the server
      refuses to delete tags of others, with nothing changed; or to add the owner's, with the
      others gone. */
  lemma SaveFailsIff(t: Tags, s: Setting)
    ensures var (after, result) := Settled(t, s);
            var foreign := exists x :: x in t.local && Foreign(x, s.owner);
            && (result == ValueError <==> s.username != "" && HasMalformed(t.local))
            && (result == ApiError <==>
                  && s.username != "" && !HasMalformed(t.local)
                  && ((foreign && !s.deletes) || (HasOwner(s.owner) && !HasOwn(t.local, s.owner) && !s.adds)))
            && (result == ValueError ==> after == t)
            && (result == ApiError ==>
                  if foreign && !s.deletes then after == t.(calls := t.calls + 1)
                  else after.local == Kept(t.local, s.owner))
  {
    ForeignsAreForeign(t.local, s.owner);
    if Foreigns(t.local, s.owner) == [] {
      NoForeigns(t.local, s.owner);
    }
    hide HasMalformed, Foreign, HasOwn, TagFor;
    assert Foreigns(t.local, s.owner) != [] ==> Foreigns(t.local, s.owner)[0] in Foreigns(t.local, s.owner);
  }

  lemma {:induction false} KeptShorter(tags: seq<string>, owner: Option<nat>)
    ensures |Kept(tags, owner)| + |Foreigns(tags, owner)| == |tags|
  {
    if tags != [] {
      KeptShorter(tags[1..], owner);
    }
  }

  lemma NoForeigns(tags: seq<string>, owner: Option<nat>)
    requires Foreigns(tags, owner) == []
    ensures Kept(tags, owner) == tags
  {
  }

  /** After a save that went through a second one leaves everything as it is and makes
      no call, on any cluster, for any owner, and whatever the server would say. */
  lemma SecondSaveIsSilent(t: Tags, s: Setting, again: Setting)
    requires Settled(t, s).1 == Saved
    requires again.username == s.username && again.owner == s.owner
    ensures Settled(Settled(t, s).0, again) == (Settled(t, s).0, Saved)
  {
    if s.username != "" {
      SaveSettles(t, s);
    }
  }

  /** A save that failed half way is made good by a later one: tags and server end up
      as if it had gone through at once. */
  lemma RetryCatchesUp(t: Tags, s: Setting)
    requires Settled(t, s).1 == ApiError
    ensures var working := s.(deletes := true, adds := true);
            var (late, result) := Settled(Settled(t, s).0, working);
            var (once, _) := Settled(t, working);
            result == Saved && late.local == once.local && late.server == once.server
  {
    var kept := Kept(t.local, s.owner);
    if Foreigns(t.local, s.owner) == [] {
      NoForeigns(t.local, s.owner);
    }
    KeptIsClean(t.local, s.owner);
    KeptHasOwn(t.local, s.owner);
    hide HasOwn, HasMalformed, Foreigns, Kept, TagFor;
    assert !HasMalformed(kept);
  }

  lemma KeptIsClean(tags: seq<string>, owner: Option<nat>)
    ensures Foreigns(Kept(tags, owner), owner) == [] && !HasMalformed(Kept(tags, owner))
  {
    ForeignsAreForeign(tags, owner);
    NothingForeign(Kept(tags, owner), owner);
  }
}
