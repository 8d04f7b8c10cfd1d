/** Classifying clusters by the version of their software. */
module Caps {
  import opened Wrappers
  import opened Decimals

  // ---- Versions ----

  function Split(s: string): (parts: seq<string>)
    ensures |parts| > 0
  {
    if s == "" then [""]
    else
      var rest := Split(s[1..]);
      if s[0] == '.' then [""] + rest else [[s[0]] + rest[0]] + rest[1..]
  }

  function ParseAll(parts: seq<string>): Option<seq<int>> {
    if parts == [] then Some([])
    else match ParseInt(parts[0])
      case None => None
      case Some(n) =>
        match ParseAll(parts[1..])
        case None => None
        case Some(rest) => Some([n] + rest)
  }

  /** The numbers between the dots, if they are all numbers. */
  function ParseVersion(s: string): Option<seq<int>> {
    ParseAll(Split(s))
  }

  /** The order of tuples: the first difference decides, and a prefix comes first. */
  predicate AtLeast(v: seq<int>, w: seq<int>) {
    if w == [] then true
    else if v == [] then false
    else v[0] > w[0] || (v[0] == w[0] && AtLeast(v[1..], w[1..]))
  }

  /** Where the first difference lies: `v` and `w` agree below `k`, and there `w` ends or `v`
      has the larger number. */
  predicate DecidedAt(v: seq<int>, w: seq<int>, k: nat) {
    k <= |v| && k <= |w| && v[..k] == w[..k] && (k == |w| || (k < |v| && v[k] > w[k]))
  }

  lemma {:induction false} AtLeastIff(v: seq<int>, w: seq<int>)
    ensures AtLeast(v, w) <==> exists k: nat :: DecidedAt(v, w, k)
  {
    if w == [] {
      assert DecidedAt(v, w, 0);
    } else if v != [] {
      AtLeastIff(v[1..], w[1..]);
      if v[0] > w[0] {
        assert DecidedAt(v, w, 0);
      }
      if k: nat :| v[0] == w[0] && DecidedAt(v[1..], w[1..], k) {
        assert v[..k + 1] == [v[0]] + v[1..][..k] && w[..k + 1] == [w[0]] + w[1..][..k];
        assert DecidedAt(v, w, k + 1);
      }
      if k: nat :| DecidedAt(v, w, k) && k > 0 {
        assert v[1..][..k - 1] == v[..k][1..] && w[1..][..k - 1] == w[..k][1..];
        assert DecidedAt(v[1..], w[1..], k - 1);
      }
    }
  }

  /** A version printed with dots is read number by number. */
  lemma {:induction false} SplitAtDot(a: string, rest: string)
    requires '.' !in a
    ensures Split(a) == [a] && Split(a + "." + rest) == [a] + Split(rest)
  {
    if a == "" {
      assert a + "." + rest == "." + rest;
      assert ("." + rest)[1..] == rest;
    } else {
      assert (a + "." + rest)[1..] == a[1..] + "." + rest;
      assert [a[0]] + a[1..] == a;
      SplitAtDot(a[1..], rest);
    }
  }

  lemma {:induction false} DecimalHasNoDot(n: nat)
    ensures '.' !in Decimal(n)
  {
    assert forall d :: 0 <= d < 10 ==> DIGITS[d] != '.';
    if n >= 10 {
      DecimalHasNoDot(n / 10);
    }
  }

  lemma PrintedVersionIsRead(major: nat, minor: nat, patch: nat)
    ensures ParseVersion(Decimal(major) + "." + (Decimal(minor) + "." + Decimal(patch))) == Some([major, minor, patch])
  {
    var a, b, c := Decimal(major), Decimal(minor), Decimal(patch);
    DecimalHasNoDot(major);
    DecimalHasNoDot(minor);
    DecimalHasNoDot(patch);
    SplitAtDot(a, b + "." + c);
    SplitAtDot(b, c);
    SplitAtDot(c, "");
    PrintedIsRead(major);
    PrintedIsRead(minor);
    PrintedIsRead(patch);
    hide Split, ParseInt, Decimal, ParseAll;
    ParseAllStep(c, [], patch, []);
    assert [c] + [] == [c] && [patch as int] + [] == [patch as int];
    ParseAllStep(b, [c], minor, [patch]);
    ParseAllStep(a, [b] + [c], major, [minor] + [patch]);
    assert [major] + ([minor] + [patch]) == [major, minor, patch];
  }

  lemma ParseAllStep(part: string, rest: seq<string>, n: int, more: seq<int>)
    requires ParseInt(part) == Some(n)
    requires rest == [] ==> more == []
    requires rest != [] ==> ParseAll(rest) == Some(more)
    ensures ParseAll([part] + rest) == Some([n] + more)
  {
    hide ParseInt;
    assert ([part] + rest)[1..] == rest;
    assert ParseAll([]) == Some([]);
  }

  lemma {:induction false} AtLeastTransitive(u: seq<int>, v: seq<int>, w: seq<int>)
    requires AtLeast(u, v) && AtLeast(v, w)
    ensures AtLeast(u, w)
  {
    if w != [] && u[0] == v[0] == w[0] {
      AtLeastTransitive(u[1..], v[1..], w[1..]);
    }
  }

  // ---- Classes ----

  const ANCIENT := 0
  const GANETI22 := 1
  const GANETI23 := 2
  const GANETI24 := 3
  const GANETI242 := 4
  const GANETI25 := 5
  const GANETI26 := 6
  const FUTURE := 7

  function ClassOf(version: seq<int>): int {
    if AtLeast(version, [2, 7, 0]) then FUTURE
    else if AtLeast(version, [2, 6, 0]) then GANETI26
    else if AtLeast(version, [2, 5, 0]) then GANETI25
    else if AtLeast(version, [2, 4, 2]) then GANETI242
    else if AtLeast(version, [2, 4, 0]) then GANETI24
    else if AtLeast(version, [2, 3, 0]) then GANETI23
    else if AtLeast(version, [2, 2, 0]) then GANETI22
    else ANCIENT
  }

  /** What does not parse counts as ancient. */
  function Classify(s: string): int {
    match ParseVersion(s)
    case None => ANCIENT
    case Some(version) => ClassOf(version)
  }

  predicate HasShutdownTimeout(s: string) {
    Classify(s) >= GANETI25
  }

  predicate HasCdrom2(s: string) {
    Classify(s) >= GANETI242
  }

  predicate HasBalloonMem(s: string) {
    Classify(s) >= GANETI26
  }

  predicate HasSharedFile(s: string) {
    Classify(s) >= GANETI25
  }

  // ---- The classes are the thresholds reached ----

  /** The lowest version of each class above ancient. */
  const THRESHOLDS: seq<seq<int>> :=
    [[2, 2, 0], [2, 3, 0], [2, 4, 0], [2, 4, 2], [2, 5, 0], [2, 6, 0], [2, 7, 0]]

  lemma ThresholdsRise(i: nat)
    requires i + 1 < |THRESHOLDS|
    ensures AtLeast(THRESHOLDS[i + 1], THRESHOLDS[i])
  {
  }

  /** A version's class is the number of thresholds it reaches: those below it and no others. */
  lemma ClassCountsThresholds(version: seq<int>)
    ensures forall i :: 0 <= i < |THRESHOLDS| ==> (AtLeast(version, THRESHOLDS[i]) <==> i < ClassOf(version))
  {
    forall i | 0 <= i < |THRESHOLDS| - 1 && AtLeast(version, THRESHOLDS[i + 1])
      ensures AtLeast(version, THRESHOLDS[i])
    {
      ThresholdsRise(i);
      AtLeastTransitive(version, THRESHOLDS[i + 1], THRESHOLDS[i]);
    }
    hide AtLeast;
    assert THRESHOLDS[0] == [2, 2, 0] && THRESHOLDS[1] == [2, 3, 0] && THRESHOLDS[2] == [2, 4, 0]
           && THRESHOLDS[3] == [2, 4, 2] && THRESHOLDS[4] == [2, 5, 0]
           && THRESHOLDS[5] == [2, 6, 0] && THRESHOLDS[6] == [2, 7, 0];
    forall i | 0 <= i < |THRESHOLDS|
      ensures AtLeast(version, THRESHOLDS[i]) <==> i < ClassOf(version)
    {
      assert i == 0 || i == 1 || i == 2 || i == 3 || i == 4 || i == 5 || i == 6;
    }
  }

  /** From which version on each capability is there; a version that does not parse has none. */
  lemma CapabilitiesFrom(s: string)
    ensures ParseVersion(s).None? ==>
              !HasShutdownTimeout(s) && !HasCdrom2(s) && !HasBalloonMem(s) && !HasSharedFile(s)
    ensures ParseVersion(s).Some? ==>
              var v := ParseVersion(s).value;
              && (HasShutdownTimeout(s) <==> AtLeast(v, [2, 5, 0]))
              && (HasCdrom2(s) <==> AtLeast(v, [2, 4, 2]))
              && (HasBalloonMem(s) <==> AtLeast(v, [2, 6, 0]))
              && (HasSharedFile(s) <==> AtLeast(v, [2, 5, 0]))
  {
    if ParseVersion(s).Some? {
      ClassCountsThresholds(ParseVersion(s).value);
      hide AtLeast, ParseVersion, ClassOf;
      assert THRESHOLDS[3] == [2, 4, 2] && THRESHOLDS[4] == [2, 5, 0] && THRESHOLDS[5] == [2, 6, 0];
    }
  }

  /** A later version never gets a lower class, so a capability once there stays. */
  lemma LaterIsNeverLower(s: string, t: string)
    requires ParseVersion(s).Some? && ParseVersion(t).Some?
    requires AtLeast(ParseVersion(t).value, ParseVersion(s).value)
    ensures Classify(s) <= Classify(t)
    ensures HasShutdownTimeout(s) ==> HasShutdownTimeout(t)
    ensures HasCdrom2(s) ==> HasCdrom2(t)
    ensures HasBalloonMem(s) ==> HasBalloonMem(t)
    ensures HasSharedFile(s) ==> HasSharedFile(t)
  {
    var v, w := ParseVersion(s).value, ParseVersion(t).value;
    ClassCountsThresholds(v);
    ClassCountsThresholds(w);
    if ClassOf(v) > 0 {
      AtLeastTransitive(w, v, THRESHOLDS[ClassOf(v) - 1]);
    }
  }
}
