/** Severity buckets: an ordered, gapless cover of severities 0 to 255. */
module LevelBuckets {
  import opened Options
  import Sorting

  const MAX_SEVERITY: nat := 255

  /** `minSeverity` is inclusive; a bucket runs up to the next one's. */
  datatype Bucket = Bucket(name: string, minSeverity: nat, retention: nat)

  datatype Problem =
    | NoBuckets | UncoveredSeverity | DuplicateMinSeverity(severity: nat) | BadBucketName(name: string)
    | ZeroRetention(name: string) | DuplicateBucketName

  datatype Outcome = Accepted(buckets: seq<Bucket>) | Rejected(problem: Problem)

  /** What a directory name may be, and how a file system that ignores case reads it. */
  datatype Naming = Naming(allowed: string -> bool, folded: string -> string)

  // ---- sorting

  ghost predicate Sorted(bs: seq<Bucket>) {
    forall i, j :: 0 <= i < j < |bs| ==> bs[i].minSeverity <= bs[j].minSeverity
  }

  ghost predicate StrictlySorted(bs: seq<Bucket>) {
    forall i, j :: 0 <= i < j < |bs| ==> bs[i].minSeverity < bs[j].minSeverity
  }

  predicate StartsAtOrBefore(a: Bucket, b: Bucket) { a.minSeverity <= b.minSeverity }

  /** A stable sort by the lowest severity. */
  method SortBuckets(bs: seq<Bucket>) returns (r: seq<Bucket>)
    ensures Sorted(r) && multiset(r) == multiset(bs)
  {
    r := Sorting.Sort(bs, StartsAtOrBefore);
    forall i, j | 0 <= i < j < |r| ensures r[i].minSeverity <= r[j].minSeverity {
      assert StartsAtOrBefore(r[i], r[j]);
    }
  }

  // ---- acceptance

  ghost predicate DistinctMins(bs: seq<Bucket>) {
    forall i, j :: 0 <= i < j < |bs| ==> bs[i].minSeverity != bs[j].minSeverity
  }

  ghost predicate DistinctNames(bs: seq<Bucket>, naming: Naming) {
    forall i, j :: 0 <= i < j < |bs| ==> naming.folded(bs[i].name) != naming.folded(bs[j].name)
  }

  ghost predicate Sound(bs: seq<Bucket>, naming: Naming) {
    forall b :: b in bs ==> naming.allowed(b.name) && b.retention > 0
  }

  /** A list `New` returns: from 0, strictly upward, every bucket sound, no two names one directory. */
  ghost predicate Cover(bs: seq<Bucket>, naming: Naming) {
    bs != [] && bs[0].minSeverity == 0 && StrictlySorted(bs) && Sound(bs, naming) && DistinctNames(bs, naming)
  }

  /** Bucket `i` is the first to start where the one before it starts. */
  ghost predicate RepeatsAt(bs: seq<Bucket>, severity: nat, i: nat) {
    0 < i < |bs| && bs[i - 1].minSeverity == severity && bs[i].minSeverity == severity && StrictlySorted(bs[..i])
  }

  /** Bucket `i` is the first unsound one. */
  ghost predicate UnsoundAt(bs: seq<Bucket>, naming: Naming, i: nat) {
    i < |bs| && Sound(bs[..i], naming) && !(naming.allowed(bs[i].name) && bs[i].retention > 0)
  }

  function FaultOf(b: Bucket, naming: Naming): Problem {
    if naming.allowed(b.name) then ZeroRetention(b.name) else BadBucketName(b.name)
  }

  method FirstDuplicateMin(bs: seq<Bucket>) returns (at: Option<nat>)
    requires Sorted(bs)
    ensures at.None? ==> StrictlySorted(bs)
    ensures at.Some? ==> !DistinctMins(bs) && exists i: nat :: RepeatsAt(bs, at.value, i)
  {
    var i := 1;
    while i < |bs|
      invariant 1 <= i
      invariant forall j :: 1 <= j < i && j < |bs| ==> bs[j - 1].minSeverity < bs[j].minSeverity
    {
      if bs[i - 1].minSeverity == bs[i].minSeverity {
        Chain(bs[..i]);
        assert RepeatsAt(bs, bs[i].minSeverity, i);
        return Some(bs[i].minSeverity);
      }
      i := i + 1;
    }
    Chain(bs);
    at := None;
  }

  lemma Chain(bs: seq<Bucket>)
    requires Sorted(bs) && forall j :: 1 <= j < |bs| ==> bs[j - 1].minSeverity < bs[j].minSeverity
    ensures StrictlySorted(bs)
  {
    forall i, j | 0 <= i < j < |bs| ensures bs[i].minSeverity < bs[j].minSeverity {
      assert bs[j - 1].minSeverity < bs[j].minSeverity;
    }
  }

  method FirstUnsound(bs: seq<Bucket>, naming: Naming) returns (problem: Option<Problem>)
    ensures problem.None? <==> Sound(bs, naming)
    ensures problem.Some? ==> exists i: nat :: UnsoundAt(bs, naming, i) && problem.value == FaultOf(bs[i], naming)
  {
    for i := 0 to |bs|
      invariant forall k :: 0 <= k < i ==> naming.allowed(bs[k].name) && bs[k].retention > 0
    {
      if !naming.allowed(bs[i].name) {
        assert bs[i] in bs && UnsoundAt(bs, naming, i);
        return Some(BadBucketName(bs[i].name));
      }
      if bs[i].retention == 0 {
        assert bs[i] in bs && UnsoundAt(bs, naming, i);
        return Some(ZeroRetention(bs[i].name));
      }
    }
    problem := None;
  }

  method NamesClash(bs: seq<Bucket>, naming: Naming) returns (clash: bool)
    ensures clash <==> !DistinctNames(bs, naming)
  {
    for i := 0 to |bs|
      invariant DistinctNames(bs[..i], naming)
    {
      for j := 0 to i
        invariant forall k :: 0 <= k < j ==> naming.folded(bs[k].name) != naming.folded(bs[i].name)
      {
        if naming.folded(bs[j].name) == naming.folded(bs[i].name) {
          return true;
        }
      }
      assert forall k :: 0 <= k < i ==> bs[..i + 1][k] == bs[k];
    }
    assert bs[..|bs|] == bs;
    clash := false;
  }

  /** `order` is some order of `bs`. */
  ghost predicate Reorders(order: seq<Bucket>, bs: seq<Bucket>) {
    multiset(order) == multiset(bs)
  }

  /** What is wrong with the buckets in order of their lowest severity, in the order it is looked for. */
  ghost predicate ProblemOf(problem: Problem, sorted: seq<Bucket>, naming: Naming) {
    var covered := sorted != [] && sorted[0].minSeverity == 0;
    match problem
    case NoBuckets => sorted == []
    case UncoveredSeverity => sorted != [] && forall b :: b in sorted ==> b.minSeverity > 0
    case DuplicateMinSeverity(v) => covered && exists i: nat :: RepeatsAt(sorted, v, i)
    case BadBucketName(name) =>
      covered && StrictlySorted(sorted) && !naming.allowed(name) && exists i: nat :: UnsoundAt(sorted, naming, i) && sorted[i].name == name
    case ZeroRetention(name) =>
      covered && StrictlySorted(sorted) && naming.allowed(name) && exists i: nat :: UnsoundAt(sorted, naming, i) && sorted[i].name == name
    case DuplicateBucketName => covered && StrictlySorted(sorted) && Sound(sorted, naming) && !DistinctNames(sorted, naming)
  }

  ghost predicate ProblemIn(problem: Problem, bs: seq<Bucket>, naming: Naming) {
    exists sorted :: Sorted(sorted) && Reorders(sorted, bs) && ProblemOf(problem, sorted, naming)
  }

  /** Accepts a list exactly when its buckets can be ordered into a cover, and returns that order. */
  method New(bs: seq<Bucket>, naming: Naming) returns (r: Outcome)
    ensures r.Accepted? ==> Cover(r.buckets, naming) && Reorders(r.buckets, bs)
    ensures r.Rejected? ==> forall order :: Reorders(order, bs) ==> !Cover(order, naming)
    ensures r.Rejected? ==> ProblemIn(r.problem, bs, naming)
  {
    if bs == [] {
      NoOrderOfNothing();
      assert Sorted(bs) && Reorders(bs, bs) && ProblemOf(NoBuckets, bs, naming);
      return Rejected(NoBuckets);
    }
    var sorted := SortBuckets(bs);
    SameLength(sorted, bs);
    SortedIsTheOrder(sorted, naming);
    if sorted[0].minSeverity != 0 {
      return Rejected(UncoveredSeverity);
    }
    var duplicate := FirstDuplicateMin(sorted);
    if duplicate.Some? {
      return Rejected(DuplicateMinSeverity(duplicate.value));
    }
    var problem := FirstUnsound(sorted, naming);
    if problem.Some? {
      return Rejected(problem.value);
    }
    var clash := NamesClash(sorted, naming);
    if clash {
      return Rejected(DuplicateBucketName);
    }
    r := Accepted(sorted);
  }

  lemma NoOrderOfNothing()
    ensures forall order :: Reorders(order, []) ==> order == []
  {
    forall order | Reorders(order, []) ensures order == [] {
      SameLength(order, []);
    }
  }

  /** If any order of the buckets is a cover, the sorted one is that order. */
  lemma SortedIsTheOrder(sorted: seq<Bucket>, naming: Naming)
    requires Sorted(sorted)
    ensures forall order :: Reorders(order, sorted) && Cover(order, naming) ==> order == sorted
  {
    forall order | Reorders(order, sorted) && Cover(order, naming) ensures order == sorted {
      SameOrder(order, sorted);
    }
  }

  lemma SameLast(a: seq<Bucket>, b: seq<Bucket>)
    requires multiset(a) == multiset(b) && StrictlySorted(a) && Sorted(b) && a != [] && b != []
    ensures a[|a|-1] == b[|b|-1]
  {
    var x, y := a[|a|-1], b[|b|-1];
    assert x in multiset(b) && y in multiset(a);
    var i :| 0 <= i < |b| && b[i] == x;
    var j :| 0 <= j < |a| && a[j] == y;
    assert x.minSeverity <= y.minSeverity && (j < |a| - 1 ==> y.minSeverity < x.minSeverity);
  }

  lemma SameInit(a: seq<Bucket>, b: seq<Bucket>)
    requires multiset(a) == multiset(b) && |a| == |b| > 0 && a[|a|-1] == b[|b|-1]
    ensures multiset(a[..|a|-1]) == multiset(b[..|b|-1])
  {
    assert a == a[..|a|-1] + [a[|a|-1]] && b == b[..|b|-1] + [b[|b|-1]];
    assert multiset(a[..|a|-1]) == multiset(a) - multiset{a[|a|-1]};
  }

  lemma SameWhole(a: seq<Bucket>, b: seq<Bucket>)
    requires |a| == |b| > 0 && a[|a|-1] == b[|b|-1] && a[..|a|-1] == b[..|b|-1]
    ensures a == b
  {
    assert a == a[..|a|-1] + [a[|a|-1]] && b == b[..|b|-1] + [b[|b|-1]];
  }

  lemma SameLength(a: seq<Bucket>, b: seq<Bucket>)
    requires multiset(a) == multiset(b)
    ensures |a| == |b|
  {
    assert |multiset(a)| == |a| && |multiset(b)| == |b|;
  }

  lemma SortedPrefix(a: seq<Bucket>, b: seq<Bucket>, k: nat)
    requires StrictlySorted(a) && Sorted(b) && k <= |a| && k <= |b|
    ensures StrictlySorted(a[..k]) && Sorted(b[..k])
  {
  }

  lemma {:induction false} SameOrder(a: seq<Bucket>, b: seq<Bucket>)
    requires multiset(a) == multiset(b) && StrictlySorted(a) && Sorted(b)
    ensures a == b
  {
    hide StrictlySorted, Sorted;
    SameLength(a, b);
    if a != [] {
      var k := |a| - 1;
      SortedPrefix(a, b, k);
      SameLast(a, b);
      SameInit(a, b);
      SameOrder(a[..k], b[..k]);
      SameWhole(a, b);
    }
  }

  // ---- lookup

  /** How many of the leading buckets start at or below `severity`. */
  function Point(bs: seq<Bucket>, severity: nat): (n: nat)
    ensures n <= |bs|
    ensures forall i :: 0 <= i < n ==> bs[i].minSeverity <= severity
    ensures n < |bs| ==> bs[n].minSeverity > severity
  {
    if bs == [] || bs[0].minSeverity > severity then 0 else 1 + Point(bs[1..], severity)
  }

  lemma PointIs(bs: seq<Bucket>, severity: nat, n: nat)
    requires n <= |bs| && (forall i :: 0 <= i < n ==> bs[i].minSeverity <= severity)
    requires n < |bs| ==> bs[n].minSeverity > severity
    ensures Point(bs, severity) == n
  {
  }

  /** The search by halves that finds the point of an ordered list. */
  method PartitionPoint(bs: seq<Bucket>, severity: nat) returns (n: nat)
    requires Sorted(bs)
    ensures n == Point(bs, severity)
  {
    var lo, hi := 0, |bs|;
    while lo < hi
      invariant 0 <= lo <= hi <= |bs|
      invariant forall i :: 0 <= i < lo ==> bs[i].minSeverity <= severity
      invariant forall i :: hi <= i < |bs| ==> bs[i].minSeverity > severity
    {
      var mid := (lo + hi) / 2;
      if bs[mid].minSeverity <= severity {
        lo := mid + 1;
      } else {
        hi := mid;
      }
    }
    n := lo;
    PointIs(bs, severity, n);
  }

  /** The index of the bucket that owns a severity. */
  function Owner(bs: seq<Bucket>, severity: nat): (j: nat)
    ensures bs != [] ==> j < |bs|
  {
    var n := Point(bs, severity);
    if n == 0 then 0 else n - 1
  }

  function BucketFor(bs: seq<Bucket>, severity: nat): Bucket
    requires bs != []
  {
    bs[Owner(bs, severity)]
  }

  /** The buckets a "this severity and up" read opens. */
  function NamesFrom(bs: seq<Bucket>, severity: nat): seq<string>
    requires bs != []
  {
    var from := bs[Owner(bs, severity)..];
    seq(|from|, i requires 0 <= i < |from| => from[i].name)
  }

  /** In a cover every severity has exactly one owner, the bucket whose span holds it. */
  lemma OwnerIsUnique(bs: seq<Bucket>, naming: Naming, severity: nat, j: nat)
    requires Cover(bs, naming) && j < |bs|
    ensures j == Owner(bs, severity)
       <==> bs[j].minSeverity <= severity && (j + 1 < |bs| ==> severity < bs[j + 1].minSeverity)
  {
    hide Sound, DistinctNames;
    if bs[j].minSeverity <= severity && (j + 1 < |bs| ==> severity < bs[j + 1].minSeverity) {
      PointIs(bs, severity, j + 1);
    }
  }

  /** A higher severity never falls into an earlier bucket. */
  lemma OwnerIsMonotone(bs: seq<Bucket>, low: nat, high: nat)
    requires low <= high
    ensures Owner(bs, low) <= Owner(bs, high)
  {
    assert Point(bs, low) <= Point(bs, high);
  }

  /** The severity that shows a bucket from the owner of `severity` on is needed. */
  function Witness(bs: seq<Bucket>, severity: nat, j: nat): nat
    requires j < |bs|
  {
    if bs[j].minSeverity > severity then bs[j].minSeverity else severity
  }

  lemma WitnessOwner(bs: seq<Bucket>, naming: Naming, severity: nat, j: nat)
    requires Cover(bs, naming) && Owner(bs, severity) <= j < |bs|
    ensures Owner(bs, Witness(bs, severity, j)) == j
  {
    hide Sound, DistinctNames;
    var first := Owner(bs, severity);
    OwnerIsUnique(bs, naming, severity, first);
    OwnerIsUnique(bs, naming, Witness(bs, severity, j), j);
    assert first < j ==> bs[first + 1].minSeverity <= bs[j].minSeverity;
  }

  /** `NamesFrom(s)` holds exactly the bucket names of all severities at or above s: none missed, none extra. */
  lemma NamesFromIsExact(bs: seq<Bucket>, naming: Naming, severity: nat, name: string)
    requires Cover(bs, naming) && severity <= MAX_SEVERITY
    requires forall b :: b in bs ==> b.minSeverity <= MAX_SEVERITY
    ensures name in NamesFrom(bs, severity)
       <==> exists t: nat :: severity <= t <= MAX_SEVERITY && BucketFor(bs, t).name == name
  {
    hide Sound, DistinctNames, StrictlySorted, Owner;
    var first := Owner(bs, severity);
    var names := NamesFrom(bs, severity);
    if name in names {
      var i :| 0 <= i < |names| && names[i] == name;
      var t := Witness(bs, severity, first + i);
      WitnessOwner(bs, naming, severity, first + i);
      assert bs[first + i] in bs;
      assert severity <= t <= MAX_SEVERITY && BucketFor(bs, t).name == name;
    }
    if t: nat :| severity <= t <= MAX_SEVERITY && BucketFor(bs, t).name == name {
      OwnerIsMonotone(bs, severity, t);
      assert names[Owner(bs, t) - first] == name;
    }
  }
}
