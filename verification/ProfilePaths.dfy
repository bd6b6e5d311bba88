/**
 The profiles below a profile. A trail says which include to follow at each level, so it tells apart
 two ways of reaching the same profile. The resolver takes the leftmost way to each.
 */
module ProfilePaths {
  import opened Common
  import opened Text
  import opened Profiles

  function IncludeCount(config: Config, name: string): nat {
    if name in config.profiles then |config.profiles[name].includes| else 0
  }

  function Included(config: Config, name: string, k: nat): string
    requires k < IncludeCount(config, name)
  {
    TrimSpace(config.profiles[name].includes[k])
  }

  /** Where a trail leads. */
  function Target(config: Config, name: string, trail: seq<nat>): Option<string>
    decreases |trail|
  {
    if trail == [] then Some(name)
    else if trail[0] < IncludeCount(config, name) then Target(config, Included(config, name, trail[0]), trail[1..])
    else None
  }

  lemma TargetStep(config: Config, name: string, k: nat, trail: seq<nat>)
    requires k < IncludeCount(config, name)
    ensures Target(config, name, [k] + trail) == Target(config, Included(config, name, k), trail)
  {
    assert ([k] + trail)[1..] == trail;
  }

  // ---- what can be reached ----

  ghost predicate Reaches(config: Config, name: string, n: string) {
    exists trail :: Target(config, name, trail) == Some(n)
  }

  /** Reached through one of the first k includes. */
  ghost predicate ReachesBefore(config: Config, name: string, k: nat, n: string) {
    exists trail :: trail != [] && trail[0] < k && Target(config, name, trail) == Some(n)
  }

  /** The profile itself and all below it. */
  ghost function Reached(config: Config, name: string): set<string> {
    set n | n in config.profiles && Reaches(config, name, n)
  }

  ghost function ReachedBefore(config: Config, name: string, k: nat): set<string> {
    set n | n in config.profiles && ReachesBefore(config, name, k, n)
  }

  lemma NothingBefore(config: Config, name: string)
    ensures ReachedBefore(config, name, 0) == {}
  {
  }

  lemma ReachesNext(config: Config, name: string, k: nat, n: string)
    requires k < IncludeCount(config, name)
    ensures ReachesBefore(config, name, k + 1, n) <==>
      ReachesBefore(config, name, k, n) || Reaches(config, Included(config, name, k), n)
  {
    if ReachesBefore(config, name, k + 1, n) && !ReachesBefore(config, name, k, n) {
      var trail :| trail != [] && trail[0] < k + 1 && Target(config, name, trail) == Some(n);
      assert Target(config, Included(config, name, k), trail[1..]) == Some(n);
    }
    if Reaches(config, Included(config, name, k), n) {
      var trail :| Target(config, Included(config, name, k), trail) == Some(n);
      TargetStep(config, name, k, trail);
    }
  }

  lemma ReachedNext(config: Config, name: string, k: nat)
    requires k < IncludeCount(config, name)
    ensures ReachedBefore(config, name, k + 1) ==
      ReachedBefore(config, name, k) + Reached(config, Included(config, name, k))
  {
    forall n | n in config.profiles
      ensures n in ReachedBefore(config, name, k + 1) <==>
        n in ReachedBefore(config, name, k) + Reached(config, Included(config, name, k))
    {
      ReachesNext(config, name, k, n);
    }
  }

  lemma ReachedParts(config: Config, name: string)
    requires name in config.profiles
    ensures Reached(config, name) == {name} + ReachedBefore(config, name, IncludeCount(config, name))
  {
    assert Target(config, name, []) == Some(name);
    forall n | n in config.profiles && n != name
      ensures Reaches(config, name, n) <==> ReachesBefore(config, name, IncludeCount(config, name), n)
    {
      if Reaches(config, name, n) {
        var trail :| Target(config, name, trail) == Some(n);
        assert trail != [];
      }
    }
  }

  lemma ReachedFewer(config: Config, name: string, j: nat, k: nat)
    requires j <= k
    ensures ReachedBefore(config, name, j) <= ReachedBefore(config, name, k)
  {
  }

  lemma {:induction false} ClosedTarget(config: Config, names: set<string>, name: string, trail: seq<nat>)
    requires Closed(config, names) && name in names && Target(config, name, trail).Some?
    ensures Target(config, name, trail).value in names
    decreases |trail|
  {
    if trail != [] {
      assert config.profiles[name].includes[trail[0]] in config.profiles[name].includes;
      ClosedTarget(config, names, Included(config, name, trail[0]), trail[1..]);
    }
  }

  lemma ClosedReached(config: Config, names: set<string>, name: string)
    requires Closed(config, names) && name in names
    ensures Reached(config, name) <= names
  {
    forall n | n in Reached(config, name)
      ensures n in names
    {
      var trail :| Target(config, name, trail) == Some(n);
      ClosedTarget(config, names, name, trail);
    }
  }

  // ---- below a profile that has a meaning ----

  lemma {:induction false} IncludeFolds(config: Config, includes: seq<string>, visiting: set<string>,
      blank: Resolved, k: nat)
    requires FoldIncludes(config, includes, visiting, blank).Some? && k < |includes|
    ensures TrimSpace(includes[k]) != "" && Fold(config, TrimSpace(includes[k]), visiting).Some?
  {
    hide Fold, Absorb;
    if k < |includes| - 1 {
      IncludeFolds(config, includes[..|includes| - 1], visiting, blank, k);
    }
  }

  lemma IncludedFolds(config: Config, name: string, visiting: set<string>, k: nat)
    requires Fold(config, name, visiting).Some? && k < IncludeCount(config, name)
    ensures name in config.profiles && name !in visiting
    ensures Included(config, name, k) != "" && Fold(config, Included(config, name, k), visiting + {name}).Some?
  {
    hide Own, FoldIncludes;
    var raw := config.profiles[name];
    IncludeFolds(config, raw.includes, visiting + {name}, Blank(config, raw), k);
  }

  /**
   Below a profile that has a meaning there is no cycle, and no profile that is missing; and a trail
   is shorter than the number of profiles that are not being visited.
   */
  lemma {:induction false} MeaningIsAcyclic(config: Config, name: string, visiting: set<string>, trail: seq<nat>)
    requires Fold(config, name, visiting).Some? && Target(config, name, trail).Some?
    ensures var n := Target(config, name, trail).value; n in config.profiles && n !in visiting
    ensures |trail| < |config.profiles.Keys - visiting|
    ensures forall i, j :: 0 <= i < j <= |trail| ==>
      Target(config, name, trail[..i]) != Target(config, name, trail[..j])
    decreases |trail|
  {
    hide Fold;
    FoldVisits(config, name, visiting);
    VisitShrinks(config, name, visiting);
    if trail != [] {
      var next := Included(config, name, trail[0]);
      IncludedFolds(config, name, visiting, trail[0]);
      MeaningIsAcyclic(config, next, visiting + {name}, trail[1..]);
      forall i, j | 0 <= i < j <= |trail|
        ensures Target(config, name, trail[..i]) != Target(config, name, trail[..j])
      {
        TargetPrefix(config, name, trail, j);
        if i == 0 {
          TrailDefined(config, next, trail[1..], j - 1);
          MeaningIsAcyclic(config, next, visiting + {name}, trail[1..][..j - 1]);
        } else {
          TargetPrefix(config, name, trail, i);
        }
      }
    }
  }

  lemma FoldVisits(config: Config, name: string, visiting: set<string>)
    requires Fold(config, name, visiting).Some?
    ensures name in config.profiles && name !in visiting
  {
  }

  lemma TargetPrefix(config: Config, name: string, trail: seq<nat>, j: nat)
    requires 0 < j <= |trail| && trail[0] < IncludeCount(config, name)
    ensures Target(config, name, trail[..j]) == Target(config, Included(config, name, trail[0]), trail[1..][..j - 1])
  {
    assert trail[..j][1..] == trail[1..][..j - 1];
  }

  lemma {:induction false} TrailDefined(config: Config, name: string, trail: seq<nat>, j: nat)
    requires Target(config, name, trail).Some? && j <= |trail|
    ensures Target(config, name, trail[..j]).Some?
    decreases |trail|
  {
    if j > 0 {
      TrailDefined(config, Included(config, name, trail[0]), trail[1..], j - 1);
      TargetPrefix(config, name, trail, j);
    }
  }

  // ---- leftmost trails ----

  /** At the first level where they part, `a` follows an earlier include. */
  ghost predicate LeftOf(a: seq<nat>, b: seq<nat>) {
    a != [] && b != [] && (a[0] < b[0] || (a[0] == b[0] && LeftOf(a[1..], b[1..])))
  }

  ghost predicate Leftmost(config: Config, name: string, trail: seq<nat>) {
    forall other :: LeftOf(other, trail) ==> Target(config, name, other) != Target(config, name, trail)
  }

  /** The leftmost way to a profile that is not known yet, and below the last level allowed. */
  ghost predicate DeepTrail(config: Config, name: string, known: set<string>, depth: nat, trail: seq<nat>) {
    && Target(config, name, trail).Some? && Target(config, name, trail).value !in known
    && Leftmost(config, name, trail) && depth + |trail| >= MAX_INCLUDE_DEPTH
  }

  /** `depth` is the number of profiles above `name`. */
  ghost predicate TooDeep(config: Config, name: string, known: set<string>, depth: nat) {
    exists trail :: DeepTrail(config, name, known, depth, trail)
  }

  lemma LeftOfStep(k: nat, a: seq<nat>, b: seq<nat>)
    ensures LeftOf([k] + a, [k] + b) <==> LeftOf(a, b)
  {
    assert ([k] + a)[1..] == a && ([k] + b)[1..] == b;
  }

  /** A trail is leftmost iff it is after its first step, and no earlier include leads to its target. */
  lemma LeftmostStep(config: Config, name: string, k: nat, trail: seq<nat>)
    requires k < IncludeCount(config, name) && Target(config, name, [k] + trail).Some?
    ensures Leftmost(config, name, [k] + trail) <==>
      Leftmost(config, Included(config, name, k), trail)
      && !ReachesBefore(config, name, k, Target(config, name, [k] + trail).value)
  {
    var whole, next := [k] + trail, Included(config, name, k);
    TargetStep(config, name, k, trail);
    if Leftmost(config, name, whole) {
      forall other | LeftOf(other, trail)
        ensures Target(config, next, other) != Target(config, next, trail)
      {
        LeftOfStep(k, other, trail);
        TargetStep(config, name, k, other);
      }
    }
    if Leftmost(config, next, trail) && !ReachesBefore(config, name, k, Target(config, name, whole).value) {
      forall other | LeftOf(other, whole)
        ensures Target(config, name, other) != Target(config, name, whole)
      {
        if other[0] == k {
          assert other == [k] + other[1..];
          LeftOfStep(k, other[1..], trail);
        }
      }
    }
  }

  /** Following include k: what its earlier siblings lead to is known by then. */
  lemma DeepStep(config: Config, name: string, known: set<string>, depth: nat, k: nat, trail: seq<nat>)
    requires k < IncludeCount(config, name)
    requires Target(config, name, [k] + trail).Some? ==> Target(config, name, [k] + trail).value in config.profiles
    ensures DeepTrail(config, name, known, depth, [k] + trail) <==>
      DeepTrail(config, Included(config, name, k), known + ReachedBefore(config, name, k), depth + 1, trail)
  {
    hide Leftmost;
    TargetStep(config, name, k, trail);
    if Target(config, name, [k] + trail).Some? {
      LeftmostStep(config, name, k, trail);
    }
  }

  // ---- how many includes a set of profiles has ----

  ghost function IncludeTotal(config: Config, names: set<string>): nat {
    if names == {} then 0
    else
      var n :| n in names;
      IncludeTotal(config, names - {n}) + IncludeCount(config, n)
  }

  lemma {:induction false} TotalWithout(config: Config, names: set<string>, n: string)
    requires n in names
    ensures IncludeTotal(config, names) == IncludeTotal(config, names - {n}) + IncludeCount(config, n)
  {
    var m :| m in names && IncludeTotal(config, names) == IncludeTotal(config, names - {m}) + IncludeCount(config, m);
    if m != n {
      TotalWithout(config, names - {m}, n);
      TotalWithout(config, names - {n}, m);
      assert names - {m} - {n} == names - {n} - {m};
    }
  }

  lemma {:induction false} TotalGrows(config: Config, some: set<string>, more: set<string>)
    requires some <= more
    ensures IncludeTotal(config, some) <= IncludeTotal(config, more)
  {
    if some != more {
      var n :| n in more && n !in some;
      TotalWithout(config, more, n);
      TotalGrows(config, some, more - {n});
    }
  }

  lemma {:induction false} TotalUnion(config: Config, a: set<string>, b: set<string>)
    requires a !! b
    ensures IncludeTotal(config, a + b) == IncludeTotal(config, a) + IncludeTotal(config, b)
  {
    if b == {} {
      assert a + b == a;
    } else {
      var n :| n in b;
      TotalWithout(config, b, n);
      TotalWithout(config, a + b, n);
      TotalUnion(config, a, b - {n});
      assert a + b - {n} == a + (b - {n});
    }
  }
}
