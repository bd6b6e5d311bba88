/** Profiles that have a meaning and that the resolver stops nevertheless. */
module ProfileExamples {
  import opened Common
  import opened Text
  import opened SecretRefs
  import opened Profiles
  import opened ProfilePaths
  import opened ProfileResolution
  import opened ProfileLoading

  const SECRET := SecretYAML("r", "", "")

  function WithSecret(includes: seq<string>): ProfileYAML {
    ProfileYAML("", includes, "", NoTTL, None, map["A" := SECRET])
  }

  function WithoutSecret(includes: seq<string>): ProfileYAML {
    ProfileYAML("", includes, "", NoTTL, None, map[])
  }

  function File(profiles: map<string, ProfileYAML>): Config {
    Config("", "", profiles, map[])
  }

  lemma SecretResolves()
    ensures SecretOk(SECRET, map[])
  {
    assert TrimSpace("") == "";
    assert |"r"| < |ONE_PASSWORD_SCHEME| && |"r"| < |BITWARDEN_SCHEME|;
  }

  lemma OwnSecret(config: Config, includes: seq<string>, acc: Resolved)
    requires config.sources == map[]
    ensures var r := Own(config, WithSecret(includes), acc); r.Ok? && "A" in r.value.secrets
  {
    hide SecretOk, ResolveSecret;
    SecretResolves();
    var own := OwnSecrets(map["A" := SECRET], acc.account, map[]);
    assert "A" in acc.secrets + own;
  }

  lemma OwnNothing(config: Config, includes: seq<string>, acc: Resolved)
    requires "A" in acc.secrets
    ensures var r := Own(config, WithoutSecret(includes), acc); r.Ok? && r.value.secrets == acc.secrets
  {
    assert acc.secrets + OwnSecrets(map[], acc.account, config.sources) == acc.secrets;
  }

  /** A profile without includes and with a secret. */
  lemma LeafMeans(config: Config, name: string, visiting: set<string>)
    requires config.sources == map[] && name in config.profiles && config.profiles[name] == WithSecret([])
    requires name !in visiting
    ensures Fold(config, name, visiting).Some? && "A" in Fold(config, name, visiting).value.secrets
  {
    OwnSecret(config, [], Blank(config, WithSecret([])));
  }

  // ---- one profile, many times ----

  /** A profile that includes another one n times. */
  function Repeating(n: nat): Config {
    File(map["P" := WithoutSecret(seq(n, i => "Q")), "Q" := WithSecret([])])
  }

  lemma {:induction false} RepeatedFolds(n: nat, k: nat, visiting: set<string>, blank: Resolved)
    requires "Q" !in visiting && 0 < k
    ensures var r := FoldIncludes(Repeating(n), seq(k, i => "Q"), visiting, blank); r.Some? && "A" in r.value.secrets
  {
    hide Fold;
    var includes := seq(k, i => "Q");
    assert includes[..k - 1] == seq(k - 1, i => "Q");
    assert TrimSpace("Q") == "Q";
    LeafMeans(Repeating(n), "Q", visiting);
    if k > 1 {
      RepeatedFolds(n, k - 1, visiting, blank);
    } else {
      assert includes[..0] == [];
    }
  }

  lemma RepeatingMeans(n: nat)
    requires 0 < n
    ensures Fold(Repeating(n), "P", {}).Some?
  {
    hide Own, FoldIncludes;
    var config := Repeating(n);
    var raw := config.profiles["P"];
    assert {} + {"P"} == {"P"};
    RepeatedFolds(n, n, {"P"}, Blank(config, raw));
    OwnNothing(config, raw.includes, FoldIncludes(config, raw.includes, {"P"}, Blank(config, raw)).value);
    OwnStep(config, "P", {});
  }

  lemma RepeatingTotal(n: nat)
    requires 0 < n
    ensures IncludeTotal(Repeating(n), Reached(Repeating(n), "P")) == n
  {
    hide IncludeTotal, Target;
    var config := Repeating(n);
    EmptyTrail(config, "P");
    assert IncludeCount(config, "Q") == 0;
    assert "P" in Reached(config, "P");
    var rest := Reached(config, "P") - {"P"};
    TotalWithout(config, Reached(config, "P"), "P");
    TotalGrows(config, rest, {"Q"});
    TotalWithout(config, {"Q"}, "Q");
    assert {"Q"} - {"Q"} == {};
    FreshSafe(config);
  }

  lemma EmptyTrail(config: Config, name: string)
    ensures Target(config, name, []) == Some(name)
  {
  }

  /** Including one profile again and again never takes the meaning away; it loads iff that is at most 128 times. */
  lemma RepeatedIncludes(n: nat)
    requires 0 < n
    ensures Fold(Repeating(n), "P", {}).Some?
    ensures Resolving(Repeating(n), FRESH, "P", []).result.Ok? <==> n <= MAX_INCLUDE_COUNT
  {
    hide Fold, Resolving, IncludeTotal, Leftmost;
    var config := Repeating(n);
    RepeatingMeans(n);
    RepeatingTotal(n);
    FreshSafe(config);
    FailsExactlyWhenLimited(config, FRESH, "P", []);
    FreshLimits(config, "P");
    assert |config.profiles.Keys| == 2 by { assert config.profiles.Keys == {"P", "Q"}; }
    assert config.profiles.Keys - {} == config.profiles.Keys;
    forall trail
      ensures !DeepTrail(config, "P", {}, 0, trail)
    {
      if Target(config, "P", trail).Some? { MeaningIsAcyclic(config, "P", {}, trail); }
    }
  }

  // ---- a chain ----

  function ChainName(i: nat): string {
    seq(i + 1, k => 'p')
  }

  function ChainNames(n: nat): set<string> {
    set i | 0 <= i < n :: ChainName(i)
  }

  /** n profiles, each including the next one; the last one has a secret. */
  function Chain(n: nat): Config {
    File(map name | name in ChainNames(n) :: if |name| < n then WithoutSecret([name + "p"]) else WithSecret([]))
  }

  lemma ChainNext(n: nat, i: nat)
    requires i + 1 < n
    ensures ChainName(i) in Chain(n).profiles && Chain(n).profiles[ChainName(i)] == WithoutSecret([ChainName(i + 1)])
    ensures TrimSpace(ChainName(i + 1)) == ChainName(i + 1)
  {
    var next := ChainName(i + 1);
    assert ChainName(i) + "p" == next;
    assert next[0] == 'p' && next[|next| - 1] == 'p';
    TrimFixed(next);
  }

  lemma {:induction false} ChainMeans(n: nat, i: nat, visiting: set<string>)
    requires i < n && forall v :: v in visiting ==> |v| <= i
    ensures Fold(Chain(n), ChainName(i), visiting).Some? && "A" in Fold(Chain(n), ChainName(i), visiting).value.secrets
    decreases n - i
  {
    hide Own, Fold;
    var config, name := Chain(n), ChainName(i);
    if i + 1 == n {
      LeafMeans(config, name, visiting);
    } else {
      ChainNext(n, i);
      var raw, next := config.profiles[name], ChainName(i + 1);
      ChainMeans(n, i + 1, visiting + {name});
      NothingIncluded(config, raw.includes, visiting + {name}, Blank(config, raw));
      IncludeStep(config, raw.includes, 0, visiting + {name}, Blank(config, raw), Blank(config, raw));
      assert raw.includes[..1] == raw.includes;
      OwnNothing(config, raw.includes, FoldIncludes(config, raw.includes, visiting + {name}, Blank(config, raw)).value);
      OwnStep(config, name, visiting);
    }
  }

  function Zeros(k: nat): seq<nat> {
    seq(k, i => 0)
  }

  lemma {:induction false} ChainTarget(n: nat, i: nat, k: nat)
    requires i + k < n
    ensures Target(Chain(n), ChainName(i), Zeros(k)) == Some(ChainName(i + k))
    decreases k
  {
    if k > 0 {
      ChainNext(n, i);
      assert Zeros(k)[1..] == Zeros(k - 1);
      ChainTarget(n, i + 1, k - 1);
    }
  }

  lemma {:induction false} NothingLeftOfZeros(k: nat, trail: seq<nat>)
    ensures !LeftOf(trail, Zeros(k))
  {
    if k > 0 && trail != [] {
      assert Zeros(k)[1..] == Zeros(k - 1);
      NothingLeftOfZeros(k - 1, trail[1..]);
    }
  }

  lemma LongChainIsDeep(n: nat)
    requires n > MAX_INCLUDE_DEPTH
    ensures TooDeep(Chain(n), ChainName(0), {}, 0)
  {
    hide LeftOf, Target;
    ChainTarget(n, 0, MAX_INCLUDE_DEPTH);
    forall other
      ensures !LeftOf(other, Zeros(MAX_INCLUDE_DEPTH))
    {
      NothingLeftOfZeros(MAX_INCLUDE_DEPTH, other);
    }
    assert DeepTrail(Chain(n), ChainName(0), {}, 0, Zeros(MAX_INCLUDE_DEPTH));
  }

  lemma ChainCount(n: nat, i: nat)
    ensures IncludeCount(Chain(n), ChainName(i)) <= 1
  {
    hide ChainNames;
  }

  lemma {:induction false} ChainSize(n: nat, k: nat)
    requires k <= n
    ensures |ChainNames(k)| <= k && IncludeTotal(Chain(n), ChainNames(k)) <= k
    decreases k
  {
    hide ChainName, IncludeTotal, IncludeCount, Chain;
    if k == 0 {
      assert ChainNames(0) == {};
      FreshSafe(Chain(n));
    } else {
      ChainSize(n, k - 1);
      assert ChainNames(k) == ChainNames(k - 1) + {ChainName(k - 1)};
      TotalWithout(Chain(n), ChainNames(k), ChainName(k - 1));
      TotalGrows(Chain(n), ChainNames(k) - {ChainName(k - 1)}, ChainNames(k - 1));
      ChainCount(n, k - 1);
    }
  }

  /** A chain loads iff it is not longer than 32 profiles. */
  lemma ChainedIncludes(n: nat)
    requires 0 < n
    ensures Fold(Chain(n), ChainName(0), {}).Some?
    ensures Resolving(Chain(n), FRESH, ChainName(0), []).result.Ok? <==> n <= MAX_INCLUDE_DEPTH
  {
    hide Fold, Resolving, TooDeep, ChainName, IncludeTotal;
    var config := Chain(n);
    ChainMeans(n, 0, {});
    FreshSafe(config);
    FailsExactlyWhenLimited(config, FRESH, ChainName(0), []);
    FreshLimits(config, ChainName(0));
    if n > MAX_INCLUDE_DEPTH {
      LongChainIsDeep(n);
    } else {
      ChainSize(n, n);
      assert config.profiles.Keys == ChainNames(n);
      SmallWithinLimits(config, ChainName(0));
    }
  }

  // ---- what failed calls leave behind ----

  /** The state after k calls for one profile, whatever their results. */
  function AfterCalls(config: Config, name: string, k: nat): ResolverState {
    if k == 0 then FRESH else Resolving(config, AfterCalls(config, name, k - 1), name, []).state
  }

  /** P includes a profile that is missing, S one that is there. */
  const BROKEN := File(map["P" := WithSecret(["M"]), "S" := WithoutSecret(["Q"]), "Q" := WithSecret([])])

  lemma BrokenFails(count: nat)
    requires count < MAX_INCLUDE_COUNT
    ensures Resolving(BROKEN, ResolverState(map[], count), "P", []) ==
      Resolution(ResolverState(map[], count + 1), Err(ProfileNotFound))
  {
    var st := ResolverState(map[], count);
    assert TrimSpace("M") == "M";
    AbsorbingStarts(BROKEN, st, "P", []);
    AbsorbingNext(BROKEN, st, "P", [], 0, st, Blank(BROKEN, WithSecret(["M"])));
  }

  lemma {:induction false} BrokenCalls(k: nat)
    requires k <= MAX_INCLUDE_COUNT
    ensures AfterCalls(BROKEN, "P", k) == ResolverState(map[], k)
  {
    hide Resolving;
    if k > 0 {
      BrokenCalls(k - 1);
      BrokenFails(k - 1);
    }
  }

  lemma BrokenIsSmall()
    ensures Small(BROKEN)
  {
    hide IncludeTotal;
    assert BROKEN.profiles.Keys == {"P", "S", "Q"};
    TotalWithout(BROKEN, {"P", "S", "Q"}, "P");
    assert {"P", "S", "Q"} - {"P"} == {"S", "Q"};
    TotalWithout(BROKEN, {"S", "Q"}, "S");
    assert {"S", "Q"} - {"S"} == {"Q"};
    TotalWithout(BROKEN, {"Q"}, "Q");
    assert {"Q"} - {"Q"} == {};
    FreshSafe(BROKEN);
  }

  lemma SoundMeans()
    ensures Fold(BROKEN, "S", {}).Some?
  {
    hide Own, Fold, FoldIncludes;
    var raw := BROKEN.profiles["S"];
    assert TrimSpace("Q") == "Q";
    LeafMeans(BROKEN, "Q", {"S"});
    NothingIncluded(BROKEN, raw.includes, {"S"}, Blank(BROKEN, raw));
    IncludeStep(BROKEN, raw.includes, 0, {"S"}, Blank(BROKEN, raw), Blank(BROKEN, raw));
    assert raw.includes[..1] == raw.includes && {} + {"S"} == {"S"};
    OwnNothing(BROKEN, raw.includes, FoldIncludes(BROKEN, raw.includes, {"S"}, Blank(BROKEN, raw)).value);
    OwnStep(BROKEN, "S", {});
  }

  /**
   Failed calls use up the count without anything being remembered: after 128 of them a profile of a
   small file, with a meaning, is refused, though a fresh resolver loads it.
   */
  lemma FailedCallsUseUpTheCount()
    ensures Small(BROKEN) && Fold(BROKEN, "S", {}).Some?
    ensures Resolving(BROKEN, AfterCalls(BROKEN, "P", MAX_INCLUDE_COUNT), "S", []).result == Err(CountExceeded)
    ensures Resolving(BROKEN, FRESH, "S", []).result.Ok?
  {
    hide Fold, AfterCalls;
    BrokenIsSmall();
    SoundMeans();
    BrokenCalls(MAX_INCLUDE_COUNT);
    var st := ResolverState(map[], MAX_INCLUDE_COUNT);
    assert TrimSpace("Q") == "Q";
    AbsorbingStarts(BROKEN, st, "S", []);
    AbsorbingNext(BROKEN, st, "S", [], 0, st, Blank(BROKEN, BROKEN.profiles["S"]));
    SmallLoads(BROKEN, "S");
  }

  lemma SmallLoads(config: Config, name: string)
    requires Small(config) && Fold(config, name, {}).Some?
    ensures Resolving(config, FRESH, name, []).result.Ok?
  {
    hide Fold, Resolving, Small;
    FreshSafe(config);
    SmallFileResolves(config, FRESH, name);
  }
}
