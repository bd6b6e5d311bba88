/** The resolver as an object, and its callers: loading one profile, and inspecting all of them. */
module ProfileLoading {
  import opened Common
  import opened Ordering
  import opened Text
  import opened Requests
  import opened Profiles
  import opened ProfilePaths
  import opened ProfileResolution
  import opened ProfileErrors

  class ProfileResolver {
    const config: Config
    var memo: map<string, Resolved>
    var includeCount: nat

    ghost function State(): ResolverState
      reads this
    {
      ResolverState(memo, includeCount)
    }

    constructor (config: Config)
      ensures this.config == config && State() == FRESH
    {
      this.config := config;
      memo, includeCount := map[], 0;
    }

    /**
     Memoised resolution equals plain recursion, whatever was resolved before and with whatever
     result: a success is the meaning of the profile, a failure that is not one of the two limits says
     that, with these profiles being visited, it has none, and a profile that has one fails exactly
     when it is `Limited`.
     */
    method Resolve(name: string, stack: seq<string>) returns (r: Result<Resolved, ProfileError>)
      modifies this
      ensures Resolution(State(), r) == Resolving(config, old(State()), name, stack)
      ensures Safe(config, old(memo), Names(stack)) ==>
        && Safe(config, memo, Names(stack)) && Extends(old(memo), memo)
        && (r.Ok? ==> name in memo && memo[name] == r.value && Fold(config, name, {}) == Some(r.value))
        && (r.Err? && !r.error.Limit() ==> Fold(config, name, Names(stack)) == None)
        && (Fold(config, name, Names(stack)).Some? ==> (r.Err? <==> Limited(config, old(State()), name, |stack|)))
      decreases Levels(stack), 1
    {
      hide Own, Safe, Fold, ResolvedOk, Limited;
      ghost var before := State();
      if Safe(config, memo, Names(stack)) { ResolvedMeans(config, before, name, stack); }
      if name in memo { return Ok(memo[name]); }
      if |stack| >= MAX_INCLUDE_DEPTH { return Err(DepthExceeded); }
      if name !in config.profiles { return Err(ProfileNotFound); }
      if name in stack { return Err(IncludeCycle); }
      var absorbed := AbsorbIncludes(name, stack);
      if absorbed.Err? { return absorbed; }
      r := ApplyOwn(config, config.profiles[name], absorbed.value);
      if r.Ok? { memo := memo[name := r.value]; }
    }

    /** The loop over the includes: from left to right, later ones winning, as in plain recursion. */
    method AbsorbIncludes(name: string, stack: seq<string>) returns (r: Result<Resolved, ProfileError>)
      requires name in config.profiles && |stack| < MAX_INCLUDE_DEPTH
      modifies this
      ensures Resolution(State(), r) == Absorbing(config, old(State()), name, stack, |config.profiles[name].includes|)
      ensures Safe(config, old(memo), Names(stack)) && name !in old(memo) && name !in stack ==>
        var raw := config.profiles[name];
        && Safe(config, memo, Names(stack) + {name}) && Extends(old(memo), memo)
        && (r.Ok? ==> IncludesIn(raw.includes, memo.Keys))
        && (r.Ok? ==> FoldIncludes(config, raw.includes, {name}, Blank(config, raw)) == Some(r.value))
        && (r.Ok? ==> FoldIncludes(config, raw.includes, Names(stack) + {name}, Blank(config, raw)) == Some(r.value))
        && (r.Err? && !r.error.Limit() ==>
          FoldIncludes(config, raw.includes, Names(stack) + {name}, Blank(config, raw)) == None)
      decreases Levels(stack), 0
    {
      hide Safe, Absorb, Blank, TrimSpace, Fold, FoldIncludes, Absorbing, Resolving, IncludesIn, Extends;
      var raw := config.profiles[name];
      var acc := Blank(config, raw);
      var nextStack := stack + [name];
      ghost var before := State();
      if Safe(config, memo, Names(stack)) && name !in memo && name !in stack {
        AbsorbedMeans(config, before, name, stack);
      }
      AbsorbingStarts(config, before, name, stack);
      for k := 0 to |raw.includes|
        invariant Absorbing(config, before, name, stack, k) == Resolution(State(), Ok(acc))
      {
        AbsorbingNext(config, before, name, stack, k, State(), acc);
        var wanted := TrimSpace(raw.includes[k]);
        if wanted == "" { return Err(EmptyInclude); }
        includeCount := includeCount + 1;
        if includeCount > MAX_INCLUDE_COUNT { return Err(CountExceeded); }
        var included := Resolve(wanted, nextStack);
        if included.Err? { return included; }
        acc := Absorb(acc, included.value);
      }
      return Ok(acc);
    }

    /** A caller that goes on after an error: what failed before never makes a later success wrong. */
    method ResolveEach(names: seq<string>) returns (rs: seq<Result<Resolved, ProfileError>>)
      requires MemoOk(config, memo)
      modifies this
      ensures MemoOk(config, memo) && Extends(old(memo), memo) && |rs| == |names|
      ensures forall i :: 0 <= i < |rs| ==>
        && (rs[i].Ok? ==> Fold(config, names[i], {}) == Some(rs[i].value))
        && (rs[i].Err? && !rs[i].error.Limit() ==> Fold(config, names[i], {}) == None)
    {
      hide Fold, MemoOk, Limited, Resolving;
      rs := [];
      for i := 0 to |names|
        invariant MemoOk(config, memo) && Extends(old(memo), memo) && |rs| == i
        invariant forall j :: 0 <= j < i ==>
          && (rs[j].Ok? ==> Fold(config, names[j], {}) == Some(rs[j].value))
          && (rs[j].Err? && !rs[j].error.Limit() ==> Fold(config, names[j], {}) == None)
      {
        TopSafe(config, memo);
        var r := Resolve(names[i], []);
        TopSafe(config, memo);
        rs := rs + [r];
      }
    }
  }

  lemma ResolvedMeans(config: Config, st: ResolverState, name: string, stack: seq<string>)
    requires Safe(config, st.memo, Names(stack))
    ensures var out := Resolving(config, st, name, stack);
      && Safe(config, out.state.memo, Names(stack)) && Extends(st.memo, out.state.memo)
      && (out.result.Ok? ==> name in out.state.memo && out.state.memo[name] == out.result.value)
      && (out.result.Ok? ==> Fold(config, name, {}) == Some(out.result.value))
      && (out.result.Err? && !out.result.error.Limit() ==> Fold(config, name, Names(stack)) == None)
      && (Fold(config, name, Names(stack)).Some? ==> (out.result.Err? <==> Limited(config, st, name, |stack|)))
  {
    hide Fold, Limited, Resolving;
    ResolvingIsOk(config, st, name, stack);
    if Fold(config, name, Names(stack)).Some? { FailsExactlyWhenLimited(config, st, name, stack); }
  }

  lemma AbsorbedMeans(config: Config, st: ResolverState, name: string, stack: seq<string>)
    requires Safe(config, st.memo, Names(stack)) && name !in st.memo && name !in stack
    requires name in config.profiles && |stack| < MAX_INCLUDE_DEPTH
    ensures var out := Absorbing(config, st, name, stack, |config.profiles[name].includes|);
      var raw := config.profiles[name];
      && Safe(config, out.state.memo, Names(stack) + {name}) && Extends(st.memo, out.state.memo)
      && (out.result.Ok? ==> IncludesIn(raw.includes, out.state.memo.Keys))
      && (out.result.Ok? ==> FoldIncludes(config, raw.includes, {name}, Blank(config, raw)) == Some(out.result.value))
      && (out.result.Ok? ==>
        FoldIncludes(config, raw.includes, Names(stack) + {name}, Blank(config, raw)) == Some(out.result.value))
      && (out.result.Err? && !out.result.error.Limit() ==>
           FoldIncludes(config, raw.includes, Names(stack) + {name}, Blank(config, raw)) == None)
  {
    hide FoldIncludes, Absorbing, Safe, Extends, Blank;
    var raw := config.profiles[name];
    AbsorbingIsOk(config, st, name, stack, |raw.includes|);
    assert raw.includes[..|raw.includes|] == raw.includes;
  }

  lemma AbsorbingStarts(config: Config, st: ResolverState, name: string, stack: seq<string>)
    requires name in config.profiles && |stack| < MAX_INCLUDE_DEPTH
    ensures Absorbing(config, st, name, stack, 0) == Resolution(st, Ok(Blank(config, config.profiles[name])))
  {
  }

  /** Include k, and that an error there is the result. */
  lemma AbsorbingNext(config: Config, st: ResolverState, name: string, stack: seq<string>, k: nat, now: ResolverState,
      acc: Resolved)
    requires name in config.profiles && k < |config.profiles[name].includes| && |stack| < MAX_INCLUDE_DEPTH
    requires Absorbing(config, st, name, stack, k) == Resolution(now, Ok(acc))
    ensures var n, wanted, counted := |config.profiles[name].includes|, TrimSpace(config.profiles[name].includes[k]),
                                      ResolverState(now.memo, now.count + 1);
      var included := Resolving(config, counted, wanted, stack + [name]);
      if wanted == "" then
        Absorbing(config, st, name, stack, n) == Resolution(now, Err(EmptyInclude))
      else if counted.count > MAX_INCLUDE_COUNT then
        Absorbing(config, st, name, stack, n) == Resolution(counted, Err(CountExceeded))
      else if included.result.Err? then
        Absorbing(config, st, name, stack, n) == included
      else
        Absorbing(config, st, name, stack, k + 1) ==
          Resolution(included.state, Ok(Absorb(acc, included.result.value)))
  {
    hide Resolving, Absorb, Blank, TrimSpace;
    AbsorbingFails(config, st, name, stack, k + 1, |config.profiles[name].includes|);
    assert Absorbing(config, st, name, stack, k + 1) == AbsorbingOne(config, now, name, stack, k, acc);
  }

  /** Once an include has failed, the result does not depend on the rest. */
  lemma {:induction false} AbsorbingFails(config: Config, st: ResolverState, name: string, stack: seq<string>, k: nat,
      n: nat)
    requires name in config.profiles && k <= n <= IncludeCount(config, name) && |stack| < MAX_INCLUDE_DEPTH
    ensures Absorbing(config, st, name, stack, k).result.Err? ==>
      Absorbing(config, st, name, stack, n) == Absorbing(config, st, name, stack, k)
  {
    hide AbsorbingOne, Resolving, Blank;
    if k < n { AbsorbingFails(config, st, name, stack, k, n - 1); }
  }

  /**
   In a small file a call fails only for a profile without a meaning, as long as no more has been
   counted than is remembered; a call that succeeds keeps it so.
   */
  lemma SmallFileResolves(config: Config, st: ResolverState, name: string)
    requires Small(config) && MemoOk(config, st.memo) && st.count <= IncludeTotal(config, st.memo.Keys)
    ensures var out := Resolving(config, st, name, []);
      && (out.result.Err? ==> Fold(config, name, {}) == None)
      && (out.result.Ok? ==> out.state.count <= IncludeTotal(config, out.state.memo.Keys))
  {
    hide MemoOk, Fold, Resolving, Limited, Small, IncludeTotal, Reached, TooDeep;
    TopSafe(config, st.memo);
    ResolvedMeans(config, st, name, []);
    if Fold(config, name, {}).Some? {
      SmallNeverLimited(config, st, name, [], 0);
      ResolvingIsExact(config, st, name, []);
      var more := Reached(config, name) - st.memo.Keys;
      TotalUnion(config, st.memo.Keys, more);
      assert st.memo.Keys + more == st.memo.Keys + Reached(config, name);
    }
  }

  // ---- the callers ----

  datatype LoadError = NoProfiles | NoName | Failed(error: ProfileError)

  /** What a caller learns about a profile. */
  datatype Profile = Profile(
    name: string, account: string, reason: string, secrets: seq<SecretSpec>, ttl: int, binding: Option<string>)

  function SpecOf(alias: string, s: ResolvedSecret): SecretSpec {
    SecretSpec(alias, s.ref, s.account, s.source, s.bitwarden)
  }

  /** The spec asks for this secret, from this source. */
  ghost predicate Carries(spec: SecretSpec, s: ResolvedSecret) {
    spec.ref == s.ref && spec.account == s.account && spec.source == s.source && spec.bitwarden == s.bitwarden
  }

  /** The secrets sorted by alias, each once. */
  ghost predicate SortedSecrets(secrets: map<string, ResolvedSecret>, specs: seq<SecretSpec>) {
    && (forall i, j :: 0 <= i < j < |specs| ==>
      StringLeq(specs[i].alias, specs[j].alias) && specs[i].alias != specs[j].alias)
    && (forall i :: 0 <= i < |specs| ==>
      specs[i].alias in secrets && Carries(specs[i], secrets[specs[i].alias]))
    && (forall a :: a in secrets ==> exists i :: 0 <= i < |specs| && specs[i].alias == a)
  }

  ghost predicate Describes(config: Config, name: string, p: Profile) {
    var meaning := Fold(config, name, {});
    && meaning.Some? && p.name == name
    && p.account == meaning.value.account && p.reason == meaning.value.reason
    && p.ttl == meaning.value.ttl && p.binding == meaning.value.binding
    && SortedSecrets(meaning.value.secrets, p.secrets)
  }

  function AliasesOf(specs: seq<SecretSpec>): (r: seq<string>)
    ensures |r| == |specs| && forall i :: 0 <= i < |r| ==> r[i] == specs[i].alias
  {
    seq(|specs|, i requires 0 <= i < |specs| => specs[i].alias)
  }

  lemma AliasesUnique(secrets: map<string, ResolvedSecret>, a: seq<SecretSpec>, b: seq<SecretSpec>)
    requires SortedSecrets(secrets, a) && SortedSecrets(secrets, b)
    ensures AliasesOf(a) == AliasesOf(b)
  {
    StringOrder();
    AliasesExact(secrets, a);
    AliasesExact(secrets, b);
    SameDistinct(AliasesOf(a), AliasesOf(b));
    SortedUnique(StringLeq, AliasesOf(a), AliasesOf(b));
  }

  lemma AliasesExact(secrets: map<string, ResolvedSecret>, specs: seq<SecretSpec>)
    requires SortedSecrets(secrets, specs)
    ensures Distinct(AliasesOf(specs)) && SortedBy(StringLeq, AliasesOf(specs))
    ensures forall x :: x in AliasesOf(specs) <==> x in secrets
  {
  }

  lemma SortedSecretsUnique(secrets: map<string, ResolvedSecret>, a: seq<SecretSpec>, b: seq<SecretSpec>)
    requires SortedSecrets(secrets, a) && SortedSecrets(secrets, b)
    ensures a == b
  {
    hide StringLeq;
    AliasesUnique(secrets, a, b);
    assert forall i :: 0 <= i < |a| ==> AliasesOf(a)[i] == AliasesOf(b)[i];
  }

  method SortSecrets(secrets: map<string, ResolvedSecret>) returns (specs: seq<SecretSpec>)
    ensures SortedSecrets(secrets, specs)
  {
    var aliases := SortedKeys(secrets.Keys);
    specs := [];
    for n := 0 to |aliases|
      invariant |specs| == n
      invariant forall i :: 0 <= i < n ==> specs[i] == SpecOf(aliases[i], secrets[aliases[i]])
    {
      assert aliases[n] in secrets;
      specs := specs + [SpecOf(aliases[n], secrets[aliases[n]])];
    }
    forall a | a in secrets
      ensures exists i :: 0 <= i < |specs| && specs[i].alias == a
    {
      var i :| 0 <= i < |aliases| && aliases[i] == a;
      assert specs[i].alias == a;
    }
    assert forall i :: 0 <= i < |aliases| ==> aliases[i] in aliases;
  }

  /** Loading starts with a fresh resolver, which a profile that has a meaning fits into exactly if this holds. */
  ghost predicate WithinLimits(config: Config, name: string) {
    !TooDeep(config, name, {}, 0) && IncludeTotal(config, Reached(config, name)) <= MAX_INCLUDE_COUNT
  }

  lemma FreshLimits(config: Config, name: string)
    ensures Limited(config, FRESH, name, 0) <==> !WithinLimits(config, name)
  {
    assert Reached(config, name) - {} == Reached(config, name);
    assert FRESH.memo.Keys == {};
  }

  lemma SmallWithinLimits(config: Config, name: string)
    requires Small(config) && Fold(config, name, {}).Some?
    ensures WithinLimits(config, name)
  {
    FreshSafe(config);
    SmallNeverLimited(config, FRESH, name, [], 0);
    FreshLimits(config, name);
  }

  /**
   Loading a profile gives what it means. It succeeds exactly for a profile that has a meaning and
   stays within the limits; so a failure that is not a limit, or any failure of a small file, says
   that the profile has no meaning.
   */
  method Load(config: Config, name: string) returns (r: Result<Profile, LoadError>)
    ensures var wanted := if name == "" then config.defaultProfile else name;
      && (r.Ok? ==> Describes(config, wanted, r.value))
      && (r.Ok? <==> wanted != "" && Fold(config, wanted, {}).Some? && WithinLimits(config, wanted))
      && (r.Err? && r.error.Failed? && (!r.error.error.Limit() || Small(config)) ==> Fold(config, wanted, {}) == None)
      && (r.Err? && r.error.Failed? ==> exists trail :: Blamed(config, [], wanted, r.error.error, trail))
      && (r == Err(NoProfiles) <==> config.profiles == map[])
      && (r == Err(NoName) <==> config.profiles != map[] && wanted == "")
  {
    hide Fold, MemoOk, SortedSecrets, Resolving, WithinLimits, Limited, Small, Blamed;
    var wanted := if name == "" then config.defaultProfile else name;
    if config.profiles == map[] {
      NoMeaning(config, wanted, {});
      return Err(NoProfiles);
    }
    if wanted == "" { return Err(NoName); }
    FreshSafe(config);
    FreshLimits(config, wanted);
    if Small(config) && Fold(config, wanted, {}).Some? { SmallWithinLimits(config, wanted); }
    var resolver := new ProfileResolver(config);
    var resolved := resolver.Resolve(wanted, []);
    if resolved.Err? {
      ResolvingBlames(config, FRESH, wanted, []);
      return Err(Failed(resolved.error));
    }
    var secrets := SortSecrets(resolved.value.secrets);
    return Ok(Profile(wanted, resolved.value.account, resolved.value.reason, secrets, resolved.value.ttl,
                      resolved.value.binding));
  }

  /** All that the first profiles lead to. */
  ghost function ReachedFrom(config: Config, names: seq<string>): set<string> {
    set n | n in config.profiles && exists m :: m in names && Reaches(config, m, n)
  }

  ghost predicate InOrder(config: Config, names: seq<string>) {
    Distinct(names) && SortedBy(StringLeq, names) && forall n :: n in names <==> n in config.profiles
  }

  /** One resolver for all: what the profiles before a profile lead to is known when its turn comes. */
  ghost predicate AllWithinLimits(config: Config, names: seq<string>) {
    && IncludeTotal(config, config.profiles.Keys) <= MAX_INCLUDE_COUNT
    && forall i :: 0 <= i < |names| ==> !TooDeep(config, names[i], ReachedFrom(config, names[..i]), 0)
  }

  ghost predicate AllMean(config: Config) {
    forall n :: n in config.profiles ==> Fold(config, n, {}).Some?
  }

  lemma InOrderUnique(config: Config, a: seq<string>, b: seq<string>)
    requires InOrder(config, a) && InOrder(config, b)
    ensures a == b
  {
    StringOrder();
    SameDistinct(a, b);
    SortedUnique(StringLeq, a, b);
  }

  lemma ReachedFromNext(config: Config, names: seq<string>, i: nat)
    requires i < |names|
    ensures ReachedFrom(config, names[..i + 1]) == ReachedFrom(config, names[..i]) + Reached(config, names[i])
  {
    assert names[..i + 1] == names[..i] + [names[i]];
  }

  lemma ReachedFromAll(config: Config, names: seq<string>)
    requires InOrder(config, names)
    ensures ReachedFrom(config, names) == config.profiles.Keys
  {
    forall n | n in config.profiles
      ensures Reaches(config, n, n)
    {
      assert Target(config, n, []) == Some(n);
    }
  }

  /** After the profiles before names[i]: all they lead to is remembered, and counted once. */
  ghost predicate Inspected(config: Config, names: seq<string>, i: nat, st: ResolverState)
    requires i <= |names|
  {
    && MemoOk(config, st.memo) && st.memo.Keys == ReachedFrom(config, names[..i])
    && st.count == IncludeTotal(config, st.memo.Keys) <= MAX_INCLUDE_COUNT
    && forall j :: 0 <= j < i ==>
         Fold(config, names[j], {}).Some? && !TooDeep(config, names[j], ReachedFrom(config, names[..j]), 0)
  }

  lemma InspectStarts(config: Config, names: seq<string>)
    ensures Inspected(config, names, 0, FRESH)
  {
    FreshSafe(config);
    assert ReachedFrom(config, names[..0]) == {};
  }

  lemma InspectNext(config: Config, names: seq<string>, i: nat, st: ResolverState)
    requires i < |names| && Inspected(config, names, i, st)
    ensures var out := Resolving(config, st, names[i], []);
      && (out.result.Ok? ==> Inspected(config, names, i + 1, out.state))
      && (out.result.Err? ==> Fold(config, names[i], {}).None? || !AllWithinLimits(config, names))
  {
    hide MemoOk, Fold, TooDeep, Resolving, ReachedFrom, Reached, IncludeTotal;
    TopSafe(config, st.memo);
    ResolvedMeans(config, st, names[i], []);
    var out := Resolving(config, st, names[i], []);
    TopSafe(config, out.state.memo);
    ReachedFromNext(config, names, i);
    var known, more := st.memo.Keys, Reached(config, names[i]) - st.memo.Keys;
    TotalUnion(config, known, more);
    assert known + more == known + Reached(config, names[i]);
    if Fold(config, names[i], {}).Some? {
      ResolvingIsExact(config, st, names[i], []);
      KnownProfiles(config, st.memo, names[i]);
      TotalGrows(config, known + more, config.profiles.Keys);
    }
  }

  lemma InspectBlames(config: Config, names: seq<string>, i: nat, st: ResolverState)
    requires i < |names| && Inspected(config, names, i, st)
    ensures var out := Resolving(config, st, names[i], []);
      out.result.Err? ==> exists trail :: Blamed(config, [], names[i], out.result.error, trail)
  {
    hide MemoOk, Resolving, ReachedFrom, TooDeep;
    TopSafe(config, st.memo);
    if Resolving(config, st, names[i], []).result.Err? { ResolvingBlames(config, st, names[i], []); }
  }

  lemma KnownProfiles(config: Config, memo: map<string, Resolved>, name: string)
    requires MemoOk(config, memo)
    ensures memo.Keys + Reached(config, name) <= config.profiles.Keys
  {
  }

  lemma InspectEnds(config: Config, names: seq<string>, st: ResolverState)
    requires InOrder(config, names) && Inspected(config, names, |names|, st)
    ensures AllMean(config) && AllWithinLimits(config, names)
  {
    hide MemoOk, Fold, TooDeep, ReachedFrom;
    assert names[..|names|] == names;
    ReachedFromAll(config, names);
  }

  lemma SmallAllWithinLimits(config: Config, names: seq<string>)
    requires Small(config) && InOrder(config, names) && AllMean(config)
    ensures AllWithinLimits(config, names)
  {
    hide Fold, Leftmost;
    forall i, trail | 0 <= i < |names|
      ensures !DeepTrail(config, names[i], ReachedFrom(config, names[..i]), 0, trail)
    {
      assert Names([]) == {} by { FreshSafe(config); }
      assert Fold(config, names[i], {}).Some? by { assert names[i] in names; }
      if Target(config, names[i], trail).Some? { TrailFits(config, names[i], [], trail); }
    }
  }

  ghost predicate DescribesAll(config: Config, names: seq<string>, infos: seq<Profile>) {
    |infos| == |names| && forall i :: 0 <= i < |names| ==> Describes(config, names[i], infos[i])
  }

  /**
   Inspecting resolves every profile in the order of the names, with one resolver, and describes each
   as it is. It succeeds exactly if all have a meaning and stay within the limits together.
   */
  method Inspect(config: Config) returns (r: Result<seq<Profile>, ProfileError>)
    ensures forall names :: InOrder(config, names) ==> (r.Ok? <==> AllMean(config) && AllWithinLimits(config, names))
    ensures r.Ok? ==> exists names :: InOrder(config, names) && DescribesAll(config, names, r.value)
    ensures r.Err? && (!r.error.Limit() || Small(config)) ==>
      exists n :: n in config.profiles && Fold(config, n, {}) == None
    ensures r.Err? ==> exists n, trail :: n in config.profiles && Blamed(config, [], n, r.error, trail)
  {
    hide Fold, MemoOk, SortedSecrets, Describes, Resolving, Limited, Small, Blamed, AllWithinLimits,
      StringLeq, SortedBy, ReachedFrom;
    var names := SortedKeys(config.profiles.Keys);
    forall other | InOrder(config, other)
      ensures other == names
    {
      InOrderUnique(config, other, names);
    }
    FreshSafe(config);
    InspectStarts(config, names);
    if Small(config) && AllMean(config) { SmallAllWithinLimits(config, names); }
    var resolver := new ProfileResolver(config);
    var infos: seq<Profile> := [];
    for i := 0 to |names|
      invariant resolver.config == config && fresh(resolver) && Inspected(config, names, i, resolver.State())
      invariant |infos| == i && forall j :: 0 <= j < i ==> Describes(config, names[j], infos[j])
    {
      InspectNext(config, names, i, resolver.State());
      InspectBlames(config, names, i, resolver.State());
      TopSafe(config, resolver.memo);
      var resolved := resolver.Resolve(names[i], []);
      assert names[i] in names;
      if resolved.Err? { return Err(resolved.error); }
      var secrets := SortSecrets(resolved.value.secrets);
      var info := Profile(names[i], resolved.value.account, resolved.value.reason, secrets, resolved.value.ttl,
                          resolved.value.binding);
      Describing(config, names[i], info, resolved.value);
      infos := infos + [info];
    }
    InspectEnds(config, names, resolver.State());
    assert DescribesAll(config, names, infos);
    return Ok(infos);
  }

  lemma Describing(config: Config, name: string, p: Profile, meaning: Resolved)
    requires Fold(config, name, {}) == Some(meaning) && SortedSecrets(meaning.secrets, p.secrets)
    requires p == Profile(name, meaning.account, meaning.reason, p.secrets, meaning.ttl, meaning.binding)
    ensures Describes(config, name, p)
  {
  }

  /** Whatever was resolved before, two descriptions of the same profile are the same. */
  lemma DescriptionsAgree(config: Config, name: string, loaded: Profile, inspected: Profile)
    requires Describes(config, name, loaded) && Describes(config, name, inspected)
    ensures loaded == inspected
  {
    SortedSecretsUnique(Fold(config, name, {}).value.secrets, loaded.secrets, inspected.secrets);
  }
}
