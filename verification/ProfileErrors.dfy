/** Why a resolve fails: every error has its cause in a profile that the wanted one leads to. */
module ProfileErrors {
  import opened Common
  import opened Text
  import opened Profiles
  import opened ProfilePaths
  import opened ProfileResolution

  /** What is wrong where the trail leads, with these profiles above the wanted one. */
  ghost predicate Blamed(config: Config, stack: seq<string>, name: string, e: ProfileError, trail: seq<nat>) {
    Target(config, name, trail).Some? &&
    var n := Target(config, name, trail).value;
    match e
    case ProfileNotFound => n !in config.profiles
    case IncludeCycle => n in stack || exists i :: 0 <= i < |trail| && Target(config, name, trail[..i]) == Some(n)
    case EmptyInclude => exists k: nat :: k < IncludeCount(config, n) && Included(config, n, k) == ""
    case InvalidTTL => n in config.profiles && config.profiles[n].ttl == BadTTL
    case InvalidSecret => n in config.profiles && HasBadSecret(config, config.profiles[n])
    case NoSecrets => n in config.profiles && config.profiles[n].secrets == map[] && config.profiles[n].includes == []
    case DepthExceeded => |stack| + |trail| >= MAX_INCLUDE_DEPTH
    case CountExceeded => true // see ResolvingBlames
  }

  ghost predicate HasBadSecret(config: Config, raw: ProfileYAML) {
    exists a :: a in raw.secrets
      && (raw.secrets[a].ref == "" || ResolveSecretSource(raw.secrets[a], config.sources).None?)
  }

  lemma BlamedBelow(config: Config, stack: seq<string>, name: string, e: ProfileError, k: nat, trail: seq<nat>)
    requires k < IncludeCount(config, name)
    requires Blamed(config, stack + [name], Included(config, name, k), e, trail)
    ensures Blamed(config, stack, name, e, [k] + trail)
  {
    TargetStep(config, name, k, trail);
    if e.IncludeCycle? {
      var n := Target(config, name, [k] + trail).value;
      if n == name {
        assert ([k] + trail)[..0] == [] && Target(config, name, []) == Some(n);
      } else if n !in stack {
        var i :| 0 <= i < |trail| && Target(config, Included(config, name, k), trail[..i]) == Some(n);
        assert ([k] + trail)[..i + 1] == [k] + trail[..i];
        TargetStep(config, name, k, trail[..i]);
      }
    }
  }

  lemma MeaningHasSecrets(config: Config, name: string, visiting: set<string>)
    requires Fold(config, name, visiting).Some?
    ensures Fold(config, name, visiting).value.secrets != map[]
  {
    hide FoldIncludes, Merged;
  }

  lemma IncludesHaveSecrets(config: Config, includes: seq<string>, visiting: set<string>, blank: Resolved)
    requires includes != [] && FoldIncludes(config, includes, visiting, blank).Some?
    ensures FoldIncludes(config, includes, visiting, blank).value.secrets != map[]
  {
    hide Fold;
    var wanted := TrimSpace(includes[|includes| - 1]);
    MeaningHasSecrets(config, wanted, visiting);
    var sub := Fold(config, wanted, visiting).value;
    var a :| a in sub.secrets;
    assert a in FoldIncludes(config, includes, visiting, blank).value.secrets;
  }

  lemma OwnBlames(config: Config, raw: ProfileYAML, acc: Resolved)
    requires acc.secrets == map[] ==> raw.includes == []
    ensures Own(config, raw, acc).Err? ==>
      match Own(config, raw, acc).error
      case InvalidTTL => raw.ttl == BadTTL
      case InvalidSecret => HasBadSecret(config, raw)
      case NoSecrets => raw.secrets == map[] && raw.includes == []
      case _ => false
  {
    hide ResolveSecretSource, ResolveSecret;
    if Merged(acc.secrets, raw.secrets, acc.account, config.sources) == Some(map[]) {
      var own := OwnSecrets(raw.secrets, acc.account, config.sources);
      assert (acc.secrets + own).Keys == acc.secrets.Keys + raw.secrets.Keys;
      assert raw.secrets.Keys == {} && acc.secrets.Keys == {};
    }
  }

  /** Every error of a resolve, in any state with a right memo, has its cause. */
  lemma {:induction false} ResolvingBlames(config: Config, st: ResolverState, name: string, stack: seq<string>)
    requires Safe(config, st.memo, Names(stack)) && Resolving(config, st, name, stack).result.Err?
    ensures exists trail :: Blamed(config, stack, name, Resolving(config, st, name, stack).result.error, trail)
    ensures var out := Resolving(config, st, name, stack);
      out.result.error == CountExceeded ==> out.state.count > MAX_INCLUDE_COUNT
    decreases Levels(stack), 1, 0
  {
    hide Safe, Own, Absorbing, HasBadSecret;
    var e := Resolving(config, st, name, stack).result.error;
    if |stack| >= MAX_INCLUDE_DEPTH || name !in config.profiles || name in stack {
      assert Blamed(config, stack, name, e, []);
    } else {
      var n := IncludeCount(config, name);
      var absorbed := Absorbing(config, st, name, stack, n);
      if absorbed.result.Err? {
        AbsorbingBlames(config, st, name, stack, n);
      } else {
        NothingAbsorbed(config, st, name, stack);
        OwnBlames(config, config.profiles[name], absorbed.result.value);
        assert Blamed(config, stack, name, e, []);
      }
    }
  }

  lemma NothingAbsorbed(config: Config, st: ResolverState, name: string, stack: seq<string>)
    requires Safe(config, st.memo, Names(stack)) && name !in st.memo && name !in stack
    requires name in config.profiles && |stack| < MAX_INCLUDE_DEPTH
    requires Absorbing(config, st, name, stack, IncludeCount(config, name)).result.Ok?
    ensures Absorbing(config, st, name, stack, IncludeCount(config, name)).result.value.secrets == map[] ==>
      config.profiles[name].includes == []
  {
    hide Safe, Absorbing, FoldIncludes;
    var raw := config.profiles[name];
    AbsorbingIsOk(config, st, name, stack, |raw.includes|);
    assert raw.includes[..|raw.includes|] == raw.includes;
    if raw.includes != [] { IncludesHaveSecrets(config, raw.includes, {name}, Blank(config, raw)); }
  }

  lemma {:induction false} AbsorbingBlames(config: Config, st: ResolverState, name: string, stack: seq<string>, k: nat)
    requires Safe(config, st.memo, Names(stack)) && name !in st.memo && name !in stack
    requires name in config.profiles && k <= IncludeCount(config, name) && |stack| < MAX_INCLUDE_DEPTH
    requires Absorbing(config, st, name, stack, k).result.Err?
    ensures exists trail :: Blamed(config, stack, name, Absorbing(config, st, name, stack, k).result.error, trail)
    ensures var out := Absorbing(config, st, name, stack, k);
      out.result.error == CountExceeded ==> out.state.count > MAX_INCLUDE_COUNT
    decreases Levels(stack), 0, k
  {
    hide Safe, Blamed, Resolving, Blank;
    var before := Absorbing(config, st, name, stack, k - 1);
    if before.result.Err? {
      AbsorbingBlames(config, st, name, stack, k - 1);
    } else {
      var counted := ResolverState(before.state.memo, before.state.count + 1);
      var wanted := Included(config, name, k - 1);
      var e := Absorbing(config, st, name, stack, k).result.error;
      if wanted == "" || counted.count > MAX_INCLUDE_COUNT {
        BlamedHere(config, stack, name, e, k - 1);
      } else {
        SafeBelow(config, st, name, stack, k - 1);
        ResolvingBlames(config, counted, wanted, stack + [name]);
        var trail: seq<nat> :| Blamed(config, stack + [name], wanted, e, trail);
        BlamedBelow(config, stack, name, e, k - 1, trail);
      }
    }
  }

  lemma BlamedHere(config: Config, stack: seq<string>, name: string, e: ProfileError, k: nat)
    requires name in config.profiles && k < IncludeCount(config, name)
    requires (e == EmptyInclude && Included(config, name, k) == "") || e == CountExceeded
    ensures Blamed(config, stack, name, e, [])
  {
  }

  lemma SafeBelow(config: Config, st: ResolverState, name: string, stack: seq<string>, k: nat)
    requires Safe(config, st.memo, Names(stack)) && name !in st.memo && name !in stack
    requires name in config.profiles && k <= IncludeCount(config, name) && |stack| < MAX_INCLUDE_DEPTH
    ensures Safe(config, Absorbing(config, st, name, stack, k).state.memo, Names(stack + [name]))
  {
    hide Safe, Absorbing, FoldIncludes;
    AbsorbingIsOk(config, st, name, stack, k);
    NamesWith(stack, name);
  }
}
