/**
 The profile resolver: it memoises, counts includes and stops at two limits. `Resolving` says what a
 call makes of any state the resolver may be in, also one that failed calls left behind. A success is
 the meaning of the profile; a profile that has a meaning fails exactly when it is `Limited`.
 */
module ProfileResolution {
  import opened Common
  import opened Ordering
  import opened Text
  import opened Profiles
  import opened ProfilePaths

  datatype ResolverState = ResolverState(memo: map<string, Resolved>, count: nat)

  const FRESH := ResolverState(map[], 0)

  datatype Resolution = Resolution(state: ResolverState, result: Result<Resolved, ProfileError>)

  // ---- what a call does ----

  function Levels(stack: seq<string>): nat {
    if |stack| < MAX_INCLUDE_DEPTH then MAX_INCLUDE_DEPTH - |stack| else 0
  }

  function Resolving(config: Config, st: ResolverState, name: string, stack: seq<string>): Resolution
    decreases Levels(stack), 1, 0
  {
    if name in st.memo then Resolution(st, Ok(st.memo[name]))
    else if |stack| >= MAX_INCLUDE_DEPTH then Resolution(st, Err(DepthExceeded))
    else if name !in config.profiles then Resolution(st, Err(ProfileNotFound))
    else if name in stack then Resolution(st, Err(IncludeCycle))
    else
      var absorbed := Absorbing(config, st, name, stack, IncludeCount(config, name));
      if absorbed.result.Err? then absorbed
      else
        match Own(config, config.profiles[name], absorbed.result.value)
        case Err(e) => Resolution(absorbed.state, Err(e))
        case Ok(r) => Resolution(ResolverState(absorbed.state.memo[name := r], absorbed.state.count), Ok(r))
  }

  /** The first k includes. */
  function Absorbing(config: Config, st: ResolverState, name: string, stack: seq<string>, k: nat): Resolution
    requires name in config.profiles && k <= IncludeCount(config, name) && |stack| < MAX_INCLUDE_DEPTH
    decreases Levels(stack), 0, k
  {
    if k == 0 then Resolution(st, Ok(Blank(config, config.profiles[name])))
    else
      var before := Absorbing(config, st, name, stack, k - 1);
      if before.result.Err? then before
      else AbsorbingOne(config, before.state, name, stack, k - 1, before.result.value)
  }

  /** Include k. */
  function AbsorbingOne(config: Config, st: ResolverState, name: string, stack: seq<string>, k: nat,
      acc: Resolved)
    : Resolution
    requires name in config.profiles && k < IncludeCount(config, name) && |stack| < MAX_INCLUDE_DEPTH
    decreases Levels(stack), 0, k
  {
    var wanted := Included(config, name, k);
    var counted := ResolverState(st.memo, st.count + 1);
    if wanted == "" then Resolution(st, Err(EmptyInclude))
    else if counted.count > MAX_INCLUDE_COUNT then Resolution(counted, Err(CountExceeded))
    else
      var included := Resolving(config, counted, wanted, stack + [name]);
      if included.result.Err? then included
      else Resolution(included.state, Ok(Absorb(acc, included.result.value)))
  }

  // ---- what is remembered ----

  /** What is remembered is what the profiles mean, and everything they include is remembered too. */
  ghost predicate MemoOk(config: Config, memo: map<string, Resolved>) {
    && Closed(config, memo.Keys)
    && forall n :: n in memo ==> Fold(config, n, {}) == Some(memo[n])
  }

  ghost predicate Extends(old_: map<string, Resolved>, new_: map<string, Resolved>) {
    forall n :: n in old_ ==> n in new_ && new_[n] == old_[n]
  }

  ghost function Names(stack: seq<string>): set<string> {
    set n | n in stack
  }

  /** The memo is right, and what is being visited is not in it yet. */
  ghost predicate Safe(config: Config, memo: map<string, Resolved>, visiting: set<string>) {
    MemoOk(config, memo) && memo.Keys !! visiting
  }

  lemma FreshSafe(config: Config)
    ensures Safe(config, map[], Names([])) && Names([]) == {} && IncludeTotal(config, {}) == 0
  {
  }

  /** With nothing being visited a right memo is all that is asked for. */
  lemma TopSafe(config: Config, memo: map<string, Resolved>)
    ensures Safe(config, memo, Names([])) <==> MemoOk(config, memo)
    ensures Names([]) == {}
  {
  }

  lemma Remembered(config: Config, memo: map<string, Resolved>, name: string, visiting: set<string>)
    requires Safe(config, memo, visiting) && name in memo
    ensures Fold(config, name, visiting) == Some(memo[name])
  {
    FoldAvoids(config, name, memo.Keys, visiting, {});
    assert {} + visiting == visiting;
  }

  /** One more include, with whatever profiles above it being visited. */
  lemma IncludeStep(config: Config, includes: seq<string>, k: nat, visiting: set<string>, blank: Resolved,
      acc: Resolved)
    requires k < |includes| && FoldIncludes(config, includes[..k], visiting, blank) == Some(acc)
    ensures var wanted, after := TrimSpace(includes[k]), FoldIncludes(config, includes[..k + 1], visiting, blank);
      && (wanted == "" ==> after == None)
      && (wanted != "" && Fold(config, wanted, visiting).None? ==> after == None)
      && (wanted != "" && Fold(config, wanted, visiting).Some? ==>
        after == Some(Absorb(acc, Fold(config, wanted, visiting).value)))
  {
    assert includes[..k + 1][..k] == includes[..k];
  }

  lemma NothingIncluded(config: Config, includes: seq<string>, visiting: set<string>, blank: Resolved)
    ensures FoldIncludes(config, includes[..0], visiting, blank) == Some(blank)
  {
  }

  lemma OwnStep(config: Config, name: string, visiting: set<string>)
    requires name in config.profiles && name !in visiting
    ensures var raw := config.profiles[name];
      Fold(config, name, visiting) ==
        match FoldIncludes(config, raw.includes, visiting + {name}, Blank(config, raw))
        case None => None
        case Some(acc) => Own(config, raw, acc).ToOption()
  {
  }

  lemma NoMeaning(config: Config, name: string, visiting: set<string>)
    requires name !in config.profiles || name in visiting
    ensures Fold(config, name, visiting) == None
  {
  }

  lemma OwnErrors(config: Config, raw: ProfileYAML, acc: Resolved)
    ensures Own(config, raw, acc).Err? ==> !Own(config, raw, acc).error.Limit()
  {
  }

  lemma MemoWith(config: Config, memo: map<string, Resolved>, name: string, r: Resolved)
    requires MemoOk(config, memo) && name in config.profiles && IncludesIn(config.profiles[name].includes, memo.Keys)
    requires Fold(config, name, {}) == Some(r)
    ensures MemoOk(config, memo[name := r])
  {
    assert Closed(config, memo[name := r].Keys);
  }

  lemma NamesWith(stack: seq<string>, name: string)
    ensures Names(stack + [name]) == Names(stack) + {name}
    ensures name in stack <==> name in Names(stack)
  {
  }

  // ---- a success is the meaning ----

  /** After k includes: the memo is still right, and the result is that of plain recursion. */
  ghost predicate AbsorbedOk(config: Config, name: string, k: nat, before: map<string, Resolved>, visiting: set<string>,
                             out: Resolution)
    requires name in config.profiles && k <= IncludeCount(config, name)
  {
    var includes, blank := config.profiles[name].includes, Blank(config, config.profiles[name]);
    && Safe(config, out.state.memo, visiting + {name}) && Extends(before, out.state.memo)
    && (out.result.Ok? ==>
         && IncludesIn(includes[..k], out.state.memo.Keys)
         && FoldIncludes(config, includes[..k], {name}, blank) == Some(out.result.value)
         && FoldIncludes(config, includes[..k], visiting + {name}, blank) == Some(out.result.value))
    && (out.result.Err? && !out.result.error.Limit() ==>
      FoldIncludes(config, includes, visiting + {name}, blank) == None)
  }

  ghost predicate ResolvedOk(config: Config, name: string, before: map<string, Resolved>, visiting: set<string>,
      out: Resolution)
  {
    && Safe(config, out.state.memo, visiting) && Extends(before, out.state.memo)
    && (out.result.Ok? ==> name in out.state.memo && out.state.memo[name] == out.result.value)
    && (out.result.Err? && !out.result.error.Limit() ==> Fold(config, name, visiting) == None)
  }

  lemma AbsorbedNone(config: Config, name: string, memo: map<string, Resolved>, visiting: set<string>,
      st: ResolverState)
    requires st.memo == memo && Safe(config, memo, visiting) && name in config.profiles && name !in memo
    ensures AbsorbedOk(config, name, 0, memo, visiting, Resolution(st, Ok(Blank(config, config.profiles[name]))))
  {
    var includes, blank := config.profiles[name].includes, Blank(config, config.profiles[name]);
    NothingIncluded(config, includes, {name}, blank);
    NothingIncluded(config, includes, visiting + {name}, blank);
  }

  /** An include that cannot be resolved leaves the including profile without a meaning. */
  lemma AbsorbedFails(config: Config, name: string, k: nat, visiting: set<string>, acc: Resolved)
    requires name in config.profiles && k < IncludeCount(config, name)
    requires var includes, blank := config.profiles[name].includes, Blank(config, config.profiles[name]);
      FoldIncludes(config, includes[..k], visiting + {name}, blank) == Some(acc)
    requires Included(config, name, k) == "" || Fold(config, Included(config, name, k), visiting + {name}).None?
    ensures FoldIncludes(config, config.profiles[name].includes, visiting + {name},
                         Blank(config, config.profiles[name])) == None
  {
    hide FoldIncludes, Fold;
    var includes, blank := config.profiles[name].includes, Blank(config, config.profiles[name]);
    IncludeStep(config, includes, k, visiting + {name}, blank, acc);
    PrefixFails(config, includes, k + 1, visiting + {name}, blank);
  }

  lemma AbsorbedMore(config: Config, name: string, k: nat, before: map<string, Resolved>, visiting: set<string>,
      so: Resolution, included: Resolution)
    requires name in config.profiles && k < IncludeCount(config, name)
    requires AbsorbedOk(config, name, k, before, visiting, so) && so.result.Ok?
    requires ResolvedOk(config, Included(config, name, k), so.state.memo, visiting + {name}, included)
    requires included.result.Ok?
    requires Included(config, name, k) != ""
    ensures AbsorbedOk(config, name, k + 1, before, visiting,
                       Resolution(included.state, Ok(Absorb(so.result.value, included.result.value))))
  {
    hide FoldIncludes, Fold, MemoOk, Blank;
    var includes, blank := config.profiles[name].includes, Blank(config, config.profiles[name]);
    var wanted, memo := Included(config, name, k), included.state.memo;
    IncludeStep(config, includes, k, {name}, blank, so.result.value);
    IncludeStep(config, includes, k, visiting + {name}, blank, so.result.value);
    Remembered(config, memo, wanted, {name});
    Remembered(config, memo, wanted, visiting + {name});
    assert includes[..k + 1] == includes[..k] + [includes[k]];
  }

  /** The profile's own fields on top. */
  lemma ResolvedOwn(config: Config, name: string, before: map<string, Resolved>, visiting: set<string>,
      absorbed: Resolution)
    requires name in config.profiles && name !in visiting
    requires AbsorbedOk(config, name, IncludeCount(config, name), before, visiting, absorbed) && absorbed.result.Ok?
    ensures var raw := config.profiles[name];
      match Own(config, raw, absorbed.result.value)
      case Err(e) => ResolvedOk(config, name, before, visiting, Resolution(absorbed.state, Err(e)))
      case Ok(r) => ResolvedOk(config, name, before, visiting,
                               Resolution(ResolverState(absorbed.state.memo[name := r], absorbed.state.count), Ok(r)))
  {
    hide FoldIncludes, Fold, MemoOk, Own;
    var raw := config.profiles[name];
    assert raw.includes[..IncludeCount(config, name)] == raw.includes;
    OwnStep(config, name, {});
    OwnStep(config, name, visiting);
    assert {} + {name} == {name};
    if Own(config, raw, absorbed.result.value).Ok? {
      MemoWith(config, absorbed.state.memo, name, Own(config, raw, absorbed.result.value).value);
    }
  }

  lemma {:induction false} ResolvingIsOk(config: Config, st: ResolverState, name: string, stack: seq<string>)
    requires Safe(config, st.memo, Names(stack))
    ensures ResolvedOk(config, name, st.memo, Names(stack), Resolving(config, st, name, stack))
    decreases Levels(stack), 1, 0
  {
    hide AbsorbedOk, MemoOk, Own, Fold, Absorbing;
    if name !in st.memo && |stack| < MAX_INCLUDE_DEPTH {
      NamesWith(stack, name);
      if name !in config.profiles || name in stack {
        NoMeaning(config, name, Names(stack));
      } else {
        var n := IncludeCount(config, name);
        AbsorbingIsOk(config, st, name, stack, n);
        var absorbed := Absorbing(config, st, name, stack, n);
        if absorbed.result.Ok? {
          ResolvedOwn(config, name, st.memo, Names(stack), absorbed);
        } else {
          AbsorbedError(config, name, n, st.memo, Names(stack), absorbed);
        }
      }
    }
  }

  lemma AbsorbedError(config: Config, name: string, k: nat, before: map<string, Resolved>, visiting: set<string>,
      out: Resolution)
    requires name in config.profiles && name !in visiting && k <= IncludeCount(config, name)
    requires AbsorbedOk(config, name, k, before, visiting, out) && out.result.Err?
    ensures ResolvedOk(config, name, before, visiting, out)
  {
    hide FoldIncludes, Fold, MemoOk;
    OwnStep(config, name, visiting);
  }

  lemma {:induction false} AbsorbingIsOk(config: Config, st: ResolverState, name: string, stack: seq<string>, k: nat)
    requires Safe(config, st.memo, Names(stack)) && name !in st.memo && name !in stack
    requires name in config.profiles && k <= IncludeCount(config, name) && |stack| < MAX_INCLUDE_DEPTH
    ensures AbsorbedOk(config, name, k, st.memo, Names(stack), Absorbing(config, st, name, stack, k))
    decreases Levels(stack), 0, k
  {
    hide MemoOk, FoldIncludes, Fold, Resolving;
    if k == 0 {
      AbsorbedNone(config, name, st.memo, Names(stack), st);
    } else {
      AbsorbingIsOk(config, st, name, stack, k - 1);
      var before := Absorbing(config, st, name, stack, k - 1);
      if before.result.Ok? {
        AbsorbingOneIsOk(config, st.memo, before, name, stack, k - 1);
      } else {
        AbsorbedStays(config, name, k, st.memo, Names(stack), before);
      }
    }
  }

  lemma AbsorbedStays(config: Config, name: string, k: nat, before: map<string, Resolved>, visiting: set<string>,
      out: Resolution)
    requires name in config.profiles && 0 < k <= IncludeCount(config, name) && out.result.Err?
    requires AbsorbedOk(config, name, k - 1, before, visiting, out)
    ensures AbsorbedOk(config, name, k, before, visiting, out)
  {
  }

  lemma {:induction false} AbsorbingOneIsOk(config: Config, memo: map<string, Resolved>, so: Resolution, name: string,
      stack: seq<string>, k: nat)
    requires name in config.profiles && name !in stack && k < IncludeCount(config, name) && |stack| < MAX_INCLUDE_DEPTH
    requires AbsorbedOk(config, name, k, memo, Names(stack), so) && so.result.Ok?
    ensures AbsorbedOk(config, name, k + 1, memo, Names(stack),
                       AbsorbingOne(config, so.state, name, stack, k, so.result.value))
    decreases Levels(stack), 0, k
  {
    hide MemoOk, FoldIncludes, Fold, Resolving, IncludesIn, Blank;
    var wanted := Included(config, name, k);
    var counted := ResolverState(so.state.memo, so.state.count + 1);
    NamesWith(stack, name);
    if wanted == "" {
      AbsorbedFails(config, name, k, Names(stack), so.result.value);
    } else if counted.count <= MAX_INCLUDE_COUNT {
      ResolvingIsOk(config, counted, wanted, stack + [name]);
      var included := Resolving(config, counted, wanted, stack + [name]);
      if included.result.Ok? {
        AbsorbedMore(config, name, k, memo, Names(stack), so, included);
      } else if !included.result.error.Limit() {
        AbsorbedFails(config, name, k, Names(stack), so.result.value);
      }
    }
  }

  // ---- when the limits stop a profile that has a meaning ----

  /** The include entries a resolve has still to count. */
  ghost function Uncounted(config: Config, name: string, known: set<string>): nat {
    IncludeTotal(config, Reached(config, name) - known)
  }

  /**
   The leftmost way to a profile that is not remembered is too long, or there are more include entries
   left than may still be counted. A resolve that counts nothing is not stopped by the count.
   */
  ghost predicate Limited(config: Config, st: ResolverState, name: string, depth: nat) {
    || TooDeep(config, name, st.memo.Keys, depth)
    || (Uncounted(config, name, st.memo.Keys) > 0 &&
        st.count + Uncounted(config, name, st.memo.Keys) > MAX_INCLUDE_COUNT)
  }

  /** The include entries of all that the first k includes lead to, and the k themselves. */
  ghost function CountedBefore(config: Config, name: string, k: nat, known: set<string>): nat {
    k + IncludeTotal(config, ReachedBefore(config, name, k) - known)
  }

  ghost predicate NoDeepBefore(config: Config, name: string, known: set<string>, depth: nat, k: nat) {
    forall trail :: DeepTrail(config, name, known, depth, trail) ==> trail != [] && trail[0] >= k
  }

  ghost predicate ResolvedExactly(config: Config, st: ResolverState, name: string, depth: nat, out: Resolution) {
    && (out.result.Ok? ==>
         && out.state.memo.Keys == st.memo.Keys + Reached(config, name)
         && out.state.count == st.count + Uncounted(config, name, st.memo.Keys)
         && (out.state.count > st.count ==> out.state.count <= MAX_INCLUDE_COUNT)
         && !TooDeep(config, name, st.memo.Keys, depth))
    && (out.result.Err? ==> Limited(config, st, name, depth))
  }

  ghost predicate AbsorbedExactly(config: Config, st: ResolverState, name: string, depth: nat, k: nat,
      out: Resolution)
  {
    && (out.result.Ok? ==>
         && out.state.memo.Keys == st.memo.Keys + ReachedBefore(config, name, k)
         && out.state.count == st.count + CountedBefore(config, name, k, st.memo.Keys)
         && (k > 0 ==> out.state.count <= MAX_INCLUDE_COUNT)
         && NoDeepBefore(config, name, st.memo.Keys, depth, k))
    && (out.result.Err? ==> k > 0)
    && (out.result.Err? ==>
         || TooDeep(config, name, st.memo.Keys, depth)
         || st.count + CountedBefore(config, name, IncludeCount(config, name), st.memo.Keys) > MAX_INCLUDE_COUNT)
  }

  lemma CountedNext(config: Config, name: string, k: nat, known: set<string>)
    requires k < IncludeCount(config, name)
    ensures CountedBefore(config, name, k + 1, known) ==
      CountedBefore(config, name, k, known) + 1
      + Uncounted(config, Included(config, name, k), known + ReachedBefore(config, name, k))
    ensures CountedBefore(config, name, k + 1, known) <= CountedBefore(config, name, IncludeCount(config, name), known)
    ensures CountedBefore(config, name, k, known) + 1 <= CountedBefore(config, name, k + 1, known)
  {
    hide IncludeTotal, Reached, ReachedBefore;
    var n := IncludeCount(config, name);
    var a := ReachedBefore(config, name, k) - known;
    var b := Reached(config, Included(config, name, k)) - (known + ReachedBefore(config, name, k));
    ReachedNext(config, name, k);
    assert ReachedBefore(config, name, k + 1) - known == a + b;
    TotalUnion(config, a, b);
    ReachedFewer(config, name, k + 1, n);
    TotalGrows(config, ReachedBefore(config, name, k + 1) - known, ReachedBefore(config, name, n) - known);
  }

  /** All that is left of a profile not remembered: its own includes, and what they lead to. */
  lemma CountedAll(config: Config, name: string, visiting: set<string>, known: set<string>)
    requires Fold(config, name, visiting).Some? && name !in known
    ensures Uncounted(config, name, known) == CountedBefore(config, name, IncludeCount(config, name), known)
    ensures IncludeCount(config, name) == 0 ==> Uncounted(config, name, known) == 0
    ensures known + Reached(config, name) == known + ReachedBefore(config, name, IncludeCount(config, name)) + {name}
  {
    hide IncludeTotal, Reached, Fold;
    var n := IncludeCount(config, name);
    FoldVisits(config, name, visiting);
    ReachedParts(config, name);
    NotBelowItself(config, name, visiting, n);
    var all := Reached(config, name) - known;
    TotalWithout(config, all, name);
    assert all - {name} == ReachedBefore(config, name, n) - known;
    if n == 0 {
      NothingBefore(config, name);
      FreshSafe(config);
      assert all - {name} == {};
    }
  }

  lemma NotBelowItself(config: Config, name: string, visiting: set<string>, k: nat)
    requires Fold(config, name, visiting).Some?
    ensures name !in ReachedBefore(config, name, k)
  {
    forall trail | trail != [] && Target(config, name, trail).Some?
      ensures Target(config, name, trail) != Some(name)
    {
      MeaningIsAcyclic(config, name, visiting, trail);
      assert trail[..0] == [] && trail[..|trail|] == trail;
    }
  }

  /** A deep trail below include k, seen from the including profile and from the included one. */
  lemma DeepBelow(config: Config, name: string, visiting: set<string>, known: set<string>, depth: nat, k: nat)
    requires Fold(config, name, visiting).Some? && k < IncludeCount(config, name)
    ensures var deeper := TooDeep(config, Included(config, name, k), known + ReachedBefore(config, name, k), depth + 1);
      && (deeper ==> TooDeep(config, name, known, depth))
      && (!deeper && NoDeepBefore(config, name, known, depth, k) ==> NoDeepBefore(config, name, known, depth, k + 1))
  {
    hide DeepTrail, ReachedBefore, Fold;
    var next, more := Included(config, name, k), known + ReachedBefore(config, name, k);
    forall trail
      ensures DeepTrail(config, name, known, depth, [k] + trail) <==> DeepTrail(config, next, more, depth + 1, trail)
    {
      if Target(config, name, [k] + trail).Some? { MeaningIsAcyclic(config, name, visiting, [k] + trail); }
      DeepStep(config, name, known, depth, k, trail);
    }
    if TooDeep(config, next, more, depth + 1) {
      var trail :| DeepTrail(config, next, more, depth + 1, trail);
      assert DeepTrail(config, name, known, depth, [k] + trail);
    } else if NoDeepBefore(config, name, known, depth, k) {
      forall trail | DeepTrail(config, name, known, depth, trail)
        ensures trail != [] && trail[0] >= k + 1
      {
        assert trail == [trail[0]] + trail[1..];
      }
    }
  }

  lemma KnownNotDeep(config: Config, memo: map<string, Resolved>, name: string, depth: nat)
    requires MemoOk(config, memo) && name in memo
    ensures !TooDeep(config, name, memo.Keys, depth) && Reached(config, name) <= memo.Keys
    ensures Uncounted(config, name, memo.Keys) == 0
  {
    hide IncludeTotal, Leftmost;
    ClosedReached(config, memo.Keys, name);
    assert Reached(config, name) - memo.Keys == {};
    assert IncludeTotal(config, {}) == 0 by { FreshSafe(config); }
    forall trail
      ensures !DeepTrail(config, name, memo.Keys, depth, trail)
    {
      if Target(config, name, trail).Some? { ClosedTarget(config, memo.Keys, name, trail); }
    }
  }

  lemma {:induction false} ResolvingIsExact(config: Config, st: ResolverState, name: string, stack: seq<string>)
    requires Safe(config, st.memo, Names(stack)) && Fold(config, name, Names(stack)).Some?
    ensures ResolvedExactly(config, st, name, |stack|, Resolving(config, st, name, stack))
    decreases Levels(stack), 1, 0
  {
    hide MemoOk, Fold, Own, IncludeTotal, TooDeep, Reached, ReachedBefore, Absorbing;
    if name in st.memo {
      KnownNotDeep(config, st.memo, name, |stack|);
    } else if |stack| >= MAX_INCLUDE_DEPTH {
      assert DeepTrail(config, name, st.memo.Keys, |stack|, []);
      DeepIsTooDeep(config, name, st.memo.Keys, |stack|, []);
    } else {
      FoldVisits(config, name, Names(stack));
      NamesWith(stack, name);
      var n := IncludeCount(config, name);
      AbsorbingIsExact(config, st, name, stack, n);
      CountedAll(config, name, Names(stack), st.memo.Keys);
      ResolvingIsOk(config, st, name, stack);
      var absorbed := Absorbing(config, st, name, stack, n);
      if absorbed.result.Ok? {
        OwnErrors(config, config.profiles[name], absorbed.result.value);
        NoDeepAtAll(config, name, st.memo.Keys, |stack|);
        var own := Own(config, config.profiles[name], absorbed.result.value);
        assert own.Ok?;
        var memo := absorbed.state.memo[name := own.value];
        assert memo.Keys == absorbed.state.memo.Keys + {name};
      }
    }
  }

  lemma DeepIsTooDeep(config: Config, name: string, known: set<string>, depth: nat, trail: seq<nat>)
    requires DeepTrail(config, name, known, depth, trail)
    ensures TooDeep(config, name, known, depth)
  {
  }

  lemma NoDeepAtAll(config: Config, name: string, known: set<string>, depth: nat)
    requires NoDeepBefore(config, name, known, depth, IncludeCount(config, name))
    ensures !TooDeep(config, name, known, depth)
  {
    hide Leftmost;
  }

  lemma NoneDeepBefore(config: Config, name: string, known: set<string>, depth: nat)
    requires depth < MAX_INCLUDE_DEPTH
    ensures NoDeepBefore(config, name, known, depth, 0)
  {
    hide Leftmost;
  }

  lemma {:induction false} AbsorbingIsExact(config: Config, st: ResolverState, name: string, stack: seq<string>, k: nat)
    requires Safe(config, st.memo, Names(stack)) && name !in st.memo && name !in stack && |stack| < MAX_INCLUDE_DEPTH
    requires name in config.profiles && k <= IncludeCount(config, name) && Fold(config, name, Names(stack)).Some?
    ensures AbsorbedExactly(config, st, name, |stack|, k, Absorbing(config, st, name, stack, k))
    decreases Levels(stack), 0, k
  {
    hide MemoOk, Fold, IncludeTotal, TooDeep, NoDeepBefore, ReachedBefore, Resolving, AbsorbingOne, Blank;
    if k == 0 {
      NothingBefore(config, name);
      NoneDeepBefore(config, name, st.memo.Keys, |stack|);
      assert ReachedBefore(config, name, 0) - st.memo.Keys == {};
      FreshSafe(config);
    } else {
      AbsorbingIsExact(config, st, name, stack, k - 1);
      AbsorbingIsOk(config, st, name, stack, k - 1);
      var before := Absorbing(config, st, name, stack, k - 1);
      if before.result.Ok? {
        AbsorbingOneIsExact(config, st, before, name, stack, k - 1);
      }
    }
  }

  lemma {:induction false} AbsorbingOneIsExact(config: Config, st: ResolverState, so: Resolution, name: string,
      stack: seq<string>, k: nat)
    requires name in config.profiles && name !in stack && k < IncludeCount(config, name) && |stack| < MAX_INCLUDE_DEPTH
    requires Fold(config, name, Names(stack)).Some? && so.result.Ok?
    requires AbsorbedOk(config, name, k, st.memo, Names(stack), so) && AbsorbedExactly(config, st, name, |stack|, k, so)
    ensures AbsorbedExactly(config, st, name, |stack|, k + 1,
                            AbsorbingOne(config, so.state, name, stack, k, so.result.value))
    decreases Levels(stack), 0, k
  {
    hide MemoOk, Fold, FoldIncludes, IncludeTotal, TooDeep, NoDeepBefore, Reached, ReachedBefore, Resolving, Blank,
      CountedBefore, IncludesIn;
    var wanted, known := Included(config, name, k), st.memo.Keys;
    var counted := ResolverState(so.state.memo, so.state.count + 1);
    NamesWith(stack, name);
    IncludedFolds(config, name, Names(stack), k);
    CountedNext(config, name, k, known);
    if counted.count <= MAX_INCLUDE_COUNT {
      ResolvingIsExact(config, counted, wanted, stack + [name]);
      DeepBelow(config, name, Names(stack), known, |stack|, k);
      ReachedNext(config, name, k);
    }
  }

  /** Which calls fail, for a profile that has a meaning, in whatever state earlier calls left the resolver. */
  lemma FailsExactlyWhenLimited(config: Config, st: ResolverState, name: string, stack: seq<string>)
    requires Safe(config, st.memo, Names(stack)) && Fold(config, name, Names(stack)).Some?
    ensures Resolving(config, st, name, stack).result.Err? <==> Limited(config, st, name, |stack|)
  {
    hide MemoOk, Fold, TooDeep, Reached, Resolving, IncludeTotal;
    ResolvingIsExact(config, st, name, stack);
  }

  // ---- files too small for the limits ----

  /** No more profiles than the depth limit, and no more include entries than the count limit. */
  ghost predicate Small(config: Config) {
    |config.profiles| <= MAX_INCLUDE_DEPTH && IncludeTotal(config, config.profiles.Keys) <= MAX_INCLUDE_COUNT
  }

  ghost predicate StackOk(config: Config, stack: seq<string>) {
    Names(stack) <= config.profiles.Keys && Distinct(stack)
  }

  lemma {:induction false} StackSize(stack: seq<string>)
    requires Distinct(stack)
    ensures |Names(stack)| == |stack|
  {
    if stack != [] {
      var n := |stack| - 1;
      StackSize(stack[..n]);
      assert stack == stack[..n] + [stack[n]];
      assert Names(stack) == Names(stack[..n]) + {stack[n]};
    }
  }

  lemma CountFits(config: Config, done: set<string>, visiting: set<string>, spent: nat)
    requires done !! visiting && done + visiting <= config.profiles.Keys && spent <= IncludeTotal(config, visiting)
    ensures IncludeTotal(config, done) + spent <= IncludeTotal(config, config.profiles.Keys)
  {
    TotalUnion(config, done, visiting);
    TotalGrows(config, done + visiting, config.profiles.Keys);
  }

  /** The stack and a trail below it are together shorter than the file has profiles. */
  lemma TrailFits(config: Config, name: string, stack: seq<string>, trail: seq<nat>)
    requires StackOk(config, stack) && Fold(config, name, Names(stack)).Some? && Target(config, name, trail).Some?
    ensures |stack| + |trail| < |config.profiles|
    ensures Target(config, name, trail).value !in Names(stack)
  {
    StackSize(stack);
    MeaningIsAcyclic(config, name, Names(stack), trail);
    assert |config.profiles.Keys - Names(stack)| == |config.profiles.Keys| - |Names(stack)|;
  }

  /**
   In a small file no profile that has a meaning is stopped, provided that no earlier call has failed:
   what is counted is then what is remembered, and what the profiles being visited have spent.
   */
  lemma SmallNeverLimited(config: Config, st: ResolverState, name: string, stack: seq<string>, spent: nat)
    requires Small(config) && Safe(config, st.memo, Names(stack)) && StackOk(config, stack)
    requires Fold(config, name, Names(stack)).Some?
    requires st.count <= IncludeTotal(config, st.memo.Keys) + spent && spent <= IncludeTotal(config, Names(stack))
    ensures !Limited(config, st, name, |stack|)
  {
    hide Fold, Leftmost, IncludeTotal, StackOk;
    var visiting, known := Names(stack), st.memo.Keys;
    forall trail | Target(config, name, trail).Some?
      ensures !DeepTrail(config, name, known, |stack|, trail)
      ensures Target(config, name, trail).value !in visiting
    {
      TrailFits(config, name, stack, trail);
    }
    var more := Reached(config, name) - known;
    TotalUnion(config, known, more);
    assert visiting <= config.profiles.Keys by { StackNames(config, stack); }
    CountFits(config, known + more, visiting, spent);
  }

  lemma StackNames(config: Config, stack: seq<string>)
    requires StackOk(config, stack)
    ensures Names(stack) <= config.profiles.Keys
  {
  }
}
