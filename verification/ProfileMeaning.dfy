/**
 What a profile means, in terms of its own fields and of what its includes mean: its own fields win,
 then the last include that gives one.
 */
module ProfileMeaning {
  import opened Common
  import opened Requests
  import opened SecretRefs
  import opened Text
  import opened ProfileSources
  import opened Profiles
  import opened ProfilePaths

  // ---- a list of meanings, of which the last wins ----

  /** The last of them that defines the alias. */
  ghost predicate LastDefines(subs: seq<Resolved>, k: nat, alias: string) {
    k < |subs| && alias in subs[k].secrets && forall j :: k < j < |subs| ==> alias !in subs[j].secrets
  }

  ghost predicate LastReason(subs: seq<Resolved>, k: nat) {
    k < |subs| && subs[k].reason != "" && forall j :: k < j < |subs| ==> subs[j].reason == ""
  }

  ghost predicate LastTTL(subs: seq<Resolved>, k: nat) {
    k < |subs| && subs[k].ttl != 0 && forall j :: k < j < |subs| ==> subs[j].ttl == 0
  }

  ghost predicate LastBinding(subs: seq<Resolved>, k: nat) {
    k < |subs| && subs[k].binding.Some? && forall j :: k < j < |subs| ==> subs[j].binding.None?
  }

  ghost predicate SecretsOf(m: Resolved, subs: seq<Resolved>) {
    && (forall a :: a in m.secrets <==> exists k :: 0 <= k < |subs| && a in subs[k].secrets)
    && (forall a, k: nat :: LastDefines(subs, k, a) ==> a in m.secrets && m.secrets[a] == subs[k].secrets[a])
  }

  ghost predicate FieldsOf(m: Resolved, subs: seq<Resolved>) {
    && (forall k: nat :: LastReason(subs, k) ==> m.reason == subs[k].reason)
    && ((forall k :: 0 <= k < |subs| ==> subs[k].reason == "") ==> m.reason == "")
    && (forall k: nat :: LastTTL(subs, k) ==> m.ttl == subs[k].ttl)
    && ((forall k :: 0 <= k < |subs| ==> subs[k].ttl == 0) ==> m.ttl == 0)
    && (forall k: nat :: LastBinding(subs, k) ==> m.binding == subs[k].binding)
    && ((forall k :: 0 <= k < |subs| ==> subs[k].binding.None?) ==> m.binding == None)
  }

  lemma SecretsNext(acc: Resolved, subs: seq<Resolved>, sub: Resolved)
    requires SecretsOf(acc, subs)
    ensures SecretsOf(Absorb(acc, sub), subs + [sub])
  {
    var m, more := Absorb(acc, sub), subs + [sub];
    forall a
      ensures a in m.secrets <==> exists k :: 0 <= k < |more| && a in more[k].secrets
    {
      if a in acc.secrets {
        var k :| 0 <= k < |subs| && a in subs[k].secrets;
        assert a in more[k].secrets;
      }
      if a in sub.secrets { assert a in more[|subs|].secrets; }
    }
    forall a, k: nat | LastDefines(more, k, a)
      ensures a in m.secrets && m.secrets[a] == more[k].secrets[a]
    {
      if k < |subs| {
        assert more[|subs|] == sub;
        assert forall j :: k < j < |subs| ==> more[j] == subs[j];
        assert LastDefines(subs, k, a);
      }
    }
  }

  lemma FieldsNext(acc: Resolved, subs: seq<Resolved>, sub: Resolved)
    requires FieldsOf(acc, subs)
    ensures FieldsOf(Absorb(acc, sub), subs + [sub])
  {
    var m, more := Absorb(acc, sub), subs + [sub];
    assert more[|subs|] == sub && forall j :: 0 <= j < |subs| ==> more[j] == subs[j];
    forall k: nat | LastReason(more, k)
      ensures m.reason == more[k].reason
    {
      if k < |subs| { assert LastReason(subs, k); }
    }
    forall k: nat | LastTTL(more, k)
      ensures m.ttl == more[k].ttl
    {
      if k < |subs| { assert LastTTL(subs, k); }
    }
    forall k: nat | LastBinding(more, k)
      ensures m.binding == more[k].binding
    {
      if k < |subs| { assert LastBinding(subs, k); }
    }
  }

  // ---- the includes of a profile ----

  /** What the includes mean, as long as these profiles are being visited. */
  ghost function Meanings(config: Config, includes: seq<string>, visiting: set<string>): (subs: seq<Resolved>)
    requires forall i :: 0 <= i < |includes| ==> Fold(config, TrimSpace(includes[i]), visiting).Some?
    ensures |subs| == |includes|
    ensures forall i :: 0 <= i < |includes| ==> Fold(config, TrimSpace(includes[i]), visiting) == Some(subs[i])
  {
    seq(|includes|, i requires 0 <= i < |includes| => Fold(config, TrimSpace(includes[i]), visiting).value)
  }

  lemma {:induction false} IncludesMean(config: Config, includes: seq<string>, visiting: set<string>, blank: Resolved,
      subs: seq<Resolved>)
    requires FoldIncludes(config, includes, visiting, blank).Some? && |subs| == |includes|
    requires forall i :: 0 <= i < |includes| ==> Fold(config, TrimSpace(includes[i]), visiting) == Some(subs[i])
    requires blank.secrets == map[] && blank.reason == "" && blank.ttl == 0 && blank.binding.None?
    ensures var m := FoldIncludes(config, includes, visiting, blank).value;
      SecretsOf(m, subs) && FieldsOf(m, subs) && m.account == blank.account
  {
    hide Fold, SecretsOf, FieldsOf;
    if includes == [] {
      NothingMeans(blank, subs);
    } else {
      var n := |includes| - 1;
      IncludesMean(config, includes[..n], visiting, blank, subs[..n]);
      var acc := FoldIncludes(config, includes[..n], visiting, blank).value;
      SecretsNext(acc, subs[..n], subs[n]);
      FieldsNext(acc, subs[..n], subs[n]);
      assert subs == subs[..n] + [subs[n]];
    }
  }

  lemma NothingMeans(blank: Resolved, subs: seq<Resolved>)
    requires subs == [] && blank.secrets == map[] && blank.reason == "" && blank.ttl == 0 && blank.binding.None?
    ensures SecretsOf(blank, subs) && FieldsOf(blank, subs)
  {
  }

  // ---- a meaning does not depend on what is being visited ----

  lemma {:induction false} TrailLonger(config: Config, name: string, trail: seq<nat>, k: nat)
    requires Target(config, name, trail).Some? && k < IncludeCount(config, Target(config, name, trail).value)
    ensures Target(config, name, trail + [k]) == Some(Included(config, Target(config, name, trail).value, k))
    decreases |trail|
  {
    if trail == [] {
      assert trail + [k] == [k] + [] && ([k] + [])[1..] == [];
    } else {
      TrailLonger(config, Included(config, name, trail[0]), trail[1..], k);
      assert (trail + [k])[1..] == trail[1..] + [k];
    }
  }

  lemma ReachedClosed(config: Config, name: string, visiting: set<string>)
    requires Fold(config, name, visiting).Some?
    ensures Closed(config, Reached(config, name)) && name in Reached(config, name) && Reached(config, name) !! visiting
  {
    hide Fold;
    FoldVisits(config, name, visiting);
    assert Target(config, name, []) == Some(name);
    forall n | n in Reached(config, name)
      ensures n !in visiting && IncludesIn(config.profiles[n].includes, Reached(config, name))
    {
      var trail: seq<nat> :| Target(config, name, trail) == Some(n);
      MeaningIsAcyclic(config, name, visiting, trail);
      forall i | i in config.profiles[n].includes
        ensures TrimSpace(i) in Reached(config, name)
      {
        var k :| 0 <= k < |config.profiles[n].includes| && config.profiles[n].includes[k] == i;
        TrailLonger(config, name, trail, k);
        MeaningIsAcyclic(config, name, visiting, trail + [k]);
      }
    }
  }

  lemma MeaningIsItsOwn(config: Config, name: string, visiting: set<string>)
    requires Fold(config, name, visiting).Some?
    ensures Fold(config, name, {}) == Fold(config, name, visiting)
  {
    ReachedClosed(config, name, visiting);
    FoldAvoids(config, name, Reached(config, name), visiting, {});
    assert {} + visiting == visiting;
  }

  // ---- the meaning of a profile ----

  /** `subs` are what the includes of the profile mean, in their order. */
  ghost predicate IncludeMeanings(config: Config, name: string, subs: seq<Resolved>) {
    && |subs| == IncludeCount(config, name)
    && forall k :: 0 <= k < |subs| ==> Fold(config, Included(config, name, k), {}) == Some(subs[k])
  }

  /** The trimmed text of the first, or if that is blank of the second. */
  ghost predicate FirstGiven(text: string, first: string, second: string) {
    text == if TrimSpace(first) != "" then TrimSpace(first) else TrimSpace(second)
  }

  /** A secret that a profile defines itself. */
  ghost predicate IsOwnSecret(config: Config, account: string, spec: SecretYAML, s: ResolvedSecret) {
    && s.ref == spec.ref && FirstGiven(s.account, spec.account, account)
    && ResolveSecretSource(spec, config.sources).Some?
    && ResolveSecretSource(spec, config.sources).value == (s.source, s.bitwarden)
  }

  /** An alias of a profile has the profile's own secret, or that of the last include that defines it. */
  ghost predicate SecretMeans(config: Config, raw: ProfileYAML, m: Resolved, subs: seq<Resolved>, alias: string) {
    && (alias in m.secrets <==> alias in raw.secrets || exists k :: 0 <= k < |subs| && alias in subs[k].secrets)
    && (alias in raw.secrets ==>
         alias in m.secrets && IsOwnSecret(config, m.account, raw.secrets[alias], m.secrets[alias]))
    && (alias !in raw.secrets ==>
         forall k: nat :: LastDefines(subs, k, alias) ==>
           alias in m.secrets && m.secrets[alias] == subs[k].secrets[alias])
  }

  /** Reason, ttl and binding are the profile's own, or those of the last include that gives one, or none. */
  ghost predicate FieldsMean(config: Config, raw: ProfileYAML, m: Resolved, subs: seq<Resolved>) {
    && FirstGiven(m.account, raw.account, config.account)
    && (raw.reason != "" ==> m.reason == raw.reason)
    && (raw.reason == "" ==>
         && (forall k: nat :: LastReason(subs, k) ==> m.reason == subs[k].reason)
         && ((forall k :: 0 <= k < |subs| ==> subs[k].reason == "") ==> m.reason == ""))
    && (raw.ttl.Duration? && raw.ttl.ns != 0 ==> m.ttl == raw.ttl.ns)
    && (raw.ttl == NoTTL || raw.ttl == Duration(0) ==>
         && (forall k: nat :: LastTTL(subs, k) ==> m.ttl == subs[k].ttl)
         && ((forall k :: 0 <= k < |subs| ==> subs[k].ttl == 0) ==> m.ttl == 0))
    && (raw.binding.Some? ==> m.binding == raw.binding)
    && (raw.binding.None? ==>
         && (forall k: nat :: LastBinding(subs, k) ==> m.binding == subs[k].binding)
         && ((forall k :: 0 <= k < |subs| ==> subs[k].binding.None?) ==> m.binding == None))
  }

  /** When a profile has a meaning at all, given that its includes do. */
  ghost predicate Defined(config: Config, raw: ProfileYAML, subs: seq<Resolved>) {
    && raw.ttl != BadTTL
    && (forall a :: a in raw.secrets ==>
         raw.secrets[a].ref != "" && ResolveSecretSource(raw.secrets[a], config.sources).Some?)
    && (raw.secrets != map[] || exists k :: 0 <= k < |subs| && subs[k].secrets != map[])
  }

  lemma OwnMeans(config: Config, raw: ProfileYAML, acc: Resolved, subs: seq<Resolved>)
    requires SecretsOf(acc, subs) && FieldsOf(acc, subs) && acc.account == EffectiveAccount(config.account, raw.account)
    ensures Own(config, raw, acc).Ok? ==>
      var m := Own(config, raw, acc).value;
      FieldsMean(config, raw, m, subs) && forall alias :: SecretMeans(config, raw, m, subs, alias)
  {
    hide ResolveSecretSource, TrimSpace;
    if Own(config, raw, acc).Ok? {
      var m := Own(config, raw, acc).value;
      forall alias
        ensures SecretMeans(config, raw, m, subs, alias)
      {
        OneSecretMeans(config, raw, acc, subs, alias);
      }
    }
  }

  lemma OneSecretMeans(config: Config, raw: ProfileYAML, acc: Resolved, subs: seq<Resolved>, alias: string)
    requires SecretsOf(acc, subs) && Own(config, raw, acc).Ok?
    ensures SecretMeans(config, raw, Own(config, raw, acc).value, subs, alias)
  {
    hide ResolveSecretSource, TrimSpace;
    var m := Own(config, raw, acc).value;
    assert m.secrets == acc.secrets + OwnSecrets(raw.secrets, acc.account, config.sources);
    assert alias in m.secrets <==> alias in raw.secrets || alias in acc.secrets;
    if alias in raw.secrets {
      assert m.secrets[alias] == ResolveSecret(raw.secrets[alias], acc.account, config.sources);
      assert SecretOk(raw.secrets[alias], config.sources);
      assert IsOwnSecret(config, m.account, raw.secrets[alias], m.secrets[alias]);
    }
  }

  lemma OwnDefined(config: Config, raw: ProfileYAML, acc: Resolved, subs: seq<Resolved>)
    requires SecretsOf(acc, subs)
    ensures Own(config, raw, acc).Ok? <==> Defined(config, raw, subs)
  {
    hide ResolveSecretSource, TrimSpace, ResolveSecret;
    assert acc.secrets != map[] <==> exists k :: 0 <= k < |subs| && subs[k].secrets != map[] by {
      if acc.secrets != map[] {
        var a :| a in acc.secrets;
      }
      if k :| 0 <= k < |subs| && subs[k].secrets != map[] {
        var a :| a in subs[k].secrets;
        assert a in acc.secrets;
      }
    }
    if Merged(acc.secrets, raw.secrets, acc.account, config.sources).Some? {
      var merged := Merged(acc.secrets, raw.secrets, acc.account, config.sources).value;
      assert merged.Keys == acc.secrets.Keys + raw.secrets.Keys;
      assert merged == map[] <==> merged.Keys == {};
      assert acc.secrets == map[] <==> acc.secrets.Keys == {};
      assert raw.secrets == map[] <==> raw.secrets.Keys == {};
    }
  }

  /**
   What a profile with a meaning means, in terms of what its includes mean on their own: which of its
   aliases has which secret, its account, reason, ttl and binding.
   */
  lemma ProfileMeans(config: Config, name: string, subs: seq<Resolved>)
    requires Fold(config, name, {}).Some? && IncludeMeanings(config, name, subs)
    ensures var m, raw := Fold(config, name, {}).value, config.profiles[name];
      && FieldsMean(config, raw, m, subs) && (forall alias :: SecretMeans(config, raw, m, subs, alias))
      && Defined(config, raw, subs)
  {
    hide Fold, Own, FieldsMean, SecretMeans, SecretsOf, FieldsOf, Defined;
    FoldVisits(config, name, {});
    var raw := config.profiles[name];
    forall k | 0 <= k < |subs|
      ensures Fold(config, Included(config, name, k), {name}) == Some(subs[k])
    {
      IncludedFolds(config, name, {}, k);
      assert {} + {name} == {name};
      MeaningIsItsOwn(config, Included(config, name, k), {name});
    }
    FoldSplits(config, name);
    IncludesMean(config, raw.includes, {name}, Blank(config, raw), subs);
    var acc := FoldIncludes(config, raw.includes, {name}, Blank(config, raw)).value;
    OwnMeans(config, raw, acc, subs);
    OwnDefined(config, raw, acc, subs);
  }

  lemma FoldSplits(config: Config, name: string)
    requires name in config.profiles
    ensures var raw := config.profiles[name];
      Fold(config, name, {}) ==
        match FoldIncludes(config, raw.includes, {name}, Blank(config, raw))
        case None => None
        case Some(acc) => Own(config, raw, acc).ToOption()
  {
    assert {} + {name} == {name};
  }

  /**
   Which profiles have a meaning: those in the file whose includes are all named and have a meaning
   that does not lead back to the profile, and whose own fields are good.
   */
  lemma ProfileHasMeaning(config: Config, name: string)
    ensures Fold(config, name, {}).Some? <==>
      && name in config.profiles
      && (forall k: nat :: k < IncludeCount(config, name) ==>
           && Included(config, name, k) != "" && Fold(config, Included(config, name, k), {}).Some?
           && !Reaches(config, Included(config, name, k), name))
      && exists subs :: IncludeMeanings(config, name, subs) && Defined(config, config.profiles[name], subs)
  {
    hide Fold, Own, Defined, FieldsMean, SecretMeans;
    if Fold(config, name, {}).Some? {
      FoldVisits(config, name, {});
      var raw := config.profiles[name];
      forall k: nat | k < IncludeCount(config, name)
        ensures Included(config, name, k) != "" && Fold(config, Included(config, name, k), {}).Some?
        ensures !Reaches(config, Included(config, name, k), name)
      {
        IncludedFolds(config, name, {}, k);
        assert {} + {name} == {name};
        MeaningIsItsOwn(config, Included(config, name, k), {name});
        NeverBack(config, Included(config, name, k), name);
      }
      assert forall k: nat :: k < |raw.includes| ==> Included(config, name, k) == TrimSpace(raw.includes[k]);
      var subs := Meanings(config, raw.includes, {});
      ProfileMeans(config, name, subs);
      assert IncludeMeanings(config, name, subs);
    } else if name in config.profiles
      && (forall k: nat :: k < IncludeCount(config, name) ==>
           && Included(config, name, k) != "" && Fold(config, Included(config, name, k), {}).Some?
           && !Reaches(config, Included(config, name, k), name)) {
      forall subs | IncludeMeanings(config, name, subs)
        ensures !Defined(config, config.profiles[name], subs)
      {
        MeaningFromParts(config, name, subs);
      }
    }
  }

  lemma NeverBack(config: Config, sub: string, name: string)
    requires Fold(config, sub, {name}).Some?
    ensures !Reaches(config, sub, name)
  {
    hide Fold;
    ReachedClosed(config, sub, {name});
    forall trail
      ensures Target(config, sub, trail) != Some(name)
    {
      if Target(config, sub, trail).Some? { MeaningIsAcyclic(config, sub, {name}, trail); }
    }
  }

  lemma MeaningFromParts(config: Config, name: string, subs: seq<Resolved>)
    requires name in config.profiles && IncludeMeanings(config, name, subs)
    requires forall k: nat :: k < IncludeCount(config, name) ==>
      Included(config, name, k) != "" && !Reaches(config, Included(config, name, k), name)
    ensures Fold(config, name, {}).Some? <==> Defined(config, config.profiles[name], subs)
  {
    hide Fold, Own, Defined, SecretsOf, FieldsOf;
    var raw := config.profiles[name];
    forall k | 0 <= k < |subs|
      ensures Fold(config, Included(config, name, k), {name}) == Some(subs[k])
    {
      var sub := Included(config, name, k);
      ReachedClosed(config, sub, {});
      FoldAvoids(config, sub, Reached(config, sub), {name}, {});
      assert {} + {name} == {name};
    }
    FoldSplits(config, name);
    assert forall k: nat :: k < |raw.includes| ==> Included(config, name, k) == TrimSpace(raw.includes[k]);
    AllFold(config, raw.includes, {name}, Blank(config, raw), subs);
    IncludesMean(config, raw.includes, {name}, Blank(config, raw), subs);
    OwnDefined(config, raw, FoldIncludes(config, raw.includes, {name}, Blank(config, raw)).value, subs);
  }

  lemma {:induction false} AllFold(config: Config, includes: seq<string>, visiting: set<string>, blank: Resolved,
      subs: seq<Resolved>)
    requires |subs| == |includes|
    requires forall i :: 0 <= i < |includes| ==>
      TrimSpace(includes[i]) != "" && Fold(config, TrimSpace(includes[i]), visiting) == Some(subs[i])
    ensures FoldIncludes(config, includes, visiting, blank).Some?
  {
    hide Fold;
    if includes != [] {
      var n := |includes| - 1;
      AllFold(config, includes[..n], visiting, blank, subs[..n]);
    }
  }

  // ---- the source of a secret ----

  /** The sources that the reference and the secret name, blank ones left out. */
  ghost function NamedSources(spec: SecretYAML, ref: SecretRef): set<string> {
    {ref.source, TrimSpace(spec.source)} - {""}
  }

  /** A source as the file configures it, or, in a file without any, under its own name. */
  ghost predicate ConfiguredAs(sources: map<string, BitwardenSource>, alias: string, b: BitwardenSource) {
    if sources == map[] then b == BitwardenSource(alias, alias, "", "") else alias in sources && b == sources[alias]
  }

  lemma TrimmedAlias(n: string)
    requires TrimSpace(n) == n
    ensures NormalizeSourceAlias(n).Ok? <==> ValidSourceAlias(n)
    ensures NormalizeSourceAlias(n).Ok? ==> NormalizeSourceAlias(n).value == n
  {
  }

  lemma NamesTrimmed(spec: SecretYAML)
    ensures var source := TrimSpace(spec.source); TrimSpace(source) == source
    ensures ParseRef(spec.ref).Ok? ==>
      var source := ParseRef(spec.ref).value.source; source != "" ==> TrimSpace(source) == source
  {
    hide TrimSpace;
    TrimFixed(spec.source);
    TrimFixed(TrimSpace(spec.source));
    var parsed := ParseRef(spec.ref);
    if parsed.Ok? && parsed.value.source != "" {
      assert ValidSourceAlias(parsed.value.source);
      NormalizedAlias(parsed.value.source);
    }
  }

  lemma NamedSourceRule(spec: SecretYAML, sources: map<string, BitwardenSource>, ref: SecretRef, n: string)
    requires SourcesNormal(sources) && ParseRef(spec.ref) == Ok(ref) && ref.provider == PROVIDER_BITWARDEN
    requires NamedSources(spec, ref) == {n}
    ensures var r := ResolveSecretSource(spec, sources);
      && (r.Some? <==> ValidSourceAlias(n) && (sources == map[] || n in sources))
      && (r.Some? ==> r.value.0 == n && ConfiguredAs(sources, n, r.value.1))
  {
    hide ParseRef, TrimSpace, ValidSourceAlias, NormalizeSourceAlias, SingleSource;
    NamesTrimmed(spec);
    assert n in NamedSources(spec, ref);
    assert ref.source in {"", n} && TrimSpace(spec.source) in {"", n} by {
      assert ref.source == "" || ref.source in NamedSources(spec, ref);
      assert TrimSpace(spec.source) == "" || TrimSpace(spec.source) in NamedSources(spec, ref);
    }
    TrimmedAlias(n);
    NoneConfigured(sources);
  }

  lemma NoneConfigured(sources: map<string, BitwardenSource>)
    ensures |sources| == 0 <==> sources == map[]
  {
    assert |sources| == |sources.Keys|;
  }

  lemma TrimEmpty(alias: string)
    requires ValidSourceAlias(alias)
    ensures alias != ""
  {
  }

  lemma UnnamedSourceRule(spec: SecretYAML, sources: map<string, BitwardenSource>, ref: SecretRef)
    requires SourcesNormal(sources) && ParseRef(spec.ref) == Ok(ref) && ref.provider == PROVIDER_BITWARDEN
    requires NamedSources(spec, ref) == {}
    ensures var r := ResolveSecretSource(spec, sources);
      && (r.Some? <==> |sources| <= 1)
      && (sources == map[] ==> r == Some(("", NO_BITWARDEN)))
      && (forall n :: sources.Keys == {n} ==> r == Some((n, sources[n])))
  {
    hide ParseRef, TrimSpace, ValidSourceAlias, NormalizeSourceAlias;
    assert ref.source == "" by { assert ref.source == "" || ref.source in NamedSources(spec, ref); }
    assert TrimSpace(spec.source) == "" by {
      assert TrimSpace(spec.source) == "" || TrimSpace(spec.source) in NamedSources(spec, ref);
    }
    NoneConfigured(sources);
    assert |sources| == |sources.Keys|;
    if |sources| == 1 {
      OnlyKey(sources);
      var k :| k in sources && sources.Keys == {k};
      assert sources[k].alias == k && ValidSourceAlias(k);
      NormalizedAlias(k);
      var single := SingleSource(sources);
      assert single == Some(k);
      assert k != "" by { TrimEmpty(k); }
      forall n | sources.Keys == {n}
        ensures n == k
      {
        assert k in sources.Keys;
      }
    }
  }

  lemma TwoNamesRule(spec: SecretYAML, sources: map<string, BitwardenSource>, ref: SecretRef)
    requires ParseRef(spec.ref) == Ok(ref) && ref.provider == PROVIDER_BITWARDEN && |NamedSources(spec, ref)| > 1
    ensures ResolveSecretSource(spec, sources) == None
  {
    hide ParseRef, TrimSpace, NormalizeSourceAlias, SingleSource;
    var named := NamedSources(spec, ref);
    if ref.source == "" || TrimSpace(spec.source) == "" || ref.source == TrimSpace(spec.source) {
      assert named <= {if ref.source != "" then ref.source else TrimSpace(spec.source)};
      AtMostOne(named, if ref.source != "" then ref.source else TrimSpace(spec.source));
    }
  }

  lemma AtMostOne(s: set<string>, x: string)
    requires s <= {x}
    ensures |s| <= 1
  {
    if s != {} { assert s == {x}; }
  }

  /**
   Only a Bitwarden reference may have a source. Its source is the one that is named, if all that name
   one name the same, or else the only one there is; and a file that configures any must configure it.
   */
  lemma SecretSourceRule(spec: SecretYAML, sources: map<string, BitwardenSource>)
    requires SourcesNormal(sources)
    ensures var r := ResolveSecretSource(spec, sources);
      match ParseRef(spec.ref)
      case Err(_) =>
        r == if HasPrefix(spec.ref, "bws://") || TrimSpace(spec.source) != "" then None else Some(("", NO_BITWARDEN))
      case Ok(ref) =>
        var named := NamedSources(spec, ref);
        if ref.provider != PROVIDER_BITWARDEN then
          r == if TrimSpace(spec.source) != "" then None else Some(("", NO_BITWARDEN))
        else
          && (|named| > 1 ==> r == None)
          && (forall n :: named == {n} ==>
               (r.Some? <==> ValidSourceAlias(n) && (sources == map[] || n in sources))
               && (r.Some? ==> r.value.0 == n && ConfiguredAs(sources, n, r.value.1)))
          && (named == {} ==>
               && (r.Some? <==> |sources| <= 1)
               && (sources == map[] ==> r == Some(("", NO_BITWARDEN)))
               && (forall n :: sources.Keys == {n} ==> r == Some((n, sources[n]))))
  {
    hide ParseRef, TrimSpace, ValidSourceAlias, SourcesNormal;
    var parsed := ParseRef(spec.ref);
    if parsed.Ok? && parsed.value.provider == PROVIDER_BITWARDEN {
      hide ResolveSecretSource, NamedSources;
      var named := NamedSources(spec, parsed.value);
      if |named| > 1 {
        TwoNamesRule(spec, sources, parsed.value);
      } else if n :| named == {n} {
        NamedSourceRule(spec, sources, parsed.value, n);
      } else if named == {} {
        UnnamedSourceRule(spec, sources, parsed.value);
      }
    }
  }
}
