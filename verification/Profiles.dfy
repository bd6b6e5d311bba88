/**
 Profile includes. `Fold` is what a profile means: its includes from left to right, then its own
 fields, with no memory of earlier resolves and no limits. The resolver memoises, counts and stops.
 */
module Profiles {
  import opened Common
  import opened Text
  import opened SecretRefs
  import opened Requests
  import opened ProfileSources

  const MAX_INCLUDE_DEPTH := 32
  const MAX_INCLUDE_COUNT := 128

  datatype SecretYAML = SecretYAML(ref: string, account: string, source: string)

  /** A ttl field as the duration parser reads it. */
  datatype TTLText = NoTTL | Duration(ns: int) | BadTTL

  datatype ProfileYAML = ProfileYAML(
    account: string, includes: seq<string>, reason: string, ttl: TTLText,
    binding: Option<string>, secrets: map<string, SecretYAML>)

  /** A parsed file, with its Bitwarden sources normalised by ProfileSources.NormalizeSources. */
  datatype Config = Config(
    account: string, defaultProfile: string, profiles: map<string, ProfileYAML>, sources: map<string, BitwardenSource>)

  datatype ResolvedSecret = ResolvedSecret(account: string, ref: string, source: string, bitwarden: BitwardenSource)

  datatype Resolved = Resolved(
    account: string, reason: string, secrets: map<string, ResolvedSecret>, ttl: int, binding: Option<string>)

  datatype ProfileError =
    | DepthExceeded | CountExceeded
    | ProfileNotFound | IncludeCycle | EmptyInclude | InvalidTTL | InvalidSecret | NoSecrets
  {
    predicate Limit() { DepthExceeded? || CountExceeded? }
  }

  // ---- the parts of one profile ----

  function EffectiveAccount(defaultAccount: string, overrideAccount: string): string {
    if TrimSpace(overrideAccount) != "" then TrimSpace(overrideAccount) else TrimSpace(defaultAccount)
  }

  function SingleSource(sources: map<string, BitwardenSource>): (alias: Option<string>)
    ensures alias.Some? ==> exists k :: k in sources && sources.Keys == {k} && sources[k].alias == alias.value
  {
    if |sources| != 1 then None
    else
      OnlyKey(sources);
      var k :| k in sources;
      Some(sources[k].alias)
  }

  lemma OnlyKey(sources: map<string, BitwardenSource>)
    requires |sources| == 1
    ensures exists k :: k in sources && sources.Keys == {k}
    ensures forall k, l :: k in sources && l in sources ==> k == l
  {
    var k :| k in sources;
    assert |sources.Keys - {k}| == 0;
    assert sources.Keys == {k};
  }

  /** The source of a secret; none is not an error for a reference that needs none. */
  function ResolveSecretSource(spec: SecretYAML, sources: map<string, BitwardenSource>): Option<(string,
      BitwardenSource)> {
    var source := TrimSpace(spec.source);
    var parsed := ParseRef(spec.ref);
    if parsed.Err? then
      if HasPrefix(spec.ref, BITWARDEN_SCHEME) || source != "" then None else Some(("", NO_BITWARDEN))
    else if parsed.value.provider != PROVIDER_BITWARDEN then
      if source != "" then None else Some(("", NO_BITWARDEN))
    else if parsed.value.source != "" && source != "" && source != parsed.value.source then None
    else
      var named := if parsed.value.source != "" then parsed.value.source else source;
      if named == "" && SingleSource(sources).None? && |sources| > 1 then None
      else
        var chosen := if named == "" && SingleSource(sources).Some? then SingleSource(sources).value else named;
        if chosen == "" then Some(("", NO_BITWARDEN))
        else match NormalizeSourceAlias(chosen)
          case Err(_) => None
          case Ok(alias) =>
            if alias in sources then Some((alias, sources[alias]))
            else if |sources| > 0 then None
            else Some((alias, BitwardenSource(alias, alias, "", "")))
  }

  /** Nothing names a source for this secret, and the file configures none. */
  predicate Unsourced(spec: SecretYAML, ref: SecretRef, sources: map<string, BitwardenSource>) {
    ref.source == "" && TrimSpace(spec.source) == "" && sources == map[]
  }

  /**
   The request parser accepts the source a profile gives to a Bitwarden secret, as it is, exactly
   when there is one: when the reference or the secret names one, or the file configures one.
   */
  lemma ProfileSourceAccepted(spec: SecretYAML, sources: map<string, BitwardenSource>)
    requires SourcesNormal(sources) && ResolveSecretSource(spec, sources).Some?
    requires ParseRef(spec.ref).Ok? && ParseRef(spec.ref).value.provider == PROVIDER_BITWARDEN
    ensures var ref := ParseRef(spec.ref).value;
      var (source, bitwarden) := ResolveSecretSource(spec, sources).value;
      && (NormalizeBitwarden(ref, source, bitwarden).Ok? <==> !Unsourced(spec, ref, sources))
      && (NormalizeBitwarden(ref, source, bitwarden).Ok? ==>
           bitwarden.alias == source && NormalizeBitwarden(ref, source, bitwarden) == Ok(bitwarden))
  {
    var ref := ParseRef(spec.ref).value;
    var (source, bitwarden) := ResolveSecretSource(spec, sources).value;
    assert |sources| == 0 <==> sources == map[];
    assert ref.source != "" ==> ValidSourceAlias(ref.source);
    if source != "" {
      NormalizedAlias(source);
      NormalizedAlias(bitwarden.tokenAlias);
      if ref.source != "" { NormalizedAlias(ref.source); }
      TrimFixed("");
    }
  }

  predicate SecretOk(spec: SecretYAML, sources: map<string, BitwardenSource>) {
    spec.ref != "" && ResolveSecretSource(spec, sources).Some?
  }

  function ResolveSecret(spec: SecretYAML, account: string, sources: map<string, BitwardenSource>): ResolvedSecret
    requires SecretOk(spec, sources)
  {
    var (source, bitwarden) := ResolveSecretSource(spec, sources).value;
    ResolvedSecret(EffectiveAccount(account, spec.account), spec.ref, source, bitwarden)
  }

  function OwnSecrets(raw: map<string, SecretYAML>, account: string, sources: map<string,
      BitwardenSource>): (own: map<string, ResolvedSecret>)
    requires forall alias :: alias in raw ==> SecretOk(raw[alias], sources)
    ensures own.Keys == raw.Keys
    ensures forall alias :: alias in raw ==> own[alias] == ResolveSecret(raw[alias], account, sources)
  {
    map alias | alias in raw :: ResolveSecret(raw[alias], account, sources)
  }

  function Merged(secrets: map<string, ResolvedSecret>, raw: map<string, SecretYAML>, account: string,
      sources: map<string, BitwardenSource>)
    : Option<map<string, ResolvedSecret>>
  {
    if forall alias :: alias in raw ==> SecretOk(raw[alias], sources)
    then Some(secrets + OwnSecrets(raw, account, sources))
    else None
  }

  function Absorb(acc: Resolved, included: Resolved): Resolved {
    Resolved(
      acc.account,
      if included.reason != "" then included.reason else acc.reason,
      acc.secrets + included.secrets,
      if included.ttl != 0 then included.ttl else acc.ttl,
      if included.binding.Some? then included.binding else acc.binding)
  }

  /** A profile's own fields, on top of what its includes gave. */
  function Own(config: Config, raw: ProfileYAML, acc: Resolved): Result<Resolved, ProfileError> {
    if raw.ttl.BadTTL? then Err(InvalidTTL)
    else
      var ttl := if raw.ttl.Duration? then raw.ttl.ns else 0;
      match Merged(acc.secrets, raw.secrets, acc.account, config.sources)
      case None => Err(InvalidSecret)
      case Some(secrets) =>
        if secrets == map[] then Err(NoSecrets)
        else
          Ok(Resolved(
               acc.account,
               if raw.reason != "" then raw.reason else acc.reason,
               secrets,
               if ttl != 0 then ttl else acc.ttl,
               if raw.binding.Some? then raw.binding else acc.binding))
  }

  /** All aliases but those in `todo` have been merged. */
  ghost predicate PartMerged(secrets: map<string, ResolvedSecret>, raw: map<string, SecretYAML>, account: string,
                             sources: map<string, BitwardenSource>, todo: set<string>,
                             merged: map<string, ResolvedSecret>)
  {
    && todo <= raw.Keys && merged.Keys == secrets.Keys + (raw.Keys - todo)
    && (forall a :: a in raw && a !in todo ==>
      SecretOk(raw[a], sources) && merged[a] == ResolveSecret(raw[a], account, sources))
    && (forall a :: a in secrets && (a !in raw || a in todo) ==> merged[a] == secrets[a])
  }

  lemma OneMerged(secrets: map<string, ResolvedSecret>, raw: map<string, SecretYAML>, account: string,
                  sources: map<string, BitwardenSource>, todo: set<string>, merged: map<string, ResolvedSecret>,
                  alias: string)
    requires PartMerged(secrets, raw, account, sources, todo, merged) && alias in todo
    ensures !SecretOk(raw[alias], sources) ==> Merged(secrets, raw, account, sources) == None
    ensures SecretOk(raw[alias], sources) ==>
      PartMerged(secrets, raw, account, sources, todo - {alias},
                 merged[alias := ResolveSecret(raw[alias], account, sources)])
  {
    hide SecretOk, ResolveSecret, OwnSecrets;
  }

  lemma AllMerged(secrets: map<string, ResolvedSecret>, raw: map<string, SecretYAML>, account: string,
                  sources: map<string, BitwardenSource>, merged: map<string, ResolvedSecret>)
    requires PartMerged(secrets, raw, account, sources, {}, merged)
    ensures Merged(secrets, raw, account, sources) == Some(merged)
  {
    hide SecretOk, ResolveSecret, OwnSecrets;
    assert merged == secrets + OwnSecrets(raw, account, sources);
  }

  /** mergeSecrets: any alias may be met first, and the first bad one ends it. */
  method MergeSecrets(secrets: map<string, ResolvedSecret>, raw: map<string, SecretYAML>, account: string,
      sources: map<string, BitwardenSource>)
    returns (r: Option<map<string, ResolvedSecret>>)
    ensures r == Merged(secrets, raw, account, sources)
  {
    hide SecretOk, ResolveSecret, Merged;
    var merged := secrets;
    var todo := raw.Keys;
    while todo != {}
      invariant PartMerged(secrets, raw, account, sources, todo, merged)
      decreases |todo|
    {
      var alias :| alias in todo;
      OneMerged(secrets, raw, account, sources, todo, merged, alias);
      if !SecretOk(raw[alias], sources) { return None; }
      merged := merged[alias := ResolveSecret(raw[alias], account, sources)];
      todo := todo - {alias};
    }
    AllMerged(secrets, raw, account, sources, merged);
    return Some(merged);
  }

  method ApplyOwn(config: Config, raw: ProfileYAML, acc: Resolved) returns (r: Result<Resolved, ProfileError>)
    ensures r == Own(config, raw, acc)
  {
    hide Merged;
    if raw.ttl.BadTTL? { return Err(InvalidTTL); }
    var ttl := if raw.ttl.Duration? then raw.ttl.ns else 0;
    var result := acc;
    if raw.reason != "" { result := result.(reason := raw.reason); }
    if ttl != 0 { result := result.(ttl := ttl); }
    if raw.binding.Some? { result := result.(binding := raw.binding); }
    var merged := MergeSecrets(acc.secrets, raw.secrets, acc.account, config.sources);
    if merged.None? { return Err(InvalidSecret); }
    if merged.value == map[] { return Err(NoSecrets); }
    return Ok(result.(secrets := merged.value));
  }

  function Blank(config: Config, raw: ProfileYAML): Resolved {
    Resolved(EffectiveAccount(config.account, raw.account), "", map[], 0, None)
  }

  // ---- the meaning of a profile ----

  /** `visiting` are the profiles whose includes are being looked at. */
  function Fold(config: Config, name: string, visiting: set<string>): Option<Resolved>
    decreases |config.profiles.Keys - visiting|, 1, 0
  {
    if name !in config.profiles || name in visiting then None
    else
      var raw := config.profiles[name];
      VisitShrinks(config, name, visiting);
      match FoldIncludes(config, raw.includes, visiting + {name}, Blank(config, raw))
      case None => None
      case Some(acc) => Own(config, raw, acc).ToOption()
  }

  function FoldIncludes(config: Config, includes: seq<string>, visiting: set<string>, blank: Resolved): Option<Resolved>
    decreases |config.profiles.Keys - visiting|, 2, |includes|
  {
    if includes == [] then Some(blank)
    else
      var n := |includes| - 1;
      match FoldIncludes(config, includes[..n], visiting, blank)
      case None => None
      case Some(acc) =>
        var wanted := TrimSpace(includes[n]);
        if wanted == "" then None
        else match Fold(config, wanted, visiting)
          case None => None
          case Some(included) => Some(Absorb(acc, included))
  }

  lemma VisitShrinks(config: Config, name: string, visiting: set<string>)
    requires name in config.profiles && name !in visiting
    ensures |config.profiles.Keys - (visiting + {name})| < |config.profiles.Keys - visiting|
  {
    assert config.profiles.Keys - (visiting + {name}) == (config.profiles.Keys - visiting) - {name};
  }

  lemma {:induction false} PrefixFails(config: Config, includes: seq<string>, k: nat, visiting: set<string>,
      blank: Resolved)
    requires k <= |includes| && FoldIncludes(config, includes[..k], visiting, blank).None?
    ensures FoldIncludes(config, includes, visiting, blank).None?
  {
    hide Fold, Absorb;
    if k < |includes| {
      var n := |includes| - 1;
      assert includes[..n][..k] == includes[..k];
      PrefixFails(config, includes[..n], k, visiting, blank);
    } else {
      assert includes[..k] == includes;
    }
  }

  // ---- includes that stay within a closed set ----

  ghost predicate IncludesIn(includes: seq<string>, names: set<string>) {
    forall i :: i in includes ==> TrimSpace(i) in names
  }

  ghost predicate Closed(config: Config, names: set<string>) {
    forall n :: n in names ==> n in config.profiles && IncludesIn(config.profiles[n].includes, names)
  }

  /** A profile whose includes never lead to `avoided` means the same whether those are being visited or not. */
  lemma {:induction false} FoldAvoids(config: Config, name: string, names: set<string>, avoided: set<string>,
      visiting: set<string>)
    requires Closed(config, names) && name in names && names !! avoided
    ensures Fold(config, name, visiting + avoided) == Fold(config, name, visiting)
    decreases |config.profiles.Keys - visiting|, 1, 0
  {
    if name !in visiting {
      VisitShrinks(config, name, visiting);
      var raw := config.profiles[name];
      FoldIncludesAvoids(config, raw.includes, names, avoided, visiting + {name}, Blank(config, raw));
      assert visiting + avoided + {name} == visiting + {name} + avoided;
    }
  }

  lemma {:induction false} FoldIncludesAvoids(
      config: Config, includes: seq<string>, names: set<string>, avoided: set<string>, visiting: set<string>,
      blank: Resolved)
    requires Closed(config, names) && IncludesIn(includes, names) && names !! avoided
    ensures FoldIncludes(config, includes, visiting + avoided, blank) == FoldIncludes(config, includes, visiting, blank)
    decreases |config.profiles.Keys - visiting|, 2, |includes|
  {
    if includes != [] {
      var n := |includes| - 1;
      FoldIncludesAvoids(config, includes[..n], names, avoided, visiting, blank);
      FoldAvoids(config, TrimSpace(includes[n]), names, avoided, visiting);
    }
  }
}
