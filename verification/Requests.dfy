/**
 Exec requests and their secrets: the client's ParseSecrets, and the daemon's check that what it
 received is already in the client's normal form.
 */
module Requests {
  import opened Common
  import opened Text
  import opened SecretRefs

  const DEFAULT_REUSABLE_USES := 3
  const MAX_REUSABLE_USES := 20

  datatype BitwardenSource = BitwardenSource(alias: string, tokenAlias: string, apiURL: string, identityURL: string)

  const NO_BITWARDEN := BitwardenSource("", "", "", "")

  datatype SecretSpec = SecretSpec(alias: string, ref: string, account: string, source: string,
      bitwarden: BitwardenSource)

  datatype Secret = Secret(alias: string, ref: SecretRef, account: string, source: string, bitwarden: BitwardenSource)

  datatype ExecRequest = ExecRequest(
    reason: string, command: seq<string>, resolvedExecutable: string, executableIdentity: string,
    cwd: string, environmentFingerprint: string, secrets: seq<Secret>, ttl: int, expiresAt: Time,
    reusableUses: int, overrideEnv: bool, overriddenAliases: seq<string>, forceRefresh: bool, reuseOnly: bool)

  predicate Expired(req: ExecRequest, at: Time) {
    !(at < req.expiresAt)
  }

  function ReusableUsesOrDefault(uses: int): int {
    if uses == 0 then DEFAULT_REUSABLE_USES else uses
  }

  predicate ValidAlias(alias: string) {
    && alias != ""
    && !IsDigit(alias[0])
    && forall c :: c in alias ==> IsUpper(c) || IsDigit(c) || c == '_'
  }

  function NormalizeBitwarden(ref: SecretRef, source: string,
      metadata: BitwardenSource): Result<BitwardenSource, RefError> {
    if ref.source != "" && source != "" && source != ref.source then Err(InvalidReference)
    else
      var fromRef := if ref.source != "" then ref.source else source;
      if metadata.alias == "" then NormalizeToken(fromRef, metadata)
      else
        match NormalizeSourceAlias(metadata.alias)
        case Err(e) => Err(e)
        case Ok(alias) =>
          if fromRef != "" && alias != fromRef then Err(InvalidReference) else NormalizeToken(alias, metadata)
  }

  function NormalizeToken(source: string, metadata: BitwardenSource): Result<BitwardenSource, RefError> {
    if source == "" then Err(InvalidReference)
    else
      match NormalizeSourceAlias(source)
      case Err(e) => Err(e)
      case Ok(alias) =>
        var trimmed := TrimSpace(metadata.tokenAlias);
        match NormalizeSourceAlias(if trimmed == "" then alias else trimmed)
        case Err(e) => Err(e)
        case Ok(tokenAlias) =>
          if TrimSpace(metadata.apiURL) != "" || TrimSpace(metadata.identityURL) != "" then Err(InvalidReference)
          else Ok(BitwardenSource(alias, tokenAlias, "", ""))
  }

  function ParseSecret(spec: SecretSpec): Result<Secret, RefError> {
    match ParseRef(spec.ref)
    case Err(e) => Err(e)
    case Ok(ref) =>
      var account := TrimSpace(spec.account);
      var source := TrimSpace(spec.source);
      if ref.provider == PROVIDER_ONE_PASSWORD then
        if account == "" || source != "" || spec.bitwarden != NO_BITWARDEN then Err(InvalidReference)
        else Ok(Secret(spec.alias, ref, account, source, spec.bitwarden))
      else if ref.provider == PROVIDER_BITWARDEN then
        match NormalizeBitwarden(ref, source, spec.bitwarden)
        case Err(e) => Err(e)
        case Ok(normalized) =>
          if account != "" then Err(InvalidReference)
          else Ok(Secret(spec.alias, ref, account, normalized.alias, normalized))
      else Err(InvalidReference)
  }

  /** A 1Password secret needs an account, and nothing that only Bitwarden has. */
  lemma OnePasswordSecret(spec: SecretSpec)
    requires ParseRef(spec.ref).Ok? && ParseRef(spec.ref).value.provider == PROVIDER_ONE_PASSWORD
    ensures var r := ParseSecret(spec);
      && (r.Ok? <==> TrimSpace(spec.account) != "" && TrimSpace(spec.source) == "" && spec.bitwarden == NO_BITWARDEN)
      && (r.Ok? ==>
        r.value == Secret(spec.alias, ParseRef(spec.ref).value, TrimSpace(spec.account), "", NO_BITWARDEN))
  {
    hide TrimSpace, ParseRef;
  }

  /** The sources a Bitwarden secret names: in its reference, beside it, and in its metadata. */
  function NamedSources(spec: SecretSpec, ref: SecretRef): set<string> {
    {ref.source, TrimSpace(spec.source), TrimSpace(spec.bitwarden.alias)} - {""}
  }

  /**
   A Bitwarden secret needs one source, named in any of three places but nowhere otherwise; a token alias,
   which is the source unless given; no account and no addresses of its own.
   */
  lemma BitwardenSecret(spec: SecretSpec)
    requires ParseRef(spec.ref).Ok? && ParseRef(spec.ref).value.provider == PROVIDER_BITWARDEN
    ensures var r, ref, given := ParseSecret(spec), ParseRef(spec.ref).value, TrimSpace(spec.bitwarden.tokenAlias);
      && (r.Ok? <==>
        && TrimSpace(spec.account) == "" && (spec.bitwarden.alias == "" || TrimSpace(spec.bitwarden.alias) != "")
        && TrimSpace(spec.bitwarden.apiURL) == "" && TrimSpace(spec.bitwarden.identityURL) == ""
        && (given == "" || ValidSourceAlias(given))
        && exists source :: NamedSources(spec, ref) == {source} && ValidSourceAlias(source))
      && (r.Ok? ==>
        var source := r.value.source;
        && NamedSources(spec, ref) == {source}
        && r.value == Secret(spec.alias, ref, "", source,
                             BitwardenSource(source, if given == "" then source else given, "", "")))
  {
    hide ParseRef, TrimSpace, ValidSourceAlias;
    var r, ref, b := ParseSecret(spec), ParseRef(spec.ref).value, spec.bitwarden;
    var named := NamedSources(spec, ref);
    RefSourceValid(spec.ref);
    TrimTwice(spec.source);
    TrimTwice(b.alias);
    TrimTwice(b.tokenAlias);
    TrimTwice(ref.source);
    ValidIsTrimmed(ref.source);
    if r.Ok? {
      ValidIsTrimmed(r.value.source);
      assert r.value.source in named;
      assert named == {r.value.source};
    } else if exists source :: named == {source} && ValidSourceAlias(source) {
      var source :| named == {source} && ValidSourceAlias(source);
      ValidIsTrimmed(source);
      assert source in named && (ref.source != "" ==> ref.source in named);
      assert TrimSpace(spec.source) != "" ==> TrimSpace(spec.source) in named;
      assert TrimSpace(b.alias) != "" ==> TrimSpace(b.alias) in named;
      ValidIsTrimmed(TrimSpace(b.tokenAlias));
    }
  }

  lemma TrimTwice(s: string)
    ensures TrimSpace(TrimSpace(s)) == TrimSpace(s) && TrimSpace("") == ""
  {
    TrimFixed(s);
    TrimFixed(TrimSpace(s));
  }

  lemma ValidIsTrimmed(alias: string)
    ensures ValidSourceAlias(alias) ==> TrimSpace(alias) == alias && alias != ""
  {
    if ValidSourceAlias(alias) { NormalizedAlias(alias); }
  }

  /** The loop of ParseSecrets over the specs not yet read, with the aliases seen so far. */
  function ParseFrom(specs: seq<SecretSpec>, seen: set<string>): Result<seq<Secret>, RefError> {
    if specs == [] then Ok([])
    else if !ValidAlias(specs[0].alias) || specs[0].alias in seen then Err(InvalidAlias)
    else
      match ParseSecret(specs[0])
      case Err(e) => Err(e)
      case Ok(secret) =>
        match ParseFrom(specs[1..], seen + {specs[0].alias})
        case Err(e) => Err(e)
        case Ok(rest) => Ok([secret] + rest)
  }

  function ParsedSecrets(specs: seq<SecretSpec>): Result<seq<Secret>, RefError> {
    if specs == [] then Err(InvalidReference) else ParseFrom(specs, {})
  }

  function Prepend<T>(prefix: seq<T>, r: Result<seq<T>, RefError>): Result<seq<T>, RefError> {
    match r
    case Ok(rest) => Ok(prefix + rest)
    case Err(e) => Err(e)
  }

  lemma PrependPrepend<T>(prefix: seq<T>, x: T, r: Result<seq<T>, RefError>)
    ensures Prepend(prefix, Prepend([x], r)) == Prepend(prefix + [x], r)
  {
    if r.Ok? {
      assert prefix + ([x] + r.value) == prefix + [x] + r.value;
    }
  }

  lemma ParseFromStep(specs: seq<SecretSpec>, i: nat, seen: set<string>, prefix: seq<Secret>)
    requires i < |specs|
    ensures var spec := specs[i];
      var here := Prepend(prefix, ParseFrom(specs[i..], seen));
      if !ValidAlias(spec.alias) || spec.alias in seen then here == Err(InvalidAlias)
      else match ParseSecret(spec)
        case Err(e) => here == Err(e)
        case Ok(secret) => here == Prepend(prefix + [secret], ParseFrom(specs[i + 1..], seen + {spec.alias}))
  {
    hide ParseSecret, ValidAlias;
    assert specs[i..][1..] == specs[i + 1..];
    if ParseSecret(specs[i]).Ok? {
      PrependPrepend(prefix, ParseSecret(specs[i]).value, ParseFrom(specs[i + 1..], seen + {specs[i].alias}));
    }
  }

  method ParseSecrets(specs: seq<SecretSpec>) returns (r: Result<seq<Secret>, RefError>)
    ensures r == ParsedSecrets(specs)
  {
    hide ParseSecret, ValidAlias;
    if |specs| == 0 { return Err(InvalidReference); }
    var seen, secrets, i := {}, [], 0;
    assert specs[0..] == specs;
    ghost var whole := ParseFrom(specs, {});
    assert whole.Ok? ==> [] + whole.value == whole.value;
    while i < |specs|
      invariant 0 <= i <= |specs|
      invariant whole == Prepend(secrets, ParseFrom(specs[i..], seen))
    {
      ParseFromStep(specs, i, seen, secrets);
      if !ValidAlias(specs[i].alias) || specs[i].alias in seen { return Err(InvalidAlias); }
      var parsed := ParseSecret(specs[i]);
      if parsed.Err? { return Err(parsed.error); }
      seen, secrets, i := seen + {specs[i].alias}, secrets + [parsed.value], i + 1;
    }
    assert ParseFrom(specs[i..], seen) == Ok([]);
    assert secrets + [] == secrets;
    return Ok(secrets);
  }

  /** The spec a secret was built from, as the daemon reconstructs it. */
  function SpecOf(s: Secret): SecretSpec {
    SecretSpec(s.alias, s.ref.raw, s.account, s.source, s.bitwarden)
  }

  function SpecsOf(secrets: seq<Secret>): (specs: seq<SecretSpec>)
    ensures |specs| == |secrets|
    ensures forall i :: 0 <= i < |secrets| ==> specs[i] == SpecOf(secrets[i])
  {
    seq(|secrets|, i requires 0 <= i < |secrets| => SpecOf(secrets[i]))
  }

  method ValidateDaemonSecrets(secrets: seq<Secret>) returns (ok: bool)
    ensures ok <==> DaemonAccepts(secrets)
  {
    hide ParseSecret, ParseRef, TrimSpace;
    for i := 0 to |secrets|
      invariant forall j :: 0 <= j < i ==> Prepared(secrets[j])
    {
      if !Prepared(secrets[i]) { return false; }
    }
    var parsed := ParseSecrets(SpecsOf(secrets));
    return parsed == Ok(secrets);
  }

  predicate Prepared(s: Secret) {
    TrimSpace(s.account) == s.account && TrimSpace(s.source) == s.source && ParseRef(s.ref.raw) == Ok(s.ref)
  }

  predicate DaemonAccepts(secrets: seq<Secret>) {
    && (forall j :: 0 <= j < |secrets| ==> Prepared(secrets[j]))
    && ParsedSecrets(SpecsOf(secrets)) == Ok(secrets)
  }

  lemma NormalizeTokenIdempotent(source: string, metadata: BitwardenSource)
    ensures var r := NormalizeToken(source, metadata);
      r.Ok? ==>
        && ValidSourceAlias(r.value.alias) && r.value.alias == TrimSpace(source)
        && NormalizeToken(r.value.alias, r.value) == r
  {
    var r := NormalizeToken(source, metadata);
    if r.Ok? {
      NormalizedAlias(r.value.alias);
      NormalizedAlias(r.value.tokenAlias);
      TrimFixed("");
    }
  }

  /** One secret in normal form is its own normal form. */
  lemma ParseSecretIdempotent(spec: SecretSpec)
    ensures var r := ParseSecret(spec);
      r.Ok? ==> r.value.alias == spec.alias && Prepared(r.value) && ParseSecret(SpecOf(r.value)) == r
  {
    var r := ParseSecret(spec);
    if r.Ok? {
      var secret := r.value;
      ParseRefIdempotent(spec.ref);
      TrimFixed(spec.account);
      TrimFixed(secret.account);
      if secret.ref.provider == PROVIDER_BITWARDEN {
        var source := TrimSpace(spec.source);
        var ref := secret.ref;
        var fromRef := if ref.source != "" then ref.source else source;
        var chosen := if spec.bitwarden.alias == "" then fromRef else TrimSpace(spec.bitwarden.alias);
        NormalizeTokenIdempotent(chosen, spec.bitwarden);
        NormalizedAlias(secret.source);
        RefSourceValid(spec.ref);
        if ref.source != "" {
          NormalizedAlias(ref.source);
        }
        TrimFixed(spec.source);
        TrimFixed(chosen);
      } else {
        TrimFixed(spec.source);
        TrimFixed(secret.source);
      }
    }
  }

  lemma RefSourceValid(raw: string)
    ensures var r := ParseRef(raw); r.Ok? && r.value.source != "" ==> ValidSourceAlias(r.value.source)
  {
  }

  lemma {:induction false} ParseFromParses(specs: seq<SecretSpec>, seen: set<string>)
    requires ParseFrom(specs, seen).Ok?
    ensures var out := ParseFrom(specs, seen).value;
      |out| == |specs| && forall i :: 0 <= i < |specs| ==> ParseSecret(specs[i]) == Ok(out[i])
  {
    hide ParseSecret, ValidAlias;
    if specs != [] {
      ParseFromParses(specs[1..], seen + {specs[0].alias});
    }
  }

  lemma {:induction false} ParseFromAliases(specs: seq<SecretSpec>, seen: set<string>)
    requires ParseFrom(specs, seen).Ok?
    ensures forall i :: 0 <= i < |specs| ==> specs[i].alias !in seen
    ensures forall i, j :: 0 <= i < j < |specs| ==> specs[i].alias != specs[j].alias
  {
    hide ParseSecret, ValidAlias;
    if specs != [] {
      var rest := specs[1..];
      ParseFromAliases(rest, seen + {specs[0].alias});
      assert forall i :: 0 < i < |specs| ==> specs[i] == rest[i - 1];
    }
  }

  lemma {:induction false} ParseFromFixed(specs: seq<SecretSpec>, seen: set<string>)
    requires ParseFrom(specs, seen).Ok?
    ensures ParseFrom(SpecsOf(ParseFrom(specs, seen).value), seen) == ParseFrom(specs, seen)
  {
    hide ParseSecret, ValidAlias;
    if specs != [] {
      var rest := ParseFrom(specs[1..], seen + {specs[0].alias}).value;
      var out := ParseFrom(specs, seen).value;
      ParseFromFixed(specs[1..], seen + {specs[0].alias});
      ParseSecretIdempotent(specs[0]);
      assert SpecsOf(out)[1..] == SpecsOf(rest);
    }
  }

  /**
   The daemon accepts exactly what the client builds: a list of secrets passes the daemon's check
   if and only if it is the output of ParseSecrets on some specs.
   */
  lemma DaemonAcceptsExactlyClientForms(secrets: seq<Secret>)
    ensures DaemonAccepts(secrets) <==> exists specs :: ParsedSecrets(specs) == Ok(secrets)
  {
    forall specs | ParsedSecrets(specs) == Ok(secrets)
      ensures DaemonAccepts(secrets)
    {
      ParsedIsFixedPoint(specs);
    }
    if DaemonAccepts(secrets) {
      assert ParsedSecrets(SpecsOf(secrets)) == Ok(secrets);
    }
  }

  lemma {:induction false} ParseFromSucceeds(specs: seq<SecretSpec>, seen: set<string>)
    requires forall i :: 0 <= i < |specs| ==>
      ValidAlias(specs[i].alias) && specs[i].alias !in seen && ParseSecret(specs[i]).Ok?
    requires forall i, j :: 0 <= i < j < |specs| ==> specs[i].alias != specs[j].alias
    ensures ParseFrom(specs, seen).Ok?
  {
    hide ParseSecret, ValidAlias;
    if specs != [] { ParseFromSucceeds(specs[1..], seen + {specs[0].alias}); }
  }

  /** Secrets are parsed one by one, and fail only one by one or by a repeated alias. */
  lemma ParsesExactly(specs: seq<SecretSpec>)
    ensures ParsedSecrets(specs).Ok? <==>
      && specs != [] && (forall i, j :: 0 <= i < j < |specs| ==> specs[i].alias != specs[j].alias)
      && forall i :: 0 <= i < |specs| ==> ValidAlias(specs[i].alias) && ParseSecret(specs[i]).Ok?
    ensures ParsedSecrets(specs).Ok? ==>
      var secrets := ParsedSecrets(specs).value;
      |secrets| == |specs| && forall i :: 0 <= i < |specs| ==> ParseSecret(specs[i]) == Ok(secrets[i])
  {
    hide ParseSecret, ValidAlias;
    if ParsedSecrets(specs).Ok? {
      ParseFromParses(specs, {});
      ParseFromAliases(specs, {});
      ParseFromValid(specs, {});
    } else if specs != [] && (forall i, j :: 0 <= i < j < |specs| ==> specs[i].alias != specs[j].alias) &&
      (forall i :: 0 <= i < |specs| ==> ValidAlias(specs[i].alias) && ParseSecret(specs[i]).Ok?) {
      ParseFromSucceeds(specs, {});
    }
  }

  lemma {:induction false} ParseFromValid(specs: seq<SecretSpec>, seen: set<string>)
    requires ParseFrom(specs, seen).Ok?
    ensures forall i :: 0 <= i < |specs| ==> ValidAlias(specs[i].alias)
  {
    hide ParseSecret, ValidAlias;
    if specs != [] { ParseFromValid(specs[1..], seen + {specs[0].alias}); }
  }

  /** Whatever ParseSecrets returns is a fixed point of ParseSecrets, and the daemon accepts it. */
  lemma ParsedIsFixedPoint(specs: seq<SecretSpec>)
    ensures var r := ParsedSecrets(specs);
      r.Ok? ==> ParsedSecrets(SpecsOf(r.value)) == r && DaemonAccepts(r.value)
  {
    var r := ParsedSecrets(specs);
    if r.Ok? {
      ParseFromParses(specs, {});
      ParseFromFixed(specs, {});
      forall j | 0 <= j < |r.value|
        ensures Prepared(r.value[j])
      {
        ParseSecretIdempotent(specs[j]);
      }
    }
  }

  /** What the rest of the daemon may rely on about secrets it has accepted. */
  ghost predicate Canonical(secrets: seq<Secret>) {
    && secrets != []
    && (forall i, j :: 0 <= i < j < |secrets| ==> secrets[i].alias != secrets[j].alias)
    && (forall s :: s in secrets ==> ParseRef(s.ref.raw) == Ok(s.ref) && s.bitwarden.alias == s.source)
  }

  lemma ParsedSourceAgrees(spec: SecretSpec)
    ensures var r := ParseSecret(spec); r.Ok? ==> r.value.bitwarden.alias == r.value.source
  {
  }

  lemma AcceptedIsCanonical(secrets: seq<Secret>)
    requires DaemonAccepts(secrets)
    ensures Canonical(secrets)
  {
    var specs := SpecsOf(secrets);
    ParseFromParses(specs, {});
    ParseFromAliases(specs, {});
    forall i, j | 0 <= i < j < |secrets|
      ensures secrets[i].alias != secrets[j].alias
    {
      assert specs[i].alias != specs[j].alias;
    }
    forall i | 0 <= i < |secrets|
      ensures ParseRef(secrets[i].ref.raw) == Ok(secrets[i].ref) && secrets[i].bitwarden.alias == secrets[i].source
    {
      assert Prepared(secrets[i]) && ParseSecret(specs[i]) == Ok(secrets[i]);
      ParsedSourceAgrees(specs[i]);
    }
  }
}
