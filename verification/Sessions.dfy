/**
 sessionStore: approved sessions, found by id and by token, and the reads reserved in them. A
 reservation may outlive its record, which can expire, be destroyed or be listed away meanwhile.
 */
module Sessions {
  import opened Common
  import opened Ordering
  import opened Text
  import opened Requests

  const MAX_SESSION_READS := 100

  datatype SessionInfo = SessionInfo(
    id: string, token: string, reason: string, cwd: string, secrets: seq<Secret>, env: map<string, string>,
    aliases: seq<string>, expiresAt: Time, maxReads: int, binding: string, overrideEnv: bool)

  datatype SessionError = SessionNotFound | RequestExpired | PeerMismatch | ReadExhausted | InvalidAlias

  datatype Selection = Selection(secrets: seq<Secret>, env: map<string, string>, aliases: seq<string>)

  datatype Reservation = Reservation(info: SessionInfo, selection: Selection, remainingReads: int)

  datatype SessionSummary = SessionSummary(
    id: string, token: string, reason: string, cwd: string, aliases: seq<string>, expiresAt: Time, maxReads: int,
    remainingReads: int, overrideEnv: bool, binding: string)

  // ---- choosing aliases ----

  function TrimAll(raw: seq<string>): (r: seq<string>)
    ensures |r| == |raw| && forall i :: 0 <= i < |raw| ==> r[i] == TrimSpace(raw[i])
  {
    seq(|raw|, i requires 0 <= i < |raw| => TrimSpace(raw[i]))
  }

  function NamesOf(secrets: seq<Secret>): (r: seq<string>)
    ensures |r| == |secrets| && forall i :: 0 <= i < |secrets| ==> r[i] == secrets[i].alias
  {
    seq(|secrets|, i requires 0 <= i < |secrets| => secrets[i].alias)
  }

  /** The aliases of these secrets, sorted. */
  function AliasesOf(secrets: seq<Secret>): seq<string> {
    Sort(StringLeq, NamesOf(secrets))
  }

  /** Aliases are trimmed, must be well formed and distinct, and are sorted. */
  function NormalAliases(raw: seq<string>): Result<seq<string>, SessionError> {
    var trimmed := TrimAll(raw);
    if (forall a :: a in trimmed ==> ValidAlias(a)) && Distinct(trimmed) then Ok(Sort(StringLeq, trimmed))
    else Err(InvalidAlias)
  }

  method NormalizeAliases(raw: seq<string>) returns (r: Result<seq<string>, SessionError>)
    ensures r == NormalAliases(raw)
  {
    ghost var trimmed := TrimAll(raw);
    var seen, normalized := {}, [];
    for n := 0 to |raw|
      invariant normalized == trimmed[..n]
      invariant seen == set a | a in trimmed[..n]
      invariant (forall a :: a in trimmed[..n] ==> ValidAlias(a)) && Distinct(trimmed[..n])
    {
      var alias := TrimSpace(raw[n]);
      assert alias == trimmed[n] && trimmed[..n + 1] == trimmed[..n] + [alias];
      if !ValidAlias(alias) { return Err(InvalidAlias); }
      if alias in seen {
        assert exists i :: 0 <= i < n && trimmed[i] == trimmed[n] by {
          var i :| 0 <= i < n && trimmed[..n][i] == alias;
          assert trimmed[i] == trimmed[n];
        }
        return Err(InvalidAlias);
      }
      seen, normalized := seen + {alias}, normalized + [alias];
    }
    assert trimmed[..|raw|] == trimmed;
    return Ok(Sort(StringLeq, normalized));
  }

  /** The last secret with this alias, as a map filled in order would have it. */
  function SecretNamed(secrets: seq<Secret>, alias: string): Option<Secret> {
    if secrets == [] then None
    else if secrets[|secrets| - 1].alias == alias then Some(secrets[|secrets| - 1])
    else SecretNamed(secrets[..|secrets| - 1], alias)
  }

  predicate Provides(info: SessionInfo, alias: string) {
    SecretNamed(info.secrets, alias).Some? && alias in info.env
  }

  function ChosenAliases(info: SessionInfo, requested: seq<string>): Result<seq<string>, SessionError> {
    if requested == [] then Ok(Sort(StringLeq, info.aliases)) else NormalAliases(requested)
  }

  function SecretsFor(info: SessionInfo, aliases: seq<string>): (r: seq<Secret>)
    requires forall a :: a in aliases ==> Provides(info, a)
  {
    if aliases == [] then []
    else
      var n := |aliases| - 1;
      assert Provides(info, aliases[n]);
      SecretsFor(info, aliases[..n]) + [SecretNamed(info.secrets, aliases[n]).value]
  }

  function Select(info: SessionInfo, requested: seq<string>): (r: Result<Selection, SessionError>)
    ensures r.Err? ==> r.error == InvalidAlias
  {
    var chosen := ChosenAliases(info, requested);
    if chosen.Err? then Err(chosen.error)
    else if exists a :: a in chosen.value && !Provides(info, a) then Err(InvalidAlias)
    else
      var aliases := chosen.value;
      Ok(Selection(
           SecretsFor(info, aliases),
           map a | a in aliases && a in info.env :: info.env[a],
           aliases))
  }

  method ChooseAliases(info: SessionInfo, requested: seq<string>) returns (r: Result<seq<string>, SessionError>)
    ensures r == ChosenAliases(info, requested)
  {
    hide NormalAliases;
    SortAgain(requested);
    var normalized := NormalizeAliases(requested);
    if normalized.Err? { return normalized; }
    var aliases := normalized.value;
    if |aliases| == 0 { aliases := info.aliases; }
    return Ok(Sort(StringLeq, aliases));
  }

  method SelectSessionAliases(info: SessionInfo, requested: seq<string>) returns (r: Result<Selection, SessionError>)
    ensures r == Select(info, requested)
  {
    hide ChosenAliases, SecretNamed;
    var chosen := ChooseAliases(info, requested);
    if chosen.Err? { return Err(chosen.error); }
    var aliases := chosen.value;
    var secretByAlias := IndexSecrets(info.secrets);
    var secrets: seq<Secret>, env: map<string, string> := [], map[];
    for n := 0 to |aliases|
      invariant forall a :: a in aliases[..n] ==> Provides(info, a)
      invariant secrets == SecretsFor(info, aliases[..n])
      invariant env == map a | a in aliases[..n] && a in info.env :: info.env[a]
    {
      var alias := aliases[n];
      assert alias in aliases && (Provides(info, alias) <==> alias in secretByAlias && alias in info.env);
      if alias !in secretByAlias { return Err(InvalidAlias); }
      if alias !in info.env { return Err(InvalidAlias); }
      secrets, env := secrets + [secretByAlias[alias]], env[alias := info.env[alias]];
      assert aliases[..n + 1] == aliases[..n] + [alias] && aliases[..n + 1][..n] == aliases[..n];
    }
    assert aliases[..|aliases|] == aliases;
    return Ok(Selection(secrets, env, aliases));
  }

  method IndexSecrets(secrets: seq<Secret>) returns (secretByAlias: map<string, Secret>)
    ensures Indexes(secretByAlias, secrets)
  {
    secretByAlias := map[];
    for n := 0 to |secrets|
      invariant Indexes(secretByAlias, secrets[..n])
    {
      secretByAlias := secretByAlias[secrets[n].alias := secrets[n]];
      assert secrets[..n + 1][..n] == secrets[..n];
    }
    assert secrets[..|secrets|] == secrets;
  }

  ghost predicate Indexes(secretByAlias: map<string, Secret>, secrets: seq<Secret>) {
    forall a :: SecretNamed(secrets, a) == if a in secretByAlias then Some(secretByAlias[a]) else None
  }

  lemma SortAgain(requested: seq<string>)
    ensures requested == [] ==> NormalAliases(requested) == Ok([])
    ensures requested != [] && NormalAliases(requested).Ok? ==>
      && NormalAliases(requested).value != []
      && Sort(StringLeq, NormalAliases(requested).value) == NormalAliases(requested).value
  {
    StringOrder();
    var trimmed := TrimAll(requested);
    SortCanonical(StringLeq, Sort(StringLeq, trimmed), trimmed);
    SameElements(Sort(StringLeq, trimmed), trimmed);
    assert requested == [] ==> multiset(trimmed) == multiset{};
  }

  lemma {:induction false} NamedSecret(secrets: seq<Secret>, alias: string)
    requires SecretNamed(secrets, alias).Some?
    ensures SecretNamed(secrets, alias).value in secrets && SecretNamed(secrets, alias).value.alias == alias
  {
    if secrets[|secrets| - 1].alias != alias { NamedSecret(secrets[..|secrets| - 1], alias); }
  }

  lemma {:induction false} SecretsForAt(info: SessionInfo, aliases: seq<string>, i: nat)
    requires i < |aliases| && forall a :: a in aliases ==> Provides(info, a)
    ensures |SecretsFor(info, aliases)| == |aliases|
    ensures Provides(info, aliases[i]) && SecretsFor(info, aliases)[i] == SecretNamed(info.secrets, aliases[i]).value
  {
    var n := |aliases| - 1;
    assert aliases[n] in aliases && aliases[i] in aliases;
    if i < n {
      SecretsForAt(info, aliases[..n], i);
    } else if n > 0 {
      SecretsForAt(info, aliases[..n], n - 1);
    }
  }

  /** What a client asks for: the aliases it names, trimmed, or all those of the session. */
  ghost function Wanted(info: SessionInfo, requested: seq<string>): seq<string> {
    if requested == [] then info.aliases else TrimAll(requested)
  }

  /**
   A client gets exactly the aliases it names, or all if it names none, sorted: each with its own secret
   and the session's value. It gets nothing at all exactly if it names one badly or twice, or one is
   wanted that the session does not have.
   */
  lemma SelectsExactly(info: SessionInfo, requested: seq<string>)
    ensures Select(info, requested).Ok? <==>
      && (requested != [] ==>
        Distinct(Wanted(info, requested)) && forall a :: a in Wanted(info, requested) ==> ValidAlias(a))
      && forall a :: a in Wanted(info, requested) ==>
        a in info.env && exists s :: s in info.secrets && s.alias == a
    ensures Select(info, requested).Ok? ==>
      var s := Select(info, requested).value;
      && multiset(s.aliases) == multiset(Wanted(info, requested)) && SortedBy(StringLeq, s.aliases)
      && s.env.Keys == (set a | a in Wanted(info, requested)) && (forall a :: a in s.env ==> s.env[a] == info.env[a])
      && |s.secrets| == |s.aliases|
      && forall i :: 0 <= i < |s.aliases| ==> s.secrets[i] in info.secrets && s.secrets[i].alias == s.aliases[i]
  {
    var chosen := Sort(StringLeq, Wanted(info, requested));
    SameElements(chosen, Wanted(info, requested));
    forall a | a in chosen
      ensures Provides(info, a) <==> a in info.env && exists s :: s in info.secrets && s.alias == a
    {
      NamedExactly(info.secrets, a);
    }
    if Select(info, requested).Ok? {
      var s := Select(info, requested).value;
      forall i | 0 <= i < |s.aliases|
        ensures |s.secrets| == |s.aliases| && s.secrets[i] in info.secrets && s.secrets[i].alias == s.aliases[i]
      {
        SecretsForAt(info, s.aliases, i);
        NamedSecret(info.secrets, s.aliases[i]);
      }
      StringOrder();
      SortSorted(StringLeq, Wanted(info, requested));
    }
  }

  lemma {:induction false} NamedExactly(secrets: seq<Secret>, alias: string)
    ensures SecretNamed(secrets, alias).Some? <==> exists s :: s in secrets && s.alias == alias
  {
    if secrets != [] {
      var n := |secrets| - 1;
      NamedExactly(secrets[..n], alias);
      assert secrets == secrets[..n] + [secrets[n]];
    }
  }
}
