/** Secret identities, and the environment a set of resolved values stands for. */
module GrantValues {
  import opened Common
  import opened Ordering
  import opened SecretRefs
  import opened Requests

  datatype SecretIdentity = SecretIdentity(ref: SecretRef, account: string, source: string, bitwarden: BitwardenSource)

  datatype CacheKey = CacheKey(
    scopeID: string, ref: string, account: string, source: string,
    tokenAlias: string, apiURL: string, identityURL: string)

  function IdentityOf(s: Secret): SecretIdentity {
    SecretIdentity(s.ref, s.account, s.source, s.bitwarden)
  }

  function KeyFor(scopeID: string, i: SecretIdentity): CacheKey {
    CacheKey(scopeID, i.ref.raw, i.account, i.source, i.bitwarden.tokenAlias, i.bitwarden.apiURL,
             i.bitwarden.identityURL)
  }

  function Identities(secrets: seq<Secret>): set<SecretIdentity> {
    set s | s in secrets :: IdentityOf(s)
  }

  predicate IdentityLeq(a: SecretIdentity, b: SecretIdentity) {
    StringsLeq(
      [a.ref.raw, a.account, a.source, a.bitwarden.tokenAlias, a.bitwarden.apiURL, a.bitwarden.identityURL],
      [b.ref.raw, b.account, b.source, b.bitwarden.tokenAlias, b.bitwarden.apiURL, b.bitwarden.identityURL])
  }

  /** Each secret is fetched once, however many aliases name it. */
  method UniqueSecretIdentities(secrets: seq<Secret>) returns (identities: seq<SecretIdentity>)
    ensures Distinct(identities)
    ensures (set i | i in identities) == Identities(secrets)
  {
    var seen, found := {}, [];
    for n := 0 to |secrets|
      invariant Distinct(found)
      invariant forall i :: i in found <==> i in seen
      invariant seen == Identities(secrets[..n])
    {
      var identity := IdentityOf(secrets[n]);
      assert secrets[..n + 1] == secrets[..n] + [secrets[n]];
      if identity in seen { continue; }
      seen, found := seen + {identity}, found + [identity];
    }
    assert secrets[..|secrets|] == secrets;
    identities := Sort(IdentityLeq, found);
    DistinctPermutation(found, identities);
    SameElements(found, identities);
  }

  /** Later entries win, as assignments to a map in a loop do. */
  ghost function EnvOf(secrets: seq<Secret>, value: Secret -> string): (env: map<string, string>)
    ensures forall a :: a in env <==> exists s :: s in secrets && s.alias == a
  {
    if secrets == [] then map[]
    else
      var n := |secrets| - 1;
      EnvOf(secrets[..n], value)[secrets[n].alias := value(secrets[n])]
  }

  lemma {:induction false} EnvAgrees(secrets: seq<Secret>, f: Secret -> string, g: Secret -> string)
    requires forall s :: s in secrets ==> f(s) == g(s)
    ensures EnvOf(secrets, f) == EnvOf(secrets, g)
  {
    if secrets != [] {
      EnvAgrees(secrets[..|secrets| - 1], f, g);
    }
  }

  /** With distinct aliases every alias is bound to the value of its own secret. */
  lemma {:induction false} EnvBinds(secrets: seq<Secret>, value: Secret -> string, s: Secret)
    requires forall i, j :: 0 <= i < j < |secrets| ==> secrets[i].alias != secrets[j].alias
    requires s in secrets
    ensures s.alias in EnvOf(secrets, value) && EnvOf(secrets, value)[s.alias] == value(s)
  {
    var n := |secrets| - 1;
    if secrets[n] != s {
      var i :| 0 <= i < |secrets| && secrets[i] == s;
      assert secrets[..n][i] == s;
      EnvBinds(secrets[..n], value, s);
    }
  }

  function Lookup(refValues: map<SecretIdentity, string>, i: SecretIdentity): string {
    if i in refValues then refValues[i] else ""
  }

  ghost function Fanout(secrets: seq<Secret>, refValues: map<SecretIdentity, string>): map<string, string> {
    EnvOf(secrets, (s: Secret) => Lookup(refValues, IdentityOf(s)))
  }

  method FanoutValues(secrets: seq<Secret>, refValues: map<SecretIdentity, string>)
    returns (values: map<string, string>)
    ensures values == Fanout(secrets, refValues)
  {
    values := map[];
    ghost var f := (s: Secret) => Lookup(refValues, IdentityOf(s));
    for n := 0 to |secrets|
      invariant values == EnvOf(secrets[..n], f)
    {
      values := values[secrets[n].alias := Lookup(refValues, IdentityOf(secrets[n]))];
      assert secrets[..n + 1][..n] == secrets[..n];
    }
    assert secrets[..|secrets|] == secrets;
  }

  /**
   Accepted secrets with the same cache key are the same secret: the key leaves out the parsed
   reference and the source alias, but the daemon's check has tied both to fields it holds.
   */
  lemma CacheKeyDeterminesIdentity(scopeID: string, a: SecretIdentity, b: SecretIdentity)
    requires CanonicalIdentity(a) && CanonicalIdentity(b) && KeyFor(scopeID, a) == KeyFor(scopeID, b)
    ensures a == b
  {
  }

  ghost predicate CanonicalIdentity(i: SecretIdentity) {
    ParseRef(i.ref.raw) == Ok(i.ref) && i.bitwarden.alias == i.source
  }
}
