/** The key under which a reusable approval is stored and later matched. */
module ReuseKeys {
  import opened Ordering
  import opened Requests

  datatype SecretGrant = SecretGrant(
    alias: string, ref: string, account: string, source: string,
    tokenAlias: string, apiURL: string, identityURL: string)

  datatype ReuseKey = ReuseKey(
    reason: string, command: seq<string>, resolvedExecutable: string, executableIdentity: string,
    cwd: string, environmentFingerprint: string, secrets: seq<SecretGrant>, ttl: int,
    reusableUses: int, overrideEnv: bool, overriddenAliases: seq<string>)

  function GrantOf(s: Secret): SecretGrant {
    SecretGrant(s.alias, s.ref.raw, s.account, s.source, s.bitwarden.tokenAlias, s.bitwarden.apiURL,
                s.bitwarden.identityURL)
  }

  function GrantsOf(secrets: seq<Secret>): (grants: seq<SecretGrant>)
    ensures |grants| == |secrets|
    ensures forall i :: 0 <= i < |secrets| ==> grants[i] == GrantOf(secrets[i])
  {
    seq(|secrets|, i requires 0 <= i < |secrets| => GrantOf(secrets[i]))
  }

  /** The fields of a grant in the order in which the comparator looks at them. */
  function Fields(g: SecretGrant): seq<string> {
    [g.alias, g.ref, g.account, g.source, g.tokenAlias, g.apiURL, g.identityURL]
  }

  predicate GrantLeq(a: SecretGrant, b: SecretGrant) {
    StringsLeq(Fields(a), Fields(b))
  }

  function NewReuseKey(req: ExecRequest): ReuseKey {
    ReuseKey(req.reason, req.command, req.resolvedExecutable, req.executableIdentity, req.cwd,
             req.environmentFingerprint, Sort(GrantLeq, GrantsOf(req.secrets)), req.ttl,
             ReusableUsesOrDefault(req.reusableUses), req.overrideEnv,
             Sort(StringLeq, req.overriddenAliases))
  }

  /** The comparison misses no field: it is equality. */
  predicate KeysEqual(a: ReuseKey, b: ReuseKey): (same: bool)
    ensures same <==> a == b
  {
    && a.reason == b.reason
    && a.command == b.command
    && a.resolvedExecutable == b.resolvedExecutable
    && a.executableIdentity == b.executableIdentity
    && a.cwd == b.cwd
    && a.environmentFingerprint == b.environmentFingerprint
    && a.secrets == b.secrets
    && a.ttl == b.ttl
    && a.reusableUses == b.reusableUses
    && a.overrideEnv == b.overrideEnv
    && a.overriddenAliases == b.overriddenAliases
  }

  lemma GrantOrder()
    ensures TotalOrder(GrantLeq)
  {
    StringsOrder();
    forall a, b | Fields(a) == Fields(b)
      ensures a == b
    {
      var f, g := Fields(a), Fields(b);
      assert f[0] == g[0] && f[1] == g[1] && f[2] == g[2] && f[3] == g[3] && f[4] == g[4] && f[5] == g[5]
        && f[6] == g[6];
    }
    forall a, b, c
      ensures GrantLeq(a, b) || GrantLeq(b, a)
      ensures GrantLeq(a, b) && GrantLeq(b, a) ==> a == b
      ensures GrantLeq(a, b) && GrantLeq(b, c) ==> GrantLeq(a, c)
    {
    }
  }

  ghost predicate SameScalars(a: ExecRequest, b: ExecRequest) {
    && a.reason == b.reason && a.command == b.command && a.resolvedExecutable == b.resolvedExecutable
    && a.executableIdentity == b.executableIdentity && a.cwd == b.cwd
    && a.environmentFingerprint == b.environmentFingerprint && a.ttl == b.ttl
    && ReusableUsesOrDefault(a.reusableUses) == ReusableUsesOrDefault(b.reusableUses)
    && a.overrideEnv == b.overrideEnv
  }

  /**
   Keys are canonical: two requests have equal keys exactly when their scalar fields and command
   agree and their secret grants and overridden aliases are permutations of each other.
   */
  lemma ReuseKeyCanonical(a: ExecRequest, b: ExecRequest)
    ensures KeysEqual(NewReuseKey(a), NewReuseKey(b)) <==>
      && SameScalars(a, b)
      && multiset(GrantsOf(a.secrets)) == multiset(GrantsOf(b.secrets))
      && multiset(a.overriddenAliases) == multiset(b.overriddenAliases)
  {
    GrantOrder();
    StringOrder();
    SortCanonical(GrantLeq, GrantsOf(a.secrets), GrantsOf(b.secrets));
    SortCanonical(StringLeq, a.overriddenAliases, b.overriddenAliases);
  }

  /** A secret of either of two requests with equal keys has a grant in the key, and conversely. */
  lemma KeyGrants(req: ExecRequest, g: SecretGrant)
    ensures g in NewReuseKey(req).secrets <==> exists s :: s in req.secrets && GrantOf(s) == g
  {
    var grants := GrantsOf(req.secrets);
    SameElements(Sort(GrantLeq, grants), grants);
    forall s | s in req.secrets
      ensures GrantOf(s) in grants
    {
      var i :| 0 <= i < |req.secrets| && req.secrets[i] == s;
      assert grants[i] == GrantOf(s);
    }
  }
}
