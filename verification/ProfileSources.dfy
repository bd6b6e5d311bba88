/**
 The Bitwarden sources of a profile file. They are collected in whatever order the map is visited, so
 of two aliases that trim alike the last one visited is kept.
 */
module ProfileSources {
  import opened Common
  import opened Ordering
  import opened Text
  import opened SecretRefs
  import opened Requests

  datatype SourceYAML = SourceYAML(kind: string, tokenAlias: string, apiURL: string, identityURL: string)

  const BITWARDEN_KIND := "secrets_manager"

  function NormalizeBitwardenSource(rawAlias: string, spec: SourceYAML): Option<BitwardenSource> {
    match NormalizeSourceAlias(rawAlias)
    case Err(_) => None
    case Ok(alias) =>
      if TrimSpace(spec.kind) != "" && TrimSpace(spec.kind) != BITWARDEN_KIND then None
      else match NormalizeSourceAlias(if TrimSpace(spec.tokenAlias) == "" then alias else TrimSpace(spec.tokenAlias))
        case Err(_) => None
        case Ok(tokenAlias) =>
          if TrimSpace(spec.apiURL) != "" || TrimSpace(spec.identityURL) != "" then None
          else Some(BitwardenSource(alias, tokenAlias, "", ""))
  }

  predicate NormalUnder(alias: string, b: BitwardenSource) {
    ValidSourceAlias(alias) && ValidSourceAlias(b.tokenAlias) && b == BitwardenSource(alias, b.tokenAlias, "", "")
  }

  /** Every source stands under its own valid alias. */
  ghost predicate SourcesNormal(sources: map<string, BitwardenSource>) {
    forall k :: k in sources ==> NormalUnder(k, sources[k])
  }

  lemma SourceNormal(rawAlias: string, spec: SourceYAML)
    ensures var source := NormalizeBitwardenSource(rawAlias, spec);
      source.Some? ==>
        var s := source.value;
        s.alias == TrimSpace(rawAlias) && ValidSourceAlias(s.alias) && ValidSourceAlias(s.tokenAlias)
        && s == BitwardenSource(s.alias, s.tokenAlias, "", "")
  {
  }

  /** The token alias as it is given, or that of the source. */
  ghost function GivenToken(rawAlias: string, spec: SourceYAML): string {
    if TrimSpace(spec.tokenAlias) == "" then TrimSpace(rawAlias) else TrimSpace(spec.tokenAlias)
  }

  /** Which sources are good, and what they are: only the two aliases of a source can differ. */
  lemma SourceRule(rawAlias: string, spec: SourceYAML)
    ensures NormalizeBitwardenSource(rawAlias, spec).Some? <==>
      && ValidSourceAlias(TrimSpace(rawAlias)) && ValidSourceAlias(GivenToken(rawAlias, spec))
      && TrimSpace(spec.kind) in {"", "secrets_manager"}
      && TrimSpace(spec.apiURL) == "" && TrimSpace(spec.identityURL) == ""
    ensures NormalizeBitwardenSource(rawAlias, spec).Some? ==>
      NormalizeBitwardenSource(rawAlias, spec).value ==
        BitwardenSource(TrimSpace(rawAlias), GivenToken(rawAlias, spec), "", "")
  {
    hide ValidSourceAlias, TrimSpace;
    TrimFixed(spec.tokenAlias);
    TrimFixed(rawAlias);
    TrimFixed(TrimSpace(spec.tokenAlias));
    TrimFixed(TrimSpace(rawAlias));
  }

  // ---- one order of visiting ----

  function Normalized(raw: map<string, SourceYAML>, rawAlias: string): Option<BitwardenSource>
    requires rawAlias in raw
  {
    NormalizeBitwardenSource(rawAlias, raw[rawAlias])
  }

  ghost predicate AllNormalize(raw: map<string, SourceYAML>) {
    forall r :: r in raw ==> Normalized(raw, r).Some?
  }

  /** An order in which the whole map can be visited. */
  ghost predicate VisitOrder(raw: map<string, SourceYAML>, order: seq<string>) {
    Distinct(order) && forall r :: r in order <==> r in raw
  }

  /** The sources after the aliases in `order` have been visited, or a failure at the first bad one. */
  function Collected(raw: map<string, SourceYAML>, order: seq<string>): Option<map<string, BitwardenSource>>
    requires forall r :: r in order ==> r in raw
  {
    if order == [] then Some(map[])
    else
      var n := |order| - 1;
      match (Collected(raw, order[..n]), Normalized(raw, order[n]))
      case (Some(sources), Some(source)) => Some(sources[source.alias := source])
      case _ => None
  }

  lemma {:induction false} CollectedOrFailed(raw: map<string, SourceYAML>, order: seq<string>)
    requires forall r :: r in order ==> r in raw
    ensures Collected(raw, order).Some? <==> forall r :: r in order ==> Normalized(raw, r).Some?
  {
    hide Normalized;
    if order != [] {
      var n := |order| - 1;
      assert order == order[..n] + [order[n]];
      CollectedOrFailed(raw, order[..n]);
    }
  }

  ghost predicate KeptLast(order: seq<string>, i: nat)
    requires i < |order|
  {
    forall j :: i < j < |order| ==> TrimSpace(order[j]) != TrimSpace(order[i])
  }

  /** Every source is that of the last alias visited that trims to its own. */
  lemma {:induction false} LastIsKept(raw: map<string, SourceYAML>, order: seq<string>, i: nat)
    requires (forall r :: r in order ==> r in raw) && Collected(raw, order).Some?
    requires i < |order| && KeptLast(order, i)
    ensures var sources, alias := Collected(raw, order).value, TrimSpace(order[i]);
      alias in sources && Normalized(raw, order[i]) == Some(sources[alias])
  {
    hide TrimSpace;
    var n := |order| - 1;
    assert order == order[..n] + [order[n]];
    AliasIsTrimmed(raw, order[n]);
    if i < n {
      LastIsKept(raw, order[..n], i);
    }
  }

  lemma AliasIsTrimmed(raw: map<string, SourceYAML>, rawAlias: string)
    requires rawAlias in raw && Normalized(raw, rawAlias).Some?
    ensures Normalized(raw, rawAlias).value.alias == TrimSpace(rawAlias)
  {
    SourceNormal(rawAlias, raw[rawAlias]);
  }

  lemma {:induction false} KeptFrom(raw: map<string, SourceYAML>, order: seq<string>, alias: string) returns (i: nat)
    requires (forall r :: r in order ==> r in raw) && Collected(raw, order).Some?
    requires alias in Collected(raw, order).value
    ensures i < |order| && KeptLast(order, i) && TrimSpace(order[i]) == alias
  {
    hide TrimSpace, NormalizeBitwardenSource;
    var n := |order| - 1;
    assert order == order[..n] + [order[n]];
    AliasIsTrimmed(raw, order[n]);
    if TrimSpace(order[n]) == alias {
      i := n;
    } else {
      i := KeptFrom(raw, order[..n], alias);
    }
  }

  // ---- every order of visiting ----

  ghost predicate AliasesDiffer(raw: map<string, SourceYAML>) {
    forall r, s :: r in raw && s in raw && TrimSpace(r) == TrimSpace(s) ==> r == s
  }

  /** Aliases that trim alike name the same source. */
  ghost predicate AliasesAgree(raw: map<string, SourceYAML>) {
    forall r, s :: r in raw && s in raw && TrimSpace(r) == TrimSpace(s) ==> Normalized(raw, r) == Normalized(raw, s)
  }

  /** Exactly the normalised sources, each under its trimmed alias. */
  ghost predicate ExactSources(raw: map<string, SourceYAML>, sources: map<string, BitwardenSource>) {
    && (forall r :: r in raw ==> TrimSpace(r) in sources && Normalized(raw, r) == Some(sources[TrimSpace(r)]))
    && (forall k :: k in sources ==> exists r :: r in raw && TrimSpace(r) == k)
  }

  lemma AgreeingSources(raw: map<string, SourceYAML>, order: seq<string>)
    requires VisitOrder(raw, order) && Collected(raw, order).Some? && AliasesAgree(raw)
    ensures ExactSources(raw, Collected(raw, order).value)
  {
    hide TrimSpace, NormalizeBitwardenSource, Collected, KeptLast;
    var sources := Collected(raw, order).value;
    forall k | k in sources
      ensures exists r :: r in raw && TrimSpace(r) == k
    {
      var i := KeptFrom(raw, order, k);
      assert order[i] in raw;
    }
    forall r | r in raw
      ensures TrimSpace(r) in sources && Normalized(raw, r) == Some(sources[TrimSpace(r)])
    {
      var i :| 0 <= i < |order| && order[i] == r;
      var last := LastLike(order, i);
      LastIsKept(raw, order, last);
      assert order[last] in raw;
    }
  }

  /** The last place with the same trimmed alias. */
  lemma {:induction false} LastLike(order: seq<string>, i: nat) returns (last: nat)
    requires i < |order|
    ensures i <= last < |order| && TrimSpace(order[last]) == TrimSpace(order[i]) && KeptLast(order, last)
    decreases |order| - i
  {
    hide TrimSpace;
    if KeptLast(order, i) {
      last := i;
    } else {
      var j :| i < j < |order| && TrimSpace(order[j]) == TrimSpace(order[i]);
      last := LastLike(order, j);
    }
  }

  lemma ExactSourcesUnique(raw: map<string, SourceYAML>, a: map<string, BitwardenSource>,
      b: map<string, BitwardenSource>)
    requires ExactSources(raw, a) && ExactSources(raw, b)
    ensures a == b
  {
    hide TrimSpace, Normalized;
    assert forall k :: k in a <==> k in b;
  }

  lemma {:induction false} Listing(keys: set<string>) returns (order: seq<string>)
    ensures Distinct(order) && forall k :: k in order <==> k in keys
  {
    if keys == {} {
      order := [];
    } else {
      var k :| k in keys;
      var rest := Listing(keys - {k});
      order := rest + [k];
    }
  }

  /** Two aliases visited last, in one order and in the other. */
  lemma LastTwo(raw: map<string, SourceYAML>, r: string, s: string) returns (a: seq<string>, b: seq<string>)
    requires AllNormalize(raw) && r in raw && s in raw && r != s && TrimSpace(r) == TrimSpace(s)
    ensures VisitOrder(raw, a) && VisitOrder(raw, b) && Collected(raw, a).Some? && Collected(raw, b).Some?
    ensures TrimSpace(r) in Collected(raw, a).value && Normalized(raw, s) == Some(Collected(raw, a).value[TrimSpace(r)])
    ensures TrimSpace(r) in Collected(raw, b).value && Normalized(raw, r) == Some(Collected(raw, b).value[TrimSpace(r)])
  {
    hide TrimSpace, Normalized, Collected;
    var rest := Listing(raw.Keys - {r, s});
    a, b := rest + [r, s], rest + [s, r];
    assert VisitOrder(raw, a);
    assert VisitOrder(raw, b);
    CollectedOrFailed(raw, a);
    CollectedOrFailed(raw, b);
    LastIsKept(raw, a, |rest| + 1);
    LastIsKept(raw, b, |rest| + 1);
  }

  ghost predicate OrderIrrelevant(raw: map<string, SourceYAML>) {
    forall a, b :: VisitOrder(raw, a) && VisitOrder(raw, b) ==> Collected(raw, a) == Collected(raw, b)
  }

  /**
   The sources are a function of the file exactly if one of them is bad, so that every order fails, or
   aliases that trim alike name the same source; which is so when no two aliases trim alike.
   */
  lemma OrderDecides(raw: map<string, SourceYAML>)
    ensures OrderIrrelevant(raw) <==> !AllNormalize(raw) || AliasesAgree(raw)
    ensures AliasesDiffer(raw) ==> AliasesAgree(raw)
  {
    hide TrimSpace, Normalized, Collected;
    if !AllNormalize(raw) || AliasesAgree(raw) {
      forall a, b | VisitOrder(raw, a) && VisitOrder(raw, b)
        ensures Collected(raw, a) == Collected(raw, b)
      {
        CollectedOrFailed(raw, a);
        CollectedOrFailed(raw, b);
        if AllNormalize(raw) {
          AgreeingSources(raw, a);
          AgreeingSources(raw, b);
          ExactSourcesUnique(raw, Collected(raw, a).value, Collected(raw, b).value);
        }
      }
    } else {
      var r, s :| r in raw && s in raw && TrimSpace(r) == TrimSpace(s) && Normalized(raw, r) != Normalized(raw, s);
      var a, b := LastTwo(raw, r, s);
      assert Collected(raw, a) != Collected(raw, b);
    }
  }

  /** normalizeSources: visits the map in some order. */
  method NormalizeSources(raw: map<string, SourceYAML>) returns (out: Option<map<string, BitwardenSource>>)
    ensures exists order :: VisitOrder(raw, order) && out == Collected(raw, order)
    ensures out.Some? <==> forall r :: r in raw ==> NormalizeBitwardenSource(r, raw[r]).Some?
    ensures out.Some? ==> SourcesNormal(out.value)
    ensures out.Some? ==> FromAll(raw, out.value)
    ensures out.Some? && AliasesAgree(raw) ==> ExactSources(raw, out.value)
  {
    hide NormalizeBitwardenSource, ValidSourceAlias, TrimSpace, Collected, Visited, VisitOrder, ExactSources,
      AliasesAgree, SourcesNormal, FromAll;
    var sources: map<string, BitwardenSource> := map[];
    var todo := raw.Keys;
    ghost var order: seq<string> := [];
    VisitStarts(raw);
    while todo != {}
      invariant Visited(raw, order, todo) && forall r :: r in order ==> r in raw
      invariant Collected(raw, order) == Some(sources)
      decreases |todo|
    {
      VisitedIn(raw, order, todo);
      var rawAlias :| rawAlias in todo;
      var source := NormalizeBitwardenSource(rawAlias, raw[rawAlias]);
      CollectedNext(raw, order, rawAlias);
      VisitNext(raw, order, todo, rawAlias);
      order := order + [rawAlias];
      todo := todo - {rawAlias};
      if source.None? {
        ghost var whole := FailsHowever(raw, order, todo);
        return None;
      }
      sources := sources[source.value.alias := source.value];
    }
    VisitEnds(raw, order);
    CollectedMeans(raw, order);
    if AliasesAgree(raw) { AgreeingSources(raw, order); }
    return Some(sources);
  }

  /** What has been visited while `todo` has not. */
  ghost predicate Visited(raw: map<string, SourceYAML>, order: seq<string>, todo: set<string>) {
    todo <= raw.Keys && Distinct(order) && forall r :: r in order <==> r in raw && r !in todo
  }

  lemma VisitStarts(raw: map<string, SourceYAML>)
    ensures Visited(raw, [], raw.Keys) && Collected(raw, []) == Some(map[])
  {
  }

  lemma VisitedIn(raw: map<string, SourceYAML>, order: seq<string>, todo: set<string>)
    requires Visited(raw, order, todo)
    ensures todo <= raw.Keys && forall r :: r in order ==> r in raw
  {
  }

  lemma VisitNext(raw: map<string, SourceYAML>, order: seq<string>, todo: set<string>, rawAlias: string)
    requires Visited(raw, order, todo) && rawAlias in todo
    ensures Visited(raw, order + [rawAlias], todo - {rawAlias})
    ensures forall r :: r in order + [rawAlias] ==> r in raw
  {
  }

  lemma VisitEnds(raw: map<string, SourceYAML>, order: seq<string>)
    requires Visited(raw, order, {})
    ensures VisitOrder(raw, order)
  {
  }

  /** A bad source makes every order fail that begins like this. */
  lemma FailsHowever(raw: map<string, SourceYAML>, order: seq<string>, todo: set<string>) returns (whole: seq<string>)
    requires Visited(raw, order, todo) && (forall r :: r in order ==> r in raw) && Collected(raw, order).None?
    ensures VisitOrder(raw, whole) && Collected(raw, whole).None? && !AllNormalize(raw)
  {
    hide TrimSpace, Normalized, Collected;
    var rest := Listing(todo);
    whole := order + rest;
    CollectedOrFailed(raw, order);
    var bad :| bad in order && Normalized(raw, bad).None?;
    assert bad in whole;
    forall i, j | 0 <= i < j < |whole|
      ensures whole[i] != whole[j]
    {
      assert j >= |order| ==> whole[j] in todo;
      assert i < |order| ==> whole[i] in order;
    }
    CollectedOrFailed(raw, whole);
  }

  lemma CollectedNext(raw: map<string, SourceYAML>, order: seq<string>, rawAlias: string)
    requires (forall r :: r in order ==> r in raw) && Collected(raw, order).Some? && rawAlias in raw
    ensures Collected(raw, order + [rawAlias]) ==
      match Normalized(raw, rawAlias)
      case None => None
      case Some(source) => Some(Collected(raw, order).value[source.alias := source])
  {
    hide NormalizeBitwardenSource;
    assert (order + [rawAlias])[..|order|] == order;
  }

  /** Every source comes from a configured one, and every configured one has given a source. */
  ghost predicate FromAll(raw: map<string, SourceYAML>, sources: map<string, BitwardenSource>) {
    && (forall k :: k in sources ==> exists r :: r in raw && Normalized(raw, r) == Some(sources[k]))
    && (forall r :: r in raw ==> TrimSpace(r) in sources)
  }

  lemma CollectedMeans(raw: map<string, SourceYAML>, order: seq<string>)
    requires VisitOrder(raw, order) && Collected(raw, order).Some?
    ensures var sources := Collected(raw, order).value;
      AllNormalize(raw) && SourcesNormal(sources) && FromAll(raw, sources)
  {
    hide Normalized, ValidSourceAlias, TrimSpace, Collected, VisitOrder, AllNormalize;
    AllCollected(raw, order);
    forall k | k in Collected(raw, order).value
      ensures exists r :: r in raw && Normalized(raw, r) == Some(Collected(raw, order).value[k])
      ensures NormalUnder(k, Collected(raw, order).value[k])
    {
      var r := CollectedFrom(raw, order, k);
      UnderItsAlias(raw, r);
    }
    forall r | r in raw
      ensures TrimSpace(r) in Collected(raw, order).value
    {
      CollectedUnder(raw, order, r);
    }
  }

  lemma UnderItsAlias(raw: map<string, SourceYAML>, r: string)
    requires r in raw && Normalized(raw, r).Some?
    ensures NormalUnder(TrimSpace(r), Normalized(raw, r).value)
  {
    SourceNormal(r, raw[r]);
  }

  lemma AllCollected(raw: map<string, SourceYAML>, order: seq<string>)
    requires VisitOrder(raw, order) && Collected(raw, order).Some?
    ensures AllNormalize(raw) && forall r :: r in order ==> r in raw
  {
    hide NormalizeBitwardenSource, Collected;
    CollectedOrFailed(raw, order);
  }

  lemma CollectedFrom(raw: map<string, SourceYAML>, order: seq<string>, k: string) returns (r: string)
    requires VisitOrder(raw, order) && Collected(raw, order).Some? && k in Collected(raw, order).value
    ensures r in raw && TrimSpace(r) == k && Normalized(raw, r) == Some(Collected(raw, order).value[k])
  {
    hide NormalizeBitwardenSource, TrimSpace, Collected, KeptLast;
    var i := KeptFrom(raw, order, k);
    LastIsKept(raw, order, i);
    r := order[i];
    assert r in order;
  }

  lemma CollectedUnder(raw: map<string, SourceYAML>, order: seq<string>, r: string)
    requires VisitOrder(raw, order) && Collected(raw, order).Some? && r in raw
    ensures TrimSpace(r) in Collected(raw, order).value
  {
    hide NormalizeBitwardenSource, TrimSpace, Collected, KeptLast;
    assert r in order;
    var i :| 0 <= i < |order| && order[i] == r;
    var last := LastLike(order, i);
    LastIsKept(raw, order, last);
  }

  // ---- a file with two results ----

  /** Two aliases that differ in white space only, with different tokens. */
  const ALIKE := map[" a" := SourceYAML("", "b", "", ""), "a" := SourceYAML("", "c", "", "")]

  lemma AlikeSources()
    ensures Normalized(ALIKE, " a") == Some(BitwardenSource("a", "b", "", ""))
    ensures Normalized(ALIKE, "a") == Some(BitwardenSource("a", "c", "", ""))
  {
    assert TrimSpace(" a") == "a" by { assert " a"[1..] == "a"; }
    assert TrimSpace("") == "" && TrimSpace("a") == "a" && TrimSpace("b") == "b" && TrimSpace("c") == "c";
  }

  lemma TwoVisited(raw: map<string, SourceYAML>, r: string, s: string, first: BitwardenSource, second: BitwardenSource)
    requires raw.Keys == {r, s} && r != s && first.alias == second.alias
    requires Normalized(raw, r) == Some(first) && Normalized(raw, s) == Some(second)
    ensures VisitOrder(raw, [r, s]) && Collected(raw, [r, s]) == Some(map[second.alias := second])
  {
    hide Normalized, Collected;
    VisitStarts(raw);
    assert [] + [r] == [r] && [r] + [s] == [r, s];
    CollectedNext(raw, [], r);
    CollectedNext(raw, [r], s);
    assert map[][first.alias := first][second.alias := second] == map[second.alias := second];
  }

  lemma AlikeHasTwoResults()
    ensures VisitOrder(ALIKE, [" a", "a"])
    ensures Collected(ALIKE, [" a", "a"]) == Some(map["a" := BitwardenSource("a", "c", "", "")])
    ensures VisitOrder(ALIKE, ["a", " a"])
    ensures Collected(ALIKE, ["a", " a"]) == Some(map["a" := BitwardenSource("a", "b", "", "")])
  {
    hide Normalized, Collected, VisitOrder;
    AlikeSources();
    TwoVisited(ALIKE, " a", "a", BitwardenSource("a", "b", "", ""), BitwardenSource("a", "c", "", ""));
    TwoVisited(ALIKE, "a", " a", BitwardenSource("a", "c", "", ""), BitwardenSource("a", "b", "", ""));
  }
}
