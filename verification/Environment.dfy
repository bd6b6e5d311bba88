/** Environments as lists of `KEY=value` entries: canonical form, merging and removal. */
module Environment {
  import opened Common
  import opened Ordering
  import opened Text

  function Entry(key: string, value: string): string {
    key + ['='] + value
  }

  /** The last entry of a key counts. */
  function EnvMap(env: seq<string>): (m: map<string, string>)
    ensures forall k :: k in m ==> '=' !in k
  {
    if env == [] then map[]
    else
      var n := |env| - 1;
      var cut := Cut(env[n], '=');
      if cut.found then EnvMap(env[..n])[cut.before := cut.after] else EnvMap(env[..n])
  }

  /** The entries that name no key, in order. */
  function Malformed(env: seq<string>): seq<string> {
    if env == [] then []
    else
      var n := |env| - 1;
      Malformed(env[..n]) + if '=' in env[n] then [] else [env[n]]
  }

  predicate Names(entry: string, key: string) {
    Cut(entry, '=').found && Cut(entry, '=').before == key
  }

  /** The entries whose key is not among these, in order. */
  function Without(env: seq<string>, keys: set<string>): seq<string> {
    if env == [] then []
    else
      var n := |env| - 1;
      Without(env[..n], keys) + if Cut(env[n], '=').found && Cut(env[n], '=').before in keys then [] else [env[n]]
  }

  function Entries(values: map<string, string>, keys: seq<string>): (r: seq<string>)
    requires forall k :: k in keys ==> k in values
    ensures |r| == |keys| && forall i :: 0 <= i < |keys| ==> r[i] == Entry(keys[i], values[keys[i]])
  {
    seq(|keys|, i requires 0 <= i < |keys| => Entry(keys[i], values[keys[i]]))
  }

  ghost predicate SortedKeysOf(keys: seq<string>, values: map<string, string>) {
    Distinct(keys) && SortedBy(StringLeq, keys) && forall k :: k in keys <==> k in values
  }

  // ---- how the parts of a list contribute ----

  lemma MapOne(env: seq<string>, entry: string)
    ensures EnvMap(env + [entry]) ==
      if Cut(entry, '=').found then EnvMap(env)[Cut(entry, '=').before := Cut(entry, '=').after] else EnvMap(env)
    ensures Malformed(env + [entry]) == Malformed(env) + if '=' in entry then [] else [entry]
  {
  }

  lemma {:induction false} EnvMapAppend(a: seq<string>, b: seq<string>)
    ensures EnvMap(a + b) == EnvMap(a) + EnvMap(b)
    ensures Malformed(a + b) == Malformed(a) + Malformed(b)
  {
    hide Cut, EnvMap, Malformed;
    NoEntries();
    if b == [] {
      assert a + b == a;
    } else {
      var rest, last := b[..|b| - 1], b[|b| - 1];
      EnvMapAppend(a, rest);
      assert b == rest + [last] && a + b == a + rest + [last];
      MapOne(rest, last);
      MapOne(a + rest, last);
    }
  }

  lemma NoEntries()
    ensures EnvMap([]) == map[] && Malformed([]) == []
  {
  }

  lemma {:induction false} WithoutAppend(a: seq<string>, b: seq<string>, keys: set<string>)
    ensures Without(a + b, keys) == Without(a, keys) + Without(b, keys)
  {
    hide Cut;
    if b == [] {
      assert a + b == a;
    } else {
      var n := |b| - 1;
      WithoutAppend(a, b[..n], keys);
      assert (a + b)[..|a + b| - 1] == a + b[..n];
    }
  }

  lemma OneEntry(env: seq<string>, key: string, value: string)
    requires '=' !in key
    ensures EnvMap(env + [Entry(key, value)]) == EnvMap(env)[key := value]
    ensures Malformed(env + [Entry(key, value)]) == Malformed(env)
    ensures Cut(Entry(key, value), '=') == CutResult(key, value, true)
  {
    CutUnique(key, '=', value);
    var more := env + [Entry(key, value)];
    assert more[..|env|] == env && Entry(key, value)[|key|] == '=';
  }

  lemma {:induction false} EntriesMap(values: map<string, string>, keys: seq<string>)
    requires forall k :: k in keys ==> k in values && '=' !in k
    ensures EnvMap(Entries(values, keys)) == map k | k in keys :: values[k]
    ensures Malformed(Entries(values, keys)) == []
  {
    hide Cut, Entry;
    if keys != [] {
      var n := |keys| - 1;
      assert keys == keys[..n] + [keys[n]];
      EntriesMap(values, keys[..n]);
      assert Entries(values, keys) == Entries(values, keys[..n]) + [Entry(keys[n], values[keys[n]])];
      OneEntry(Entries(values, keys[..n]), keys[n], values[keys[n]]);
    }
  }

  lemma AllEntriesMap(values: map<string, string>, keys: seq<string>)
    requires SortedKeysOf(keys, values) && forall k :: k in values ==> '=' !in k
    ensures EnvMap(Entries(values, keys)) == values && Malformed(Entries(values, keys)) == []
  {
    EntriesMap(values, keys);
  }

  // ---- the canonical form ----

  const MALFORMED := "malformed:"

  function Marked(malformed: seq<string>): (r: seq<string>)
    ensures |r| == |malformed| && forall i :: 0 <= i < |malformed| ==> r[i] == MALFORMED + malformed[i]
  {
    seq(|malformed|, i requires 0 <= i < |malformed| => MALFORMED + malformed[i])
  }

  /** Sorted keys with their last values, then the malformed entries, sorted and marked. */
  ghost predicate IsCanonical(env: seq<string>, out: seq<string>) {
    exists keys ::
      SortedKeysOf(keys, EnvMap(env)) && out == Entries(EnvMap(env), keys) + Marked(Sort(StringLeq, Malformed(env)))
  }

  method CanonicalEnv(env: seq<string>) returns (out: seq<string>)
    ensures IsCanonical(env, out)
  {
    hide EnvMap, Malformed, Entries, Sort;
    var values, malformed := SplitEnv(env);
    var keys := SortedKeys(values.Keys);
    assert SortedKeysOf(keys, EnvMap(env));
    var entries := EntryList(values, keys);
    var sorted := Sort(StringLeq, malformed);
    var marked: seq<string> := [];
    for n := 0 to |sorted|
      invariant marked == Marked(sorted)[..n]
    {
      marked := marked + [MALFORMED + sorted[n]];
    }
    assert Marked(sorted)[..|sorted|] == Marked(sorted);
    out := entries + marked;
  }

  method SplitEnv(env: seq<string>) returns (values: map<string, string>, malformed: seq<string>)
    ensures values == EnvMap(env) && malformed == Malformed(env)
  {
    hide Cut;
    values, malformed := map[], [];
    for n := 0 to |env|
      invariant values == EnvMap(env[..n]) && malformed == Malformed(env[..n])
    {
      assert env[..n + 1][..n] == env[..n];
      var cut := Cut(env[n], '=');
      if cut.found {
        values := values[cut.before := cut.after];
      } else {
        malformed := malformed + [env[n]];
      }
    }
    assert env[..|env|] == env;
  }

  lemma {:induction false} MarkedMalformed(malformed: seq<string>)
    requires forall e :: e in malformed ==> '=' !in e
    ensures EnvMap(Marked(malformed)) == map[] && Malformed(Marked(malformed)) == Marked(malformed)
  {
    hide Cut, EnvMap, Malformed;
    NoEntries();
    if malformed != [] {
      var n := |malformed| - 1;
      var last := MALFORMED + malformed[n];
      assert malformed[n] in malformed && '=' !in last;
      MarkedMalformed(malformed[..n]);
      assert Marked(malformed) == Marked(malformed[..n]) + [last];
      MapOne(Marked(malformed[..n]), last);
    }
  }

  lemma {:induction false} MalformedNoKey(env: seq<string>)
    ensures forall e :: e in Malformed(env) ==> '=' !in e
  {
    if env != [] { MalformedNoKey(env[..|env| - 1]); }
  }

  /** The canonical form means what the environment means, and keeps what has no meaning. */
  lemma CanonicalKeepsMeaning(env: seq<string>, out: seq<string>)
    requires IsCanonical(env, out)
    ensures EnvMap(out) == EnvMap(env) && Malformed(out) == Marked(Sort(StringLeq, Malformed(env)))
  {
    hide Sort, Entries, Marked, Malformed, EnvMap;
    var values, sorted := EnvMap(env), Sort(StringLeq, Malformed(env));
    var keys :| SortedKeysOf(keys, values) && out == Entries(values, keys) + Marked(sorted);
    SameElements(sorted, Malformed(env));
    MalformedNoKey(env);
    AllEntriesMap(values, keys);
    MarkedMalformed(sorted);
    EnvMapAppend(Entries(values, keys), Marked(sorted));
    assert values + map[] == values;
  }

  lemma MarkedInjective(a: seq<string>, b: seq<string>)
    requires Marked(a) == Marked(b)
    ensures a == b
  {
    forall i | 0 <= i < |a|
      ensures a[i] == b[i]
    {
      assert Marked(a)[i] == Marked(b)[i];
      assert a[i] == (MALFORMED + a[i])[|MALFORMED|..] && b[i] == (MALFORMED + b[i])[|MALFORMED|..];
    }
  }

  lemma SortedKeysUnique(a: seq<string>, b: seq<string>, values: map<string, string>)
    requires SortedKeysOf(a, values) && SortedKeysOf(b, values)
    ensures a == b
  {
    StringOrder();
    SameDistinct(a, b);
    SortedUnique(StringLeq, a, b);
  }

  /**
   The canonical form is exact: two environments have the same one if and only if every key has the
   same last value in both and both hold the same malformed entries equally often.
   */
  lemma CanonicalExactly(a: seq<string>, b: seq<string>, outA: seq<string>, outB: seq<string>)
    requires IsCanonical(a, outA) && IsCanonical(b, outB)
    ensures outA == outB <==> EnvMap(a) == EnvMap(b) && multiset(Malformed(a)) == multiset(Malformed(b))
  {
    StringOrder();
    SortCanonical(StringLeq, Malformed(a), Malformed(b));
    if outA == outB {
      CanonicalKeepsMeaning(a, outA);
      CanonicalKeepsMeaning(b, outB);
      MarkedInjective(Sort(StringLeq, Malformed(a)), Sort(StringLeq, Malformed(b)));
    }
    if EnvMap(a) == EnvMap(b) && multiset(Malformed(a)) == multiset(Malformed(b)) {
      var ka :| SortedKeysOf(ka, EnvMap(a)) && outA == Entries(EnvMap(a), ka) + Marked(Sort(StringLeq, Malformed(a)));
      var kb :| SortedKeysOf(kb, EnvMap(b)) && outB == Entries(EnvMap(b), kb) + Marked(Sort(StringLeq, Malformed(b)));
      SortedKeysUnique(ka, kb, EnvMap(a));
    }
  }

  // ---- merging for the child process ----

  datatype MergeError = EnvironmentConflict(alias: string)

  /** Some key of the overlay is set in the base. */
  predicate Conflicts(base: seq<string>, overlay: map<string, string>) {
    exists k :: k in overlay && k in EnvMap(base)
  }

  /**
   Fails exactly on a conflict without override, naming the smallest alias in conflict; otherwise the
   entries of the overlay, sorted, follow the entries of the base whose keys it does not set.
   */
  method MergeEnv(base: seq<string>, overlay: map<string, string>, override: bool)
    returns (r: Result<seq<string>, MergeError>)
    ensures r.Err? <==> !override && Conflicts(base, overlay)
    ensures r.Err? ==> r.error.alias in overlay && r.error.alias in EnvMap(base)
    ensures r.Err? ==> forall a :: a in overlay && a in EnvMap(base) ==> StringLeq(r.error.alias, a)
    ensures r.Ok? ==>
      exists aliases ::
        SortedKeysOf(aliases, overlay) && r.value == Without(base, overlay.Keys) + Entries(overlay, aliases)
  {
    hide EnvMap, Without, Entries;
    var aliases := SortedKeys(overlay.Keys);
    var out, existing := KeepBase(base, overlay.Keys, override);
    for n := 0 to |aliases|
      invariant override || forall i :: 0 <= i < n ==> aliases[i] !in existing
    {
      assert aliases[n] in aliases;
      if aliases[n] in existing && !override {
        FirstOf(aliases, existing, n);
        return Err(EnvironmentConflict(aliases[n]));
      }
    }
    assert SortedKeysOf(aliases, overlay);
    var entries := EntryList(overlay, aliases);
    if !override { NothingToRemove(base, overlay.Keys); }
    return Ok(out + entries);
  }

  /** The first of a sorted list to be in a set is the smallest. */
  lemma FirstOf(sorted: seq<string>, members: set<string>, n: nat)
    requires SortedBy(StringLeq, sorted) && n < |sorted| && forall i :: 0 <= i < n ==> sorted[i] !in members
    ensures forall a :: a in sorted && a in members ==> StringLeq(sorted[n], a)
  {
    StringOrder();
    forall a | a in sorted && a in members
      ensures StringLeq(sorted[n], a)
    {
      var i :| 0 <= i < |sorted| && sorted[i] == a;
    }
  }

  /** The entries that stay, and the keys there are. */
  method KeepBase(base: seq<string>, overlaid: set<string>, override: bool)
    returns (out: seq<string>, existing: set<string>)
    ensures out == (if override then Without(base, overlaid) else base) && existing == EnvMap(base).Keys
  {
    hide Cut;
    existing, out := {}, [];
    for n := 0 to |base|
      invariant existing == EnvMap(base[..n]).Keys
      invariant out == if override then Without(base[..n], overlaid) else base[..n]
    {
      assert base[..n + 1][..n] == base[..n] && base[..n + 1] == base[..n] + [base[n]];
      var cut := Cut(base[n], '=');
      if cut.found { existing := existing + {cut.before}; }
      if !(cut.found && override && cut.before in overlaid) { out := out + [base[n]]; }
    }
    assert base[..|base|] == base;
  }

  method EntryList(values: map<string, string>, keys: seq<string>) returns (out: seq<string>)
    requires forall k :: k in keys ==> k in values
    ensures out == Entries(values, keys)
  {
    out := [];
    for n := 0 to |keys|
      invariant |out| == n && forall i :: 0 <= i < n ==> out[i] == Entry(keys[i], values[keys[i]])
    {
      assert keys[n] in keys;
      out := out + [Entry(keys[n], values[keys[n]])];
    }
  }

  lemma {:induction false} NothingToRemove(env: seq<string>, keys: set<string>)
    requires EnvMap(env).Keys !! keys
    ensures Without(env, keys) == env
  {
    if env != [] {
      var n := |env| - 1;
      assert env == env[..n] + [env[n]];
      NothingToRemove(env[..n], keys);
    }
  }

  lemma WithoutOne(env: seq<string>, entry: string, keys: set<string>)
    ensures Without(env + [entry], keys) ==
      Without(env, keys) + if Cut(entry, '=').found && Cut(entry, '=').before in keys then [] else [entry]
  {
  }

  lemma {:induction false} WithoutMap(env: seq<string>, keys: set<string>)
    ensures EnvMap(Without(env, keys)) == EnvMap(env) - keys
    ensures Malformed(Without(env, keys)) == Malformed(env)
  {
    hide Cut, EnvMap, Malformed;
    NoEntries();
    if env != [] {
      var rest, last := env[..|env| - 1], env[|env| - 1];
      var kept, m, cut := Without(rest, keys), EnvMap(rest), Cut(last, '=');
      assert env == rest + [last];
      WithoutMap(rest, keys);
      WithoutOne(rest, last, keys);
      MapOne(rest, last);
      MapOne(kept, last);
      if cut.found && cut.before in keys {
        assert kept + [] == kept && m[cut.before := cut.after] - keys == m - keys;
      } else if cut.found {
        assert m[cut.before := cut.after] - keys == (m - keys)[cut.before := cut.after];
      }
    }
  }

  /** How many entries name this key. */
  function Count(env: seq<string>, key: string): nat {
    if env == [] then 0
    else
      var n := |env| - 1;
      Count(env[..n], key) + if Names(env[n], key) then 1 else 0
  }

  lemma CountOne(env: seq<string>, entry: string, key: string)
    ensures Count(env + [entry], key) == Count(env, key) + if Names(entry, key) then 1 else 0
  {
  }

  lemma {:induction false} CountWithout(env: seq<string>, keys: set<string>, key: string)
    requires key in keys
    ensures Count(Without(env, keys), key) == 0
  {
    hide Cut;
    if env != [] {
      var n := |env| - 1;
      CountWithout(env[..n], keys, key);
      CountOne(Without(env[..n], keys), env[n], key);
      assert Without(env[..n], keys) + [] == Without(env[..n], keys);
    }
  }

  lemma {:induction false} CountEntries(env: seq<string>, values: map<string, string>, keys: seq<string>, key: string)
    requires Distinct(keys) && forall k :: k in keys ==> k in values && '=' !in k
    ensures Count(env + Entries(values, keys), key) == Count(env, key) + if key in keys then 1 else 0
  {
    hide Cut, Entry, Count;
    if keys == [] {
      assert env + Entries(values, keys) == env;
    } else {
      var n := |keys| - 1;
      var last := Entry(keys[n], values[keys[n]]);
      assert keys == keys[..n] + [keys[n]];
      assert env + Entries(values, keys) == env + Entries(values, keys[..n]) + [last];
      CountEntries(env, values, keys[..n], key);
      CountOne(env + Entries(values, keys[..n]), last, key);
      OneEntry([], keys[n], values[keys[n]]);
    }
  }

  /**
   The merged environment means the base overridden by the overlay, has one entry for every alias
   of the overlay, and keeps every other entry of the base, malformed ones included, in its place.
   */
  lemma MergedMeaning(base: seq<string>, overlay: map<string, string>, aliases: seq<string>, alias: string)
    requires SortedKeysOf(aliases, overlay) && alias in overlay && forall k :: k in overlay ==> '=' !in k
    ensures var out := Without(base, overlay.Keys) + Entries(overlay, aliases);
      && EnvMap(out) == EnvMap(base) + overlay
      && Count(out, alias) == 1
      && Without(out, overlay.Keys) == Without(base, overlay.Keys) && Malformed(out) == Malformed(base)
  {
    hide Cut, Entries, Count, Without, Malformed, EnvMap;
    var kept := Without(base, overlay.Keys);
    EnvMapAppend(kept, Entries(overlay, aliases));
    WithoutAppend(kept, Entries(overlay, aliases), overlay.Keys);
    WithoutMap(base, overlay.Keys);
    AllEntriesMap(overlay, aliases);
    CountWithout(base, overlay.Keys, alias);
    CountEntries(kept, overlay, aliases, alias);
    WithoutTwice(base, overlay.Keys);
    WithoutEntries(overlay, aliases);
    assert EnvMap(base) - overlay.Keys + overlay == EnvMap(base) + overlay;
  }

  lemma WithoutTwice(env: seq<string>, keys: set<string>)
    ensures Without(Without(env, keys), keys) == Without(env, keys)
  {
    WithoutMap(env, keys);
    NothingToRemove(Without(env, keys), keys);
  }

  lemma {:induction false} WithoutEntries(values: map<string, string>, keys: seq<string>)
    requires forall k :: k in keys ==> k in values && '=' !in k
    ensures Without(Entries(values, keys), values.Keys) == []
  {
    if keys != [] {
      var n := |keys| - 1;
      assert Entries(values, keys)[..n] == Entries(values, keys[..n]);
      WithoutEntries(values, keys[..n]);
      assert keys[n] in keys;
      CutUnique(keys[n], '=', values[keys[n]]);
    }
  }

  // ---- merging on the command line ----

  method RemoveEnvKeys(env: seq<string>, keys: seq<string>) returns (out: seq<string>)
    ensures out == Without(env, set k | k in keys)
  {
    var remove := set k | k in keys;
    if |keys| == 0 {
      assert remove == {};
      NothingToRemove(env, remove);
      return env;
    }
    out := [];
    for n := 0 to |env|
      invariant out == Without(env[..n], remove)
    {
      assert env[..n + 1][..n] == env[..n];
      var cut := Cut(env[n], '=');
      if !(cut.found && cut.before in remove) { out := out + [env[n]]; }
    }
    assert env[..|env|] == env;
  }

  /** The position of the entry that counts. */
  ghost predicate LastAt(env: seq<string>, key: string, i: int) {
    0 <= i < |env| && Names(env[i], key) && forall j :: i < j < |env| ==> !Names(env[j], key)
  }

  /** Every key of the list is known by the position of the entry that counts. */
  ghost predicate Positions(env: seq<string>, positions: map<string, nat>) {
    && (forall k :: k in positions ==> LastAt(env, k, positions[k]))
    && (forall i :: 0 <= i < |env| && Cut(env[i], '=').found ==> Cut(env[i], '=').before in positions)
  }

  lemma {:induction false} ReplaceLast(env: seq<string>, key: string, i: nat, value: string)
    requires LastAt(env, key, i) && '=' !in key
    ensures EnvMap(env[i := Entry(key, value)]) == EnvMap(env)[key := value]
    ensures Malformed(env[i := Entry(key, value)]) == Malformed(env)
  {
    hide Cut, Entry, EnvMap, Malformed;
    var n := |env| - 1;
    var rest, out := env[..n], env[i := Entry(key, value)];
    assert env == rest + [env[n]];
    MapOne(rest, env[n]);
    if i == n {
      assert out == rest + [Entry(key, value)];
      OneEntry(rest, key, value);
    } else {
      var changed := rest[i := Entry(key, value)];
      assert out == changed + [env[n]] && LastAt(rest, key, i) && !Names(env[n], key);
      ReplaceLast(rest, key, i, value);
      MapOne(changed, env[n]);
    }
  }

  /** An old entry changes only where it counted, to the new value; a new entry is of a key not there before. */
  ghost predicate InPlace(base: seq<string>, overlay: map<string, string>, out: seq<string>) {
    && |out| >= |base|
    && (forall i :: 0 <= i < |base| && out[i] != base[i] ==> Replaces(base, overlay, i, out[i]))
    && (forall i :: |base| <= i < |out| ==> Adds(base, overlay, out[i]))
  }

  ghost predicate Replaces(base: seq<string>, overlay: map<string, string>, i: int, entry: string) {
    exists k :: k in overlay && LastAt(base, k, i) && entry == Entry(k, overlay[k])
  }

  ghost predicate Adds(base: seq<string>, overlay: map<string, string>, entry: string) {
    exists k :: k in overlay && k !in EnvMap(base) && entry == Entry(k, overlay[k])
  }

  lemma NewInPlace(base: seq<string>, overlay: map<string, string>, out: seq<string>, key: string)
    requires InPlace(base, overlay, out) && key in overlay && key !in EnvMap(base)
    ensures InPlace(base, overlay, out + [Entry(key, overlay[key])])
  {
  }

  lemma OldInPlace(base: seq<string>, overlay: map<string, string>, out: seq<string>, key: string, at: nat)
    requires InPlace(base, overlay, out) && key in overlay && LastAt(base, key, at)
    ensures at < |out| && InPlace(base, overlay, out[at := Entry(key, overlay[key])])
  {
  }

  /** Where the merge will put the keys that are left: at the position that counts, if there is one. */
  ghost predicate Placed(out: seq<string>, positions: map<string, nat>, left: seq<string>) {
    && Distinct(left) && (forall k :: k in left ==> '=' !in k)
    && (forall k :: k in left && k in positions ==> LastAt(out, k, positions[k]))
  }

  lemma PlacedNext(out: seq<string>, positions: map<string, nat>, left: seq<string>, entry: string)
    requires Placed(out, positions, left) && left != [] && Cut(entry, '=').found && Cut(entry, '=').before == left[0]
    ensures Placed(out + [entry], positions, left[1..])
    ensures left[0] in positions ==>
      positions[left[0]] < |out| && Placed(out[positions[left[0]] := entry], positions, left[1..])
  {
    hide Cut;
    assert forall i :: 0 <= i < |left[1..]| ==> left[1..][i] == left[i + 1] && left[i + 1] != left[0];
  }

  /** The merge so far: `done` has been merged, `left` is still to come. */
  ghost predicate Merging(base: seq<string>, overlay: map<string, string>, positions: map<string, nat>,
                          done: map<string, string>, left: seq<string>, out: seq<string>)
  {
    && Placed(out, positions, left) && InPlace(base, overlay, out)
    && EnvMap(out) == EnvMap(base) + done && Malformed(out) == Malformed(base)
    && (forall k :: k in left ==> k in overlay)
  }

  lemma MergeStarts(base: seq<string>, overlay: map<string, string>, positions: map<string, nat>, keys: seq<string>)
    requires Positions(base, positions) && SortedKeysOf(keys, overlay) && forall k :: k in overlay ==> '=' !in k
    ensures Merging(base, overlay, positions, map[], keys, base)
  {
  }

  lemma MergeOne(base: seq<string>, overlay: map<string, string>, positions: map<string, nat>,
                 done: map<string, string>, left: seq<string>, out: seq<string>)
    requires Merging(base, overlay, positions, done, left, out) && left != []
    requires Positions(base, positions) && positions.Keys == EnvMap(base).Keys
    ensures var key := left[0];
      && key in overlay && (key in positions ==> positions[key] < |out|)
      && Merging(base, overlay, positions, done[key := overlay[key]], left[1..],
                 if key in positions then out[positions[key] := Entry(key, overlay[key])]
                 else out + [Entry(key, overlay[key])])
  {
    hide EnvMap, Malformed, Cut, Entry, InPlace, Placed, LastAt;
    var key := left[0];
    assert key in left;
    var value := overlay[key];
    PlacedFacts(out, positions, left);
    OneEntry(out, key, value);
    PlacedNext(out, positions, left, Entry(key, value));
    assert EnvMap(base) + done[key := value] == (EnvMap(base) + done)[key := value];
    if key in positions {
      OldInPlace(base, overlay, out, key, positions[key]);
      ReplaceLast(out, key, positions[key], value);
    } else {
      NewInPlace(base, overlay, out, key);
    }
  }

  lemma PlacedFacts(out: seq<string>, positions: map<string, nat>, left: seq<string>)
    requires Placed(out, positions, left) && left != []
    ensures '=' !in left[0] && (left[0] in positions ==> LastAt(out, left[0], positions[left[0]]))
  {
  }

  lemma MergeEnds(base: seq<string>, overlay: map<string, string>, positions: map<string, nat>,
      done: map<string, string>, out: seq<string>)
    requires Merging(base, overlay, positions, done, [], out)
    ensures EnvMap(out) == EnvMap(base) + done && Malformed(out) == Malformed(base) && InPlace(base, overlay, out)
  {
  }

  /** The command line's merge: entries that count are replaced in place, new keys are appended. */
  method MergeEnvInPlace(base: seq<string>, overlay: map<string, string>) returns (out: seq<string>)
    requires forall k :: k in overlay ==> '=' !in k
    ensures EnvMap(out) == EnvMap(base) + overlay && Malformed(out) == Malformed(base)
    ensures InPlace(base, overlay, out)
  {
    hide EnvMap, Malformed, Positions, InPlace, Merging, Entry, SortedBy, Distinct;
    var positions := IndexKeys(base);
    var keys := SortedKeys(overlay.Keys);
    out := base;
    MergeStarts(base, overlay, positions, keys);
    ghost var done: map<string, string> := map[];
    assert keys[0..] == keys;
    for n := 0 to |keys|
      invariant done.Keys == (set k | k in keys[..n]) && forall k :: k in done ==> k in overlay && done[k] == overlay[k]
      invariant Merging(base, overlay, positions, done, keys[n..], out)
    {
      var key := keys[n];
      MergeOne(base, overlay, positions, done, keys[n..], out);
      assert keys[n..][1..] == keys[n + 1..] && keys[..n + 1] == keys[..n] + [key];
      out := if key in positions then out[positions[key] := Entry(key, overlay[key])]
        else out + [Entry(key, overlay[key])];
      done := done[key := overlay[key]];
    }
    assert keys[|keys|..] == [] && keys[..|keys|] == keys && done == overlay;
    MergeEnds(base, overlay, positions, done, out);
  }

  lemma PositionsMore(env: seq<string>, positions: map<string, nat>, entry: string)
    requires Positions(env, positions)
    ensures Positions(env + [entry],
                      if Cut(entry, '=').found then positions[Cut(entry, '=').before := |env|] else positions)
  {
    hide Cut;
  }

  method IndexKeys(env: seq<string>) returns (positions: map<string, nat>)
    ensures Positions(env, positions) && positions.Keys == EnvMap(env).Keys
  {
    hide Cut, Positions, EnvMap;
    positions := map[];
    NoPositions();
    for n := 0 to |env|
      invariant Positions(env[..n], positions) && positions.Keys == EnvMap(env[..n]).Keys
    {
      assert env[..n + 1] == env[..n] + [env[n]];
      PositionsMore(env[..n], positions, env[n]);
      MapOne(env[..n], env[n]);
      var cut := Cut(env[n], '=');
      if cut.found { positions := positions[cut.before := n]; }
    }
    assert env[..|env|] == env;
  }

  lemma NoPositions()
    ensures Positions([], map[]) && EnvMap([]) == map[]
  {
  }
}
