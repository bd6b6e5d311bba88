/** The string operations of the Go standard library that the modelled code relies on. */
module Text {

  /** White space in the sense of Go's unicode.IsSpace. */
  predicate IsSpace(c: char) {
    || '\U{0009}' <= c <= '\U{000D}'
    || c in {' ', '\U{0085}', '\U{00A0}', '\U{1680}', '\U{2028}', '\U{2029}', '\U{202F}', '\U{205F}', '\U{3000}'}
    || '\U{2000}' <= c <= '\U{200A}'
  }

  function TrimLeft(s: string): string {
    if s != [] && IsSpace(s[0]) then TrimLeft(s[1..]) else s
  }

  function TrimRight(s: string): string {
    if s != [] && IsSpace(s[|s| - 1]) then TrimRight(s[..|s| - 1]) else s
  }

  function TrimSpace(s: string): string {
    TrimRight(TrimLeft(s))
  }

  predicate Trimmed(s: string) {
    s == [] || (!IsSpace(s[0]) && !IsSpace(s[|s| - 1]))
  }

  lemma {:induction false} TrimRightKeeps(s: string)
    ensures var r := TrimRight(s); r == [] || (!IsSpace(r[|r| - 1]) && r[0] == s[0])
  {
    if s != [] && IsSpace(s[|s| - 1]) {
      TrimRightKeeps(s[..|s| - 1]);
    }
  }

  lemma {:induction false} TrimLeftKeeps(s: string)
    ensures var r := TrimLeft(s); r == [] || !IsSpace(r[0])
  {
    if s != [] && IsSpace(s[0]) {
      TrimLeftKeeps(s[1..]);
    }
  }

  /** Trimming leaves exactly the trimmed strings alone, and always produces one. */
  lemma TrimFixed(s: string)
    ensures Trimmed(TrimSpace(s))
    ensures TrimSpace(s) == s <==> Trimmed(s)
  {
    TrimLeftKeeps(s);
    TrimRightKeeps(TrimLeft(s));
  }

  predicate HasPrefix(s: string, prefix: string) {
    prefix <= s
  }

  /** strings.Split for a one-character separator. */
  function Split(s: string, sep: char): (parts: seq<string>)
    ensures |parts| >= 1
    ensures forall p :: p in parts ==> sep !in p
  {
    if s == [] then [""]
    else
      var rest := Split(s[1..], sep);
      if s[0] == sep then [""] + rest
      else [[s[0]] + rest[0]] + rest[1..]
  }

  lemma {:induction false} SplitWord(s: string, sep: char)
    requires sep !in s
    ensures Split(s, sep) == [s]
  {
    if s != [] {
      SplitWord(s[1..], sep);
      assert s[0] != sep && [s[0]] + s[1..] == s;
    }
  }

  lemma {:induction false} SplitJoin(a: string, sep: char, b: string)
    requires sep !in a
    ensures Split(a + [sep] + b, sep) == [a] + Split(b, sep)
  {
    var s := a + [sep] + b;
    if a == [] {
      assert s[1..] == b;
    } else {
      assert s[1..] == a[1..] + [sep] + b;
      SplitJoin(a[1..], sep, b);
      assert s[0] == a[0] != sep && [a[0]] + a[1..] == a;
      assert ([a[1..]] + Split(b, sep))[1..] == Split(b, sep);
    }
  }

  /** The first part of a split, and what is split after it. */
  lemma {:induction false} SplitFirst(s: string, sep: char)
    ensures var parts := Split(s, sep);
      if |parts| == 1 then s == parts[0]
      else
        && |parts[0]| < |s| && s == parts[0] + [sep] + s[|parts[0]| + 1..]
        && Split(s[|parts[0]| + 1..], sep) == parts[1..]
  {
    if s != [] {
      SplitFirst(s[1..], sep);
      var parts, rest := Split(s, sep), Split(s[1..], sep);
      if s[0] == sep {
        assert parts[1..] == rest;
      } else {
        assert parts[1..] == rest[1..] && s == [s[0]] + s[1..];
        assert |rest| > 1 ==> s[|parts[0]| + 1..] == s[1..][|rest[0]| + 1..];
      }
    }
  }

  /** The text before and after the first separator, as strings.Cut returns them. */
  datatype CutResult = CutResult(before: string, after: string, found: bool)

  function Cut(s: string, sep: char): (r: CutResult)
    ensures sep !in r.before
    ensures r.found <==> sep in s
    ensures if r.found then s == r.before + [sep] + r.after else r.before == s && r.after == ""
  {
    if s == [] then CutResult("", "", false)
    else if s[0] == sep then CutResult("", s[1..], true)
    else
      var r := Cut(s[1..], sep);
      CutResult([s[0]] + r.before, r.after, r.found)
  }

  lemma {:induction false} CutUnique(before: string, sep: char, after: string)
    requires sep !in before
    ensures Cut(before + [sep] + after, sep) == CutResult(before, after, true)
  {
    var s := before + [sep] + after;
    if before == [] {
      assert s[1..] == after;
    } else {
      assert s[1..] == before[1..] + [sep] + after;
      CutUnique(before[1..], sep, after);
    }
  }
}
