/**
 Printing an argument vector so that it can be read again. The reader follows POSIX.1-2024 Shell
 Command Language, sections 2.2.1 to 2.2.4, with the \u and \U escapes that bash adds; it refuses text
 with other special characters outside quotes, or an escape or a mixture no printer here writes. Two
 options of its dialect make it a shell: escapes stand for bytes, and words that a shell does not take
 as they are are refused as well: comments (section 2.3), home directories (2.6.1), assignments (2.10.2)
 and reserved words (2.4). A shell here is one that follows those sections, or bash, reading a script in
 a UTF-8 locale without aliases. A word is refused if either does not take it as it is, or leaves that
 open or to the accounts there are. What a command name is looked up as is not part of reading.
 */
module ShellWords {
  import opened Common
  import opened Text

  /** A character of a word, or a single byte that is not a character. */
  datatype Unit = Ch(c: char) | Raw(byte: nat)

  type Word = seq<Unit>

  /**
   With `bytes`, \x above 7F stands for a byte. With `expands`, what is not an argument as it stands is
   refused; without, only quotes, escapes and blanks count.
   */
  datatype Dialect = Dialect(bytes: bool, expands: bool)

  const QUOTING := Dialect(false, false)
  const SHELL := Dialect(true, true)

  datatype Mode = Plain | Single | Double | Ansi

  function UnitsOf(s: string): (w: Word)
    ensures |w| == |s| && forall i :: 0 <= i < |s| ==> w[i] == Ch(s[i])
  {
    seq(|s|, i requires 0 <= i < |s| => Ch(s[i]))
  }

  function WordsOf(argv: seq<string>): (words: seq<Word>)
    ensures |words| == |argv| && forall i :: 0 <= i < |argv| ==> words[i] == UnitsOf(argv[i])
  {
    seq(|argv|, i requires 0 <= i < |argv| => UnitsOf(argv[i]))
  }

  // ---- hexadecimal ----

  function HexDigit(n: nat): char
    requires n < 16
  {
    if n < 10 then '0' + n as char else 'A' + (n - 10) as char
  }

  function HexValue(c: char): Option<nat> {
    if '0' <= c <= '9' then Some(c as int - '0' as int)
    else if 'A' <= c <= 'F' then Some(c as int - 'A' as int + 10)
    else if 'a' <= c <= 'f' then Some(c as int - 'a' as int + 10)
    else None
  }

  function Hex(n: nat, width: nat): (s: string)
    ensures |s| == width
  {
    if width == 0 then "" else Hex(n / 16, width - 1) + [HexDigit(n % 16)]
  }

  function ReadHex(s: string): Option<nat> {
    if s == "" then Some(0)
    else match (ReadHex(s[..|s| - 1]), HexValue(s[|s| - 1]))
      case (Some(high), Some(low)) => Some(16 * high + low)
      case _ => None
  }

  function Power16(width: nat): nat {
    if width == 0 then 1 else 16 * Power16(width - 1)
  }

  lemma {:induction false} HexReads(n: nat, width: nat)
    requires n < Power16(width)
    ensures ReadHex(Hex(n, width)) == Some(n)
  {
    if width > 0 {
      HexReads(n / 16, width - 1);
      var s := Hex(n, width);
      assert s[..width - 1] == Hex(n / 16, width - 1) && s[width - 1] == HexDigit(n % 16);
    }
  }

  // ---- the reader ----

  predicate IsScalar(n: nat) {
    n < 0xD800 || 0xE000 <= n < 0x110000
  }

  /**
   Section 2.2 lists what must be quoted; the pattern characters might be expanded, and so might braces
   and the history character by bash.
   */
  predicate Special(c: char) {
    c in {'|', '&', ';', '<', '>', '(', ')', '$', '`', '\n', '*', '?', '[', ']', '{', '}', '!'}
  }

  // ---- how words begin ----

  predicate IsBlank(c: char) {
    c == ' ' || c == '\t'
  }

  predicate IsName(s: string) {
    && s != ""
    && (forall c :: c in s ==> 'a' <= c <= 'z' || 'A' <= c <= 'Z' || '0' <= c <= '9' || c == '_')
    && !('0' <= s[0] <= '9')
  }

  /** The unquoted beginning of a word, and whether the word ends there. */
  datatype Start = Start(text: string, whole: bool)

  function WordStart(s: string): Start
    decreases |s|
  {
    if s == "" || IsBlank(s[0]) then Start("", true)
    else if |s| > 1 && s[0] == '\\' && s[1] == '\n' then WordStart(s[2..])
    else if s[0] in {'\'', '\"', '\\'} || Special(s[0]) then Start("", false)
    else
      var more := WordStart(s[1..]);
      Start([s[0]] + more.text, more.whole)
  }

  function FirstStart(s: string): Start
    decreases |s|
  {
    if s != "" && IsBlank(s[0]) then FirstStart(s[1..])
    else if |s| > 1 && s[0] == '\\' && s[1] == '\n' then FirstStart(s[2..])
    else WordStart(s)
  }

  /** NAME=, as in section 2.10.2, or NAME+=, which bash adds; `i` is where the = stands. */
  predicate AssignsAt(text: string, i: nat) {
    && i < |text| && text[i] == '='
    && (IsName(text[..i]) || (i > 0 && text[i - 1] == '+' && IsName(text[..i - 1])))
  }

  predicate IsAssignment(text: string) {
    exists i: nat :: i < |text| && AssignsAt(text, i)
  }

  /** A home directory in a value: right after the = of an assignment, or after a colon behind it. */
  predicate HasHome(text: string) {
    exists i: nat, k: nat :: i < k < |text| && AssignsAt(text, i) && HomeAt(text, i, k)
  }

  predicate HomeAt(text: string, i: nat, k: nat)
    requires i < k < |text|
  {
    text[k] == '~' && (k == i + 1 || text[k - 1] == ':')
  }

  /**
   A word that is not taken as it stands: a comment, a home directory, or one in what looks like an
   assignment, which bash expands in any word and section 2.9.1.1 after `export` and the like. An
   assignment that goes on in quotes is not followed any further.
   */
  predicate OpensOther(s: string) {
    s != "" &&
    (s[0] in {'#', '~'}
     || HasHome(WordStart(s).text)
     || (!WordStart(s).whole && IsAssignment(WordStart(s).text)))
  }

  /**
   The words of section 2.4, with those it allows a shell to reserve and those bash adds, and names
   with a colon.
   */
  predicate IsReserved(text: string) {
    || text in {"!", "{", "}", "case", "do", "done", "elif", "else", "esac", "fi", "for", "if", "in", "then", "until",
                "while", "function", "namespace", "select", "time", "coproc"}
    || (text != "" && text[|text| - 1] == ':' && IsName(text[..|text| - 1]))
  }

  /** A first word that is not taken for the name of a command. */
  predicate NoCommandName(start: Start) {
    IsAssignment(start.text) || (start.whole && IsReserved(start.text))
  }

  // ---- escapes ----

  function SimpleEscape(c: char): Option<char> {
    match c
    case '\"' => Some('\"')
    case '\'' => Some('\'')
    case '\\' => Some('\\')
    case 'a' => Some('\U{0007}')
    case 'b' => Some('\U{0008}')
    case 'e' => Some('\U{001B}')
    case 'f' => Some('\U{000C}')
    case 'n' => Some('\n')
    case 'r' => Some('\r')
    case 't' => Some('\t')
    case 'v' => Some('\U{000B}')
    case _ => None
  }

  /** How many digits follow this escape letter. */
  function EscapeWidth(c: char): nat {
    match c
    case 'x' => 2
    case 'u' => 4
    case 'U' => 8
    case _ => 0
  }

  /**
   The unit that stands behind a backslash in $'...', and how many characters it took. \x above 7F
   yields a byte, as section 2.2.4 says, or else the character of that number. A byte of 0 would take
   the rest of the quotes with it, so it is refused.
   */
  function ReadEscape(s: string, d: Dialect): (r: Option<(Unit, nat)>)
    ensures r.Some? ==> 1 <= r.value.1 <= |s|
  {
    if s == "" then None
    else if SimpleEscape(s[0]).Some? then Some((Ch(SimpleEscape(s[0]).value), 1))
    else
      var width := EscapeWidth(s[0]);
      if width == 0 || |s| < 1 + width then None
      else match ReadHex(s[1..1 + width])
        case None => None
        case Some(n) =>
          if d.bytes && n == 0 then None
          else if s[0] == 'x' && d.bytes && n >= 0x80 then Some((Raw(n), 1 + width))
          else if IsScalar(n) then Some((Ch(n as char), 1 + width))
          else None
  }

  function Put(cur: Option<Word>, u: Unit): Option<Word> {
    Some((if cur.Some? then cur.value else []) + [u])
  }

  function Begin(cur: Option<Word>): Option<Word> {
    if cur.Some? then cur else Some([])
  }

  /** The character that stands for no byte in an argument. */
  predicate Nul(c: char, d: Dialect) {
    d.bytes && c == '\0'
  }

  predicate HasNul(v: string, d: Dialect) {
    exists c :: c in v && Nul(c, d)
  }

  // ---- words ----

  /** The words of `s`, given the word that has been begun. */
  function Read(s: string, mode: Mode, cur: Option<Word>, d: Dialect): Option<seq<Word>>
    decreases |s|
  {
    if s == "" then
      if mode != Plain then None else Some(if cur.Some? then [cur.value] else [])
    else
      var c, rest := s[0], s[1..];
      match mode
      case Plain =>
        if c == ' ' || c == '\t' then
          (if cur.None? then Read(rest, Plain, None, d)
           else match Read(rest, Plain, None, d)
             case None => None
             case Some(words) => Some([cur.value] + words))
        else if c == '\'' then Read(rest, Single, Begin(cur), d)
        else if c == '\"' then Read(rest, Double, Begin(cur), d)
        else if c == '$' && rest != "" && rest[0] == '\'' then Read(rest[1..], Ansi, Begin(cur), d)
        else if c == '\\' then
          (if rest == "" then None
           else if rest[0] == '\n' then Read(rest[1..], Plain, cur, d)
           else Read(rest[1..], Plain, Put(cur, Ch(rest[0])), d))
        else if Special(c) || (d.expands && cur.None? && OpensOther(s)) then None
        else Read(rest, Plain, Put(cur, Ch(c)), d)
      case Single =>
        if c == '\'' then Read(rest, Plain, cur, d) else Read(rest, Single, Put(cur, Ch(c)), d)
      case Double =>
        if c == '\"' then Read(rest, Plain, cur, d)
        else if c in {'$', '`', '!'} then None
        else if c == '\\' && rest != "" && rest[0] in {'$', '`', '\"', '\\', '\n'} then
          Read(rest[1..], Double, if rest[0] == '\n' then cur else Put(cur, Ch(rest[0])), d)
        else Read(rest, Double, Put(cur, Ch(c)), d)
      case Ansi =>
        if c == '\'' then Read(rest, Plain, cur, d)
        else if c == '\\' then
          match ReadEscape(rest, d)
          case None => None
          case Some((u, n)) => Read(rest[n..], Ansi, Put(cur, u), d)
        else Read(rest, Ansi, Put(cur, Ch(c)), d)
  }

  /** Text with a NUL is no text for a shell. */
  function ReadWords(s: string, d: Dialect): Option<seq<Word>> {
    if HasNul(s, d) || (d.expands && NoCommandName(FirstStart(s))) then None else Read(s, Plain, None, d)
  }

  // ---- the printers ----

  function Joined(words: seq<string>): string {
    if words == [] then ""
    else if |words| == 1 then words[0]
    else words[0] + " " + Joined(words[1..])
  }

  /** A string with every single quote replaced. */
  function ReplaceQuotes(s: string, quote: string): string {
    if s == "" then "" else (if s[0] == '\'' then quote else [s[0]]) + ReplaceQuotes(s[1..], quote)
  }

  const GO_QUOTE := "'\"'\"'"
  const SWIFT_QUOTE := "'\\''"

  function ShellSingleQuote(value: string): string {
    "'" + ReplaceQuotes(value, GO_QUOTE) + "'"
  }

  function ShellQuoteArgs(argv: seq<string>): string {
    Joined(seq(|argv|, i requires 0 <= i < |argv| => ShellSingleQuote(argv[i])))
  }

  predicate IsShellMetacharacter(c: char) {
    c in {'|', '&', ';', '<', '>', '(', ')', '$', '`', '\\', '\"', '\'', '*', '!', '?', '[', ']', '{', '}'}
  }

  /** `unsafe` says which scalars have a general category that is never shown literally. */
  predicate RequiresAnsi(unsafe: char -> bool, c: char) {
    c as int < 32 || c as int == 127 || unsafe(c)
  }

  predicate CanDisplayBare(value: string) {
    forall c :: c in value ==> !IsSpace(c) && !IsShellMetacharacter(c)
  }

  predicate IsPrintableLiteral(unsafe: char -> bool, c: char) {
    var v := c as int;
    !unsafe(c) && (32 <= v <= 38 || 40 <= v <= 91 || 93 <= v <= 126 || v >= 128)
  }

  function UnicodeEscape(c: char): string {
    var v := c as int;
    if v <= 0xFF then "\\x" + Hex(v, 2) else if v <= 0xFFFF then "\\u" + Hex(v, 4) else "\\U" + Hex(v, 8)
  }

  function AnsiEscape(unsafe: char -> bool, c: char): string {
    match c as int
    case 7 => "\\a"
    case 8 => "\\b"
    case 9 => "\\t"
    case 10 => "\\n"
    case 13 => "\\r"
    case 27 => "\\e"
    case 39 => "\\'"
    case 92 => "\\\\"
    case _ => if IsPrintableLiteral(unsafe, c) then [c] else UnicodeEscape(c)
  }

  function AnsiCEscaped(unsafe: char -> bool, value: string): string {
    if value == "" then "" else AnsiEscape(unsafe, value[0]) + AnsiCEscaped(unsafe, value[1..])
  }

  function ShellEscaped(unsafe: char -> bool, value: string): string {
    if value == "" then "''"
    else if exists c :: c in value && RequiresAnsi(unsafe, c) then "$'" + AnsiCEscaped(unsafe, value) + "'"
    else if CanDisplayBare(value) then value
    else "'" + ReplaceQuotes(value, SWIFT_QUOTE) + "'"
  }

  const UNKNOWN_COMMAND := "unknown command"

  function CommandDisplay(unsafe: char -> bool, argv: seq<string>): string {
    if argv == [] then UNKNOWN_COMMAND
    else Joined(seq(|argv|, i requires 0 <= i < |argv| => ShellEscaped(unsafe, argv[i])))
  }

  method QuoteArgs(argv: seq<string>) returns (out: string)
    ensures out == ShellQuoteArgs(argv)
  {
    hide ShellSingleQuote, Joined;
    ghost var quoted := seq(|argv|, i requires 0 <= i < |argv| => ShellSingleQuote(argv[i]));
    out := "";
    JoinedNone();
    assert quoted[..0] == [];
    for n := 0 to |argv|
      invariant out == Joined(quoted[..n])
    {
      JoinedMore(quoted[..n], quoted[n]);
      assert quoted[..n + 1] == quoted[..n] + [quoted[n]];
      if n > 0 { out := out + " "; }
      out := out + ShellSingleQuote(argv[n]);
    }
    assert quoted[..|argv|] == quoted;
  }

  lemma JoinedNone()
    ensures Joined([]) == ""
  {
  }

  lemma {:induction false} JoinedMore(words: seq<string>, w: string)
    ensures Joined(words + [w]) == if words == [] then w else Joined(words) + " " + w
  {
    if |words| > 1 {
      JoinedMore(words[1..], w);
      assert (words + [w])[1..] == words[1..] + [w];
    } else if |words| == 1 {
      assert (words + [w])[1..] == [w];
    }
  }

  // ---- reading what was printed ----

  // ---- no printer writes a NUL itself, but single quotes keep one ----

  lemma {:induction false} HexNoNul(n: nat, width: nat)
    ensures '\0' !in Hex(n, width)
  {
    if width > 0 { HexNoNul(n / 16, width - 1); }
  }

  lemma AnsiEscapeNoNul(unsafe: char -> bool, c: char)
    ensures '\0' !in AnsiEscape(unsafe, c)
  {
    hide Hex;
    HexNoNul(c as int, 2);
    HexNoNul(c as int, 4);
    HexNoNul(c as int, 8);
  }

  lemma {:induction false} AnsiNoNul(unsafe: char -> bool, v: string)
    ensures '\0' !in AnsiCEscaped(unsafe, v)
  {
    hide AnsiEscape;
    if v != "" {
      AnsiEscapeNoNul(unsafe, v[0]);
      AnsiNoNul(unsafe, v[1..]);
    }
  }

  lemma {:induction false} QuotesKeepNul(v: string, quote: string)
    requires quote in {GO_QUOTE, SWIFT_QUOTE}
    ensures '\0' in ReplaceQuotes(v, quote) <==> '\0' in v
  {
    if v != "" {
      QuotesKeepNul(v[1..], quote);
      assert v == [v[0]] + v[1..];
    }
  }

  lemma EscapedNoNul(unsafe: char -> bool, v: string)
    ensures '\0' !in ShellEscaped(unsafe, v)
  {
    hide AnsiCEscaped, ReplaceQuotes, CanDisplayBare;
    AnsiNoNul(unsafe, v);
    QuotesKeepNul(v, SWIFT_QUOTE);
    assert '\0' in v ==> RequiresAnsi(unsafe, '\0');
  }

  lemma {:induction false} JoinedNul(words: seq<string>)
    ensures '\0' in Joined(words) <==> exists i :: 0 <= i < |words| && '\0' in words[i]
  {
    if |words| > 1 {
      JoinedNul(words[1..]);
      assert forall i :: 0 < i < |words| ==> words[i] == words[1..][i - 1];
    }
  }

  /** The word that has been begun, with more units; nothing begins a word that was not begun. */
  ghost function After(cur: Option<Word>, more: Word): Option<Word> {
    if more == [] then cur else Some((if cur.Some? then cur.value else []) + more)
  }

  lemma ReadSingle(c: char, rest: string, w: Word, d: Dialect)
    ensures Read([c] + rest, Single, Some(w), d) ==
      if c == '\'' then Read(rest, Plain, Some(w), d) else Read(rest, Single, Some(w + [Ch(c)]), d)
  {
  }

  lemma {:induction false} ReadQuoted(v: string, quote: string, rest: string, w: Word, d: Dialect)
    requires quote in {GO_QUOTE, SWIFT_QUOTE}
    ensures Read(ReplaceQuotes(v, quote) + "'" + rest, Single, Some(w), d) == Read(rest, Plain, Some(w + UnitsOf(v)), d)
  {
    hide Read;
    var text := ReplaceQuotes(v, quote) + "'" + rest;
    if v == "" {
      assert text == "'" + rest && w + UnitsOf(v) == w;
      ReadSingle('\'', rest, w, d);
    } else {
      var c, tail := v[0], ReplaceQuotes(v[1..], quote) + "'" + rest;
      ReadQuoted(v[1..], quote, rest, w + [Ch(c)], d);
      assert w + UnitsOf(v) == w + [Ch(c)] + UnitsOf(v[1..]);
      if c != '\'' {
        assert text == [c] + tail;
        ReadSingle(c, tail, w, d);
      } else if quote == SWIFT_QUOTE {
        assert text == SWIFT_QUOTE + tail;
        ReadSwiftQuote(tail, w, d);
      } else {
        assert text == GO_QUOTE + tail;
        ReadGoQuote(tail, w, d);
      }
    }
  }

  lemma ReadSwiftQuote(tail: string, w: Word, d: Dialect)
    ensures Read(SWIFT_QUOTE + tail, Single, Some(w), d) == Read(tail, Single, Some(w + [Ch('\'')]), d)
  {
    var s := SWIFT_QUOTE + tail;
    var s1, s2, s3 := "\\''" + tail, "''" + tail, "'" + tail;
    assert s[1..] == s1 && s1[1..] == s2 && s2[1..] == s3 && s3[1..] == tail;
    var w' := w + [Ch('\'')];
    calc {
      Read(s, Single, Some(w), d);
      Read(s1, Plain, Some(w), d);
      Read(s3, Plain, Some(w'), d);
      Read(tail, Single, Some(w'), d);
    }
  }

  lemma ReadGoQuote(tail: string, w: Word, d: Dialect)
    ensures Read(GO_QUOTE + tail, Single, Some(w), d) == Read(tail, Single, Some(w + [Ch('\'')]), d)
  {
    var s := GO_QUOTE + tail;
    var s1, s2, s3, s4 := "\"'\"'" + tail, "'\"'" + tail, "\"'" + tail, "'" + tail;
    assert s[1..] == s1 && s1[1..] == s2 && s2[1..] == s3 && s3[1..] == s4 && s4[1..] == tail;
    var w' := w + [Ch('\'')];
    calc {
      Read(s, Single, Some(w), d);
      Read(s1, Plain, Some(w), d);
      Read(s2, Double, Some(w), d);
      Read(s3, Double, Some(w'), d);
      Read(s4, Plain, Some(w'), d);
      Read(tail, Single, Some(w'), d);
    }
  }

  lemma ReadPlainChar(c: char, rest: string, cur: Option<Word>, d: Dialect)
    requires !IsSpace(c) && !IsShellMetacharacter(c) && (cur.None? && d.expands ==> !OpensOther([c] + rest))
    ensures Read([c] + rest, Plain, cur, d) == Read(rest, Plain, Put(cur, Ch(c)), d)
  {
  }

  lemma {:induction false} ReadBare(v: string, rest: string, cur: Option<Word>, d: Dialect)
    requires CanDisplayBare(v) && (cur.None? && d.expands ==> !OpensOther(v + rest))
    ensures Read(v + rest, Plain, cur, d) == Read(rest, Plain, After(cur, UnitsOf(v)), d)
  {
    hide Read, IsSpace, IsShellMetacharacter;
    if v == "" {
      assert v + rest == rest;
    } else {
      var c, tail := v[0], v[1..];
      assert c in v && v + rest == [c] + (tail + rest);
      ReadPlainChar(c, tail + rest, cur, d);
      ReadBare(tail, rest, Put(cur, Ch(c)), d);
      AfterPut(cur, v);
    }
  }

  lemma UnitsFirst(v: string)
    requires v != ""
    ensures UnitsOf(v) == [Ch(v[0])] + UnitsOf(v[1..])
  {
  }

  lemma AfterPut(cur: Option<Word>, v: string)
    requires v != ""
    ensures After(Put(cur, Ch(v[0])), UnitsOf(v[1..])) == After(cur, UnitsOf(v))
  {
    hide UnitsOf;
    UnitsFirst(v);
    var begun, more := if cur.Some? then cur.value else [], UnitsOf(v[1..]);
    assert begun + ([Ch(v[0])] + more) == begun + [Ch(v[0])] + more;
    if more == [] { assert begun + [Ch(v[0])] + more == begun + [Ch(v[0])]; }
  }

  // ---- $'...' ----

  lemma ReadNul(unsafe: char -> bool, rest: string, w: Word, d: Dialect)
    requires d.bytes
    ensures Read(AnsiEscape(unsafe, '\0') + rest, Ansi, Some(w), d) == None
  {
    hide Read;
    var tail := "x" + Hex(0, 2) + rest;
    assert AnsiEscape(unsafe, '\0') + rest == "\\" + tail;
    ReadBackslash(tail, w, d);
    assert tail[1..3] == Hex(0, 2);
    PowersOf16();
    HexReads(0, 2);
  }

  /** What the reader makes of a scalar that was printed in $'...'. */
  ghost function AnsiUnit(unsafe: char -> bool, c: char, d: Dialect): Unit {
    if d.bytes && 0x80 <= c as int <= 0xFF && unsafe(c) then Raw(c as int) else Ch(c)
  }

  ghost function AnsiUnits(unsafe: char -> bool, v: string, d: Dialect): (w: Word)
    ensures |w| == |v| && forall i :: 0 <= i < |v| ==> w[i] == AnsiUnit(unsafe, v[i], d)
  {
    seq(|v|, i requires 0 <= i < |v| => AnsiUnit(unsafe, v[i], d))
  }

  lemma ReadHexEscape(letter: char, n: nat, rest: string, d: Dialect)
    requires letter in {'x', 'u', 'U'} && n < Power16(EscapeWidth(letter)) && IsScalar(n)
    requires !(d.bytes && n == 0)
    ensures ReadEscape([letter] + Hex(n, EscapeWidth(letter)) + rest, d) ==
      Some((if letter == 'x' && d.bytes && n >= 0x80 then Raw(n) else Ch(n as char), 1 + EscapeWidth(letter)))
  {
    var width := EscapeWidth(letter);
    var s := [letter] + Hex(n, width) + rest;
    HexReads(n, width);
    assert s[1..1 + width] == Hex(n, width);
  }

  lemma PowersOf16()
    ensures Power16(2) == 0x100 && Power16(4) == 0x1_0000 && Power16(8) == 0x1_0000_0000
  {
  }

  lemma ReadBackslash(tail: string, w: Word, d: Dialect)
    ensures Read("\\" + tail, Ansi, Some(w), d) ==
      match ReadEscape(tail, d)
      case None => None
      case Some((u, n)) => Read(tail[n..], Ansi, Some(w + [u]), d)
  {
    assert ("\\" + tail)[1..] == tail;
  }

  lemma ReadUnicodeEscape(unsafe: char -> bool, c: char, rest: string, w: Word, d: Dialect)
    requires (c as int < 0x80 || c as int > 0xFF || unsafe(c)) && !Nul(c, d)
    ensures Read(UnicodeEscape(c) + rest, Ansi, Some(w), d) == Read(rest, Ansi, Some(w + [AnsiUnit(unsafe, c, d)]), d)
  {
    hide Read, ReadEscape, Hex;
    var v := c as int;
    var letter := if v <= 0xFF then 'x' else if v <= 0xFFFF then 'u' else 'U';
    var width := EscapeWidth(letter);
    PowersOf16();
    var s := UnicodeEscape(c) + rest;
    var tail := [letter] + Hex(v, width) + rest;
    assert s == "\\" + tail;
    ReadBackslash(tail, w, d);
    ReadHexEscape(letter, v, rest, d);
    assert tail[1 + width..] == rest;
  }

  lemma ReadAnsiChar(c: char, rest: string, w: Word, d: Dialect)
    requires c != '\'' && c != '\\'
    ensures Read([c] + rest, Ansi, Some(w), d) == Read(rest, Ansi, Some(w + [Ch(c)]), d)
  {
  }

  lemma ReadAnsiEscape(unsafe: char -> bool, c: char, rest: string, w: Word, d: Dialect)
    ensures Read(AnsiEscape(unsafe, c) + rest, Ansi, Some(w), d) ==
      if Nul(c, d) then None else Read(rest, Ansi, Some(w + [AnsiUnit(unsafe, c, d)]), d)
  {
    hide Read, Hex, UnicodeEscape;
    var text := AnsiEscape(unsafe, c);
    if Nul(c, d) {
      ReadNul(unsafe, rest, w, d);
    } else if c as int in {7, 8, 9, 10, 13, 27, 39, 92} {
      var tail := [text[1]] + rest;
      assert text + rest == "\\" + tail && tail[1..] == rest;
      ReadBackslash(tail, w, d);
    } else if IsPrintableLiteral(unsafe, c) {
      ReadAnsiChar(c, rest, w, d);
    } else {
      ReadUnicodeEscape(unsafe, c, rest, w, d);
    }
  }

  lemma AnsiEnds(rest: string, w: Word, d: Dialect)
    ensures Read("'" + rest, Ansi, Some(w), d) == Read(rest, Plain, Some(w), d)
  {
  }

  lemma AnsiFirst(unsafe: char -> bool, v: string, d: Dialect, w: Word)
    requires v != ""
    ensures w + AnsiUnits(unsafe, v, d) == w + [AnsiUnit(unsafe, v[0], d)] + AnsiUnits(unsafe, v[1..], d)
  {
  }

  lemma {:induction false} ReadAnsi(unsafe: char -> bool, v: string, rest: string, w: Word, d: Dialect)
    ensures Read(AnsiCEscaped(unsafe, v) + "'" + rest, Ansi, Some(w), d) ==
      if HasNul(v, d) then None else Read(rest, Plain, Some(w + AnsiUnits(unsafe, v, d)), d)
  {
    hide AnsiEscape, Read, AnsiUnit;
    var text := AnsiCEscaped(unsafe, v) + "'" + rest;
    if v == "" {
      assert text == "'" + rest && w + AnsiUnits(unsafe, v, d) == w;
      AnsiEnds(rest, w, d);
    } else {
      var tail := AnsiCEscaped(unsafe, v[1..]) + "'" + rest;
      assert text == AnsiEscape(unsafe, v[0]) + tail;
      assert HasNul(v, d) <==> Nul(v[0], d) || HasNul(v[1..], d);
      ReadAnsiEscape(unsafe, v[0], tail, w, d);
      ReadAnsi(unsafe, v[1..], rest, w + [AnsiUnit(unsafe, v[0], d)], d);
      AnsiFirst(unsafe, v, d, w);
    }
  }

  // ---- whole arguments and whole commands ----

  /** The units a reader finds for an argument of a displayed command. */
  ghost function DisplayedUnits(unsafe: char -> bool, v: string, d: Dialect): Word {
    if exists c :: c in v && RequiresAnsi(unsafe, c) then AnsiUnits(unsafe, v, d) else UnitsOf(v)
  }

  lemma ReadEmptyQuotes(rest: string, d: Dialect)
    ensures Read("''" + rest, Plain, None, d) == Read(rest, Plain, Some([]), d)
  {
  }

  lemma ReadAnsiQuoted(unsafe: char -> bool, v: string, rest: string, d: Dialect)
    ensures Read("$'" + AnsiCEscaped(unsafe, v) + "'" + rest, Plain, None, d) ==
      if HasNul(v, d) then None else Read(rest, Plain, Some(AnsiUnits(unsafe, v, d)), d)
  {
    hide AnsiCEscaped;
    var inner := AnsiCEscaped(unsafe, v) + "'" + rest;
    var text, quoted := "$'" + AnsiCEscaped(unsafe, v) + "'" + rest, "'" + inner;
    assert text == "$" + quoted && text[1..] == quoted && quoted[1..] == inner;
    ReadAnsi(unsafe, v, rest, [], d);
    assert [] + AnsiUnits(unsafe, v, d) == AnsiUnits(unsafe, v, d);
  }

  ghost predicate ShownBare(unsafe: char -> bool, v: string) {
    v != "" && !(exists c :: c in v && RequiresAnsi(unsafe, c)) && CanDisplayBare(v)
  }

  /** Shown without quotes, though it begins like something else, or holds a home directory. */
  ghost predicate Mistaken(unsafe: char -> bool, v: string) {
    ShownBare(unsafe, v) && (v[0] in {'#', '~'} || HasHome(v))
  }

  /** What a reader has begun after a displayed argument, or nothing if it refuses that. */
  ghost function DisplayedWord(unsafe: char -> bool, v: string, d: Dialect): Option<Word> {
    if (d.expands && Mistaken(unsafe, v)) || HasNul(v, d) then None else Some(DisplayedUnits(unsafe, v, d))
  }

  /** After an argument the next one, or nothing. */
  ghost predicate Follows(rest: string) {
    rest == "" || IsBlank(rest[0])
  }

  lemma ReadShellEscaped(unsafe: char -> bool, v: string, rest: string, d: Dialect)
    requires d.expands && ShownBare(unsafe, v) ==> Follows(rest)
    ensures Read(ShellEscaped(unsafe, v) + rest, Plain, None, d) ==
      match DisplayedWord(unsafe, v, d)
      case None => None
      case Some(word) => Read(rest, Plain, Some(word), d)
  {
    hide CanDisplayBare, Read, AnsiCEscaped, ReplaceQuotes, OpensOther;
    if v == "" {
      ReadEmptyQuotes(rest, d);
      assert UnitsOf(v) == [];
    } else if exists c :: c in v && RequiresAnsi(unsafe, c) {
      ReadAnsiQuoted(unsafe, v, rest, d);
    } else {
      assert !HasNul(v, d);
      hide RequiresAnsi;
      if CanDisplayBare(v) {
        if d.expands {
          BareOpens(v, rest);
          BareBegins(v);
        }
        if d.expands && Mistaken(unsafe, v) {
          ReadRefused(v + rest, d);
        } else {
          ReadBare(v, rest, None, d);
          assert [] + UnitsOf(v) == UnitsOf(v);
        }
      } else {
        ReadSingleQuoted(v, SWIFT_QUOTE, rest, d);
      }
    }
  }

  lemma {:induction false} BareStart(v: string, rest: string)
    requires CanDisplayBare(v) && Follows(rest)
    ensures WordStart(v + rest) == Start(v, true)
  {
    if v == "" {
      assert v + rest == rest;
    } else {
      assert v[0] in v && (v + rest)[1..] == v[1..] + rest;
      BareStart(v[1..], rest);
    }
  }

  lemma BareOpens(v: string, rest: string)
    requires v != "" && CanDisplayBare(v) && Follows(rest)
    ensures OpensOther(v + rest) <==> v[0] in {'#', '~'} || HasHome(v)
  {
    hide CanDisplayBare, HasHome;
    BareStart(v, rest);
  }

  lemma ReadRefused(s: string, d: Dialect)
    requires s != "" && OpensOther(s) && d.expands && !IsBlank(s[0]) && s[0] !in {'\'', '\"', '$', '\\'}
    ensures Read(s, Plain, None, d) == None
  {
  }

  lemma ReadSingleQuoted(v: string, quote: string, rest: string, d: Dialect)
    requires quote in {GO_QUOTE, SWIFT_QUOTE}
    ensures Read("'" + ReplaceQuotes(v, quote) + "'" + rest, Plain, None, d) == Read(rest, Plain, Some(UnitsOf(v)), d)
  {
    var inner := ReplaceQuotes(v, quote) + "'" + rest;
    var text := "'" + ReplaceQuotes(v, quote) + "'" + rest;
    assert text == "'" + inner && text[1..] == inner;
    ReadQuoted(v, quote, rest, [], d);
    assert [] + UnitsOf(v) == UnitsOf(v);
  }

  /** All words, or nothing if one was refused. */
  function AllRead(words: seq<Option<Word>>): Option<seq<Word>> {
    if words == [] then Some([])
    else match (words[0], AllRead(words[1..]))
      case (Some(first), Some(more)) => Some([first] + more)
      case _ => None
  }

  lemma {:induction false} AllReadExactly(words: seq<Option<Word>>, plain: seq<Word>)
    requires |words| == |plain|
    ensures AllRead(words) == Some(plain) <==> forall i :: 0 <= i < |words| ==> words[i] == Some(plain[i])
  {
    if words != [] {
      AllReadExactly(words[1..], plain[1..]);
      assert plain == [plain[0]] + plain[1..];
      assert forall i :: 0 < i < |words| ==> words[i] == words[1..][i - 1] && plain[i] == plain[1..][i - 1];
    }
  }

  /** Arguments that are each read on their own, joined by blanks, are read together. */
  lemma {:induction false} ReadJoined(printed: seq<string>, words: seq<Option<Word>>, d: Dialect)
    requires |printed| == |words|
    requires forall i, rest :: 0 <= i < |printed| && Follows(rest) ==>
      Read(printed[i] + rest, Plain, None, d) == if words[i].None? then None else Read(rest, Plain, words[i], d)
    ensures Read(Joined(printed), Plain, None, d) == AllRead(words)
  {
    if |printed| == 1 {
      assert Follows("");
      assert Read(printed[0] + "", Plain, None, d) == if words[0].None? then None else Read("", Plain, words[0], d);
      assert printed[0] + "" == printed[0] && words[1..] == [] && AllRead([]) == Some([]);
      if words[0].Some? { assert [words[0].value] + [] == [words[0].value]; }
    } else if |printed| > 1 {
      ReadJoined(printed[1..], words[1..], d);
      var tail := Joined(printed[1..]);
      assert Joined(printed) == printed[0] + (" " + tail) && (" " + tail)[1..] == tail;
      assert Follows(" " + tail);
    }
  }

  /** How a displayed command begins. */
  lemma DisplayStart(unsafe: char -> bool, v: string, rest: string)
    requires Follows(rest)
    ensures FirstStart(ShellEscaped(unsafe, v) + rest) == if ShownBare(unsafe, v) then Start(v, true)
      else Start("", false)
  {
    hide CanDisplayBare, AnsiCEscaped, ReplaceQuotes, RequiresAnsi;
    if ShownBare(unsafe, v) {
      BareStart(v, rest);
      BareBegins(v);
    }
  }

  lemma BareBegins(v: string)
    requires CanDisplayBare(v) && v != ""
    ensures !IsBlank(v[0]) && v[0] !in {'\'', '\"', '$', '\\'}
  {
    assert v[0] in v;
  }

  ghost function DisplayedWords(unsafe: char -> bool, argv: seq<string>, d: Dialect): (words: seq<Option<Word>>)
    ensures |words| == |argv| && forall i :: 0 <= i < |argv| ==> words[i] == DisplayedWord(unsafe, argv[i], d)
  {
    seq(|argv|, i requires 0 <= i < |argv| => DisplayedWord(unsafe, argv[i], d))
  }

  /** Shown without quotes as the first word, where a shell does not take it for a command. */
  ghost predicate MistakenFirst(unsafe: char -> bool, v: string) {
    ShownBare(unsafe, v) && NoCommandName(Start(v, true))
  }

  lemma ReadCommandDisplay(unsafe: char -> bool, argv: seq<string>, d: Dialect)
    requires argv != []
    ensures ReadWords(CommandDisplay(unsafe, argv), d) ==
      if d.expands && MistakenFirst(unsafe, argv[0]) then None else AllRead(DisplayedWords(unsafe, argv, d))
  {
    hide Read, ShellEscaped, DisplayedUnits, ShownBare, IsAssignment, IsReserved, FirstStart;
    var printed := seq(|argv|, i requires 0 <= i < |argv| => ShellEscaped(unsafe, argv[i]));
    var words := DisplayedWords(unsafe, argv, d);
    forall i, rest | 0 <= i < |argv| && Follows(rest)
      ensures Read(printed[i] + rest, Plain, None, d) == if words[i].None? then None else Read(rest, Plain, words[i], d)
    {
      ReadShellEscaped(unsafe, argv[i], rest, d);
    }
    forall i | 0 <= i < |argv|
      ensures '\0' !in printed[i]
    {
      EscapedNoNul(unsafe, argv[i]);
    }
    ReadJoined(printed, words, d);
    JoinedNul(printed);
    var rest := if |argv| == 1 then "" else " " + Joined(printed[1..]);
    assert Joined(printed) == printed[0] + rest;
    DisplayStart(unsafe, argv[0], rest);
    NothingIsCommandName();
  }

  lemma NothingIsCommandName()
    ensures !NoCommandName(Start("", false)) && !NoCommandName(Start("", true))
  {
  }

  /**
   Scalars of U+0080 to U+00FF that are escaped are written as one byte, which is not their encoding;
   and no argument can hold a NUL.
   */
  ghost predicate SurvivesAsBytes(unsafe: char -> bool, argv: seq<string>) {
    forall i, c :: 0 <= i < |argv| && c in argv[i] ==> !LostAsByte(unsafe, c)
  }

  ghost predicate LostAsByte(unsafe: char -> bool, c: char) {
    c == '\0' || (0x80 <= c as int <= 0xFF && unsafe(c))
  }

  /** No argument is shown without quotes where a shell takes it for something else. */
  ghost predicate TakenAsShown(unsafe: char -> bool, argv: seq<string>)
    requires argv != []
  {
    !MistakenFirst(unsafe, argv[0]) && forall i :: 0 <= i < |argv| ==> !Mistaken(unsafe, argv[i])
  }

  /**
   A displayed command gives back its arguments exactly when no argument is shown bare that begins with
   # or ~ or has an unquoted ~ in the value of an assignment, the first one is not shown bare as an
   assignment or a reserved word, and none holds a NUL or an escaped scalar of U+0080 to U+00FF; the last
   two only where escapes stand for bytes, the others only where more than quotes count. SHELL counts
   both, with the sections named at the head of this module.
   */
  lemma DisplayReadsBackExactly(unsafe: char -> bool, argv: seq<string>, d: Dialect)
    requires argv != []
    ensures ReadWords(CommandDisplay(unsafe, argv), d) == Some(WordsOf(argv)) <==>
      (d.expands ==> TakenAsShown(unsafe, argv)) && (d.bytes ==> SurvivesAsBytes(unsafe, argv))
  {
    hide ReadWords, CommandDisplay, MistakenFirst, Mistaken, HasNul, SurvivesAsBytes;
    ReadCommandDisplay(unsafe, argv, d);
    AllReadExactly(DisplayedWords(unsafe, argv, d), WordsOf(argv));
    DisplayedAsIs(unsafe, argv, d);
  }

  lemma DisplayedAsIs(unsafe: char -> bool, argv: seq<string>, d: Dialect)
    ensures (forall i :: 0 <= i < |argv| ==>
      !HasNul(argv[i], d) && DisplayedUnits(unsafe, argv[i], d) == UnitsOf(argv[i]))
      <==> (d.bytes ==> SurvivesAsBytes(unsafe, argv))
  {
    if d.bytes && !SurvivesAsBytes(unsafe, argv) {
      var i, c :| 0 <= i < |argv| && c in argv[i] && LostAsByte(unsafe, c);
      ByteIsLost(unsafe, argv[i], c, d);
    } else {
      forall i | 0 <= i < |argv|
        ensures !HasNul(argv[i], d) && DisplayedUnits(unsafe, argv[i], d) == UnitsOf(argv[i])
      {
        assert d.bytes ==> forall c :: c in argv[i] ==> !LostAsByte(unsafe, c);
        assert forall c :: c in argv[i] ==> AnsiUnit(unsafe, c, d) == Ch(c);
      }
    }
  }

  lemma ByteIsLost(unsafe: char -> bool, v: string, c: char, d: Dialect)
    requires d.bytes && c in v && LostAsByte(unsafe, c)
    ensures HasNul(v, d) || DisplayedUnits(unsafe, v, d) != UnitsOf(v)
  {
    if c != '\0' {
      var k :| 0 <= k < |v| && v[k] == c;
      assert RequiresAnsi(unsafe, c);
      assert DisplayedUnits(unsafe, v, d)[k] == Raw(c as int);
    }
  }

  /** Where only quotes count, and characters are read, it gives them back whatever they are. */
  lemma DisplayReadsBack(unsafe: char -> bool, argv: seq<string>)
    requires argv != []
    ensures ReadWords(CommandDisplay(unsafe, argv), QUOTING) == Some(WordsOf(argv))
  {
    DisplayReadsBackExactly(unsafe, argv, QUOTING);
  }

  lemma WordsDetermineArguments(a: seq<string>, b: seq<string>)
    requires WordsOf(a) == WordsOf(b)
    ensures a == b
  {
    forall i | 0 <= i < |a|
      ensures a[i] == b[i]
    {
      assert WordsOf(a)[i] == UnitsOf(a[i]) && WordsOf(b)[i] == UnitsOf(b[i]);
      assert forall k :: 0 <= k < |a[i]| ==> UnitsOf(a[i])[k] == Ch(a[i][k]);
      assert forall k :: 0 <= k < |b[i]| ==> UnitsOf(b[i])[k] == Ch(b[i][k]);
    }
  }

  /** What is displayed determines what is run: two commands that look alike are the same. */
  lemma DisplayDeterminesCommand(unsafe: char -> bool, a: seq<string>, b: seq<string>)
    requires a != [] && b != [] && CommandDisplay(unsafe, a) == CommandDisplay(unsafe, b)
    ensures a == b
  {
    DisplayReadsBack(unsafe, a);
    DisplayReadsBack(unsafe, b);
    WordsDetermineArguments(a, b);
  }

  // ---- what is shown ----

  /** Characters that can be shown: neither control characters nor of an unsafe category. */
  ghost predicate Showable(unsafe: char -> bool, s: string) {
    forall c :: c in s ==> c as int >= 32 && c as int != 127 && !unsafe(c)
  }

  lemma {:induction false} HexShowable(unsafe: char -> bool, n: nat, width: nat)
    requires forall c :: 0x20 <= c as int < 0x7F ==> !unsafe(c)
    ensures Showable(unsafe, Hex(n, width))
  {
    if width > 0 {
      HexShowable(unsafe, n / 16, width - 1);
      assert forall c :: c in Hex(n, width) ==> c in Hex(n / 16, width - 1) || c == HexDigit(n % 16);
    }
  }

  lemma AnsiEscapeShowable(unsafe: char -> bool, c: char)
    requires forall x :: 0x20 <= x as int < 0x7F ==> !unsafe(x)
    ensures Showable(unsafe, AnsiEscape(unsafe, c))
  {
    hide Hex;
    HexShowable(unsafe, c as int, 2);
    HexShowable(unsafe, c as int, 4);
    HexShowable(unsafe, c as int, 8);
  }

  lemma {:induction false} AnsiShowable(unsafe: char -> bool, v: string)
    requires forall c :: 0x20 <= c as int < 0x7F ==> !unsafe(c)
    ensures Showable(unsafe, AnsiCEscaped(unsafe, v))
  {
    hide AnsiEscape;
    if v != "" {
      AnsiEscapeShowable(unsafe, v[0]);
      AnsiShowable(unsafe, v[1..]);
    }
  }

  lemma {:induction false} QuotesShowable(unsafe: char -> bool, v: string)
    requires Showable(unsafe, v) && forall c :: 0x20 <= c as int < 0x7F ==> !unsafe(c)
    ensures Showable(unsafe, ReplaceQuotes(v, SWIFT_QUOTE))
  {
    if v != "" {
      assert v[0] in v && forall c :: c in v[1..] ==> c in v;
      QuotesShowable(unsafe, v[1..]);
    }
  }

  lemma EscapedShowable(unsafe: char -> bool, v: string)
    requires forall c :: 0x20 <= c as int < 0x7F ==> !unsafe(c)
    ensures Showable(unsafe, ShellEscaped(unsafe, v))
  {
    hide AnsiCEscaped, ReplaceQuotes, CanDisplayBare;
    AnsiShowable(unsafe, v);
    if !exists c :: c in v && RequiresAnsi(unsafe, c) {
      QuotesShowable(unsafe, v);
    }
  }

  lemma {:induction false} JoinedShowable(unsafe: char -> bool, words: seq<string>)
    requires !unsafe(' ') && forall i :: 0 <= i < |words| ==> Showable(unsafe, words[i])
    ensures Showable(unsafe, Joined(words))
  {
    if |words| > 1 {
      JoinedShowable(unsafe, words[1..]);
    }
  }

  /** Whatever a command holds, nothing that is unsafe to show is ever shown. */
  lemma NothingUnsafeShown(unsafe: char -> bool, argv: seq<string>, c: char)
    requires forall x :: 0x20 <= x as int < 0x7F ==> !unsafe(x)
    requires c in CommandDisplay(unsafe, argv)
    ensures c as int >= 32 && c as int != 127 && !unsafe(c)
  {
    hide ShellEscaped, Joined;
    forall v: string
      ensures Showable(unsafe, ShellEscaped(unsafe, v))
    {
      EscapedShowable(unsafe, v);
    }
    JoinedShowable(unsafe, seq(|argv|, i requires 0 <= i < |argv| => ShellEscaped(unsafe, argv[i])));
  }

  /** Nothing that a shell might take for something else, whatever its script. */
  predicate PlainChar(c: char) {
    c as int >= 32 && c as int != 127 && !Special(c) && c !in {'\'', '\"', '\\'} && (c == ' ' || !IsSpace(c))
  }

  /** An argument of safe characters is shown as it is; with blanks, as it is between quotes. */
  lemma PlainShown(unsafe: char -> bool, v: string)
    requires v != "" && forall c :: c in v ==> !unsafe(c) && PlainChar(c)
    ensures ShellEscaped(unsafe, v) == if ' ' in v then "'" + v + "'" else v
  {
    hide ReplaceQuotes, AnsiCEscaped;
    NoQuotes(v);
  }

  lemma {:induction false} NoQuotes(v: string)
    requires '\'' !in v
    ensures ReplaceQuotes(v, SWIFT_QUOTE) == v
  {
    if v != "" {
      NoQuotes(v[1..]);
      assert v == [v[0]] + v[1..];
    }
  }

  /** An empty command is displayed like one other command, so it has to be left out above. */
  lemma EmptyCommandLooksLikeAnother(unsafe: char -> bool, argv: seq<string>)
    requires forall c :: 'a' <= c <= 'z' ==> !unsafe(c)
    ensures CommandDisplay(unsafe, argv) == CommandDisplay(unsafe, []) <==> argv in {[], ["unknown", "command"]}
  {
    hide ShellEscaped;
    var other := ["unknown", "command"];
    PlainShown(unsafe, "unknown");
    PlainShown(unsafe, "command");
    var printed := seq(|other|, i requires 0 <= i < |other| => ShellEscaped(unsafe, other[i]));
    assert printed == other;
    assert other[1..] == ["command"];
    assert CommandDisplay(unsafe, other) == UNKNOWN_COMMAND;
    if argv != [] && CommandDisplay(unsafe, argv) == UNKNOWN_COMMAND {
      DisplayDeterminesCommand(unsafe, argv, other);
    }
  }

  lemma LostInShell(unsafe: char -> bool, v: string, c: char)
    requires c in v && LostAsByte(unsafe, c)
    ensures ReadWords(CommandDisplay(unsafe, [v]), SHELL) != Some(WordsOf([v]))
  {
    hide ReadWords, CommandDisplay, LostAsByte, WordsOf;
    DisplayReadsBackExactly(unsafe, [v], SHELL);
    assert c in [v][0];
  }

  /** The soft hyphen is an escaped scalar that stands for a byte. */
  lemma SoftHyphenIsLost()
    ensures ReadWords(CommandDisplay(c => c == '\U{00AD}', ["\U{00AD}"]), SHELL) != Some(WordsOf(["\U{00AD}"]))
  {
    assert '\U{00AD}' in "\U{00AD}";
    LostInShell(c => c == '\U{00AD}', "\U{00AD}", '\U{00AD}');
  }

  /** A NUL takes the rest of its argument with it. */
  lemma NulIsLost(unsafe: char -> bool)
    ensures ReadWords(CommandDisplay(unsafe, ["a\0b"]), SHELL) != Some(WordsOf(["a\0b"]))
  {
    assert "a\0b"[1] == '\0' && '\0' in "a\0b";
    LostInShell(unsafe, "a\0b", '\0');
  }

  lemma PrintableShown(unsafe: char -> bool, v: string)
    requires v != "" && forall c :: c in v ==>
      !unsafe(c) && (c in {'#', '~', '='} || 'a' <= c <= 'z' || 'A' <= c <= 'Z' || '0' <= c <= '9')
    ensures ShownBare(unsafe, v)
  {
  }

  lemma MistakenWords(unsafe: char -> bool)
    requires forall c :: 0x20 <= c as int < 0x7F ==> !unsafe(c)
    ensures Mistaken(unsafe, "#x") && Mistaken(unsafe, "~") && Mistaken(unsafe, "A=~")
    ensures MistakenFirst(unsafe, "A=1") && MistakenFirst(unsafe, "if") && MistakenFirst(unsafe, "time")
  {
    hide ShownBare;
    PrintableShown(unsafe, "#x");
    PrintableShown(unsafe, "~");
    PrintableShown(unsafe, "A=1");
    PrintableShown(unsafe, "if");
    PrintableShown(unsafe, "time");
    PrintableShown(unsafe, "A=~");
    assert AssignsAt("A=1", 1) by { assert "A=1"[..1] == "A"; }
    assert AssignsAt("A=~", 1) && HomeAt("A=~", 1, 2) by { assert "A=~"[..1] == "A"; }
  }

  /** Commands whose display a shell takes for a comment, a home directory, an assignment, a reserved word. */
  lemma ShownButNotTaken(unsafe: char -> bool, argv: seq<string>)
    requires forall c :: 0x20 <= c as int < 0x7F ==> !unsafe(c)
    requires argv in {["echo", "#x"], ["echo", "~"], ["env", "A=~"], ["A=1", "env"], ["if"], ["time", "make"]}
    ensures ReadWords(CommandDisplay(unsafe, argv), SHELL) != Some(WordsOf(argv))
  {
    hide ReadWords, CommandDisplay, Mistaken, MistakenFirst, SurvivesAsBytes, WordsOf;
    MistakenWords(unsafe);
    assert MistakenFirst(unsafe, argv[0]) || (|argv| == 2 && Mistaken(unsafe, argv[1]));
    DisplayReadsBackExactly(unsafe, argv, SHELL);
  }

  /**
   The quoting of the command line tool reads back for every argument vector, and for a shell too
   unless an argument holds a NUL.
   */
  lemma QuotedArgsReadBack(argv: seq<string>, d: Dialect)
    ensures ReadWords(ShellQuoteArgs(argv), d) == Some(WordsOf(argv)) <==>
      forall i :: 0 <= i < |argv| ==> !HasNul(argv[i], d)
  {
    hide Read, ReplaceQuotes, IsAssignment, IsReserved;
    var printed := seq(|argv|, i requires 0 <= i < |argv| => ShellSingleQuote(argv[i]));
    var words := seq(|argv|, i requires 0 <= i < |argv| => Some(UnitsOf(argv[i])));
    forall i, rest | 0 <= i < |argv| && Follows(rest)
      ensures Read(printed[i] + rest, Plain, None, d) == Read(rest, Plain, words[i], d)
    {
      ReadSingleQuoted(argv[i], GO_QUOTE, rest, d);
    }
    ReadJoined(printed, words, d);
    AllReadExactly(words, WordsOf(argv));
    NothingIsCommandName();
    if argv != [] {
      assert Joined(printed)[0] == '\'';
    }
    JoinedNul(printed);
    forall i | 0 <= i < |argv|
      ensures '\0' in printed[i] <==> '\0' in argv[i]
    {
      QuotesKeepNul(argv[i], GO_QUOTE);
    }
  }
}
