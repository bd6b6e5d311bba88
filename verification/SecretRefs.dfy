/** Secret references: `op://` paths and `bws://` ids, and the normal form a parsed one carries. */
module SecretRefs {
  import opened Common
  import opened Text

  const PROVIDER_ONE_PASSWORD := "1password"
  const PROVIDER_BITWARDEN := "bitwarden-secrets-manager"
  const BITWARDEN_SCHEME := "bws://"
  const ONE_PASSWORD_SCHEME := "op://"

  datatype SecretRef = SecretRef(
    raw: string, provider: string, vault: string, item: string,
    section: string, field: string, source: string, secretID: string)

  datatype RefError = InvalidReference | InvalidAlias

  predicate IsDigit(c: char) { '0' <= c <= '9' }
  predicate IsUpper(c: char) { 'A' <= c <= 'Z' }
  predicate IsLower(c: char) { 'a' <= c <= 'z' }
  predicate IsHex(c: char) { IsDigit(c) || 'a' <= c <= 'f' || 'A' <= c <= 'F' }

  predicate ValidSourceAlias(alias: string) {
    && 1 <= |alias| <= 128
    && (IsUpper(alias[0]) || IsLower(alias[0]) || IsDigit(alias[0]))
    && forall c :: c in alias ==> IsUpper(c) || IsLower(c) || IsDigit(c) || c in {'.', '_', '-'}
  }

  function NormalizeSourceAlias(alias: string): Result<string, RefError> {
    var trimmed := TrimSpace(alias);
    if ValidSourceAlias(trimmed) then Ok(trimmed) else Err(InvalidReference)
  }

  predicate ValidUUID(s: string) {
    && |s| == 36
    && forall i :: 0 <= i < 36 ==> if i in {8, 13, 18, 23} then s[i] == '-' else IsHex(s[i])
  }

  function LowerChar(c: char): char {
    if IsUpper(c) then c - 'A' + 'a' else c
  }

  function ToLower(s: string): (r: string)
    ensures |r| == |s|
    ensures forall i :: 0 <= i < |s| ==> r[i] == LowerChar(s[i])
  {
    seq(|s|, i requires 0 <= i < |s| => LowerChar(s[i]))
  }

  function NormalizeSecretID(secretID: string): Result<string, RefError> {
    var trimmed := TrimSpace(secretID);
    if ValidUUID(trimmed) then Ok(ToLower(trimmed)) else Err(InvalidReference)
  }

  function ParseOnePassword(raw: string): Result<SecretRef, RefError> {
    if TrimSpace(raw) != raw || raw == "" || !HasPrefix(raw, ONE_PASSWORD_SCHEME) then Err(InvalidReference)
    else
      var parts := Split(raw[|ONE_PASSWORD_SCHEME|..], '/');
      if |parts| < 3 || |parts| > 4 || "" in parts then Err(InvalidReference)
      else Ok(SecretRef(raw, PROVIDER_ONE_PASSWORD, parts[0], parts[1],
                        if |parts| == 4 then parts[2] else "", parts[|parts| - 1], "", ""))
  }

  function FieldPath(section: string, field: string): string {
    if section == "" then field else section + ['/'] + field
  }

  /** How a 1Password reference is written; the section may be left out. */
  function OnePasswordPath(vault: string, item: string, section: string, field: string): string {
    ONE_PASSWORD_SCHEME + (vault + ['/'] + (item + ['/'] + FieldPath(section, field)))
  }

  predicate OnePasswordParts(vault: string, item: string, section: string, field: string) {
    && vault != "" && item != "" && field != "" && !IsSpace(field[|field| - 1])
    && '/' !in vault && '/' !in item && '/' !in section && '/' !in field
  }

  lemma PathSplits(vault: string, item: string, section: string, field: string)
    requires '/' !in vault && '/' !in item && '/' !in section && '/' !in field
    ensures Split(vault + ['/'] + (item + ['/'] + FieldPath(section, field)), '/') ==
            if section == "" then [vault, item, field] else [vault, item, section, field]
  {
    hide Split;
    SplitJoin(vault, '/', item + ['/'] + FieldPath(section, field));
    SplitJoin(item, '/', FieldPath(section, field));
    SplitWord(field, '/');
    SplitJoin(section, '/', field);
  }

  /** A path is what its parts say, with slashes between them. */
  lemma SplitPath(body: string)
    requires |Split(body, '/')| in {3, 4}
    ensures var parts := Split(body, '/');
      body == parts[0] + ['/'] + (parts[1] + ['/'] +
        (if |parts| == 3 then parts[2] else parts[2] + ['/'] + parts[3]))
  {
    hide Split;
    var parts := Split(body, '/');
    SplitFirst(body, '/');
    var rest := body[|parts[0]| + 1..];
    SplitFirst(rest, '/');
    var last := rest[|parts[1]| + 1..];
    SplitFirst(last, '/');
    assert parts[1..][1..] == parts[2..];
    if |parts| == 4 {
      SplitFirst(last[|parts[2]| + 1..], '/');
      assert parts[2..][1..] == parts[3..];
    }
  }

  lemma OnePasswordTrimmed(body: string)
    requires body != "" && !IsSpace(body[|body| - 1])
    ensures TrimSpace(ONE_PASSWORD_SCHEME + body) == ONE_PASSWORD_SCHEME + body
    ensures (ONE_PASSWORD_SCHEME + body)[|ONE_PASSWORD_SCHEME|..] == body
  {
    TrimFixed(ONE_PASSWORD_SCHEME + body);
  }

  /** A 1Password reference is read as the vault, item, section and field it is written with. */
  lemma OnePasswordReads(vault: string, item: string, section: string, field: string)
    requires OnePasswordParts(vault, item, section, field)
    ensures var raw := OnePasswordPath(vault, item, section, field);
      ParseOnePassword(raw) == Ok(SecretRef(raw, PROVIDER_ONE_PASSWORD, vault, item, section, field, "", ""))
  {
    hide Split, TrimSpace, IsSpace;
    var body := vault + ['/'] + (item + ['/'] + FieldPath(section, field));
    assert OnePasswordPath(vault, item, section, field) == ONE_PASSWORD_SCHEME + body;
    PathSplits(vault, item, section, field);
    OnePasswordTrimmed(body);
  }

  /** Nothing else is accepted as a 1Password reference. */
  lemma OnePasswordSpelled(raw: string)
    requires ParseOnePassword(raw).Ok?
    ensures var r := ParseOnePassword(raw).value;
      && OnePasswordParts(r.vault, r.item, r.section, r.field)
      && raw == OnePasswordPath(r.vault, r.item, r.section, r.field)
  {
    hide Split, TrimSpace, IsSpace;
    TrimFixed(raw);
    var body := raw[|ONE_PASSWORD_SCHEME|..];
    var parts := Split(body, '/');
    var n := |parts| - 1;
    assert raw == ONE_PASSWORD_SCHEME + body;
    assert parts[0] in parts && parts[1] in parts && parts[n] in parts && parts[n - 1] in parts;
    SplitPath(body);
    assert raw[|raw| - 1] == parts[n][|parts[n]| - 1];
  }

  predicate HasEmptySegment(body: string) {
    exists i :: 0 <= i < |body| - 1 && body[i] == '/' && body[i + 1] == '/'
  }

  function ParseBitwarden(raw: string): Result<SecretRef, RefError>
    requires HasPrefix(raw, BITWARDEN_SCHEME)
  {
    var body := raw[|BITWARDEN_SCHEME|..];
    if TrimSpace(raw) != raw || body == "" || HasEmptySegment(body) then Err(InvalidReference)
    else
      var parts := Split(body, '/');
      if |parts| == 1 then
        match NormalizeSecretID(parts[0])
        case Err(e) => Err(e)
        case Ok(id) => Ok(SecretRef(BITWARDEN_SCHEME + id, PROVIDER_BITWARDEN, "", "", "", "", "", id))
      else if |parts| == 2 then
        match NormalizeSourceAlias(parts[0])
        case Err(e) => Err(e)
        case Ok(source) =>
          match NormalizeSecretID(parts[1])
          case Err(e) => Err(e)
          case Ok(id) =>
            Ok(SecretRef(BITWARDEN_SCHEME + source + "/" + id, PROVIDER_BITWARDEN, "", "", "", "", source, id))
      else Err(InvalidReference)
  }

  function ParseRef(raw: string): Result<SecretRef, RefError> {
    if HasPrefix(raw, ONE_PASSWORD_SCHEME) then ParseOnePassword(raw)
    else if HasPrefix(raw, BITWARDEN_SCHEME) then ParseBitwarden(raw)
    else Err(InvalidReference)
  }

  lemma NormalizedAlias(alias: string)
    requires ValidSourceAlias(alias)
    ensures NormalizeSourceAlias(alias) == Ok(alias)
    ensures '/' !in alias
  {
    TrimFixed(alias);
    assert alias[0] in alias && alias[|alias| - 1] in alias;
  }

  lemma NormalizedSecretID(id: string)
    requires ValidUUID(id)
    ensures var low := ToLower(id);
      ValidUUID(low) && Trimmed(low) && '/' !in low && NormalizeSecretID(low) == Ok(low)
  {
    var low := ToLower(id);
    forall i | 0 <= i < 36
      ensures if i in {8, 13, 18, 23} then low[i] == '-' else IsHex(low[i])
      ensures low[i] != '/' && !IsSpace(low[i]) && LowerChar(low[i]) == low[i]
    {
      assert if i in {8, 13, 18, 23} then id[i] == '-' else IsHex(id[i]);
    }
    TrimFixed(low);
    assert ToLower(low) == low;
  }

  lemma NoEmptySegment(source: string, id: string)
    requires '/' !in source && '/' !in id && id != ""
    ensures !HasEmptySegment(id) && !HasEmptySegment(source + ['/'] + id)
  {
  }

  lemma SchemedTrimmed(body: string)
    requires body != "" && !IsSpace(body[|body| - 1])
    ensures var raw := BITWARDEN_SCHEME + body;
      TrimSpace(raw) == raw && HasPrefix(raw, BITWARDEN_SCHEME) && !HasPrefix(raw, ONE_PASSWORD_SCHEME) &&
      raw[|BITWARDEN_SCHEME|..] == body
  {
  }

  /** The raw text of a normalised Bitwarden reference parses back to that reference. */
  lemma BitwardenRoundTrip(source: string, id: string)
    requires source == "" || ValidSourceAlias(source)
    requires ValidUUID(id)
    ensures var low := ToLower(id);
      var raw := if source == "" then BITWARDEN_SCHEME + low else BITWARDEN_SCHEME + source + "/" + low;
      HasPrefix(raw, BITWARDEN_SCHEME) && !HasPrefix(raw, ONE_PASSWORD_SCHEME) &&
      ParseBitwarden(raw) == Ok(SecretRef(raw, PROVIDER_BITWARDEN, "", "", "", "", source, low))
  {
    var low := ToLower(id);
    NormalizedSecretID(id);
    SplitWord(low, '/');
    if source == "" {
      NoEmptySegment("", low);
      SchemedTrimmed(low);
    } else {
      var body := source + ['/'] + low;
      NormalizedAlias(source);
      SplitJoin(source, '/', low);
      NoEmptySegment(source, low);
      SchemedTrimmed(body);
      assert BITWARDEN_SCHEME + body == BITWARDEN_SCHEME + source + "/" + low;
    }
  }

  /** Parsing yields a normal form: the raw text of any parsed reference parses to that reference. */
  lemma ParseRefIdempotent(raw: string)
    ensures var r := ParseRef(raw); r.Ok? ==> ParseRef(r.value.raw) == r
  {
    if !HasPrefix(raw, ONE_PASSWORD_SCHEME) && HasPrefix(raw, BITWARDEN_SCHEME) && ParseBitwarden(raw).Ok? {
      var parts := Split(raw[|BITWARDEN_SCHEME|..], '/');
      if |parts| == 1 {
        BitwardenRoundTrip("", TrimSpace(parts[0]));
      } else {
        BitwardenRoundTrip(TrimSpace(parts[0]), TrimSpace(parts[1]));
      }
    }
  }
}
