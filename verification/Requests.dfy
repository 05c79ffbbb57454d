/**
 Idempotency keys and outbound request parts: the pure helpers of `execute_action`.
 */
module Requests {
  import opened Wrappers
  import opened Utf8
  import opened Texts

  // ----- trimming -----------------------------------------------------------------------

  /** The Unicode property White_Space. */
  predicate IsWhitespace(c: char) {
    var u := c as int;
    || 0x09 <= u <= 0x0D || u == 0x20 || u == 0x85 || u == 0xA0 || u == 0x1680 || 0x2000 <= u <= 0x200A
    || u == 0x2028 || u == 0x2029 || u == 0x202F || u == 0x205F || u == 0x3000
  }

  /** The 25 characters with that property. */
  lemma WhitespaceExact(c: char)
    ensures IsWhitespace(c) <==>
            c as int in [0x09, 0x0A, 0x0B, 0x0C, 0x0D, 0x20, 0x85, 0xA0, 0x1680, 0x2000, 0x2001, 0x2002, 0x2003, 0x2004,
                         0x2005, 0x2006, 0x2007, 0x2008, 0x2009, 0x200A, 0x2028, 0x2029, 0x202F, 0x205F, 0x3000]
  {
  }

  predicate Blank(s: string) {
    forall i :: 0 <= i < |s| ==> IsWhitespace(s[i])
  }

  function TrimStart(s: string): string {
    if s != [] && IsWhitespace(s[0]) then TrimStart(s[1..]) else s
  }

  function TrimEnd(s: string): string {
    if s != [] && IsWhitespace(s[|s| - 1]) then TrimEnd(s[..|s| - 1]) else s
  }

  /** `str::trim`. */
  function Trim(s: string): string {
    TrimEnd(TrimStart(s))
  }

  predicate Trimmed(s: string) {
    s == [] || (!IsWhitespace(s[0]) && !IsWhitespace(s[|s| - 1]))
  }

  lemma {:induction false} TrimStartOf(blank: string, s: string)
    requires Blank(blank) && (s == [] || !IsWhitespace(s[0]))
    ensures TrimStart(blank + s) == s
  {
    if blank == [] {
      assert blank + s == s;
    } else {
      assert (blank + s)[1..] == blank[1..] + s;
      TrimStartOf(blank[1..], s);
    }
  }

  lemma {:induction false} TrimEndOf(s: string, blank: string)
    requires Blank(blank) && (s == [] || !IsWhitespace(s[|s| - 1]))
    ensures TrimEnd(s + blank) == s
  {
    if blank == [] {
      assert s + blank == s;
    } else {
      assert (s + blank)[..|s + blank| - 1] == s + blank[..|blank| - 1];
      TrimEndOf(s, blank[..|blank| - 1]);
    }
  }

  lemma {:induction false} TrimStartBlank(blank: string)
    requires Blank(blank)
    ensures TrimStart(blank) == []
  {
    if blank != [] {
      TrimStartBlank(blank[1..]);
    }
  }

  /** Blanks around a trimmed text are what `trim` removes, and all it removes. */
  lemma TrimExact(before: string, core: string, after: string)
    requires Blank(before) && Blank(after) && Trimmed(core)
    ensures Trim(before + core + after) == core
  {
    if core == [] {
      assert before + core + after == before + after && Blank(before + after);
      TrimStartBlank(before + after);
    } else {
      assert before + core + after == before + (core + after);
      TrimStartOf(before, core + after);
      TrimEndOf(core, after);
    }
  }

  lemma {:induction false} TrimStartSplits(s: string)
    ensures exists before :: Blank(before) && s == before + TrimStart(s)
    ensures TrimStart(s) == [] || !IsWhitespace(TrimStart(s)[0])
  {
    if s != [] && IsWhitespace(s[0]) {
      TrimStartSplits(s[1..]);
      var rest :| Blank(rest) && s[1..] == rest + TrimStart(s[1..]);
      assert Blank([s[0]] + rest) && s == ([s[0]] + rest) + TrimStart(s);
    } else {
      assert Blank([]) && s == [] + TrimStart(s);
    }
  }

  lemma {:induction false} TrimEndSplits(s: string)
    ensures exists after :: Blank(after) && s == TrimEnd(s) + after
    ensures TrimEnd(s) == [] || (!IsWhitespace(TrimEnd(s)[|TrimEnd(s)| - 1]) && TrimEnd(s)[0] == s[0])
  {
    if s != [] && IsWhitespace(s[|s| - 1]) {
      var init := s[..|s| - 1];
      TrimEndSplits(init);
      var rest :| Blank(rest) && init == TrimEnd(init) + rest;
      assert Blank(rest + [s[|s| - 1]]) && s == TrimEnd(s) + (rest + [s[|s| - 1]]);
    } else {
      assert Blank([]) && s == TrimEnd(s) + [];
    }
  }

  /** Every text is its trimmed core between blanks. */
  lemma TrimSplits(s: string)
    ensures Trimmed(Trim(s))
    ensures exists before, after :: Blank(before) && Blank(after) && s == before + Trim(s) + after
  {
    TrimStartSplits(s);
    TrimEndSplits(TrimStart(s));
    var before :| Blank(before) && s == before + TrimStart(s);
    var after :| Blank(after) && TrimStart(s) == Trim(s) + after;
    assert s == before + Trim(s) + after;
  }

  // ----- idempotency keys ------------------------------------------------------------------

  datatype KeyError = KeyMissing | KeyTooLong | KeyCharset

  const MAX_IDEMPOTENCY_KEY_LEN: nat := 128

  predicate IsKeyChar(c: char) {
    '0' <= c <= '9' || 'A' <= c <= 'Z' || 'a' <= c <= 'z' || c == '-' || c == '_' || c == ':'
  }

  predicate KeyChars(k: string) {
    forall i :: 0 <= i < |k| ==> IsKeyChar(k[i])
  }

  /** `check_idempotency`; the length is counted in bytes. */
  function CheckIdempotency(key: Option<string>, required: bool): Result<Option<string>, KeyError> {
    var k := if key.Some? then Trim(key.value) else "";
    if k == "" then if required then Err(KeyMissing) else Ok(None)
    else if |StringBytes(k)| > MAX_IDEMPOTENCY_KEY_LEN then Err(KeyTooLong)
    else if !KeyChars(k) then Err(KeyCharset)
    else Ok(Some(k))
  }

  predicate ValidKey(k: string) {
    1 <= |k| <= MAX_IDEMPOTENCY_KEY_LEN && KeyChars(k)
  }

  const CAPITALS: string := "ABCDEFGHIJKLMNOPQRSTUVWXYZ"
  const SMALL: string := "abcdefghijklmnopqrstuvwxyz"

  lemma Letters(i: nat)
    requires i < 26
    ensures CAPITALS[i] as int == 'A' as int + i && SMALL[i] as int == 'a' as int + i
  {
  }

  lemma AreLetters(c: char)
    ensures c in CAPITALS <==> 'A' <= c <= 'Z'
    ensures c in SMALL <==> 'a' <= c <= 'z'
  {
    forall i | 0 <= i < 26 ensures CAPITALS[i] as int == 'A' as int + i && SMALL[i] as int == 'a' as int + i {
      Letters(i);
    }
    assert |CAPITALS| == 26 && |SMALL| == 26;
    hide CAPITALS, SMALL;
    if 'A' <= c <= 'Z' {
      assert c == CAPITALS[c as int - 'A' as int];
    }
    if 'a' <= c <= 'z' {
      assert c == SMALL[c as int - 'a' as int];
    }
  }

  /** The alphabet of keys: letters, digits, and three more characters. */
  predicate InAlphabet(c: char) {
    c in CAPITALS || c in SMALL || c in "0123456789" || c in "-_:"
  }

  lemma KeyCharExact(c: char)
    ensures IsKeyChar(c) <==> InAlphabet(c)
  {
    AreLetters(c);
    hide CAPITALS, SMALL;
    if '0' <= c <= '9' {
      assert c == "0123456789"[c as int - '0' as int];
    }
  }

  /** A usable key has 1 to 128 characters of the alphabet. */
  lemma ValidKeyExact(k: string)
    ensures ValidKey(k) <==> 1 <= |k| <= 128 && forall i :: 0 <= i < |k| ==> InAlphabet(k[i])
  {
    forall i | 0 <= i < |k| ensures IsKeyChar(k[i]) <==> InAlphabet(k[i]) {
      KeyCharExact(k[i]);
    }
    hide IsKeyChar, InAlphabet;
  }

  /** Which error a key gives: none though one is needed, more than 128 bytes, or a foreign character. */
  lemma KeyErrors(key: Option<string>, required: bool)
    ensures var k, r := if key.Some? then Trim(key.value) else "", CheckIdempotency(key, required);
            && (r == Err(KeyMissing) <==> k == "" && required)
            && (r == Ok(None) <==> k == "" && !required)
            && (r == Err(KeyTooLong) <==> k != "" && |StringBytes(k)| > 128)
            && (r == Err(KeyCharset) <==>
                  k != "" && |StringBytes(k)| <= 128 && exists i :: 0 <= i < |k| && !InAlphabet(k[i]))
            && (r.Ok? && r.value.Some? ==> r.value.value == k)
  {
    var k := if key.Some? then Trim(key.value) else "";
    forall i | 0 <= i < |k| ensures IsKeyChar(k[i]) <==> InAlphabet(k[i]) {
      KeyCharExact(k[i]);
    }
    hide Trim, StringBytes, IsKeyChar, InAlphabet;
  }

  lemma {:induction false} AsciiLength(cs: seq<Scalar>)
    requires forall i :: 0 <= i < |cs| ==> cs[i] < 0x80
    ensures |EncodeScalars(cs)| == |cs|
  {
    if cs != [] {
      AsciiLength(cs[1..]);
    }
  }

  lemma KeyLength(k: string)
    requires KeyChars(k)
    ensures |StringBytes(k)| == |k| && (k != "" ==> Trimmed(k))
  {
    AsciiLength(ToScalars(k));
  }

  lemma KeyOk(key: Option<string>, required: bool)
    ensures var k := if key.Some? then Trim(key.value) else "";
            CheckIdempotency(key, required).Ok? <==> if k == "" then !required else ValidKey(k)
  {
    hide KeyChars, Trim, StringBytes;
    var k := if key.Some? then Trim(key.value) else "";
    if KeyChars(k) {
      KeyLength(k);
    }
  }

  /** The key in use is the text between the blanks around it, and is accepted exactly when that is well formed. */
  lemma KeyAccepted(before: string, k: string, after: string, required: bool)
    requires Blank(before) && Blank(after) && Trimmed(k)
    ensures CheckIdempotency(Some(before + k + after), required) == Ok(Some(k)) <==> ValidKey(k)
    ensures CheckIdempotency(Some(before + k + after), required) == Ok(None) <==> k == "" && !required
  {
    TrimExact(before, k, after);
    hide KeyChars, Trimmed, Trim, Blank, StringBytes;
    if KeyChars(k) {
      KeyLength(k);
    }
  }

  /** A key that comes back is well formed, and comes back unchanged when it is used again. */
  lemma KeyNormalised(key: Option<string>, required: bool, again: bool)
    requires CheckIdempotency(key, required).Ok? && CheckIdempotency(key, required).value.Some?
    ensures var k := CheckIdempotency(key, required).value.value;
            ValidKey(k) && CheckIdempotency(Some(k), again) == Ok(Some(k))
  {
    hide KeyChars, Trimmed, Trim, StringBytes;
    var k := CheckIdempotency(key, required).value.value;
    KeyLength(k);
    assert [] + k + [] == k;
    KeyAccepted([], k, [], again);
  }

  // ----- outbound requests --------------------------------------------------------------------

  datatype Verb = Get | Post | Put | Patch | Delete

  function UpperChar(c: char): char {
    if 'a' <= c <= 'z' then (c as int - 32) as char else c
  }

  function AsciiUppercase(s: string): (r: string)
    ensures |r| == |s| && forall i :: 0 <= i < |s| ==> r[i] == UpperChar(s[i])
  {
    seq(|s|, i requires 0 <= i < |s| => UpperChar(s[i]))
  }

  /** Anything that is not a known verb is a GET. */
  function VerbOf(methodName: string): Verb {
    var m := AsciiUppercase(methodName);
    if m == "POST" then Post
    else if m == "PUT" then Put
    else if m == "PATCH" then Patch
    else if m == "DELETE" then Delete
    else Get
  }

  /** Only the 26 small letters change, each to its capital. */
  lemma UpperExact(c: char)
    ensures forall i :: 0 <= i < 26 && c == SMALL[i] ==> UpperChar(c) == CAPITALS[i]
    ensures c !in SMALL ==> UpperChar(c) == c
  {
    AreLetters(c);
    forall i | 0 <= i < 26 && c == SMALL[i] ensures UpperChar(c) == CAPITALS[i] {
      Letters(i);
    }
  }

  /** The verb is the one named, in whatever case, and a GET for every other name. */
  lemma VerbExact(methodName: string)
    ensures var name, verb := AsciiUppercase(methodName), VerbOf(methodName);
            && (verb == Post <==> name == "POST") && (verb == Put <==> name == "PUT")
            && (verb == Patch <==> name == "PATCH") && (verb == Delete <==> name == "DELETE")
            && (verb == Get <==> name != "POST" && name != "PUT" && name != "PATCH" && name != "DELETE")
  {
    var name := AsciiUppercase(methodName);
    assert |"POST"| == 4 && |"PUT"| == 3 && |"PATCH"| == 5 && |"DELETE"| == 6;
  }

  const PROFILE_MARKER: string := "{{profile."

  predicate OccursAt(s: string, t: string, i: nat) {
    i + |t| <= |s| && s[i..i + |t|] == t
  }

  /** `str::contains`, by trying each position in turn. */
  function Contains(s: string, t: string): (found: bool)
    ensures found <==> exists i :: OccursAt(s, t, i)
  {
    if t <= s then
      assert OccursAt(s, t, 0);
      true
    else if s == [] then false
    else
      var tail := s[1..];
      assert forall i: nat :: OccursAt(tail, t, i) ==> OccursAt(s, t, i + 1);
      assert forall i: nat :: OccursAt(s, t, i) ==> i > 0 && OccursAt(tail, t, i - 1);
      Contains(tail, t)
  }

  function NeedsPlaceholders(body: string): bool {
    Contains(body, PROFILE_MARKER)
  }

  /** Substitution is needed exactly when the marker occurs somewhere. */
  lemma PlaceholdersIff(body: string)
    ensures NeedsPlaceholders(body) <==> exists i :: OccursAt(body, "{{profile.", i)
  {
  }

  datatype AuthError = CredentialNotFound

  /** `auth_headers`: the bearer token to send, if the mandate names a credential. */
  function AuthHeaders(credentialKey: string, secret: Option<string>): (r: Result<Option<string>, AuthError>)
    ensures r.Ok? ==> (r.value.Some? <==> credentialKey != "")
    ensures r.Ok? && r.value.Some? ==> secret.Some? && secret.value != "" && r.value.value == "Bearer " + secret.value
    ensures r.Err? <==> credentialKey != "" && (secret == None || secret == Some(""))
  {
    if credentialKey == "" then Ok(None)
    else
      match secret
      case Some(v) => if v != "" then Ok(Some("Bearer " + v)) else Err(CredentialNotFound)
      case None => Err(CredentialNotFound)
  }
}
