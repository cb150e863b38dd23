/**
 * oauth2.js: base64url without padding (section 5 of RFC 4648, padding
 * dropped as section 3.2 permits), as the PKCE `S256` challenge needs it
 * (section 4.2 of RFC 7636), built the way the source builds it: bytes to a
 * binary string, `btoa`, then `+`→`-`, `/`→`_` and the trailing `=` run
 * removed. Also the challenge pair with its 64-character verifier.
 */
module OAuth2 {
  import opened Wrappers
  import opened Bytes
  import opened Strings
  import opened Random

  // ---------------------------------------------------------------------
  // Base64 (sections 4 and 5 of RFC 4648)

  /**
   * The character for a 6-bit value: `A`–`Z`, `a`–`z`, `0`–`9`, then `+`
   * and `/` in the standard alphabet (Table 1) or `-` and `_` in the
   * URL-safe one (Table 2).
   */
  function Base64Char(k: int, urlSafe: bool): char
    requires 0 <= k < 64
  {
    if k < 26 then ('A' as int + k) as char
    else if k < 52 then ('a' as int + (k - 26)) as char
    else if k < 62 then ('0' as int + (k - 52)) as char
    else if k == 62 then (if urlSafe then '-' else '+')
    else (if urlSafe then '_' else '/')
  }

  /**
   * The 6-bit groups of the bytes, most significant first; a final group
   * of one or two bytes is padded with zero bits to whole groups.
   */
  function Sextets(b: seq<byte>): (s: seq<int>)
    ensures |s| == (4 * |b| + 2) / 3
  {
    if |b| == 0 then []
    else if |b| == 1 then [b[0] as int / 4, (b[0] as int % 4) * 16]
    else if |b| == 2 then [b[0] as int / 4, (b[0] as int % 4) * 16 + b[1] as int / 16, (b[1] as int % 16) * 4]
    else [b[0] as int / 4, (b[0] as int % 4) * 16 + b[1] as int / 16, (b[1] as int % 16) * 4 + b[2] as int / 64,
          b[2] as int % 64] + Sextets(b[3..])
  }

  /** Each group is a 6-bit value. */
  lemma {:induction false} SextetsRange(b: seq<byte>)
    ensures forall i :: 0 <= i < |Sextets(b)| ==> 0 <= Sextets(b)[i] < 64
  {
    if |b| >= 3 {
      SextetsRange(b[3..]);
    }
  }

  /** The characters an alphabet gives the groups. */
  function Spell(s: seq<int>, urlSafe: bool): (text: string)
    requires forall i :: 0 <= i < |s| ==> 0 <= s[i] < 64
    ensures |text| == |s|
  {
    seq(|s|, i requires 0 <= i < |s| => Base64Char(s[i], urlSafe))
  }

  /** The `=` padding that completes the last four-character block. */
  function Padding(n: nat): (pad: string)
    ensures |pad| == (3 - n % 3) % 3
    ensures forall i :: 0 <= i < |pad| ==> pad[i] == '='
  {
    seq((3 - n % 3) % 3, _ => '=')
  }

  /** Standard base64 with padding, as `btoa` produces it. */
  function Base64(b: seq<byte>): string {
    SextetsRange(b);
    Spell(Sextets(b), false) + Padding(|b|)
  }

  /** The reference: base64url with the URL-safe alphabet and no padding. */
  function Base64UrlNoPad(b: seq<byte>): string {
    SextetsRange(b);
    Spell(Sextets(b), true)
  }

  /** A URL-safe character: a letter, a digit, `-` or `_`. */
  predicate UrlSafeChar(c: char) {
    ('A' <= c <= 'Z') || ('a' <= c <= 'z') || ('0' <= c <= '9') || c == '-' || c == '_'
  }

  /** The reference output has `⌈4n/3⌉` characters, all URL-safe. */
  lemma Base64UrlNoPadShape(b: seq<byte>)
    ensures |Base64UrlNoPad(b)| == (4 * |b| + 2) / 3
    ensures forall i :: 0 <= i < |Base64UrlNoPad(b)| ==> UrlSafeChar(Base64UrlNoPad(b)[i])
  {
    SextetsRange(b);
  }

  /** The test vectors of section 10 of RFC 4648 for "f" and "fo". */
  lemma ShortVectors()
    ensures Base64([102]) == "Zg=="
    ensures Base64([102, 111]) == "Zm8="
  {
    assert Sextets([102]) == [25, 32];
    assert Sextets([102, 111]) == [25, 38, 60];
  }

  /** The test vector of section 10 of RFC 4648 for "foo". */
  lemma BlockVector()
    ensures Base64([102, 111, 111]) == "Zm9v"
  {
    var b: seq<byte> := [102, 111, 111];
    assert b[3..] == [];
    assert Sextets(b) == [25, 38, 61, 47];
  }

  /** A 32-byte digest encodes to 43 characters. */
  lemma DigestLength(b: seq<byte>)
    requires |b| == 32
    ensures |Base64UrlNoPad(b)| == 43
  {
    Base64UrlNoPadShape(b);
  }

  // ---------------------------------------------------------------------
  // The source's construction

  /** `String.fromCharCode(bytes[i])` for each byte: one character per byte, with that code. */
  function BinaryString(bytes: seq<byte>): (str: string)
    ensures |str| == |bytes|
    ensures forall i :: 0 <= i < |bytes| ==> str[i] as int == bytes[i] as int
  {
    seq(|bytes|, i requires 0 <= i < |bytes| => bytes[i] as int as char)
  }

  method ToBinaryString(bytes: seq<byte>) returns (str: string)
    ensures str == BinaryString(bytes)
  {
    str := "";
    for i := 0 to |bytes|
      invariant str == BinaryString(bytes[..i])
    {
      str := str + [bytes[i] as int as char];
    }
    assert bytes[..|bytes|] == bytes;
  }

  /** `btoa(s)`: throws unless every character is a single byte, else base64 of those bytes. */
  function Btoa(s: string): (r: Result<string>)
    ensures r.Ok? <==> forall i :: 0 <= i < |s| ==> s[i] as int < 256
  {
    if exists i :: 0 <= i < |s| && s[i] as int >= 256 then Err("InvalidCharacterError")
    else Ok(Base64(seq(|s|, i requires 0 <= i < |s| => s[i] as int as byte)))
  }

  /** `.replace(/=+$/, "")`: drop the run of `c` at the end. */
  function StripTrailing(s: string, c: char): (r: string)
    ensures |r| <= |s| && r == s[..|r|]
    ensures r == "" || r[|r| - 1] != c
    ensures forall i :: |r| <= i < |s| ==> s[i] == c
  {
    if |s| > 0 && s[|s| - 1] == c then StripTrailing(s[..|s| - 1], c) else s
  }

  /** `base64urlencode(a)` as the source computes it. */
  method Base64UrlEncode(bytes: seq<byte>) returns (encoded: string)
    ensures encoded == Base64UrlNoPad(bytes)
  {
    var str := ToBinaryString(bytes);
    var padded := Btoa(str);
    assert padded.Ok?;
    encoded := StripTrailing(ReplaceChar(ReplaceChar(padded.value, '+', '-'), '/', '_'), '=');
    AsWrittenIsReference(bytes);
  }

  /** The two replacements turn each standard character into the URL-safe one for the same value. */
  lemma AlphabetSwap(k: int)
    requires 0 <= k < 64
    ensures var c := Base64Char(k, false);
      Base64Char(k, true) == (if c == '+' then '-' else if c == '/' then '_' else c)
    ensures Base64Char(k, true) != '='
  {
  }

  /** Dropping a run of `c` appended to text that does not end in `c` leaves the text. */
  lemma {:induction false} StripTrailingRun(text: string, run: string, c: char)
    requires text == "" || text[|text| - 1] != c
    requires forall i :: 0 <= i < |run| ==> run[i] == c
    ensures StripTrailing(text + run, c) == text
    decreases |run|
  {
    if |run| == 0 {
      assert text + run == text;
    } else {
      assert (text + run)[..|text + run| - 1] == text + run[..|run| - 1];
      StripTrailingRun(text, run[..|run| - 1], c);
    }
  }

  /**
   * The source's chain equals the reference: replacing `+` and `/` in
   * padded base64 spells the groups in the URL-safe alphabet, and the
   * trailing `=` run removed is exactly the padding.
   */
  lemma AsWrittenIsReference(bytes: seq<byte>)
    ensures var padded := Btoa(BinaryString(bytes));
      && padded == Ok(Base64(bytes))
      && StripTrailing(ReplaceChar(ReplaceChar(padded.value, '+', '-'), '/', '_'), '=') == Base64UrlNoPad(bytes)
  {
    var str := BinaryString(bytes);
    assert seq(|str|, i requires 0 <= i < |str| => str[i] as int as byte) == bytes;
    SextetsRange(bytes);
    var sx := Sextets(bytes);
    var standard := Spell(sx, false);
    var url := Spell(sx, true);
    var pad := Padding(|bytes|);
    var replaced := ReplaceChar(ReplaceChar(standard + pad, '+', '-'), '/', '_');
    forall i | 0 <= i < |sx|
      ensures replaced[i] == url[i]
    {
      AlphabetSwap(sx[i]);
    }
    assert forall i :: |sx| <= i < |replaced| ==> replaced[i] == pad[i - |sx|];
    assert replaced == url + pad;
    if url != "" {
      AlphabetSwap(sx[|url| - 1]);
    }
    StripTrailingRun(url, pad, '=');
  }

  /** The output never holds `+`, `/` or `=`. */
  lemma UrlSafe(bytes: seq<byte>)
    ensures '+' !in Base64UrlNoPad(bytes) && '/' !in Base64UrlNoPad(bytes) && '=' !in Base64UrlNoPad(bytes)
  {
    Base64UrlNoPadShape(bytes);
  }

  // ---------------------------------------------------------------------
  // PKCE

  /** A SHA-256 digest. */
  type Digest = d: seq<byte> | |d| == 32 witness seq(32, _ => 0 as byte)

  /**
   * `generateChallengeData`: a 64-character verifier from `genRandomText`
   * and its challenge, base64url(`sha256(verifier)`). `sha256` stands for
   * WebCrypto's digest of the verifier's UTF-8 encoding.
   */
  method GenerateChallengeData(draw: nat -> Draw, sha256: string -> Digest)
    returns (verifier: string, challenge: string)
    ensures verifier == RandomText(64, draw) && |verifier| == 64
    ensures challenge == Base64UrlNoPad(sha256(verifier)) && |challenge| == 43
  {
    verifier := GenRandomText(64, draw);
    challenge := Base64UrlEncode(sha256(verifier));
    DigestLength(sha256(verifier));
  }

  /**
   * The verifier meets section 4.1 of RFC 7636: 64 characters (within
   * 43 to 128), all unreserved (letters and digits here).
   */
  lemma VerifierUnreserved(draw: nat -> Draw)
    ensures var v := RandomText(64, draw);
      && 43 <= |v| <= 128
      && forall i :: 0 <= i < |v| ==> ('0' <= v[i] <= '9') || ('a' <= v[i] <= 'z')
  {
    var v := RandomText(64, draw);
    AlphabetRange();
    assert forall i :: 0 <= i < |v| ==> v[i] in Possible;
  }
}
