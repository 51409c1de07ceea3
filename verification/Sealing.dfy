/**
  Sealing a deposit to a project's ingestion key (crates/custodly-core/src/seal.rs),
  in a symbolic algebra: key agreement, key derivation and authenticated
  encryption are free terms, and only what crosses the wire is made of bytes.
 */
module Sealing {
  import opened Wrappers
  import Text

  type byte = b: int | 0 <= b < 256
  type Bytes = seq<byte>

  // ---------- Hexadecimal: section 8 of RFC 4648 ----------

  function HexDigit(n: int): char
    requires 0 <= n < 16
  {
    if n < 10 then ('0' as int + n) as char else ('a' as int + n - 10) as char
  }

  /** Digits of either case are accepted. */
  function HexValue(c: char): Option<int> {
    if '0' <= c <= '9' then Some(c as int - '0' as int)
    else if 'a' <= c <= 'f' then Some(c as int - 'a' as int + 10)
    else if 'A' <= c <= 'F' then Some(c as int - 'A' as int + 10)
    else None
  }

  /** `hex::encode`. */
  function HexEncode(bytes: Bytes): string {
    if bytes == [] then ""
    else [HexDigit(bytes[0] / 16), HexDigit(bytes[0] % 16)] + HexEncode(bytes[1..])
  }

  /** `hex::decode`. */
  function HexDecode(s: string): Option<Bytes> {
    if s == "" then Some([])
    else if |s| == 1 || HexValue(s[0]).None? || HexValue(s[1]).None? then None
    else
      match HexDecode(s[2..])
      case None => None
      case Some(rest) => Some([HexValue(s[0]).value * 16 + HexValue(s[1]).value] + rest)
  }

  lemma HexDigitValue(n: int)
    requires 0 <= n < 16
    ensures HexValue(HexDigit(n)) == Some(n)
  {}

  lemma {:induction false} HexRoundTrip(bytes: Bytes)
    ensures HexDecode(HexEncode(bytes)) == Some(bytes)
    ensures |HexEncode(bytes)| == 2 * |bytes|
  {
    if bytes != [] {
      HexRoundTrip(bytes[1..]);
      HexDigitValue(bytes[0] / 16);
      HexDigitValue(bytes[0] % 16);
      var s := HexEncode(bytes);
      assert s[0] == HexDigit(bytes[0] / 16) && s[1] == HexDigit(bytes[0] % 16);
      assert s[2..] == HexEncode(bytes[1..]);
      assert bytes == [bytes[0]] + bytes[1..];
    }
  }

  lemma HexDigitTable(n: int)
    requires 0 <= n < 16
    ensures HexDigit(n) == "0123456789abcdef"[n]
  {}

  /** Each byte is written as two lower-case digits, the high one first. */
  lemma {:induction false} HexEncodedText(bytes: Bytes, i: nat)
    requires i < |bytes|
    ensures |HexEncode(bytes)| == 2 * |bytes|
    ensures HexEncode(bytes)[2 * i] == "0123456789abcdef"[bytes[i] / 16]
    ensures HexEncode(bytes)[2 * i + 1] == "0123456789abcdef"[bytes[i] % 16]
  {
    HexRoundTrip(bytes);
    HexDigitTable(bytes[0] / 16);
    HexDigitTable(bytes[0] % 16);
    if i > 0 {
      HexEncodedText(bytes[1..], i - 1);
    }
  }

  /** Digits are read in either case, and nothing else is. */
  lemma HexValueTable(c: char)
    ensures match HexValue(c)
            case Some(n) => 0 <= n < 16 && (c == "0123456789abcdef"[n] || c == "0123456789ABCDEF"[n])
            case None => c !in "0123456789abcdefABCDEF"
  {}

  ghost predicate Pairs(s: string, bytes: Bytes) {
    && |s| == 2 * |bytes|
    && forall i :: 0 <= i < |bytes| ==> && HexValue(s[2 * i]) == Some(bytes[i] / 16)
                                        && HexValue(s[2 * i + 1]) == Some(bytes[i] % 16)
  }

  lemma PairsCons(s: string, bytes: Bytes)
    requires |s| >= 2 && bytes != []
    ensures Pairs(s, bytes) <==>
            HexValue(s[0]) == Some(bytes[0] / 16) && HexValue(s[1]) == Some(bytes[0] % 16) && Pairs(s[2..], bytes[1..])
  {
    var t, rest := s[2..], bytes[1..];
    if Pairs(s, bytes) {
      assert HexValue(s[2 * 0]) == Some(bytes[0] / 16) && HexValue(s[2 * 0 + 1]) == Some(bytes[0] % 16);
      forall i | 0 <= i < |rest|
        ensures HexValue(t[2 * i]) == Some(rest[i] / 16) && HexValue(t[2 * i + 1]) == Some(rest[i] % 16)
      {
        assert t[2 * i] == s[2 * (i + 1)] && t[2 * i + 1] == s[2 * (i + 1) + 1] && rest[i] == bytes[i + 1];
      }
    }
    if && HexValue(s[0]) == Some(bytes[0] / 16) && HexValue(s[1]) == Some(bytes[0] % 16) && Pairs(t, rest) {
      forall i | 0 <= i < |bytes|
        ensures HexValue(s[2 * i]) == Some(bytes[i] / 16) && HexValue(s[2 * i + 1]) == Some(bytes[i] % 16)
      {
        if i > 0 {
          assert t[2 * (i - 1)] == s[2 * i] && t[2 * (i - 1) + 1] == s[2 * i + 1] && rest[i - 1] == bytes[i];
        }
      }
    }
  }

  lemma TwoDigits(high: int, low: int, b: byte)
    requires 0 <= high < 16 && 0 <= low < 16
    ensures high * 16 + low == b <==> high == b / 16 && low == b % 16
  {}

  lemma ConsIs(first: byte, rest: Bytes, bytes: Bytes)
    ensures [first] + rest == bytes <==> bytes != [] && bytes[0] == first && bytes[1..] == rest
  {
    if bytes != [] {
      assert bytes == [bytes[0]] + bytes[1..];
    }
    assert ([first] + rest)[1..] == rest;
  }

  lemma HexDecodeCons(s: string, bytes: Bytes)
    requires |s| >= 2
    ensures HexDecode(s) == Some(bytes) <==>
            && bytes != [] && HexDecode(s[2..]) == Some(bytes[1..])
            && HexValue(s[0]) == Some(bytes[0] / 16) && HexValue(s[1]) == Some(bytes[0] % 16)
  {
    HexValueTable(s[0]);
    HexValueTable(s[1]);
    var high, low, rest := HexValue(s[0]), HexValue(s[1]), HexDecode(s[2..]);
    if high.Some? && low.Some? && rest.Some? {
      ConsIs(high.value * 16 + low.value, rest.value, bytes);
      if bytes != [] {
        TwoDigits(high.value, low.value, bytes[0]);
      }
    }
  }

  /** What decodes: pairs of digits of either case, the high one first. */
  lemma {:induction false} HexDecodeIff(s: string, bytes: Bytes)
    ensures HexDecode(s) == Some(bytes) <==> Pairs(s, bytes)
  {
    if |s| >= 2 {
      HexDecodeCons(s, bytes);
      if bytes != [] {
        HexDecodeIff(s[2..], bytes[1..]);
        PairsCons(s, bytes);
      }
    }
  }

  /** `hex_decode_32` and its 24-byte sibling. */
  function HexDecodeExact(s: string, width: nat): Option<Bytes> {
    match HexDecode(s)
    case None => None
    case Some(bytes) => if |bytes| == width then Some(bytes) else None
  }

  // ---------- The algebra ----------

  const HKDF_INFO := "ferryman-secret/v1"

  /** An X25519 shared secret: fixed by the unordered pair of public keys that meet in it. */
  datatype SharedSecret = SharedSecret(between: set<Bytes>)

  /** A key derived by HKDF; distinct inputs give distinct keys. */
  datatype SealKey = Hkdf(salt: Bytes, shared: SharedSecret, info: string)

  /** An AEAD ciphertext: everything it was made from and nothing else. */
  datatype Sealed = Aead(key: SealKey, nonce: Bytes, aad: string, message: string)

  /** The two concrete encodings the code handles as bytes. */
  datatype Suite = Suite(publicKey: Bytes -> Bytes, wire: Sealed -> Bytes)

  /** Public keys are 32 bytes long, and a ciphertext's bytes determine it. */
  ghost predicate Lawful(suite: Suite) {
    && (forall secret: Bytes :: |suite.publicKey(secret)| == 32)
    && (forall a: Sealed, b: Sealed :: suite.wire(a) == suite.wire(b) ==> a == b)
  }

  function Agree(suite: Suite, secret: Bytes, peer: Bytes): SharedSecret {
    SharedSecret({suite.publicKey(secret), peer})
  }

  /** Diffie-Hellman: both sides arrive at the same secret. */
  lemma KeyAgreement(suite: Suite, a: Bytes, b: Bytes)
    ensures Agree(suite, a, suite.publicKey(b)) == Agree(suite, b, suite.publicKey(a))
  {
    assert {suite.publicKey(a), suite.publicKey(b)} == {suite.publicKey(b), suite.publicKey(a)};
  }

  // ---------- Sealing ----------

  const CONTRACT_VERSION := "boundary/v1"
  const INGESTION_IDENTITY_NAME := "custodly-ingestion"

  /** `deposit_aad`. */
  function DepositAad(projectId: string): string {
    CONTRACT_VERSION + "\n" + INGESTION_IDENTITY_NAME + "\n" + projectId
  }

  lemma DepositAadInjective(p: string, q: string)
    ensures DepositAad(p) == DepositAad(q) <==> p == q
  {
    var prefix := CONTRACT_VERSION + "\n" + INGESTION_IDENTITY_NAME + "\n";
    assert DepositAad(p)[|prefix|..] == p && DepositAad(q)[|prefix|..] == q;
  }

  lemma ThreeLines(version: string, name: string, rest: string)
    requires '\n' !in version && '\n' !in name
    ensures Text.Split(version + "\n" + name + "\n" + rest, '\n') == [version, name] + Text.Split(rest, '\n')
  {
    assert version + "\n" + name + "\n" + rest == version + ['\n'] + (name + ['\n'] + rest);
    Text.SplitAfter(version, '\n', name + ['\n'] + rest);
    Text.SplitAfter(name, '\n', rest);
  }

  lemma AadNamesAreLines()
    ensures '\n' !in CONTRACT_VERSION && '\n' !in INGESTION_IDENTITY_NAME
  {}

  /** The three lines it consists of; a project may go on for more. */
  lemma DepositAadText(projectId: string)
    ensures DepositAad(projectId) == "boundary/v1" + "\n" + "custodly-ingestion" + "\n" + projectId
    ensures Text.Split(DepositAad(projectId), '\n') ==
            ["boundary/v1", "custodly-ingestion"] + Text.Split(projectId, '\n')
  {
    AadNamesAreLines();
    ThreeLines(CONTRACT_VERSION, INGESTION_IDENTITY_NAME, projectId);
  }

  datatype SealError = EmptyValue | BadRecipientKey

  datatype SealedSecret = SealedSecret(ephemeralPublicHex: string, nonceHex: string, ciphertextHex: string)

  /** The key between an ephemeral and a recipient key, as either side derives it. */
  function KeyBetween(ephemeralPublic: Bytes, recipientPublic: Bytes, shared: SharedSecret, info: string): SealKey {
    Hkdf(ephemeralPublic + recipientPublic, shared, info)
  }

  function Seal(suite: Suite, recipientHex: string, aad: string, value: string, seed: Bytes, nonce: Bytes):
    Result<SealedSecret, SealError>
  {
    if value == "" then Err(EmptyValue)
    else
      match HexDecodeExact(recipientHex, 32)
      case None => Err(BadRecipientKey)
      case Some(recipient) =>
        var ephemeral := suite.publicKey(seed);
        var key := KeyBetween(ephemeral, recipient, Agree(suite, seed, recipient), HKDF_INFO);
        Ok(SealedSecret(HexEncode(ephemeral), HexEncode(nonce), HexEncode(suite.wire(Aead(key, nonce, aad, value)))))
  }

  /** `cipher_for`: the key that whoever holds a secret of the recipient's public key derives as well. */
  method CipherFor(suite: Suite, seed: Bytes, ephemeralPublic: Bytes, recipientPublic: Bytes) returns (key: SealKey)
    ensures key == KeyBetween(ephemeralPublic, recipientPublic, Agree(suite, seed, recipientPublic), HKDF_INFO)
    ensures forall secret :: suite.publicKey(secret) == recipientPublic && suite.publicKey(seed) == ephemeralPublic ==>
              key == KeyBetween(ephemeralPublic, recipientPublic, Agree(suite, secret, ephemeralPublic), HKDF_INFO)
  {
    forall secret | suite.publicKey(secret) == recipientPublic && suite.publicKey(seed) == ephemeralPublic
      ensures Agree(suite, seed, recipientPublic) == Agree(suite, secret, ephemeralPublic)
    {
      KeyAgreement(suite, seed, secret);
    }
    var shared := Agree(suite, seed, recipientPublic);
    var salt: Bytes := [];
    salt := salt + ephemeralPublic;
    salt := salt + recipientPublic;
    key := Hkdf(salt, shared, HKDF_INFO);
  }

  /** `seal_for_ingestion`, the random seed and nonce being parameters. */
  method SealForIngestion(suite: Suite, recipientHex: string, aad: string, value: string, seed: Bytes, nonce: Bytes)
    returns (sealed: Result<SealedSecret, SealError>)
    ensures sealed == Seal(suite, recipientHex, aad, value, seed, nonce)
  {
    if value == "" {
      return Err(EmptyValue);
    }
    var recipient := HexDecodeExact(recipientHex, 32);
    if recipient.None? {
      return Err(BadRecipientKey);
    }
    var ephemeral := suite.publicKey(seed);
    var key := CipherFor(suite, seed, ephemeral, recipient.value);
    var ciphertext := suite.wire(Aead(key, nonce, aad, value));
    return Ok(SealedSecret(HexEncode(ephemeral), HexEncode(nonce), HexEncode(ciphertext)));
  }

  // ---------- Opening: the peer ----------

  ghost predicate MadeWith(suite: Suite, key: SealKey, nonce: Bytes, aad: string, ciphertext: Bytes, message: string) {
    suite.wire(Aead(key, nonce, aad, message)) == ciphertext
  }

  /** AEAD decryption succeeds on exactly the ciphertexts made with the same key, nonce and associated data. */
  ghost function Decrypt(suite: Suite, key: SealKey, nonce: Bytes, aad: string, ciphertext: Bytes): Option<string> {
    if exists message :: MadeWith(suite, key, nonce, aad, ciphertext, message) then
      var message :| MadeWith(suite, key, nonce, aad, ciphertext, message);
      Some(message)
    else None
  }

  /**
    The recipient's side, with the label and the associated data it uses: it
    derives its key on its own, the ephemeral key first in the salt.
   */
  ghost function Open(suite: Suite, secret: Bytes, info: string, aad: string, sealed: SealedSecret): Option<string> {
    var ephemeral := HexDecodeExact(sealed.ephemeralPublicHex, 32);
    var nonce := HexDecodeExact(sealed.nonceHex, 24);
    var ciphertext := HexDecode(sealed.ciphertextHex);
    if ephemeral.None? || nonce.None? || ciphertext.None? then None
    else
      var public := suite.publicKey(secret);
      var key := Hkdf(ephemeral.value + public, SharedSecret({ephemeral.value, public}), info);
      Decrypt(suite, key, nonce.value, aad, ciphertext.value)
  }

  /** Ferryman's side: it has its own label, and builds the associated data of a project itself. */
  ghost function FerrymanOpen(suite: Suite, secret: Bytes, projectId: string, sealed: SealedSecret): Option<string> {
    Open(suite, secret, "ferryman-secret/v1", "boundary/v1" + "\n" + "custodly-ingestion" + "\n" + projectId, sealed)
  }

  lemma DecryptMeaning(suite: Suite, key: SealKey, nonce: Bytes, aad: string, made: Sealed)
    requires Lawful(suite)
    ensures Decrypt(suite, key, nonce, aad, suite.wire(made)) ==
            if made.key == key && made.nonce == nonce && made.aad == aad then Some(made.message) else None
  {
    var ciphertext := suite.wire(made);
    forall message | MadeWith(suite, key, nonce, aad, ciphertext, message)
      ensures made == Aead(key, nonce, aad, message)
    {}
    if made.key == key && made.nonce == nonce && made.aad == aad {
      assert MadeWith(suite, key, nonce, aad, ciphertext, made.message);
    }
  }

  /** The two sides derive the same key exactly when the opener is the recipient and uses the same label. */
  lemma SameKeyIff(suite: Suite, seed: Bytes, recipient: Bytes, secret: Bytes, info: string)
    requires Lawful(suite) && |recipient| == 32
    ensures var ephemeral := suite.publicKey(seed);
            KeyBetween(ephemeral, recipient, Agree(suite, seed, recipient), HKDF_INFO) ==
            Hkdf(ephemeral + suite.publicKey(secret), SharedSecret({ephemeral, suite.publicKey(secret)}), info)
            <==> suite.publicKey(secret) == recipient && info == "ferryman-secret/v1"
  {
    var ephemeral, public := suite.publicKey(seed), suite.publicKey(secret);
    assert (ephemeral + recipient)[32..] == recipient && (ephemeral + public)[32..] == public;
    if public == recipient {
      KeyAgreement(suite, seed, secret);
    }
  }

  /**
    Seal/open agreement: whatever the seed and nonce, and through the hex
    encodings, a sealed value opens to itself for the holder of a secret whose
    public key it was sealed to, under the same associated data and the same
    derivation label, and does not open at all in any other case.
   */
  lemma SealOpenAgreement(suite: Suite, recipientHex: string, aad: string, value: string, seed: Bytes, nonce: Bytes,
                          secret: Bytes, info: string, openAad: string)
    requires Lawful(suite) && |nonce| == 24
    requires Seal(suite, recipientHex, aad, value, seed, nonce).Ok?
    ensures Open(suite, secret, info, openAad, Seal(suite, recipientHex, aad, value, seed, nonce).value) ==
            if && HexDecode(recipientHex) == Some(suite.publicKey(secret))
               && openAad == aad && info == "ferryman-secret/v1"
            then Some(value) else None
  {
    var recipient := HexDecodeExact(recipientHex, 32).value;
    var ephemeral := suite.publicKey(seed);
    var made := Aead(KeyBetween(ephemeral, recipient, Agree(suite, seed, recipient), HKDF_INFO), nonce, aad, value);
    HexRoundTrip(ephemeral);
    HexRoundTrip(nonce);
    HexRoundTrip(suite.wire(made));
    SameKeyIff(suite, seed, recipient, secret, info);
    var public := suite.publicKey(secret);
    DecryptMeaning(suite, Hkdf(ephemeral + public, SharedSecret({ephemeral, public}), info), nonce, openAad, made);
  }

  /** A deposit sealed for project `p` opens at Ferryman under project `q` exactly when they are the same project. */
  lemma DepositOpensForItsProject(suite: Suite, secret: Bytes, p: string, q: string, value: string, seed: Bytes,
        nonce: Bytes)
    requires Lawful(suite) && |nonce| == 24 && value != ""
    ensures var sealed := Seal(suite, HexEncode(suite.publicKey(secret)), DepositAad(p), value, seed, nonce);
            && sealed.Ok?
            && FerrymanOpen(suite, secret, q, sealed.value) == (if p == q then Some(value) else None)
  {
    HexRoundTrip(suite.publicKey(secret));
    SealOpenAgreement(suite, HexEncode(suite.publicKey(secret)), DepositAad(p), value, seed, nonce,
                      secret, "ferryman-secret/v1", DepositAad(q));
    DepositAadInjective(p, q);
    DepositAadText(q);
  }

  // ---------- The laws are satisfiable ----------

  /** Self-delimiting: the length in unary, a zero, the bytes. */
  function Frame(bytes: Bytes): Bytes {
    seq(|bytes|, _ => 1) + [0] + bytes
  }

  lemma FrameInjective(x: Bytes, r: Bytes, y: Bytes, s: Bytes)
    requires Frame(x) + r == Frame(y) + s
    ensures x == y && r == s
  {
    var whole := Frame(x) + r;
    assert whole[|x|] == 0 && whole[|y|] == 0;
    assert forall i :: 0 <= i < |x| ==> whole[i] == 1;
    assert forall i :: 0 <= i < |y| ==> whole[i] == 1;
    var n := 2 * |x| + 1;
    assert whole[|x| + 1..n] == x && whole[n..] == r;
    assert whole[|y| + 1..n] == y && whole[n..] == s;
  }

  function FrameAll(parts: seq<Bytes>): Bytes {
    if parts == [] then [0] else [1] + Frame(parts[0]) + FrameAll(parts[1..])
  }

  lemma {:induction false} FrameAllInjective(a: seq<Bytes>, r: Bytes, b: seq<Bytes>, s: Bytes)
    requires FrameAll(a) + r == FrameAll(b) + s
    ensures a == b && r == s
  {
    var whole := FrameAll(a) + r;
    assert whole[0] == (if a == [] then 0 else 1) && whole[0] == (if b == [] then 0 else 1);
    if a == [] {
      assert whole[1..] == r && whole[1..] == s;
    } else {
      var restA, restB := FrameAll(a[1..]) + r, FrameAll(b[1..]) + s;
      assert whole[1..] == Frame(a[0]) + restA;
      assert whole[1..] == Frame(b[0]) + restB;
      FrameInjective(a[0], restA, b[0], restB);
      FrameAllInjective(a[1..], r, b[1..], s);
    }
  }

  function CharBytes(c: char): (bytes: Bytes)
    ensures |bytes| == 3
  {
    var n := c as int;
    [n / 256 / 256, n / 256 % 256, n % 256]
  }

  lemma CharBytesInjective(c: char, d: char)
    requires CharBytes(c) == CharBytes(d)
    ensures c == d
  {
    var x, y := CharBytes(c), CharBytes(d);
    var m: int, n: int := c as int, d as int;
    assert x[0] == y[0] && x[1] == y[1] && x[2] == y[2];
    assert m / 256 == 256 * (m / 256 / 256) + m / 256 % 256 && m == 256 * (m / 256) + m % 256;
    assert n / 256 == 256 * (n / 256 / 256) + n / 256 % 256 && n == 256 * (n / 256) + n % 256;
  }

  /** Three bytes for every scalar value. */
  function TextBytes(s: string): Bytes {
    if s == "" then [] else CharBytes(s[0]) + TextBytes(s[1..])
  }

  lemma {:induction false} TextBytesInjective(s: string, t: string)
    requires TextBytes(s) == TextBytes(t)
    ensures s == t
  {
    if s != "" && t != "" {
      var a, b := TextBytes(s), TextBytes(t);
      assert a[..3] == CharBytes(s[0]) && b[..3] == CharBytes(t[0]);
      CharBytesInjective(s[0], t[0]);
      assert a[3..] == TextBytes(s[1..]) && b[3..] == TextBytes(t[1..]);
      TextBytesInjective(s[1..], t[1..]);
      assert s == [s[0]] + s[1..] && t == [t[0]] + t[1..];
    }
  }

  ghost function Listing(elements: set<Bytes>): (list: seq<Bytes>)
    ensures forall x :: x in list <==> x in elements
  {
    if elements == {} then []
    else
      var x :| x in elements;
      [x] + Listing(elements - {x})
  }

  ghost function PlainWire(sealed: Sealed): Bytes {
    FrameAll(Listing(sealed.key.shared.between)
             + [sealed.key.salt, TextBytes(sealed.key.info), sealed.nonce,
                TextBytes(sealed.aad), TextBytes(sealed.message)])
  }

  lemma PlainWireInjective(a: Sealed, b: Sealed)
    requires PlainWire(a) == PlainWire(b)
    ensures a == b
  {
    var x, y := Listing(a.key.shared.between), Listing(b.key.shared.between);
    var u := [a.key.salt, TextBytes(a.key.info), a.nonce, TextBytes(a.aad), TextBytes(a.message)];
    var v := [b.key.salt, TextBytes(b.key.info), b.nonce, TextBytes(b.aad), TextBytes(b.message)];
    FrameAllInjective(x + u, [], y + v, []);
    assert PlainWire(a) + [] == PlainWire(a) && PlainWire(b) + [] == PlainWire(b);
    assert |x| == |y|;
    assert x == (x + u)[..|x|] && y == (y + v)[..|y|] && u == (x + u)[|x|..] && v == (y + v)[|y|..];
    assert a.key.shared.between == b.key.shared.between by {
      assert forall e :: e in a.key.shared.between <==> e in b.key.shared.between;
    }
    assert u[0] == v[0] && u[1] == v[1] && u[2] == v[2] && u[3] == v[3] && u[4] == v[4];
    TextBytesInjective(a.key.info, b.key.info);
    TextBytesInjective(a.aad, b.aad);
    TextBytesInjective(a.message, b.message);
  }

  function PadTo32(bytes: Bytes): (padded: Bytes)
    ensures |padded| == 32
  {
    if |bytes| >= 32 then bytes[..32] else bytes + seq(32 - |bytes|, _ => 0)
  }

  lemma LawfulSuiteExists()
    ensures exists suite :: Lawful(suite)
  {
    var suite := Suite((secret: Bytes) => PadTo32(secret), (sealed: Sealed) => PlainWire(sealed));
    forall a: Sealed, b: Sealed | suite.wire(a) == suite.wire(b) ensures a == b {
      PlainWireInjective(a, b);
    }
    assert Lawful(suite);
  }
}
