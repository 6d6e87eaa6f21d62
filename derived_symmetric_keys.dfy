/**
 * Symmetric-key derivation (Sources/NeedleTailCrypto/Crypto/
 * NeedleTailCrypto+DerivedSymmentricKeys.swift): `userInfoKey`, which turns
 * a string into a 32-byte key through SHA-256 and lowercase hex, and
 * `derivedKeyLogic`, which picks the key families of an algorithm, imports
 * both keys and derives the shared key.
 *
 * SHA-256, key import and the agreement-and-HKDF derivation are foreign:
 * they are parameters here, and only their shapes are assumed (a digest is
 * 32 bytes, an import gives a key of the family it was asked for).
 */
module DerivedSymmetricKeys {
  import opened Wrappers
  import opened Utf8
  import opened KeyEncoding
  import SecureEnclave

  /** A `SHA256.Digest`. */
  type Sha256Digest = d: seq<uint8> | |d| == 32 witness seq(32, _ => 0)

  /** A CryptoKit `SymmetricKey`, known by its bytes. */
  datatype SymmetricKey = SymmetricKey(data: seq<uint8>)

  /** `NeedleTailCrypto.Errors` thrown here, and errors thrown by the crypto provider. */
  datatype CryptoError = KeyDataNil | SymmetricKeyDataNil | ProviderError(code: int)

  // ------------------------------------------------------------ userInfoKey

  predicate IsLowerHexDigit(c: char) {
    ('0' <= c <= '9') || ('a' <= c <= 'f')
  }

  function HexDigitLower(v: int): (c: char)
    requires 0 <= v < 16
    ensures IsLowerHexDigit(c)
  {
    if v < 10 then ('0' as int + v) as char else ('a' as int + (v - 10)) as char
  }

  /** `String(format: "%02hhx", b)`: two lowercase hex digits, high nibble first. */
  function HexByte(b: uint8): string {
    [HexDigitLower(b / 16), HexDigitLower(b % 16)]
  }

  /** `map { String(format: "%02hhx", $0) }.joined()`. */
  function HexString(bs: seq<uint8>): string {
    if bs == [] then "" else HexByte(bs[0]) + HexString(bs[1..])
  }

  /** Character 2i and 2i+1 of the hex text are the nibbles of byte i. */
  lemma {:induction false} HexStringDigits(bs: seq<uint8>)
    ensures |HexString(bs)| == 2 * |bs|
    ensures forall i :: 0 <= i < |bs| ==>
      HexString(bs)[2 * i] == HexDigitLower(bs[i] / 16) && HexString(bs)[2 * i + 1] == HexDigitLower(bs[i] % 16)
  {
    if bs != [] {
      HexStringDigits(bs[1..]);
      var t := HexString(bs[1..]);
      forall i | 0 <= i < |bs|
        ensures HexString(bs)[2 * i] == HexDigitLower(bs[i] / 16) && HexString(bs)[2 * i + 1] == HexDigitLower(bs[i] % 16)
      {
        if i > 0 {
          assert HexString(bs)[2 * i] == t[2 * (i - 1)];
          assert HexString(bs)[2 * i + 1] == t[2 * (i - 1) + 1];
          assert bs[i] == bs[1..][i - 1];
        }
      }
    }
  }

  /**
   * `userInfoKey(_:)`. `key.data(using: .utf8)` and
   * `subString.data(using: .utf8)` never give nil for a Swift string, so the
   * `keyDataNil` and `symmetricKeyDataNil` errors are never thrown, the empty
   * string included. The key is the UTF-8 bytes of the first 32 hex
   * characters of the digest: 32 lowercase hex digits, the nibbles of its
   * first 16 bytes.
   */
  function UserInfoKey(sha256: seq<uint8> -> Sha256Digest, key: string): (r: Result<SymmetricKey, CryptoError>)
    ensures r.Success? && |r.value.data| == 32
    ensures forall j :: 0 <= j < 32 ==> IsLowerHexDigit(r.value.data[j] as char)
    ensures forall i :: 0 <= i < 16 ==>
      && r.value.data[2 * i] == HexDigitLower(sha256(Encode(key))[i] / 16) as int
      && r.value.data[2 * i + 1] == HexDigitLower(sha256(Encode(key))[i] % 16) as int
  {
    var keyData := Encode(key);
    var hash := sha256(keyData);
    var hashString := HexString(hash);
    HexStringDigits(hash);
    var subString := hashString[..32];
    assert forall j :: 0 <= j < 32 ==> IsLowerHexDigit(subString[j]) by {
      forall j | 0 <= j < 32 ensures IsLowerHexDigit(subString[j]) {
        var i := j / 2;
        if j == 2 * i {
          assert subString[j] == HexDigitLower(hash[i] / 16);
        } else {
          assert j == 2 * i + 1;
          assert subString[j] == HexDigitLower(hash[i] % 16);
        }
      }
    }
    EncodeAscii(subString);
    Success(SymmetricKey(Encode(subString)))
  }

  lemma HexDigitLowerInjective(v: int, w: int)
    requires 0 <= v < 16 && 0 <= w < 16
    requires HexDigitLower(v) == HexDigitLower(w)
    ensures v == w
  {
  }

  /** The key depends only on the first 16 digest bytes: the other 16 are dropped. */
  lemma UserInfoKeyDependsOnPrefix(sha256: seq<uint8> -> Sha256Digest, key1: string, key2: string)
    requires sha256(Encode(key1))[..16] == sha256(Encode(key2))[..16]
    ensures UserInfoKey(sha256, key1) == UserInfoKey(sha256, key2)
  {
    var d1, d2 := sha256(Encode(key1)), sha256(Encode(key2));
    var k1, k2 := UserInfoKey(sha256, key1).value.data, UserInfoKey(sha256, key2).value.data;
    forall j | 0 <= j < 32 ensures k1[j] == k2[j] {
      var i := j / 2;
      assert d1[i] == d1[..16][i] && d2[i] == d2[..16][i];
      assert j == 2 * i || j == 2 * i + 1;
    }
    assert k1 == k2;
  }

  lemma PrefixOfNibbleDigits(d1: Sha256Digest, d2: Sha256Digest)
    requires forall i :: 0 <= i < 16 ==>
      HexDigitLower(d1[i] / 16) == HexDigitLower(d2[i] / 16) && HexDigitLower(d1[i] % 16) == HexDigitLower(d2[i] % 16)
    ensures d1[..16] == d2[..16]
  {
    forall i | 0 <= i < 16 ensures d1[i] == d2[i] {
      HexDigitLowerInjective(d1[i] / 16, d2[i] / 16);
      HexDigitLowerInjective(d1[i] % 16, d2[i] % 16);
    }
  }

  /** No information of the first 16 digest bytes is lost: equal keys come from digests with equal prefixes. */
  lemma UserInfoKeyKeepsPrefix(sha256: seq<uint8> -> Sha256Digest, key1: string, key2: string)
    requires UserInfoKey(sha256, key1) == UserInfoKey(sha256, key2)
    ensures sha256(Encode(key1))[..16] == sha256(Encode(key2))[..16]
  {
    var d1, d2 := sha256(Encode(key1)), sha256(Encode(key2));
    var k := UserInfoKey(sha256, key1).value.data;
    assert forall i :: 0 <= i < 16 ==>
      k[2 * i] == HexDigitLower(d1[i] / 16) as int == HexDigitLower(d2[i] / 16) as int
      && k[2 * i + 1] == HexDigitLower(d1[i] % 16) as int == HexDigitLower(d2[i] % 16) as int;
    PrefixOfNibbleDigits(d1, d2);
  }

  // -------------------------------------------------------- derivedKeyLogic

  /** `NeedleTailCrypto.CryptoAlogrythm`; the carried key plays no part in the derivation. */
  datatype CryptoAlgorithm =
    | Curve25519Algorithm(key: SymmetricKey)
    | P256Algorithm(key: SymmetricKey)
    | P384Algorithm(key: SymmetricKey)
    | P521Algorithm(key: SymmetricKey)
    | SecureEnclaveAlgorithm(key: SymmetricKey)

  /** What kind of private key an import gives. */
  datatype PrivateKind = SoftwareKey(curve: Curve) | SecureEnclaveP256Key

  /** An imported private key: a software agreement key, or an enclave-held P-256 key. */
  datatype PrivateKeyHandle =
    | SoftwarePrivateKey(software: AgreementPrivateKey)
    | EnclavePrivateKey(enclave: SecureEnclave.EnclaveKey)
  {
    function Kind(): PrivateKind {
      if SoftwarePrivateKey? then SoftwareKey(software.curve) else SecureEnclaveP256Key
    }
  }

  /**
   * The crypto provider: `import<Family>PrivateKey` and
   * `importSecureEnclavePrivateKey` give key bytes, `import<Family>PublicKey`
   * gives a public key's bytes, and `derive` is `derived<Family>SymmetricKey`
   * on the salt and both keys.
   */
  datatype Provider = Provider(
    importPrivate: (Curve, string) -> Result<seq<uint8>, CryptoError>,
    importEnclavePrivate: string -> Result<seq<uint8>, CryptoError>,
    importPublic: (Curve, string) -> Result<seq<uint8>, CryptoError>,
    derive: (string, PrivateKeyHandle, AgreementPublicKey) -> Result<SymmetricKey, CryptoError>)

  /** The private-key import an algorithm calls. */
  function ImportPrivateKey(provider: Provider, kind: PrivateKind, text: string): (r: Result<PrivateKeyHandle, CryptoError>)
    ensures r.Success? ==> r.value.Kind() == kind
    ensures r.Failure? <==>
      if kind.SoftwareKey? then provider.importPrivate(kind.curve, text).Failure?
      else provider.importEnclavePrivate(text).Failure?
  {
    match kind
    case SoftwareKey(curve) =>
      var raw :- provider.importPrivate(curve, text);
      Success(SoftwarePrivateKey(AgreementPrivateKey(curve, raw)))
    case SecureEnclaveP256Key =>
      var blob :- provider.importEnclavePrivate(text);
      Success(EnclavePrivateKey(SecureEnclave.EnclaveKey(blob)))
  }

  /** The public-key import an algorithm calls. */
  function ImportPublicKey(provider: Provider, curve: Curve, text: string): (r: Result<AgreementPublicKey, CryptoError>)
    ensures r.Success? ==> r.value.curve == curve
    ensures r.Failure? <==> provider.importPublic(curve, text).Failure?
  {
    var raw :- provider.importPublic(curve, text);
    Success(AgreementPublicKey(curve, raw))
  }

  /** The private key each algorithm imports. */
  function PrivateKindOf(algorithm: CryptoAlgorithm): PrivateKind {
    match algorithm
    case Curve25519Algorithm(_) => SoftwareKey(Curve25519)
    case P256Algorithm(_) => SoftwareKey(P256)
    case P384Algorithm(_) => SoftwareKey(P384)
    case P521Algorithm(_) => SoftwareKey(P521)
    case SecureEnclaveAlgorithm(_) => SecureEnclaveP256Key
  }

  /** The public-key family each algorithm imports. */
  function PublicCurveOf(algorithm: CryptoAlgorithm): Curve {
    match algorithm
    case Curve25519Algorithm(_) => Curve25519
    case P256Algorithm(_) => P256
    case P384Algorithm(_) => P384
    case P521Algorithm(_) => P521
    case SecureEnclaveAlgorithm(_) => P256
  }

  /** A private key and a public key of the same family; an enclave key is a P-256 key. */
  predicate SameFamily(kind: PrivateKind, curve: Curve) {
    match kind
    case SoftwareKey(c) => c == curve
    case SecureEnclaveP256Key => curve == P256
  }

  /**
   * `derivedKeyLogic(salt:userPrivateKey:publicKey:cryptoAlogrythm:)`. The
   * private key is imported first and its error thrown before the public
   * key is imported; with both keys, which are of one family, the result is
   * the provider's derivation on the salt and those keys.
   */
  function DerivedKeyLogic(provider: Provider, salt: string, userPrivateKey: string, publicKey: string, algorithm: CryptoAlgorithm)
    : (r: Result<SymmetricKey, CryptoError>)
    ensures var privateKey := ImportPrivateKey(provider, PrivateKindOf(algorithm), userPrivateKey);
      privateKey.Failure? ==> r == Failure(privateKey.error)
    ensures var privateKey := ImportPrivateKey(provider, PrivateKindOf(algorithm), userPrivateKey);
      var peerKey := ImportPublicKey(provider, PublicCurveOf(algorithm), publicKey);
      privateKey.Success? && peerKey.Failure? ==> r == Failure(peerKey.error)
    ensures var privateKey := ImportPrivateKey(provider, PrivateKindOf(algorithm), userPrivateKey);
      var peerKey := ImportPublicKey(provider, PublicCurveOf(algorithm), publicKey);
      privateKey.Success? && peerKey.Success? ==>
        && SameFamily(privateKey.value.Kind(), peerKey.value.curve)
        && r == provider.derive(salt, privateKey.value, peerKey.value)
  {
    match algorithm
    case Curve25519Algorithm(_) =>
      var privateKey :- ImportPrivateKey(provider, SoftwareKey(Curve25519), userPrivateKey);
      var peerKey :- ImportPublicKey(provider, Curve25519, publicKey);
      provider.derive(salt, privateKey, peerKey)
    case P256Algorithm(_) =>
      var privateKey :- ImportPrivateKey(provider, SoftwareKey(P256), userPrivateKey);
      var peerKey :- ImportPublicKey(provider, P256, publicKey);
      provider.derive(salt, privateKey, peerKey)
    case P384Algorithm(_) =>
      var privateKey :- ImportPrivateKey(provider, SoftwareKey(P384), userPrivateKey);
      var peerKey :- ImportPublicKey(provider, P384, publicKey);
      provider.derive(salt, privateKey, peerKey)
    case P521Algorithm(_) =>
      var privateKey :- ImportPrivateKey(provider, SoftwareKey(P521), userPrivateKey);
      var peerKey :- ImportPublicKey(provider, P521, publicKey);
      provider.derive(salt, privateKey, peerKey)
    case SecureEnclaveAlgorithm(_) =>
      var privateKey :- ImportPrivateKey(provider, SecureEnclaveP256Key, userPrivateKey);
      var peerKey :- ImportPublicKey(provider, P256, publicKey);
      provider.derive(salt, privateKey, peerKey)
  }
}
