/** `SecretService.encryptValue` / `decryptValue`: a per-call salt fed to
    PBKDF2 (RFC 8018 section 5.2, HMAC-SHA-256, 100000 iterations, 32-byte key),
    AES-256-GCM (NIST SP 800-38D) under the derived key with a 12-byte IV, and the
    payload `salt:iv:tag:ciphertext` in base16 (RFC 4648 section 8).
    The primitives are opaque: they are fields of `Primitives`, and the one fact
    assumed of them is `Sound`, that opening with the same key and IV inverts
    sealing and that tags are 16 bytes long. */
module Crypto {
  import opened Wrappers
  import opened Text
  import opened Hex
  import opened Errors

  const SaltLength: nat := 16
  const IvLength: nat := 12
  const TagLength: nat := 16
  const Iterations: nat := 100000
  const KeyLength: nat := 32
  const Digest: string := "sha256"

  /** The output of `crypto.randomBytes(16)` and `crypto.randomBytes(12)`. */
  type SaltBytes = s: seq<byte> | |s| == SaltLength witness seq(16, _ => 0)
  type IvBytes = s: seq<byte> | |s| == IvLength witness seq(12, _ => 0)

  /** What an AES-256-GCM cipher object yields: ciphertext and authentication tag. */
  datatype Sealed = Sealed(ciphertext: seq<byte>, tag: seq<byte>)

  /** The library calls the service makes, as uninterpreted functions:
      `pbkdf2(password, salt, iterations, keyLength, digest)`,
      `seal(key, iv, plaintext)` for createCipheriv/update/final/getAuthTag, and
      `open(key, iv, tag, ciphertext)` for createDecipheriv/setAuthTag/update/final,
      `None` when any of those throws (bad IV or tag length, failed authentication). */
  datatype Primitives = Primitives(
    pbkdf2: (string, string, nat, nat, string) -> seq<byte>,
    seal: (seq<byte>, seq<byte>, string) -> Sealed,
    open: (seq<byte>, seq<byte>, seq<byte>, seq<byte>) -> Option<string>)

  /** AES-GCM's own guarantee: a 16-byte tag, and decryption under the same key
      and IV returns the plaintext that was sealed. */
  ghost predicate Sound(p: Primitives) {
    forall key: seq<byte>, iv: seq<byte>, plain: string {:trigger p.seal(key, iv, plain)} ::
      |p.seal(key, iv, plain).tag| == TagLength &&
      p.open(key, iv, p.seal(key, iv, plain).tag, p.seal(key, iv, plain).ciphertext) == Some(plain)
  }

  const EncryptionFailed: string := "Encryption failed: "
  const DecryptionFailed: string := "Decryption failed: "
  /** The inner messages of the errors the library throws (their exact Node.js
      wording is not part of the model). */
  const MissingKeyCause: string := "password argument is undefined"
  const MissingFieldCause: string := "payload field is undefined"
  const AuthenticationCause: string := "Unsupported state or unable to authenticate data"

  /** `generateSalt`: 16 random bytes as 32 hex digits. */
  function GenerateSalt(random: SaltBytes): (salt: string)
    ensures |salt| == 2 * SaltLength && IsLowerHex(salt)
  {
    Encode(random)
  }

  function DeriveKey(p: Primitives, masterKey: string, salt: string): seq<byte> {
    p.pbkdf2(masterKey, salt, Iterations, KeyLength, Digest)
  }

  /** The four fields of a payload in the order they are written. */
  function Fields(salt: string, iv: seq<byte>, sealed: Sealed): seq<string> {
    [salt, Encode(iv), Encode(sealed.tag), Encode(sealed.ciphertext)]
  }

  /** `encryptValue(value, masterKey)`; `masterKey` is `None` when the
      environment variable is unset, which makes PBKDF2 throw. */
  function EncryptValue(value: string, masterKey: Option<string>, random: SaltBytes, iv: IvBytes, p: Primitives)
    : (r: Result<string, ErrorValue>)
    ensures r.Failure? <==> masterKey.None?
    ensures r.Failure? ==> r.error == PlainError(EncryptionFailed + MissingKeyCause)
    ensures r.Success? ==>
      var salt := Encode(random);
      Split(r.value, ':') == Fields(salt, iv, p.seal(DeriveKey(p, masterKey.value, salt), iv, value))
  {
    if masterKey.None? then Failure(PlainError(EncryptionFailed + MissingKeyCause))
    else
      var salt := GenerateSalt(random);
      var key := DeriveKey(p, masterKey.value, salt);
      var sealed := p.seal(key, iv, value);
      var fields := Fields(salt, iv, sealed);
      NoColon(fields[0]);
      NoColon(fields[1]);
      NoColon(fields[2]);
      NoColon(fields[3]);
      SplitJoin(fields, ':');
      Success(Join(fields, ':'))
  }

  /** `decryptValue(encryptedData, masterKey)`. Only the first four `:`-fields
      are read (destructuring ignores any further ones); a missing field is
      `undefined`, which makes the Buffer or cipher call throw. */
  function DecryptValue(payload: string, masterKey: Option<string>, p: Primitives): (r: Result<string, ErrorValue>)
    ensures r.Failure? ==> r.error.name == "Error" && r.error.status.None?
    ensures r.Failure? ==> IsPrefix(DecryptionFailed, r.error.message)
    ensures r.Success? ==>
      var parts := Split(payload, ':');
      && masterKey.Some? && |parts| >= 4
      && p.open(DeriveKey(p, masterKey.value, parts[0]), Decode(parts[1]), Decode(parts[2]), Decode(parts[3]))
         == Some(r.value)
  {
    var parts := Split(payload, ':');
    if masterKey.None? then Failure(PlainError(DecryptionFailed + MissingKeyCause))
    else if |parts| < 4 then Failure(PlainError(DecryptionFailed + MissingFieldCause))
    else
      var key := DeriveKey(p, masterKey.value, parts[0]);
      match p.open(key, Decode(parts[1]), Decode(parts[2]), Decode(parts[3]))
      case None => Failure(PlainError(DecryptionFailed + AuthenticationCause))
      case Some(plain) => Success(plain)
  }

  /** A payload as `encryptValue` writes it: exactly four hex fields, of 16, 12
      and 16 bytes and then the ciphertext. */
  ghost predicate WellFramed(payload: string) {
    var parts := Split(payload, ':');
    && |parts| == 4
    && (forall i :: 0 <= i < 4 ==> IsLowerHex(parts[i]))
    && |parts[0]| == 2 * SaltLength
    && |parts[1]| == 2 * IvLength
    && |parts[2]| == 2 * TagLength
    && |parts[3]| % 2 == 0
  }

  lemma EncryptFrames(value: string, masterKey: string, random: SaltBytes, iv: IvBytes, p: Primitives)
    requires Sound(p)
    ensures EncryptValue(value, Some(masterKey), random, iv, p).Success?
    ensures WellFramed(EncryptValue(value, Some(masterKey), random, iv, p).value)
  {
    var salt := Encode(random);
    var sealed := p.seal(DeriveKey(p, masterKey, salt), iv, value);
    assert |sealed.tag| == TagLength;
  }

  /** Decrypting what was encrypted under the same master key gives the value back. */
  lemma {:induction false} DecryptEncrypt(value: string, masterKey: string, random: SaltBytes, iv: IvBytes, p: Primitives)
    requires Sound(p)
    ensures DecryptValue(EncryptValue(value, Some(masterKey), random, iv, p).value, Some(masterKey), p) == Success(value)
  {
    var salt := Encode(random);
    var key := DeriveKey(p, masterKey, salt);
    var sealed := p.seal(key, iv, value);
    var payload := EncryptValue(value, Some(masterKey), random, iv, p).value;
    var parts := Split(payload, ':');
    assert parts == Fields(salt, iv, sealed);
    DecodeEncode(iv);
    DecodeEncode(sealed.tag);
    DecodeEncode(sealed.ciphertext);
    assert p.open(key, iv, sealed.tag, sealed.ciphertext) == Some(value);
  }
}
