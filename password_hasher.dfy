/** `Services/Argon2PasswordHasher.cs`: passwords are stored as the base 64
    text of a 16-byte random salt followed by the 16-byte Argon2id hash of
    the password under that salt. The key derivation function and the
    random number generator are parameters: `kdf` stands for
    `Argon2id(Encoding.UTF8.GetBytes(password)).GetBytes(16)` with the given
    salt and cost settings, `randomSalt` for the bytes the generator
    writes. */
module PasswordHasher {
  import opened Common
  import opened Base64

  /** The Argon2id cost settings. */
  datatype KdfParams = KdfParams(degreeOfParallelism: int, iterations: int, memorySize: int)

  const Params := KdfParams(2, 4, 12288)

  const SaltLength := 16
  const HashLength := 16

  type Hash16 = s: seq<byte> | |s| == 16 witness seq(16, _ => 0)

  /** A key derivation function: password, salt and settings to 16 bytes. */
  type Kdf = (string, seq<byte>, KdfParams) -> Hash16

  datatype VerificationResult = Failed | Success

  /** `Buffer.BlockCopy` between two distinct arrays: `count` bytes from
      `src[srcOffset..]` are written over `dst[dstOffset..]`; the rest of
      `dst` is left as it was. */
  method BlockCopy(src: array<byte>, srcOffset: nat, dst: array<byte>, dstOffset: nat, count: nat)
    requires src != dst
    requires srcOffset + count <= src.Length && dstOffset + count <= dst.Length
    modifies dst
    ensures dst[..] == old(dst[..dstOffset]) + src[srcOffset..srcOffset + count] + old(dst[dstOffset + count..])
  {
    var i := 0;
    while i < count
      invariant 0 <= i <= count
      invariant dst[..dstOffset] == old(dst[..dstOffset])
      invariant dst[dstOffset..dstOffset + i] == src[srcOffset..srcOffset + i]
      invariant dst[dstOffset + i..] == old(dst[dstOffset + i..])
    {
      dst[dstOffset + i] := src[srcOffset + i];
      i := i + 1;
    }
    assert dst[..] == dst[..dstOffset] + dst[dstOffset..dstOffset + count] + dst[dstOffset + count..];
  }

  /** A fresh array holding `s`: the `byte[]` values the .NET calls
      return. */
  method ToArray(s: seq<byte>) returns (a: array<byte>)
    ensures fresh(a) && a[..] == s
  {
    a := new byte[|s|](i requires 0 <= i < |s| => s[i]);
  }

  /** `HashPassword(user, password)`: the base 64 text of salt followed by
      hash, 44 characters long. */
  method HashPassword(password: string, randomSalt: seq<byte>, kdf: Kdf) returns (stored: string)
    requires |randomSalt| == SaltLength
    ensures stored == Encode(randomSalt + kdf(password, randomSalt, Params))
    ensures |stored| == 44
  {
    var salt := ToArray(randomSalt);
    var hash := kdf(password, salt[..], Params);
    var hashBytes := ToArray(hash);
    var saltAndHash := JoinSaltAndHash(salt, hashBytes);
    stored := Encode(saltAndHash[..]);
  }

  /** The salt followed by the hash in a fresh array, the two
      `Buffer.BlockCopy` calls of `HashPassword`. */
  method JoinSaltAndHash(salt: array<byte>, hashBytes: array<byte>) returns (saltAndHash: array<byte>)
    ensures fresh(saltAndHash) && saltAndHash[..] == salt[..] + hashBytes[..]
  {
    saltAndHash := new byte[salt.Length + hashBytes.Length];
    BlockCopy(salt, 0, saltAndHash, 0, salt.Length);
    BlockCopy(hashBytes, 0, saltAndHash, salt.Length, hashBytes.Length);
  }

  /** `CryptographicOperations.FixedTimeEquals`: equal lengths and equal
      bytes. Every byte is looked at, whatever the outcome. */
  method FixedTimeEquals(left: array<byte>, right: array<byte>) returns (equal: bool)
    ensures equal <==> left[..] == right[..]
  {
    if left.Length != right.Length {
      return false;
    }
    var accumulated := true;
    var i := 0;
    while i < left.Length
      invariant 0 <= i <= left.Length
      invariant accumulated <==> left[..i] == right[..i]
    {
      assert left[..i + 1] == left[..i] + [left[i]] && right[..i + 1] == right[..i] + [right[i]];
      accumulated := accumulated && left[i] == right[i];
      i := i + 1;
    }
    assert left[..] == left[..i] && right[..] == right[..i];
    equal := accumulated;
  }

  /** Decoded bytes hold this password: 32 bytes whose last 16 are the hash
      of the password under the first 16. */
  predicate BlobMatches(blob: seq<byte>, providedPassword: string, kdf: Kdf)
  {
    |blob| == SaltLength + HashLength
    && kdf(providedPassword, blob[..SaltLength], Params) == blob[SaltLength..]
  }

  /** The stored text holds this password: it is base 64 for bytes that
      hold it. */
  predicate Matches(hashedPassword: string, providedPassword: string, kdf: Kdf)
  {
    match FromBase64String(hashedPassword)
    case None => false
    case Some(blob) => BlobMatches(blob, providedPassword, kdf)
  }

  /** `VerifyHashedPassword(user, hashedPassword, providedPassword)`: Failed
      for text that is not base 64 or not 32 bytes long, Success exactly when
      the recomputed hash equals the stored one. */
  method VerifyHashedPassword(hashedPassword: string, providedPassword: string, kdf: Kdf)
    returns (result: VerificationResult)
    ensures result == Success <==> Matches(hashedPassword, providedPassword, kdf)
    ensures FromBase64String(hashedPassword).None? ==> result == Failed
    ensures (FromBase64String(hashedPassword).Some?
      && |FromBase64String(hashedPassword).value| != SaltLength + HashLength) ==> result == Failed
  {
    var decoded := FromBase64String(hashedPassword);
    if decoded.None? {
      return Failed;
    }
    result := CheckSaltAndHash(decoded.value, providedPassword, kdf);
  }

  /** The part of `VerifyHashedPassword` after decoding: split the bytes
      into salt and hash, recompute the hash under that salt and compare
      the two in fixed time. */
  method CheckSaltAndHash(decoded: seq<byte>, providedPassword: string, kdf: Kdf)
    returns (result: VerificationResult)
    ensures result == Success <==> BlobMatches(decoded, providedPassword, kdf)
    ensures |decoded| != SaltLength + HashLength ==> result == Failed
  {
    var saltAndHash := ToArray(decoded);
    var salt := new byte[SaltLength];
    var hash := new byte[HashLength];
    if saltAndHash.Length != 32 {
      return Failed;
    }
    BlockCopy(saltAndHash, 0, salt, 0, salt.Length);
    BlockCopy(saltAndHash, salt.Length, hash, 0, hash.Length);
    assert salt[..] == decoded[..SaltLength];
    assert hash[..] == decoded[SaltLength..];
    var newHash := kdf(providedPassword, salt[..], Params);
    var newHashBytes := ToArray(newHash);
    var same := FixedTimeEquals(hash, newHashBytes);
    result := if same then Success else Failed;
  }

  /** Hashing a password and verifying the same password against the stored
      text succeeds, for any salt and any deterministic KDF. */
  method HashThenVerify(password: string, randomSalt: seq<byte>, kdf: Kdf) returns (result: VerificationResult)
    requires |randomSalt| == SaltLength
    ensures result == Success
  {
    var stored := HashPassword(password, randomSalt, kdf);
    StoredTextMatches(password, randomSalt, kdf);
    result := VerifyHashedPassword(stored, password, kdf);
  }

  /** The text `HashPassword` stores decodes back to salt and hash, so the
      same password matches it. */
  lemma StoredTextMatches(password: string, randomSalt: seq<byte>, kdf: Kdf)
    requires |randomSalt| == SaltLength
    ensures Matches(Encode(randomSalt + kdf(password, randomSalt, Params)), password, kdf)
  {
    var blob := randomSalt + kdf(password, randomSalt, Params);
    FromBase64StringRoundTrip(blob);
    assert blob[..SaltLength] == randomSalt;
    assert blob[SaltLength..] == kdf(password, randomSalt, Params);
  }

  /** A password whose hash under the stored salt differs from the stored
      hash is refused. */
  lemma OtherPasswordRefused(password: string, other: string, randomSalt: seq<byte>, kdf: Kdf)
    requires |randomSalt| == SaltLength
    requires kdf(other, randomSalt, Params) != kdf(password, randomSalt, Params)
    ensures !Matches(Encode(randomSalt + kdf(password, randomSalt, Params)), other, kdf)
  {
    var blob := randomSalt + kdf(password, randomSalt, Params);
    FromBase64StringRoundTrip(blob);
    assert blob[..SaltLength] == randomSalt;
    assert blob[SaltLength..] == kdf(password, randomSalt, Params);
  }
}
