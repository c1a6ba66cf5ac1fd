/**
 * The ciphertext envelope of lib/crypto.ts. The key is the configured secret right-padded
 * with '0' to 32 characters; one 16-byte IV is drawn when the module is loaded and used by
 * every `encrypt` call; the stored form is hex(IV) ":" hex(ciphertext).
 * AES-256-CBC (FIPS 197 with the CBC mode of NIST SP 800-38A section 6.2) and Node's UTF-8
 * text codec are not modelled: they are the four functions of `Cipher`, and `Sound` is the
 * round-trip property assumed of them.
 */
module Crypto {
  import opened Wrappers
  import Hex
  import Strings

  type Byte = Hex.Byte

  const KEY_LENGTH: nat := 32
  const IV_LENGTH: nat := 16
  const KEY_FILLER: char := '0'
  const SEPARATOR: char := ':'

  /** The foreign primitives `encrypt` and `decrypt` call. */
  datatype Cipher = Cipher(
    utf8: string -> seq<Byte>,                                 // Buffer.from(text)
    text: seq<Byte> -> string,                                 // buf.toString()
    enc: (seq<Byte>, seq<Byte>, seq<Byte>) -> seq<Byte>,         // AES-256-CBC update + final under (key, iv)
    dec: (seq<Byte>, seq<Byte>, seq<Byte>) -> Option<seq<Byte>>) // the decipher; None when final() throws

  /** The assumed round trips: UTF-8 decoding inverts encoding, and with a 32-byte key and a
      16-byte IV the decipher inverts the cipher. */
  ghost predicate Sound(c: Cipher)
  {
    && (forall s :: c.text(c.utf8(s)) == s)
    && (forall key, iv, p :: |key| == KEY_LENGTH && |iv| == IV_LENGTH ==> c.dec(key, iv, c.enc(key, iv, p)) == Some(p))
  }

  type Iv = s: seq<Byte> | |s| == IV_LENGTH witness seq(16, _ => 0)

  /** The module's constants, fixed once when it is loaded: ENCRYPTION_KEY and IV. */
  datatype Module = Module(key: string, iv: Iv)

  /** The ways `encrypt` and `decrypt` throw. */
  datatype CryptoError =
    | MissingCiphertext  // no ':' in the stored text, so `parts[1]` is undefined
    | InvalidKeyLength   // the key is not 32 bytes (a secret longer than 32 is not cut)
    | InvalidIv          // the stored IV field does not decode to 16 bytes (checked before the key)
    | BadDecrypt         // the decipher rejects the ciphertext

  /** `process.env.ENCRYPTION_KEY.padEnd(32, '0')`. */
  function EffectiveKey(secret: string): (key: string)
    ensures |secret| >= KEY_LENGTH ==> key == secret
    ensures |secret| < KEY_LENGTH ==> |key| == KEY_LENGTH && key[..|secret|] == secret
    ensures forall i :: |secret| <= i < |key| ==> key[i] == KEY_FILLER
  {
    Strings.PadEnd(secret, KEY_LENGTH, KEY_FILLER)
  }

  /** Loading the module: the secret is padded and `crypto.randomBytes(16)` is drawn, once. */
  function Load(secret: string, randomIv: Iv): Module
  {
    Module(EffectiveKey(secret), randomIv)
  }

  /** `encrypt(text)`: always under the module's one IV. */
  function Encrypt(m: Module, c: Cipher, plaintext: string): (r: Result<string, CryptoError>)
    ensures r.Failure? <==> |c.utf8(m.key)| != KEY_LENGTH
    ensures r.Failure? ==> r.error == InvalidKeyLength
  {
    var key := c.utf8(m.key);
    if |key| != KEY_LENGTH then Failure(InvalidKeyLength)
    else Success(Hex.Encode(m.iv) + [SEPARATOR] + Hex.Encode(c.enc(key, m.iv, c.utf8(plaintext))))
  }

  /** `decrypt(text)`: field 0 of the ':'-split is the IV, field 1 the ciphertext, the rest is ignored.
      `createDecipheriv` rejects an IV of the wrong length before it looks at the key. */
  function Decrypt(m: Module, c: Cipher, stored: string): (r: Result<string, CryptoError>)
    ensures r == Failure(MissingCiphertext) <==> SEPARATOR !in stored
    ensures SEPARATOR in stored && |Hex.Decode(Strings.Split(stored, SEPARATOR)[0])| != IV_LENGTH ==>
      r == Failure(InvalidIv)
    ensures SEPARATOR in stored && |Hex.Decode(Strings.Split(stored, SEPARATOR)[0])| == IV_LENGTH && |c.utf8(m.key)| != KEY_LENGTH ==>
      r == Failure(InvalidKeyLength)
  {
    var parts := Strings.Split(stored, SEPARATOR);
    if |parts| < 2 then Failure(MissingCiphertext)
    else
      var iv := Hex.Decode(parts[0]);
      var ciphertext := Hex.Decode(parts[1]);
      var key := c.utf8(m.key);
      if |iv| != IV_LENGTH then Failure(InvalidIv)
      else if |key| != KEY_LENGTH then Failure(InvalidKeyLength)
      else match c.dec(key, iv, ciphertext)
        case None => Failure(BadDecrypt)
        case Some(p) => Success(c.text(p))
  }

  /** The stored form has exactly one ':', preceded by the 32 lower-case hex digits of the IV,
      and splits back into the hex IV and the hex ciphertext. */
  lemma EncryptFraming(m: Module, c: Cipher, plaintext: string)
    requires Encrypt(m, c, plaintext).Success?
    ensures var out := Encrypt(m, c, plaintext).value;
      && Strings.Count(out, SEPARATOR) == 1
      && |out| > 2 * IV_LENGTH && out[2 * IV_LENGTH] == SEPARATOR
      && out[..2 * IV_LENGTH] == Hex.Encode(m.iv)
      && (forall i :: 0 <= i < 2 * IV_LENGTH ==> Hex.IsLowerHex(out[i]))
      && Strings.Split(out, SEPARATOR)
         == [Hex.Encode(m.iv), Hex.Encode(c.enc(c.utf8(m.key), m.iv, c.utf8(plaintext)))]
  {
    var ivHex := Hex.Encode(m.iv);
    var ctHex := Hex.Encode(c.enc(c.utf8(m.key), m.iv, c.utf8(plaintext)));
    var out := Encrypt(m, c, plaintext).value;
    assert out == ivHex + [SEPARATOR] + ctHex;
    Hex.EncodeHasNoColon(m.iv);
    Hex.EncodeHasNoColon(c.enc(c.utf8(m.key), m.iv, c.utf8(plaintext)));
    Strings.CountAppend(ivHex + [SEPARATOR], ctHex, SEPARATOR);
    Strings.CountAppend(ivHex, [SEPARATOR], SEPARATOR);
    assert Strings.Count([SEPARATOR], SEPARATOR) == 1;
    assert Strings.Join([ivHex, ctHex], SEPARATOR) == out;
    Strings.SplitJoin([ivHex, ctHex], SEPARATOR);
  }

  /** A stored form begins with the hex of the module's IV and the separator. */
  lemma IvPrefix(m: Module, c: Cipher, plaintext: string)
    requires Encrypt(m, c, plaintext).Success?
    ensures Encrypt(m, c, plaintext).value[..2 * IV_LENGTH + 1] == Hex.Encode(m.iv) + [SEPARATOR]
  {
    EncryptFraming(m, c, plaintext);
    var out := Encrypt(m, c, plaintext).value;
    assert out[..2 * IV_LENGTH + 1] == out[..2 * IV_LENGTH] + [SEPARATOR];
  }

  /** Every `encrypt` of a process writes the IV drawn when the module was loaded, so any two
      stored forms share their first 33 characters: hex(IV) and ':' (see `IvPrefix`). */
  lemma EncryptSharesIv(secret: string, randomIv: Iv, c: Cipher, t1: string, t2: string)
    requires Encrypt(Load(secret, randomIv), c, t1).Success?
    ensures Encrypt(Load(secret, randomIv), c, t2).Success?
    ensures Encrypt(Load(secret, randomIv), c, t1).value[..2 * IV_LENGTH + 1]
         == Encrypt(Load(secret, randomIv), c, t2).value[..2 * IV_LENGTH + 1]
  {
    IvPrefix(Load(secret, randomIv), c, t1);
    IvPrefix(Load(secret, randomIv), c, t2);
  }

  /** Given the assumed round trips, decrypting what `encrypt` stored gives back the plaintext. */
  lemma DecryptEncrypt(m: Module, c: Cipher, plaintext: string)
    requires Sound(c)
    requires Encrypt(m, c, plaintext).Success?
    ensures Decrypt(m, c, Encrypt(m, c, plaintext).value) == Success(plaintext)
  {
    var key := c.utf8(m.key);
    var ct := c.enc(key, m.iv, c.utf8(plaintext));
    EncryptFraming(m, c, plaintext);
    Hex.DecodeEncode(m.iv);
    Hex.DecodeEncode(ct);
    assert c.dec(key, m.iv, ct) == Some(c.utf8(plaintext));
  }

  /** Decrypt reads the IV from the stored text, not from the module: a form stored by an earlier
      process, which drew another IV, still decrypts under the same secret. */
  lemma DecryptAcrossLoads(m1: Module, m2: Module, c: Cipher, plaintext: string)
    requires Sound(c)
    requires m1.key == m2.key
    requires Encrypt(m1, c, plaintext).Success?
    ensures Decrypt(m2, c, Encrypt(m1, c, plaintext).value) == Success(plaintext)
  {
    var key := c.utf8(m1.key);
    var ct := c.enc(key, m1.iv, c.utf8(plaintext));
    EncryptFraming(m1, c, plaintext);
    Hex.DecodeEncode(m1.iv);
    Hex.DecodeEncode(ct);
    assert c.dec(key, m1.iv, ct) == Some(c.utf8(plaintext));
  }

  /** Fields after the second are ignored: appending ":rest" to a two-field form changes nothing. */
  lemma DecryptIgnoresExtraFields(m: Module, c: Cipher, ivHex: string, ctHex: string, rest: string)
    requires SEPARATOR !in ivHex && SEPARATOR !in ctHex
    ensures Decrypt(m, c, ivHex + [SEPARATOR] + ctHex + [SEPARATOR] + rest)
         == Decrypt(m, c, ivHex + [SEPARATOR] + ctHex)
  {
    var sep := [SEPARATOR];
    Strings.SplitAt(ctHex, rest, SEPARATOR);
    Strings.SplitAt(ivHex, ctHex + sep + rest, SEPARATOR);
    assert ivHex + sep + ctHex + sep + rest == ivHex + sep + (ctHex + sep + rest);
    Strings.SplitNone(ctHex, SEPARATOR);
    Strings.SplitAt(ivHex, ctHex, SEPARATOR);
  }
}
