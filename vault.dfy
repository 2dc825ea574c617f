/** The session-string vault: the 64-digit key check and the
    `hex(iv) ":" hex(ciphertext)` envelope around an AES-256-CBC cipher,
    which is left abstract as a pair of functions. */
module Vault {
  import opened Wrappers
  import opened Text
  import opened Hex

  const EncryptFailed := "SESSION_STRING加密失败"
  const DecryptFailed := "SESSION_STRING解密失败"

  /** The configured key string and the cipher.  `enc(key, iv, text)` gives
      the ciphertext bytes; `dec(key, iv, bytes)` gives the text or `None`
      when the final block does not unpad. */
  datatype Crypto = Crypto(
    keyString: Option<string>,
    enc: (seq<byte>, seq<byte>, string) -> seq<byte>,
    dec: (seq<byte>, seq<byte>, seq<byte>) -> Option<string>)

  /** The one property assumed of the cipher: with a 32-byte key and a
      16-byte IV, deciphering undoes enciphering. */
  ghost predicate CipherInverse(c: Crypto) {
    forall k, iv, x :: |k| == 32 && |iv| == 16 ==> c.dec(k, iv, c.enc(k, iv, x)) == Some(x)
  }

  function KeyLengthMessage(k: Option<string>): string {
    "SESSION_ENCRYPTION_KEY 配置错误！必须是64个十六进制字符。当前长度: "
    + (if k.Some? && k.value != "" then NatToString(|k.value|) else "undefined")
  }

  /** `ensureKeyLength`: exactly a 64-character string passes. */
  function EnsureKeyLength(k: Option<string>): (r: Result<string, string>)
    ensures r.Ok? <==> k.Some? && |k.value| == 64
    ensures r.Ok? ==> r.value == k.value
    ensures r.Err? ==> StartsWith(r.error, "SESSION_ENCRYPTION_KEY 配置错误")
  {
    if k.None? || |k.value| != 64 then Err(KeyLengthMessage(k)) else Ok(k.value)
  }

  /** `Buffer.from(ensureKeyLength(key), 'hex')`, accepted by the cipher
      only when it yields 32 bytes. */
  function CipherKey(c: Crypto): (r: Option<seq<byte>>)
    ensures r.Some? ==> |r.value| == 32 && c.keyString.Some? && |c.keyString.value| == 64
  {
    match EnsureKeyLength(c.keyString)
    case Err(_) => None
    case Ok(s) => if |Decode(s)| == 32 then Some(Decode(s)) else None
  }

  /** `encryptSessionString` with the random IV as a parameter; every
      failure becomes the one generic message. */
  function Encrypt(c: Crypto, iv: seq<byte>, plain: Option<string>): (r: Result<string, string>)
    ensures r.Ok? <==> CipherKey(c).Some? && |iv| == 16 && plain.Some?
    ensures r.Err? ==> r.error == EncryptFailed
  {
    match CipherKey(c)
    case None => Err(EncryptFailed)
    case Some(key) =>
      if |iv| != 16 || plain.None? then Err(EncryptFailed)
      else Ok(Encode(iv) + ":" + Encode(c.enc(key, iv, plain.value)))
  }

  /** `decryptSessionString`: the first two ':'-separated parts are the IV
      and the ciphertext. */
  function Decrypt(c: Crypto, envelope: string): (r: Result<string, string>)
    ensures r.Err? ==> r.error == DecryptFailed
    ensures r.Ok? ==> CipherKey(c).Some? && |Split(envelope, ':')| >= 2
  {
    var parts := Split(envelope, ':');
    if |parts| < 2 then Err(DecryptFailed)
    else match CipherKey(c)
      case None => Err(DecryptFailed)
      case Some(key) =>
        var iv := Decode(parts[0]);
        if |iv| != 16 then Err(DecryptFailed)
        else match c.dec(key, iv, Decode(parts[1]))
          case None => Err(DecryptFailed)
          case Some(text) => Ok(text)
  }

  /** An envelope is the IV's 32 hex digits, a colon and the ciphertext's
      hex digits, and splits into exactly those two parts. */
  lemma EnvelopeShape(c: Crypto, iv: seq<byte>, plain: Option<string>)
    requires Encrypt(c, iv, plain).Ok?
    ensures var env := Encrypt(c, iv, plain).value;
            var ct := c.enc(CipherKey(c).value, iv, plain.value);
            Split(env, ':') == [Encode(iv), Encode(ct)] && |env| == 33 + 2 * |ct|
  {
    var ct := c.enc(CipherKey(c).value, iv, plain.value);
    var parts := [Encode(iv), Encode(ct)];
    assert Join(parts, [':']) == Encode(iv) + ":" + Encode(ct) by {
      assert parts[1..] == [Encode(ct)];
    }
    SplitJoin(parts, ':');
  }

  /** Decrypting an envelope gives back the session string. */
  lemma RoundTrip(c: Crypto, iv: seq<byte>, plain: string)
    requires CipherInverse(c)
    requires Encrypt(c, iv, Some(plain)).Ok?
    ensures Decrypt(c, Encrypt(c, iv, Some(plain)).value) == Ok(plain)
  {
    EnvelopeShape(c, iv, Some(plain));
    var key := CipherKey(c).value;
    DecodeEncode(iv);
    DecodeEncode(c.enc(key, iv, plain));
  }

  /** Anything after a second colon is ignored. */
  lemma DecryptFirstTwoParts(c: Crypto, a: string, b: string, rest: string)
    requires ':' !in a && ':' !in b
    ensures Decrypt(c, a + ":" + b + ":" + rest) == Decrypt(c, a + ":" + b)
  {
    SplitPrefix(a, ':', b + ":" + rest);
    SplitPrefix(b, ':', rest);
    assert a + ":" + b + ":" + rest == a + [':'] + (b + [':'] + rest);
    SplitPrefix(a, ':', b);
    SplitFree(b, ':');
    assert a + ":" + b == a + [':'] + b;
  }

  /** Two encryptions under different IVs give different envelopes. */
  lemma DistinctIvsDistinctEnvelopes(c: Crypto, iv1: seq<byte>, iv2: seq<byte>, p1: string, p2: string)
    requires Encrypt(c, iv1, Some(p1)).Ok? && Encrypt(c, iv2, Some(p2)).Ok?
    requires iv1 != iv2
    ensures Encrypt(c, iv1, Some(p1)).value != Encrypt(c, iv2, Some(p2)).value
  {
    EnvelopeShape(c, iv1, Some(p1));
    EnvelopeShape(c, iv2, Some(p2));
    if Encrypt(c, iv1, Some(p1)).value == Encrypt(c, iv2, Some(p2)).value {
      EncodeInjective(iv1, iv2);
    }
  }

  /** A wrong-length key makes both directions fail, whatever the input. */
  lemma BadKeyFails(c: Crypto, iv: seq<byte>, plain: Option<string>, envelope: string)
    requires c.keyString.None? || |c.keyString.value| != 64
    ensures Encrypt(c, iv, plain) == Err(EncryptFailed)
    ensures Decrypt(c, envelope) == Err(DecryptFailed)
  {
  }
}
