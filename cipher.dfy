/**
 * `EncryptionManager` of public/database.js: authenticated encryption of one text value into a
 * self-contained base64 blob laid out as `salt(16) || iv(16) || tag(16) || ciphertext`.
 *
 * The primitives are parameters: PBKDF2 with HMAC-SHA-256 (section 5.2 of RFC 8018), AES-256 in
 * Galois/Counter Mode (NIST SP 800-38D), UTF-8 and base64 (section 4 of RFC 4648). `Sound` states
 * the only facts the layout proofs rely on.
 */
module Cipher {
  import opened Wrappers

  type Byte = x: int | 0 <= x < 256
  type Bytes = seq<Byte>

  const KeyLength: nat := 32
  const IvLength: nat := 16
  const SaltLength: nat := 16
  const TagLength: nat := 16
  const Iterations: nat := 100000

  const DecryptError: string := "Failed to decrypt data"

  /** What AES-GCM encryption produces: the ciphertext and its authentication tag. */
  datatype Sealed = Sealed(ciphertext: Bytes, tag: Bytes)

  /** The foreign primitives the cipher calls. */
  datatype Primitives = Primitives(
    /** `pbkdf2Sync(password, salt, iterations, keyLength, 'sha256')` */
    pbkdf2: (Bytes, Bytes, nat, nat) -> Bytes,
    /** AES-256-GCM encryption under key and iv */
    seal: (Bytes, Bytes, Bytes) -> Sealed,
    /** AES-256-GCM authenticated decryption under key, iv and tag; `None` when anything fails */
    open: (Bytes, Bytes, Bytes, Bytes) -> Option<Bytes>,
    utf8Encode: string -> Bytes,
    utf8Decode: Bytes -> string,
    base64Encode: Bytes -> string,
    /** `Buffer.from(s, 'base64')`, which skips characters outside the alphabet instead of failing */
    base64Decode: string -> Bytes)

  /**
   * The contract of the primitives: GCM emits a 16-byte tag and authenticated decryption under
   * the same key and iv inverts encryption; UTF-8 and base64 decoding invert their encodings.
   */
  ghost predicate Sound(p: Primitives) {
    && (forall key, iv, pt :: |p.seal(key, iv, pt).tag| == TagLength)
    && (forall key, iv, pt :: p.open(key, iv, p.seal(key, iv, pt).tag, p.seal(key, iv, pt).ciphertext) == Some(pt))
    && (forall s :: p.utf8Decode(p.utf8Encode(s)) == s)
    && (forall b :: p.base64Decode(p.base64Encode(b)) == b)
  }

  /** `Buffer.slice(start, end)`: both bounds are clamped to the buffer. */
  function Slice(data: Bytes, start: nat, end: nat): (r: Bytes)
    ensures |r| <= |data|
  {
    var lo := if start <= |data| then start else |data|;
    var hi := if end <= |data| then (if lo <= end then end else lo) else |data|;
    data[lo..hi]
  }

  /** The four fields of a blob. */
  datatype Parts = Parts(salt: Bytes, iv: Bytes, tag: Bytes, ciphertext: Bytes)

  /** `Buffer.concat([salt, iv, tag, encrypted])`. */
  function Layout(p: Parts): (data: Bytes)
    ensures |data| == |p.salt| + |p.iv| + |p.tag| + |p.ciphertext|
    ensures data[..|p.salt|] == p.salt
    ensures data[|data| - |p.ciphertext|..] == p.ciphertext
  {
    var data := p.salt + p.iv + p.tag + p.ciphertext;
    assert data[..|p.salt|] == p.salt;
    data
  }

  /** The slicing at offsets 16, 32 and 48 that `decrypt` performs. */
  function Unlayout(data: Bytes): (p: Parts)
    ensures |p.salt| + |p.iv| + |p.tag| + |p.ciphertext| == |data|
    ensures |data| >= SaltLength + IvLength + TagLength ==>
      |p.salt| == SaltLength && |p.iv| == IvLength && |p.tag| == TagLength
  {
    Parts(
      Slice(data, 0, SaltLength),
      Slice(data, SaltLength, SaltLength + IvLength),
      Slice(data, SaltLength + IvLength, SaltLength + IvLength + TagLength),
      Slice(data, SaltLength + IvLength + TagLength, |data|))
  }

  /** Slicing recovers exactly the parts that were concatenated, whenever the header fields have their fixed sizes. */
  lemma UnlayoutLayout(p: Parts)
    requires |p.salt| == SaltLength && |p.iv| == IvLength && |p.tag| == TagLength
    ensures Unlayout(Layout(p)) == p
  {
    var d := Layout(p);
    assert d[..16] == p.salt;
    assert d[16..32] == p.iv;
    assert d[32..48] == p.tag;
    assert d[48..] == p.ciphertext;
  }

  /** Conversely every buffer, even one shorter than the header, is the concatenation of its slices. */
  lemma LayoutUnlayout(data: Bytes)
    ensures Layout(Unlayout(data)) == data
    ensures |data| < SaltLength + IvLength + TagLength ==> Unlayout(data).ciphertext == []
  {
    var n := |data|;
    if n >= 48 {
      assert data == data[..16] + data[16..32] + data[32..48] + data[48..];
    } else if n >= 32 {
      assert data == data[..16] + data[16..32] + data[32..n];
    } else if n >= 16 {
      assert data == data[..16] + data[16..n];
    }
  }

  /** An encryption manager holding the master key it derives every per-blob key from. */
  datatype EncryptionManager = EncryptionManager(prims: Primitives, masterKey: Bytes) {

    /** The PBKDF2 step shared by `encrypt` and `decrypt`. */
    function DeriveKey(salt: Bytes): Bytes {
      prims.pbkdf2(masterKey, salt, Iterations, KeyLength)
    }

    /** The binary blob `encrypt` builds before base64-encoding it. */
    function SealToParts(salt: Bytes, iv: Bytes, text: string): Parts {
      var sealed := prims.seal(DeriveKey(salt), iv, prims.utf8Encode(text));
      Parts(salt, iv, sealed.tag, sealed.ciphertext)
    }

    /**
     * `encrypt(text)`, with the 16 random salt bytes and 16 random iv bytes passed in: under sound
     * primitives the blob decodes to the concatenated parts, with a 16-byte tag. No string makes
     * the primitives throw, so `'Failed to encrypt data'` is never produced here.
     */
    function Encrypt(salt: Bytes, iv: Bytes, text: string): (blob: string)
      requires |salt| == SaltLength && |iv| == IvLength
      ensures Sound(prims) ==> prims.base64Decode(blob) == Layout(SealToParts(salt, iv, text))
      ensures Sound(prims) ==> |SealToParts(salt, iv, text).tag| == TagLength
    {
      prims.base64Encode(Layout(SealToParts(salt, iv, text)))
    }

    /** `decrypt(blob)`: every failure of the primitives comes out as the one fixed message. */
    function Decrypt(blob: string): (r: Result<string>)
      ensures r.Failure? ==> r.message == DecryptError
      ensures r.Success? ==> exists pt :: r == Success(prims.utf8Decode(pt))
    {
      var parts := Unlayout(prims.base64Decode(blob));
      match prims.open(DeriveKey(parts.salt), parts.iv, parts.tag, parts.ciphertext)
      case None => Failure(DecryptError)
      case Some(pt) => Success(prims.utf8Decode(pt))
    }

    /** The decoded blob is `salt || iv || tag || ciphertext`: a 48-byte header of the input salt, the input iv and the 16-byte tag, then the ciphertext. */
    lemma EncryptLayout(salt: Bytes, iv: Bytes, text: string)
      requires Sound(prims)
      requires |salt| == SaltLength && |iv| == IvLength
      ensures var data := prims.base64Decode(Encrypt(salt, iv, text));
        var p := SealToParts(salt, iv, text);
        && |data| == SaltLength + IvLength + TagLength + |p.ciphertext|
        && data[..SaltLength] == salt
        && data[SaltLength..SaltLength + IvLength] == iv
        && data[SaltLength + IvLength..SaltLength + IvLength + TagLength] == p.tag
        && data[SaltLength + IvLength + TagLength..] == p.ciphertext
    {
      var p := SealToParts(salt, iv, text);
      UnlayoutLayout(p);
    }

    /**
     * Blobs made with different salts or different ivs differ, whatever the texts: the random
     * salt and iv drawn on every call are what makes two encryptions of one text tell apart.
     */
    lemma EncryptSeparates(salt1: Bytes, iv1: Bytes, text1: string, salt2: Bytes, iv2: Bytes, text2: string)
      requires Sound(prims)
      requires |salt1| == SaltLength && |iv1| == IvLength && |salt2| == SaltLength && |iv2| == IvLength
      requires salt1 != salt2 || iv1 != iv2
      ensures Encrypt(salt1, iv1, text1) != Encrypt(salt2, iv2, text2)
    {
      EncryptLayout(salt1, iv1, text1);
      EncryptLayout(salt2, iv2, text2);
    }

    /** Decryption undoes encryption for every text, salt and iv. */
    lemma DecryptEncrypt(salt: Bytes, iv: Bytes, text: string)
      requires Sound(prims)
      requires |salt| == SaltLength && |iv| == IvLength
      ensures Decrypt(Encrypt(salt, iv, text)) == Success(text)
    {
      var p := SealToParts(salt, iv, text);
      var sealed := prims.seal(DeriveKey(salt), iv, prims.utf8Encode(text));
      assert |sealed.tag| == TagLength;
      UnlayoutLayout(p);
      assert prims.base64Decode(Encrypt(salt, iv, text)) == Layout(p);
    }
  }
}
