/** The encrypted blob: its fields at fixed offsets, and what decryption recovers. Key derivation
    and authenticated encryption are parameters. */
module SpdBlob {
  import opened CText

  type Bytes = seq<Byte>

  const MAGIC: Bytes := [0x53, 0x50, 0x44, 0x01]
  const SALT_LEN := 32
  const IV_LEN := 12
  const TAG_LEN := 16
  const HEADER_LEN := 52
  const DEFAULT_ITER: bv32 := 600000
  const MAX_ITER: bv32 := 10000000

  datatype Fields = Fields(iter: bv32, salt: Bytes, iv: Bytes, ciphertext: Bytes, tag: Bytes)

  predicate Shaped(f: Fields) {
    |f.salt| == SALT_LEN && |f.iv| == IV_LEN && |f.tag| == TAG_LEN
  }

  // ---- the counter, most significant byte first ----------------------------

  function BigEndian(n: bv32): Bytes {
    [((n >> 24) & 0xff) as Byte, ((n >> 16) & 0xff) as Byte, ((n >> 8) & 0xff) as Byte, (n & 0xff) as Byte]
  }

  function Counter(a: Byte, b: Byte, c: Byte, d: Byte): bv32 {
    ((a as bv32) << 24) | ((b as bv32) << 16) | ((c as bv32) << 8) | (d as bv32)
  }

  lemma CounterBack(n: bv32)
    ensures var s := BigEndian(n); Counter(s[0], s[1], s[2], s[3]) == n
  {
  }

  lemma BytesBack(a: Byte, b: Byte, c: Byte, d: Byte)
    ensures BigEndian(Counter(a, b, c, d)) == [a, b, c, d]
  {
  }

  // ---- the layout -----------------------------------------------------------

  function Assembled(f: Fields): Bytes {
    MAGIC + BigEndian(f.iter) + f.salt + f.iv + f.ciphertext + f.tag
  }

  /** The fields `cs_decrypt` reads, if the blob is long enough, has the magic number and a counter
      in range. */
  function Extracted(blob: Bytes): Maybe<Fields> {
    if |blob| < HEADER_LEN + TAG_LEN || blob[..4] != MAGIC then None
    else
      var iter := Counter(blob[4], blob[5], blob[6], blob[7]);
      if iter == 0 || iter > MAX_ITER then None
      else Some(Fields(iter, blob[8..40], blob[40..52], blob[52..|blob| - TAG_LEN], blob[|blob| - TAG_LEN..]))
  }

  predicate InRange(f: Fields) {
    f.iter != 0 && f.iter <= MAX_ITER
  }

  lemma Offsets(f: Fields)
    requires Shaped(f)
    ensures var b := Assembled(f);
            && |b| == 68 + |f.ciphertext| && b[..4] == MAGIC && b[4..8] == BigEndian(f.iter)
            && b[8..40] == f.salt && b[40..52] == f.iv
            && b[52..|b| - TAG_LEN] == f.ciphertext && b[|b| - TAG_LEN..] == f.tag
  {
  }

  lemma Pieces(b: Bytes)
    requires |b| >= HEADER_LEN + TAG_LEN
    ensures b == b[..4] + [b[4], b[5], b[6], b[7]] + b[8..40] + b[40..52] + b[52..|b| - TAG_LEN] + b[|b| - TAG_LEN..]
  {
  }

  /** A blob is read as certain fields exactly when it is the assembly of those fields, of the
      right lengths and with a counter in range. */
  lemma Layout(b: Bytes, f: Fields)
    ensures Extracted(b) == Some(f) <==> Shaped(f) && InRange(f) && b == Assembled(f)
    ensures Shaped(f) ==> |Assembled(f)| == 68 + |f.ciphertext|
  {
    if Shaped(f) { AssembledRead(f); }
    if Extracted(b).Some? { ReadAssembled(b); }
  }

  lemma AssembledRead(f: Fields)
    requires Shaped(f)
    ensures Extracted(Assembled(f)) == (if InRange(f) then Some(f) else None) && |Assembled(f)| == 68 + |f.ciphertext|
  {
    var a := Assembled(f);
    Offsets(f);
    CounterBack(f.iter);
    assert a[4] == a[4..8][0] && a[5] == a[4..8][1] && a[6] == a[4..8][2] && a[7] == a[4..8][3];
  }

  lemma ReadAssembled(b: Bytes)
    requires Extracted(b).Some?
    ensures var f := Extracted(b).value; Shaped(f) && InRange(f) && b == Assembled(f)
  {
    Pieces(b);
    BytesBack(b[4], b[5], b[6], b[7]);
  }

  // ---- encryption -------------------------------------------------------------

  /** PBKDF2 (section 5.2 of RFC 8018) and the two directions of AES-GCM (sections 7.1 and 7.2 of
      NIST SP 800-38D). */
  datatype Suite = Suite(
    kdf: (string, Bytes, bv32) -> Bytes,
    seal: (Bytes, Bytes, Bytes) -> (Bytes, Bytes),
    open: (Bytes, Bytes, Bytes, Bytes) -> Maybe<Bytes>)

  ghost predicate Correct(s: Suite) {
    forall k, iv, p :: |s.seal(k, iv, p).0| == |p| && |s.seal(k, iv, p).1| == TAG_LEN
                       && s.open(k, iv, s.seal(k, iv, p).0, s.seal(k, iv, p).1) == Some(p)
  }

  /** Only what has been sealed under the key opens. */
  ghost predicate Authentic(s: Suite) {
    forall k, iv, c, t :: s.open(k, iv, c, t).Some? ==> s.seal(k, iv, s.open(k, iv, c, t).value) == (c, t)
  }

  function SealedFields(s: Suite, plain: Bytes, pw: string, iter: bv32, salt: Bytes, iv: Bytes): Fields {
    var (c, t) := s.seal(s.kdf(pw, salt, iter), iv, plain);
    Fields(iter, salt, iv, c, t)
  }

  /** `cs_encrypt`, the salt and the nonce having been drawn. */
  function Encrypted(s: Suite, plain: Bytes, pw: string, salt: Bytes, iv: Bytes): Bytes {
    Assembled(SealedFields(s, plain, pw, DEFAULT_ITER, salt, iv))
  }

  /** `cs_decrypt`. */
  function Decrypted(s: Suite, blob: Bytes, pw: string): Maybe<Bytes> {
    var f :- Extracted(blob);
    s.open(s.kdf(pw, f.salt, f.iter), f.iv, f.ciphertext, f.tag)
  }

  /** Decryption under the same password undoes encryption; the blob is 68 bytes longer. */
  lemma DecryptUndoesEncrypt(s: Suite, plain: Bytes, pw: string, salt: Bytes, iv: Bytes)
    requires Correct(s) && |salt| == SALT_LEN && |iv| == IV_LEN
    ensures Decrypted(s, Encrypted(s, plain, pw, salt, iv), pw) == Some(plain)
    ensures |Encrypted(s, plain, pw, salt, iv)| == 68 + |plain|
  {
    var f := SealedFields(s, plain, pw, DEFAULT_ITER, salt, iv);
    Layout(Encrypted(s, plain, pw, salt, iv), f);
  }

  /** An encryption begins with the magic number, "SPD" and 1, and the counter 600000. */
  lemma EncryptionBegins(s: Suite, plain: Bytes, pw: string, salt: Bytes, iv: Bytes)
    ensures var b := Encrypted(s, plain, pw, salt, iv);
            |b| >= 8 && b[..8] == [0x53, 0x50, 0x44, 0x01, 0x00, 0x09, 0x27, 0xc0]
  {
    assert BigEndian(600000) == [0x00, 0x09, 0x27, 0xc0];
  }

  /** A blob decrypts to `plain` exactly when it is an encryption of `plain` under that password
      with some salt, some nonce and a counter from 1 to ten million. */
  lemma DecryptsOnlyEncryptions(s: Suite, blob: Bytes, pw: string, plain: Bytes)
    requires Correct(s) && Authentic(s)
    ensures Decrypted(s, blob, pw) == Some(plain) <==>
            exists iter, salt, iv ::
              && iter != 0 && iter <= 10000000 && |salt| == 32 && |iv| == 12
              && blob == Assembled(SealedFields(s, plain, pw, iter, salt, iv))
  {
    if Decrypted(s, blob, pw) == Some(plain) {
      var f := Extracted(blob).value;
      Layout(blob, f);
      assert f == SealedFields(s, plain, pw, f.iter, f.salt, f.iv);
    }
    forall iter, salt, iv | iter != 0 && iter <= MAX_ITER && |salt| == SALT_LEN && |iv| == IV_LEN
                            && blob == Assembled(SealedFields(s, plain, pw, iter, salt, iv))
      ensures Decrypted(s, blob, pw) == Some(plain)
    {
      Layout(blob, SealedFields(s, plain, pw, iter, salt, iv));
    }
  }

  // ---- buffers ------------------------------------------------------------------

  method CopyInto(blob: array<Byte>, at: nat, s: Bytes)
    requires at + |s| <= blob.Length
    modifies blob
    ensures blob[..at + |s|] == old(blob[..at]) + s
  {
    for i := 0 to |s|
      invariant blob[..at + i] == old(blob[..at]) + s[..i]
    {
      blob[at + i] := s[i];
    }
  }

  method PutCounter(blob: array<Byte>, at: nat, n: bv32)
    requires at + 4 <= blob.Length
    modifies blob
    ensures blob[..at + 4] == old(blob[..at]) + BigEndian(n)
  {
    blob[at] := ((n >> 24) & 0xff) as Byte;
    blob[at + 1] := ((n >> 16) & 0xff) as Byte;
    blob[at + 2] := ((n >> 8) & 0xff) as Byte;
    blob[at + 3] := (n & 0xff) as Byte;
  }

  method PutHeader(blob: array<Byte>, f: Fields)
    requires Shaped(f) && blob.Length >= HEADER_LEN
    modifies blob
    ensures blob[..HEADER_LEN] == MAGIC + BigEndian(f.iter) + f.salt + f.iv
  {
    var at := 0;
    CopyInto(blob, at, MAGIC);
    at := at + 4;
    PutCounter(blob, at, f.iter);
    at := at + 4;
    CopyInto(blob, at, f.salt);
    at := at + SALT_LEN;
    CopyInto(blob, at, f.iv);
  }

  /** The buffer `cs_encrypt` fills through an advancing pointer. */
  method Assemble(f: Fields) returns (blob: array<Byte>)
    requires Shaped(f)
    ensures fresh(blob) && blob[..] == Assembled(f)
  {
    blob := new Byte[HEADER_LEN + |f.ciphertext| + TAG_LEN];
    PutHeader(blob, f);
    var at := HEADER_LEN;
    CopyInto(blob, at, f.ciphertext);
    at := at + |f.ciphertext|;
    CopyInto(blob, at, f.tag);
    assert blob[..] == blob[..at + TAG_LEN];
  }

  method ReadCounter(blob: array<Byte>, at: nat) returns (n: bv32)
    requires at + 4 <= blob.Length
    ensures n == Counter(blob[at], blob[at + 1], blob[at + 2], blob[at + 3])
  {
    n := ((blob[at] as bv32) << 24) | ((blob[at + 1] as bv32) << 16) | ((blob[at + 2] as bv32) << 8)
         | (blob[at + 3] as bv32);
  }

  method Decrypt(s: Suite, blob: array<Byte>, pw: string) returns (plain: Maybe<Bytes>)
    ensures plain == Decrypted(s, blob[..], pw)
  {
    if blob.Length < HEADER_LEN + TAG_LEN { return None; }
    if blob[..4] != MAGIC { return None; }
    var iter := ReadCounter(blob, 4);
    if iter == 0 || iter > MAX_ITER { return None; }
    var key := s.kdf(pw, blob[8..40], iter);
    var end := blob.Length - TAG_LEN;
    ghost var b := blob[..];
    assert b[8..40] == blob[8..40] && b[40..52] == blob[40..52];
    assert b[52..end] == blob[52..end] && b[end..] == blob[end..];
    plain := s.open(key, blob[40..52], blob[52..end], blob[end..]);
  }
}
