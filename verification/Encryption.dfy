/**
 The encrypted configuration file: salt, initialization vector, ciphertext and authentication
 code, Base64 encoded. Key derivation, the block cipher, the authentication code and Base64 are
 parameters; padding (section 6.3 of RFC 5652), chaining (section 6.2 of NIST SP 800-38A) and
 the layout are concrete.
 */
module Encryption {
  import opened Basics

  const BLOCK := 16
  const SALT_SIZE := 32
  const IV_SIZE := 16
  const MAC_SIZE := 32

  datatype Crypto = Crypto(
    passwordOk: string -> bool,
    derive: (string, Bytes) -> Bytes,
    mac: (Bytes, Bytes) -> Bytes,
    seal: (Bytes, Bytes) -> Bytes,
    open: (Bytes, Bytes) -> Bytes,
    encode: Bytes -> Bytes,
    decode: Bytes -> Option<Bytes>)
  {
    /** The sizes of the results, a block cipher that is a permutation for every key, and Base64 decoding what it encodes. */
    ghost predicate Lawful() {
      && (forall p, s :: |derive(p, s)| == 2 * SALT_SIZE)
      && (forall k, m :: |mac(k, m)| == MAC_SIZE)
      && (forall k, b :: |b| == BLOCK ==> |seal(k, b)| == BLOCK && open(k, seal(k, b)) == b)
      && (forall k, b :: |b| == BLOCK ==> |open(k, b)| == BLOCK && seal(k, open(k, b)) == b)
      && (forall b :: decode(encode(b)) == Some(b))
    }
  }

  function Repeat(b: byte, n: nat): Bytes {
    seq(n, _ => b)
  }

  function Pow2(n: nat): nat {
    if n == 0 then 1 else 2 * Pow2(n - 1)
  }

  /** Exclusive or of the low `n` bits, bit by bit. */
  function XorBits(a: nat, b: nat, n: nat): (r: nat)
    ensures r < Pow2(n)
  {
    if n == 0 then 0 else (a + b) % 2 + 2 * XorBits(a / 2, b / 2, n - 1)
  }

  /** Halving and the low bit of an exclusive or. */
  lemma LowBit(a: nat, b: nat, rest: nat)
    ensures ((a + b) % 2 + 2 * rest) / 2 == rest
    ensures ((a + b) % 2 + 2 * rest + b) % 2 == a % 2
    ensures ((a + b) % 2 + 2 * rest) % 2 == if a % 2 == b % 2 then 0 else 1
  {
    var qa, qb := a / 2, b / 2;
    var ra, rb := a - 2 * qa, b - 2 * qb;
    assert (a + b) % 2 == (ra + rb) % 2 == if ra == rb then 0 else 1;
  }

  lemma {:induction false} XorBitsTwice(a: nat, b: nat, n: nat)
    requires a < Pow2(n)
    ensures XorBits(XorBits(a, b, n), b, n) == a
  {
    if n > 0 {
      var rest := XorBits(a / 2, b / 2, n - 1);
      XorBitsTwice(a / 2, b / 2, n - 1);
      LowBit(a, b, rest);
    }
  }

  function XorByte(a: byte, b: byte): byte {
    assert Pow2(8) == 256 by { PowersOfTwo(); }
    XorBits(a as int, b as int, 8) as byte
  }

  lemma PowersOfTwo()
    ensures Pow2(8) == 256
  {
    assert Pow2(4) == 16;
  }

  function Xor(a: Bytes, b: Bytes): (r: Bytes)
    requires |a| == |b|
    ensures |r| == |a|
  {
    seq(|a|, i requires 0 <= i < |a| => XorByte(a[i], b[i]))
  }

  /** Bit `k` of a number, the lowest being 0. */
  function Bit(x: nat, k: nat): nat {
    if k == 0 then x % 2 else Bit(x / 2, k - 1)
  }

  lemma {:induction false} XorBitsBit(a: nat, b: nat, n: nat, k: nat)
    requires k < n
    ensures Bit(XorBits(a, b, n), k) == if Bit(a, k) == Bit(b, k) then 0 else 1
  {
    var rest := XorBits(a / 2, b / 2, n - 1);
    LowBit(a, b, rest);
    if k > 0 {
      XorBitsBit(a / 2, b / 2, n - 1, k - 1);
    }
  }

  /** Exclusive or: a bit of the result is set exactly when the two bits differ. */
  lemma XorIsBitwise(a: Bytes, b: Bytes, i: nat, k: nat)
    requires |a| == |b| && i < |a| && k < 8
    ensures Bit(Xor(a, b)[i] as nat, k) == if Bit(a[i] as nat, k) == Bit(b[i] as nat, k) then 0 else 1
  {
    XorBitsBit(a[i] as int, b[i] as int, 8, k);
  }

  lemma XorTwice(a: Bytes, b: Bytes)
    requires |a| == |b|
    ensures Xor(Xor(a, b), b) == a
  {
    PowersOfTwo();
    forall i | 0 <= i < |a|
      ensures XorByte(XorByte(a[i], b[i]), b[i]) == a[i]
    {
      XorBitsTwice(a[i] as int, b[i] as int, 8);
    }
  }

  /** Cipher block chaining: each block is combined with the ciphertext before it. */
  function Sealed(c: Crypto, key: Bytes, prev: Bytes, text: Bytes): Bytes
    requires |prev| == BLOCK && |text| % BLOCK == 0
    requires forall b :: |b| == BLOCK ==> |c.seal(key, b)| == BLOCK
    decreases |text|
  {
    if |text| < BLOCK then []
    else
      var block := c.seal(key, Xor(text[..BLOCK], prev));
      block + Sealed(c, key, block, text[BLOCK..])
  }

  function Opened(c: Crypto, key: Bytes, prev: Bytes, text: Bytes): Bytes
    requires |prev| == BLOCK && |text| % BLOCK == 0
    requires forall b :: |b| == BLOCK ==> |c.open(key, b)| == BLOCK
    decreases |text|
  {
    if |text| < BLOCK then []
    else Xor(c.open(key, text[..BLOCK]), prev) + Opened(c, key, text[..BLOCK], text[BLOCK..])
  }

  lemma {:induction false} SealedLength(c: Crypto, key: Bytes, prev: Bytes, text: Bytes)
    requires c.Lawful() && |prev| == BLOCK && |text| % BLOCK == 0
    ensures |Sealed(c, key, prev, text)| == |text|
    decreases |text|
  {
    if |text| >= BLOCK {
      SealedLength(c, key, c.seal(key, Xor(text[..BLOCK], prev)), text[BLOCK..]);
    }
  }

  lemma {:induction false} OpenedLength(c: Crypto, key: Bytes, prev: Bytes, text: Bytes)
    requires c.Lawful() && |prev| == BLOCK && |text| % BLOCK == 0
    ensures |Opened(c, key, prev, text)| == |text|
    decreases |text|
  {
    if |text| >= BLOCK {
      OpenedLength(c, key, text[..BLOCK], text[BLOCK..]);
    }
  }

  /** Chained decryption undoes chained encryption. */
  lemma {:induction false} OpenSealed(c: Crypto, key: Bytes, prev: Bytes, text: Bytes)
    requires c.Lawful() && |prev| == BLOCK && |text| % BLOCK == 0
    ensures |Sealed(c, key, prev, text)| == |text|
    ensures Opened(c, key, prev, Sealed(c, key, prev, text)) == text
    decreases |text|
  {
    SealedLength(c, key, prev, text);
    if |text| >= BLOCK {
      var block := c.seal(key, Xor(text[..BLOCK], prev));
      var rest := Sealed(c, key, block, text[BLOCK..]);
      SealedLength(c, key, block, text[BLOCK..]);
      OpenSealed(c, key, block, text[BLOCK..]);
      XorTwice(text[..BLOCK], prev);
      assert (block + rest)[..BLOCK] == block && (block + rest)[BLOCK..] == rest;
      assert text == text[..BLOCK] + text[BLOCK..];
    }
  }

  /** And chained encryption undoes chained decryption. */
  lemma {:induction false} SealOpened(c: Crypto, key: Bytes, prev: Bytes, text: Bytes)
    requires c.Lawful() && |prev| == BLOCK && |text| % BLOCK == 0
    ensures |Opened(c, key, prev, text)| == |text|
    ensures Sealed(c, key, prev, Opened(c, key, prev, text)) == text
    decreases |text|
  {
    OpenedLength(c, key, prev, text);
    if |text| >= BLOCK {
      var head := Xor(c.open(key, text[..BLOCK]), prev);
      var rest := Opened(c, key, text[..BLOCK], text[BLOCK..]);
      OpenedLength(c, key, text[..BLOCK], text[BLOCK..]);
      SealOpened(c, key, text[..BLOCK], text[BLOCK..]);
      XorTwice(c.open(key, text[..BLOCK]), prev);
      assert (head + rest)[..BLOCK] == head && (head + rest)[BLOCK..] == rest;
      assert text == text[..BLOCK] + text[BLOCK..];
    }
  }

  /** Block `i` of a text of 16-byte blocks. */
  function Block(text: Bytes, i: nat): (b: Bytes)
    requires 16 * i + 16 <= |text|
    ensures |b| == 16
  {
    text[16 * i..16 * i + 16]
  }

  /** The block before block `i`, or the vector before the first. */
  function Previous(iv: Bytes, text: Bytes, i: nat): (b: Bytes)
    requires |iv| == 16 && 16 * i <= |text|
    ensures |b| == 16
  {
    if i == 0 then iv else Block(text, i - 1)
  }

  /** Each block of `out` seals its block of the text combined with the block of `out` before it, the first with the vector. */
  ghost predicate Chained(c: Crypto, key: Bytes, iv: Bytes, text: Bytes, out: Bytes)
    requires |iv| == 16
  {
    && |out| == |text|
    && (forall i: nat :: 16 * i + 16 <= |text| ==>
          Block(out, i) == c.seal(key, Xor(Block(text, i), Previous(iv, out, i))))
  }

  /** Each block of `out` is its block of the text opened and combined with the block of the text before it. */
  ghost predicate Unchained(c: Crypto, key: Bytes, iv: Bytes, text: Bytes, out: Bytes)
    requires c.Lawful() && |iv| == 16
  {
    && |out| == |text|
    && (forall i: nat :: 16 * i + 16 <= |text| ==>
          Block(out, i) == Xor(c.open(key, Block(text, i)), Previous(iv, text, i)))
  }

  lemma FirstBlock(head: Bytes, rest: Bytes)
    requires |head| == 16
    ensures Block(head + rest, 0) == head
  {
  }

  lemma BlockAfter(head: Bytes, rest: Bytes, i: nat)
    requires |head| == 16 && 16 * i + 16 <= |rest|
    ensures Block(head + rest, i + 1) == Block(rest, i)
  {
  }

  lemma PreviousAfter(iv: Bytes, head: Bytes, rest: Bytes, i: nat)
    requires |iv| == |head| == 16 && 0 < i && 16 * i <= |rest| + 16
    ensures Previous(iv, head + rest, i) == Previous(head, rest, i - 1)
  {
    if i == 1 {
      FirstBlock(head, rest);
    } else {
      BlockAfter(head, rest, i - 2);
    }
  }

  lemma {:induction false} SealedIsChained(c: Crypto, key: Bytes, iv: Bytes, text: Bytes)
    requires c.Lawful() && |iv| == BLOCK && |text| % BLOCK == 0
    ensures Chained(c, key, iv, text, Sealed(c, key, iv, text))
    decreases |text|
  {
    SealedLength(c, key, iv, text);
    if |text| >= BLOCK {
      var head, tail := c.seal(key, Xor(text[..BLOCK], iv)), text[BLOCK..];
      var rest := Sealed(c, key, head, tail);
      SealedLength(c, key, head, tail);
      SealedIsChained(c, key, head, tail);
      assert text == text[..BLOCK] + tail && Sealed(c, key, iv, text) == head + rest;
      forall i: nat | 16 * i + 16 <= |text|
        ensures Block(head + rest, i) == c.seal(key, Xor(Block(text, i), Previous(iv, head + rest, i)))
      {
        ChainedAt(c, key, iv, text[..BLOCK], tail, head, rest, i);
      }
    }
  }

  lemma ChainedAfter(c: Crypto, key: Bytes, iv: Bytes, first: Bytes, tail: Bytes, head: Bytes, rest: Bytes, i: nat)
    requires |iv| == |first| == |head| == 16 && |rest| == |tail| && 0 < i && 16 * i <= |tail|
    requires Block(rest, i - 1) == c.seal(key, Xor(Block(tail, i - 1), Previous(head, rest, i - 1)))
    ensures Block(head + rest, i) == c.seal(key, Xor(Block(first + tail, i), Previous(iv, head + rest, i)))
  {
    BlockAfter(head, rest, i - 1);
    BlockAfter(first, tail, i - 1);
    PreviousAfter(iv, head, rest, i);
  }

  lemma ChainedAt(c: Crypto, key: Bytes, iv: Bytes, first: Bytes, tail: Bytes, head: Bytes, rest: Bytes, i: nat)
    requires |iv| == |first| == |head| == 16 && head == c.seal(key, Xor(first, iv))
    requires Chained(c, key, head, tail, rest) && 16 * i <= |tail|
    ensures var out, text := head + rest, first + tail;
            Block(out, i) == c.seal(key, Xor(Block(text, i), Previous(iv, out, i)))
  {
    if i == 0 {
      FirstBlock(head, rest);
      FirstBlock(first, tail);
    } else {
      assert Block(rest, i - 1) == c.seal(key, Xor(Block(tail, i - 1), Previous(head, rest, i - 1)));
      ChainedAfter(c, key, iv, first, tail, head, rest, i);
    }
  }

  lemma {:induction false} OpenedIsUnchained(c: Crypto, key: Bytes, iv: Bytes, text: Bytes)
    requires c.Lawful() && |iv| == BLOCK && |text| % BLOCK == 0
    ensures Unchained(c, key, iv, text, Opened(c, key, iv, text))
    decreases |text|
  {
    OpenedLength(c, key, iv, text);
    if |text| >= BLOCK {
      var head, tail := Xor(c.open(key, text[..BLOCK]), iv), text[BLOCK..];
      var rest := Opened(c, key, text[..BLOCK], tail);
      OpenedLength(c, key, text[..BLOCK], tail);
      OpenedIsUnchained(c, key, text[..BLOCK], tail);
      assert text == text[..BLOCK] + tail && Opened(c, key, iv, text) == head + rest;
      forall i: nat | 16 * i + 16 <= |text|
        ensures Block(head + rest, i) == Xor(c.open(key, Block(text, i)), Previous(iv, text, i))
      {
        UnchainedAt(c, key, iv, text[..BLOCK], tail, head, rest, i);
      }
    }
  }

  lemma UnchainedAfter(c: Crypto, key: Bytes, iv: Bytes, first: Bytes, tail: Bytes, head: Bytes, rest: Bytes, i: nat)
    requires |iv| == |first| == |head| == 16 && |rest| == |tail| && 0 < i && 16 * i <= |tail|
    requires forall b :: |b| == 16 ==> |c.open(key, b)| == 16
    requires Block(rest, i - 1) == Xor(c.open(key, Block(tail, i - 1)), Previous(first, tail, i - 1))
    ensures Block(head + rest, i) == Xor(c.open(key, Block(first + tail, i)), Previous(iv, first + tail, i))
  {
    BlockAfter(head, rest, i - 1);
    BlockAfter(first, tail, i - 1);
    PreviousAfter(iv, first, tail, i);
  }

  lemma UnchainedAt(c: Crypto, key: Bytes, iv: Bytes, first: Bytes, tail: Bytes, head: Bytes, rest: Bytes, i: nat)
    requires c.Lawful() && |iv| == |first| == 16 && head == Xor(c.open(key, first), iv)
    requires Unchained(c, key, first, tail, rest) && 16 * i <= |tail|
    ensures var out, text := head + rest, first + tail;
            Block(out, i) == Xor(c.open(key, Block(text, i)), Previous(iv, text, i))
  {
    if i == 0 {
      FirstBlock(head, rest);
      FirstBlock(first, tail);
    } else {
      assert Block(rest, i - 1) == Xor(c.open(key, Block(tail, i - 1)), Previous(first, tail, i - 1));
      UnchainedAfter(c, key, iv, first, tail, head, rest, i);
    }
  }

  /** Fill up to whole blocks, always adding at least one byte, each saying how many were added. */
  function Padded(text: Bytes): (r: Bytes)
    ensures |r| % BLOCK == 0 && |r| > |text|
  {
    var n := BLOCK - |text| % BLOCK;
    text + Repeat(n as byte, n)
  }

  predicate WellPadded(text: Bytes) {
    && |text| > 0
    && var n := text[|text| - 1] as int;
       1 <= n <= BLOCK && n <= |text| && text[|text| - n..] == Repeat(n as byte, n)
  }

  function Unpadded(text: Bytes): Bytes
    requires WellPadded(text)
  {
    text[..|text| - text[|text| - 1] as int]
  }

  lemma PaddedBy(text: Bytes, n: nat)
    requires 1 <= n <= BLOCK
    ensures var padded := text + Repeat(n as byte, n);
            WellPadded(padded) && Unpadded(padded) == text
  {
    var padded := text + Repeat(n as byte, n);
    assert padded[|padded| - 1] == n as byte;
    assert padded[|padded| - n..] == Repeat(n as byte, n);
  }

  lemma UnpadPadded(text: Bytes)
    ensures WellPadded(Padded(text)) && Unpadded(Padded(text)) == text
  {
    PaddedBy(text, BLOCK - |text| % BLOCK);
  }

  lemma PadUnpadded(text: Bytes)
    requires WellPadded(text) && |text| % BLOCK == 0
    ensures Padded(Unpadded(text)) == text
  {
    var n := text[|text| - 1] as int;
    assert |Unpadded(text)| == |text| - n;
    assert BLOCK - |Unpadded(text)| % BLOCK == n;
    assert text == text[..|text| - n] + text[|text| - n..];
  }

  datatype Error = EmptyInput | WeakPassword | BadSalt | ZeroKey | BadBase64 | BadLength | BadMac | BadPadding

  datatype Result<+T> = Ok(value: T) | Err(error: Error)

  predicate AllZero(b: Bytes) {
    forall i :: 0 <= i < |b| ==> b[i] == 0
  }

  lemma ZerosAre(b: Bytes)
    ensures AllZero(b) <==> b == Repeat(0, |b|)
  {
  }

  predicate SaltOk(salt: Bytes) {
    |salt| == 32 && !AllZero(salt)
  }

  predicate KeysOk(c: Crypto, password: string, salt: Bytes) {
    c.passwordOk(password) && !AllZero(c.derive(password, salt))
  }

  /** Why no keys are derived: the password is judged first, then a salt from a file, then the keys. */
  function KeyError(c: Crypto, password: string, salt: Bytes, known: bool): Error {
    if !c.passwordOk(password) then WeakPassword else if known && !SaltOk(salt) then BadSalt else ZeroKey
  }

  /** The file content for a plaintext, before Base64. */
  function Framed(c: Crypto, keys: Bytes, salt: Bytes, iv: Bytes, plain: Bytes): Bytes
    requires |keys| == 2 * SALT_SIZE && |iv| == IV_SIZE
    requires forall b :: |b| == BLOCK ==> |c.seal(keys[..SALT_SIZE], b)| == BLOCK
  {
    var body := salt + iv + Sealed(c, keys[..SALT_SIZE], iv, Padded(plain));
    body + c.mac(keys[SALT_SIZE..], body)
  }

  /** Block `i` of the plaintext with its padding: as many bytes as are missing, each saying how many. */
  function PlainBlock(plain: Bytes, i: nat): (b: Bytes)
    ensures |b| == 16
  {
    seq(16, j requires 0 <= j < 16 => if 16 * i + j < |plain| then plain[16 * i + j] else (16 - |plain| % 16) as byte)
  }

  /**
   The file, byte by byte: 32 bytes of salt, 16 of vector, the padded plaintext in blocks, each
   sealed after combining it with the 16 bytes before it in the file, and 32 bytes of
   authentication code over all that.
   */
  ghost predicate IsFile(c: Crypto, keys: Bytes, raw: Bytes, plain: Bytes) {
    var n := |plain| + 16 - |plain| % 16;
    && |keys| == 64 && |raw| == 32 + 16 + n + 32
    && raw[|raw| - 32..] == c.mac(keys[32..], raw[..|raw| - 32])
    && (forall i: nat :: 16 * i + 16 <= n ==> Block(raw, i + 3) == c.seal(keys[..32], Xor(PlainBlock(plain, i), Block(raw, i + 2))))
  }

  lemma PaddedBlock(plain: Bytes, i: nat)
    requires 16 * i + 16 <= |Padded(plain)|
    ensures Block(Padded(plain), i) == PlainBlock(plain, i)
  {
  }

  lemma FramedBlocks(iv: Bytes, salt: Bytes, sealed: Bytes, mac: Bytes, i: nat)
    requires |salt| == 32 && |iv| == 16 && 16 * i + 16 <= |sealed|
    ensures var raw := salt + iv + sealed + mac;
            Block(raw, i + 3) == Block(sealed, i) && Block(raw, i + 2) == Previous(iv, sealed, i)
  {
    var raw := salt + iv + sealed + mac;
    assert raw == (salt + iv) + (sealed + mac);
    if i == 0 {
      assert Block(raw, 2) == iv;
    }
  }

  /** What encryption writes is the file of the plaintext. */
  lemma FramedIsFile(c: Crypto, keys: Bytes, salt: Bytes, iv: Bytes, plain: Bytes)
    requires c.Lawful() && |keys| == 64 && |salt| == 32 && |iv| == 16
    ensures var raw := Framed(c, keys, salt, iv, plain);
            IsFile(c, keys, raw, plain) && raw[..32] == salt && raw[32..48] == iv
  {
    var sealed := Sealed(c, keys[..32], iv, Padded(plain));
    SealedIsChained(c, keys[..32], iv, Padded(plain));
    var body := salt + iv + sealed;
    var mac := c.mac(keys[32..], body);
    var raw := Framed(c, keys, salt, iv, plain);
    assert raw == body + mac && raw[..|raw| - 32] == body;
    forall i: nat | 16 * i + 16 <= |sealed|
      ensures Block(raw, i + 3) == c.seal(keys[..32], Xor(PlainBlock(plain, i), Block(raw, i + 2)))
    {
      FramedBlocks(iv, salt, sealed, mac, i);
      PaddedBlock(plain, i);
      assert Block(sealed, i) == c.seal(keys[..32], Xor(Block(Padded(plain), i), Previous(iv, sealed, i)));
    }
  }

  lemma {:induction false} SamePrefix(c: Crypto, keys: Bytes, raw: Bytes, raw': Bytes, plain: Bytes, i: nat)
    requires IsFile(c, keys, raw, plain) && IsFile(c, keys, raw', plain) && raw[..48] == raw'[..48]
    requires 48 + 16 * i <= |raw| - 32
    ensures raw[..48 + 16 * i] == raw'[..48 + 16 * i]
  {
    if i > 0 {
      SamePrefix(c, keys, raw, raw', plain, i - 1);
      var m := 32 + 16 * i;
      assert Block(raw, i + 1) == raw[..m][m - 16..] == raw'[..m][m - 16..] == Block(raw', i + 1);
      assert Block(raw, (i - 1) + 3) == c.seal(keys[..32], Xor(PlainBlock(plain, i - 1), Block(raw, (i - 1) + 2)));
      assert Block(raw', (i - 1) + 3) == c.seal(keys[..32], Xor(PlainBlock(plain, i - 1), Block(raw', (i - 1) + 2)));
      assert raw[..m + 16] == raw[..m] + Block(raw, i + 2) && raw'[..m + 16] == raw'[..m] + Block(raw', i + 2);
    }
  }

  /** And that is the only such file with its salt and vector. */
  lemma FileIsFramed(c: Crypto, keys: Bytes, raw: Bytes, plain: Bytes)
    requires c.Lawful() && IsFile(c, keys, raw, plain)
    ensures raw == Framed(c, keys, raw[..32], raw[32..48], plain)
  {
    var raw' := Framed(c, keys, raw[..32], raw[32..48], plain);
    FramedIsFile(c, keys, raw[..32], raw[32..48], plain);
    assert raw[..48] == raw[..32] + raw[32..48] && raw'[..48] == raw'[..32] + raw'[32..48];
    var n := (|raw| - 80) / 16;
    SamePrefix(c, keys, raw, raw', plain, n);
    assert 48 + 16 * n == |raw| - 32;
    assert raw == raw[..|raw| - 32] + raw[|raw| - 32..] && raw' == raw'[..|raw| - 32] + raw'[|raw| - 32..];
  }

  /** `raw` is the file of `plain` under the password, with a salt that is accepted. */
  ghost predicate Frames(c: Crypto, raw: Bytes, password: string, plain: Bytes) {
    && |raw| >= 48 && SaltOk(raw[..32]) && KeysOk(c, password, raw[..32])
    && IsFile(c, c.derive(password, raw[..32]), raw, plain)
  }

  method GetKey(c: Crypto, password: string, known: Option<Bytes>, random: Bytes)
    returns (r: Result<Bytes>, salt: Bytes)
    requires c.Lawful()
    ensures salt == (if known.Some? then known.value else random)
    ensures r.Ok? <==> KeysOk(c, password, salt) && (known.Some? ==> SaltOk(salt))
    ensures if r.Ok? then r.value == c.derive(password, salt) else r.error == KeyError(c, password, salt, known.Some?)
  {
    salt := if known.Some? then known.value else random;
    ZerosAre(salt);
    ZerosAre(c.derive(password, salt));
    if !c.passwordOk(password) {
      return Err(WeakPassword), salt;
    }
    if known.Some? && (|salt| != SALT_SIZE || salt == Repeat(0, SALT_SIZE)) {
      return Err(BadSalt), salt;
    }
    var keys := c.derive(password, salt);
    if |keys| != 2 * SALT_SIZE || keys == Repeat(0, 2 * SALT_SIZE) {
      return Err(ZeroKey), salt;
    }
    return Ok(keys), salt;
  }

  /** What is left of whole blocks has a block in it, and whole blocks after that. */
  lemma WholeBlock(left: nat)
    requires left > 0 && left % BLOCK == 0
    ensures left >= BLOCK && (left - BLOCK) % BLOCK == 0
  {
  }

  lemma SealedStep(c: Crypto, key: Bytes, prev: Bytes, text: Bytes, i: nat, out: Bytes)
    requires c.Lawful() && |prev| == BLOCK && i + BLOCK <= |text| && (|text| - i) % BLOCK == 0
    ensures var block := c.seal(key, Xor(text[i..i + BLOCK], prev));
            out + Sealed(c, key, prev, text[i..]) == (out + block) + Sealed(c, key, block, text[i + BLOCK..])
  {
    assert text[i..][..BLOCK] == text[i..i + BLOCK] && text[i..][BLOCK..] == text[i + BLOCK..];
  }

  method SealLoop(c: Crypto, key: Bytes, iv: Bytes, text: Bytes) returns (out: Bytes)
    requires c.Lawful() && |iv| == BLOCK && |text| % BLOCK == 0
    ensures out == Sealed(c, key, iv, text)
  {
    out := [];
    var i, prev := 0, iv;
    assert text[0..] == text;
    while i < |text|
      invariant 0 <= i <= |text| && (|text| - i) % BLOCK == 0 && |prev| == BLOCK
      invariant out + Sealed(c, key, prev, text[i..]) == Sealed(c, key, iv, text)
    {
      WholeBlock(|text| - i);
      SealedStep(c, key, prev, text, i, out);
      prev := c.seal(key, Xor(text[i..i + BLOCK], prev));
      out := out + prev;
      i := i + BLOCK;
    }
    assert out + [] == out;
  }

  method SealBlocks(c: Crypto, key: Bytes, iv: Bytes, text: Bytes) returns (out: Bytes)
    requires c.Lawful() && |iv| == BLOCK && |text| % BLOCK == 0
    ensures out == Sealed(c, key, iv, text) && Chained(c, key, iv, text, out)
  {
    out := SealLoop(c, key, iv, text);
    SealedIsChained(c, key, iv, text);
  }

  lemma OpenedStep(c: Crypto, key: Bytes, prev: Bytes, text: Bytes, i: nat, out: Bytes)
    requires c.Lawful() && |prev| == BLOCK && i + BLOCK <= |text| && (|text| - i) % BLOCK == 0
    ensures var block := Xor(c.open(key, text[i..i + BLOCK]), prev);
            out + Opened(c, key, prev, text[i..]) == (out + block) + Opened(c, key, text[i..i + BLOCK], text[i + BLOCK..])
  {
    assert text[i..][..BLOCK] == text[i..i + BLOCK] && text[i..][BLOCK..] == text[i + BLOCK..];
  }

  method OpenLoop(c: Crypto, key: Bytes, iv: Bytes, text: Bytes) returns (out: Bytes)
    requires c.Lawful() && |iv| == BLOCK && |text| % BLOCK == 0
    ensures out == Opened(c, key, iv, text)
  {
    out := [];
    var i, prev := 0, iv;
    assert text[0..] == text;
    while i < |text|
      invariant 0 <= i <= |text| && (|text| - i) % BLOCK == 0 && |prev| == BLOCK
      invariant out + Opened(c, key, prev, text[i..]) == Opened(c, key, iv, text)
    {
      WholeBlock(|text| - i);
      OpenedStep(c, key, prev, text, i, out);
      var block := Xor(c.open(key, text[i..i + BLOCK]), prev);
      prev := text[i..i + BLOCK];
      out := out + block;
      i := i + BLOCK;
    }
    assert out + [] == out;
  }

  method OpenBlocks(c: Crypto, key: Bytes, iv: Bytes, text: Bytes) returns (out: Bytes)
    requires c.Lawful() && |iv| == BLOCK && |text| % BLOCK == 0
    ensures out == Opened(c, key, iv, text) && Unchained(c, key, iv, text, out)
  {
    out := OpenLoop(c, key, iv, text);
    OpenedIsUnchained(c, key, iv, text);
  }

  method Encrypt(c: Crypto, plain: Bytes, password: string, salt: Bytes, iv: Bytes) returns (r: Result<Bytes>)
    requires c.Lawful() && |salt| == SALT_SIZE && |iv| == IV_SIZE
    ensures r.Ok? <==> plain != [] && KeysOk(c, password, salt)
    ensures r.Err? ==> r.error == if plain == [] then EmptyInput else KeyError(c, password, salt, false)
    ensures r.Ok? ==> r.value == c.encode(Framed(c, c.derive(password, salt), salt, iv, plain))
    ensures r.Ok? ==> exists raw :: && r.value == c.encode(raw) && IsFile(c, c.derive(password, salt), raw, plain)
                                    && raw[..32] == salt && raw[32..48] == iv
  {
    FramedIsFile(c, c.derive(password, salt), salt, iv, plain);
    if |plain| == 0 {
      return Err(EmptyInput);
    }
    var keys, used := GetKey(c, password, None, salt);
    if keys.Err? {
      return Err(keys.error);
    }
    var buf := used + iv;
    var padLen := BLOCK - |plain| % BLOCK;
    var cipherText := SealBlocks(c, keys.value[..SALT_SIZE], iv, plain + Repeat(padLen as byte, padLen));
    buf := buf + cipherText;
    buf := buf + c.mac(keys.value[SALT_SIZE..], buf);
    return Ok(c.encode(buf));
  }

  /** The parts of a file, where decryption looks for them. */
  function Salt(raw: Bytes): Bytes requires LongEnough(raw) { raw[..SALT_SIZE] }
  function Iv(raw: Bytes): Bytes requires LongEnough(raw) { raw[SALT_SIZE..SALT_SIZE + IV_SIZE] }
  function CipherText(raw: Bytes): Bytes requires LongEnough(raw) { raw[SALT_SIZE + IV_SIZE..|raw| - MAC_SIZE] }
  function AuthText(raw: Bytes): Bytes requires LongEnough(raw) { raw[..|raw| - MAC_SIZE] }
  function Mac(raw: Bytes): Bytes requires LongEnough(raw) { raw[|raw| - MAC_SIZE..] }

  predicate LongEnough(raw: Bytes) {
    |raw| >= SALT_SIZE + IV_SIZE + BLOCK + MAC_SIZE
  }

  predicate LengthOk(raw: Bytes) {
    LongEnough(raw) && |CipherText(raw)| % BLOCK == 0
  }

  lemma PartsMakeFile(raw: Bytes)
    requires LongEnough(raw)
    ensures AuthText(raw) == Salt(raw) + Iv(raw) + CipherText(raw)
    ensures raw == AuthText(raw) + Mac(raw)
    ensures |CipherText(raw)| == |raw| - SALT_SIZE - IV_SIZE - MAC_SIZE
  {
  }

  /** A framing has the parts it was made of. */
  lemma FrameHasParts(raw: Bytes, salt: Bytes, iv: Bytes, sealed: Bytes, mac: Bytes)
    requires |salt| == SALT_SIZE && |iv| == IV_SIZE && |sealed| >= BLOCK && |mac| == MAC_SIZE
    requires raw == salt + iv + sealed + mac
    ensures LongEnough(raw) && Salt(raw) == salt && Iv(raw) == iv && CipherText(raw) == sealed && Mac(raw) == mac
    ensures AuthText(raw) == salt + iv + sealed
  {
  }

  /** The padded text inside a file. */
  function Text(c: Crypto, raw: Bytes, password: string): Bytes
    requires LengthOk(raw) && |c.derive(password, Salt(raw))| == 2 * SALT_SIZE
    requires forall b :: |b| == BLOCK ==> |c.open(c.derive(password, Salt(raw))[..SALT_SIZE], b)| == BLOCK
  {
    Opened(c, c.derive(password, Salt(raw))[..SALT_SIZE], Iv(raw), CipherText(raw))
  }

  ghost predicate Authentic(c: Crypto, raw: Bytes, password: string)
    requires c.Lawful() && LengthOk(raw)
  {
    && SaltOk(Salt(raw)) && KeysOk(c, password, Salt(raw))
    && Mac(raw) == c.mac(c.derive(password, Salt(raw))[SALT_SIZE..], AuthText(raw))
  }

  lemma FramedIsAuthentic(c: Crypto, raw: Bytes, password: string, plain: Bytes)
    requires c.Lawful() && Frames(c, raw, password, plain)
    ensures LengthOk(raw) && Authentic(c, raw, password)
    ensures WellPadded(Text(c, raw, password)) && Unpadded(Text(c, raw, password)) == plain
  {
    var salt, iv := raw[..SALT_SIZE], raw[SALT_SIZE..SALT_SIZE + IV_SIZE];
    var keys := c.derive(password, salt);
    var sealed := Sealed(c, keys[..SALT_SIZE], iv, Padded(plain));
    SealedLength(c, keys[..SALT_SIZE], iv, Padded(plain));
    FileIsFramed(c, keys, raw, plain);
    FrameHasParts(raw, salt, iv, sealed, c.mac(keys[SALT_SIZE..], salt + iv + sealed));
    OpenSealed(c, keys[..SALT_SIZE], iv, Padded(plain));
    UnpadPadded(plain);
  }

  lemma AuthenticIsFramed(c: Crypto, raw: Bytes, password: string)
    requires c.Lawful() && LengthOk(raw) && Authentic(c, raw, password)
    requires WellPadded(Text(c, raw, password))
    ensures Frames(c, raw, password, Unpadded(Text(c, raw, password)))
  {
    var text := Text(c, raw, password);
    var key := c.derive(password, Salt(raw))[..SALT_SIZE];
    PartsMakeFile(raw);
    OpenedLength(c, key, Iv(raw), CipherText(raw));
    SealOpened(c, key, Iv(raw), CipherText(raw));
    PadUnpadded(text);
    FramedIsFile(c, c.derive(password, Salt(raw)), Salt(raw), Iv(raw), Unpadded(text));
  }

  /** Why a file of the right length is refused: no keys, a wrong authentication code, or else the padding. */
  function PartsError(c: Crypto, raw: Bytes, password: string): Error
    requires |raw| >= 96 && |c.derive(password, raw[..32])| == 64
  {
    if !SaltOk(raw[..32]) || !KeysOk(c, password, raw[..32]) then KeyError(c, password, raw[..32], true)
    else if raw[|raw| - 32..] != c.mac(c.derive(password, raw[..32])[32..], raw[..|raw| - 32]) then BadMac
    else BadPadding
  }

  /**
   Decryption gives a plaintext exactly when the decoded file is the framing of that plaintext
   with the salt and vector found in it; so re-framing what was decrypted gives the same bytes.
   */
  method Decrypt(c: Crypto, encoded: Bytes, password: string) returns (r: Result<Bytes>)
    requires c.Lawful()
    ensures forall plain :: r == Ok(plain) <==>
              c.decode(encoded).Some? && Frames(c, c.decode(encoded).value, password, plain)
    ensures r.Err? ==>
              r.error == match c.decode(encoded)
                         case None => BadBase64
                         case Some(raw) =>
                           if |raw| < 96 || (|raw| - 80) % 16 != 0 then BadLength else PartsError(c, raw, password)
  {
    var decoded := c.decode(encoded);
    if decoded.None? {
      return Err(BadBase64);
    }
    var raw := decoded.value;
    forall plain | Frames(c, raw, password, plain)
      ensures LengthOk(raw) && Authentic(c, raw, password)
      ensures WellPadded(Text(c, raw, password)) && Unpadded(Text(c, raw, password)) == plain
    {
      FramedIsAuthentic(c, raw, password, plain);
    }
    if |raw| < SALT_SIZE + IV_SIZE + BLOCK + MAC_SIZE {
      return Err(BadLength);
    }
    PartsMakeFile(raw);
    var cipherBytes := |raw| - SALT_SIZE - IV_SIZE - MAC_SIZE;
    if cipherBytes % BLOCK != 0 {
      return Err(BadLength);
    }
    r := DecryptParts(c, raw, password);
    if r.Ok? {
      AuthenticIsFramed(c, raw, password);
    }
  }

  /** The checks and the decryption of a file of the right length. */
  method DecryptParts(c: Crypto, raw: Bytes, password: string) returns (r: Result<Bytes>)
    requires c.Lawful() && LengthOk(raw)
    ensures r.Ok? <==> Authentic(c, raw, password) && WellPadded(Text(c, raw, password))
    ensures if r.Ok? then r.value == Unpadded(Text(c, raw, password)) else r.error == PartsError(c, raw, password)
  {
    var keys, salt := GetKey(c, password, Some(Salt(raw)), []);
    if keys.Err? {
      return Err(keys.error);
    }
    if Mac(raw) != c.mac(keys.value[SALT_SIZE..], AuthText(raw)) {
      return Err(BadMac);
    }
    var text := OpenBlocks(c, keys.value[..SALT_SIZE], Iv(raw), CipherText(raw));
    OpenedLength(c, keys.value[..SALT_SIZE], Iv(raw), CipherText(raw));
    var padLen := text[|text| - 1] as int;
    if padLen < 1 || padLen > BLOCK || padLen > |text| {
      return Err(BadPadding);
    }
    if text[|text| - padLen..] != Repeat(padLen as byte, padLen) {
      return Err(BadPadding);
    }
    return Ok(text[..|text| - padLen]);
  }

  /**
   Encrypting and then decrypting gives the plaintext back exactly when the random salt was not
   all zeros: encryption takes any salt, decryption refuses that one.
   */
  method RoundTrip(c: Crypto, plain: Bytes, password: string, salt: Bytes, iv: Bytes) returns (r: Result<Bytes>)
    requires c.Lawful() && |salt| == SALT_SIZE && |iv| == IV_SIZE
    requires plain != [] && KeysOk(c, password, salt)
    ensures r == Ok(plain) <==> SaltOk(salt)
  {
    var file := Encrypt(c, plain, password, salt, iv);
    r := Decrypt(c, file.value, password);
    var keys := c.derive(password, salt);
    var sealed := Sealed(c, keys[..SALT_SIZE], iv, Padded(plain));
    SealedLength(c, keys[..SALT_SIZE], iv, Padded(plain));
    ghost var raw := Framed(c, keys, salt, iv, plain);
    FrameHasParts(raw, salt, iv, sealed, c.mac(keys[SALT_SIZE..], salt + iv + sealed));
    assert c.decode(file.value) == Some(raw);
    assert Frames(c, raw, password, plain) <==> SaltOk(salt);
  }

  /** One byte encrypted under a salt of zeros does not come back. */
  method ZeroSaltLosesText(c: Crypto, password: string, iv: Bytes) returns (r: Result<Bytes>)
    requires c.Lawful() && |iv| == IV_SIZE && KeysOk(c, password, Repeat(0, SALT_SIZE))
    ensures r != Ok([42])
  {
    r := RoundTrip(c, [42], password, Repeat(0, SALT_SIZE), iv);
  }
}
