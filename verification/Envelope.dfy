/**
 The encrypted envelope (internal/pushsdk/crypto.go): PKCS#7 padding (section 6.3
 of RFC 5652) inside cipher block chaining (section 6.2 of NIST SP 800-38A) inside
 base64 (section 4 of RFC 4648). The block cipher is any keyed permutation of
 blocks, base64 any codec that decodes what it encodes.
 */
module Envelope {
  import opened Wrappers

  type Byte = bv8

  const BLOCK := 16

  type Block = b: seq<Byte> | |b| == BLOCK witness seq(BLOCK, i => 0)

  // ----- Padding -------------------------------------------------------------

  /** How many bytes fill up the last block; never none. */
  function PaddingFor(length: nat, size: nat): (n: nat)
    requires size > 0
    ensures 1 <= n <= size
  {
    size - length % size
  }

  lemma PaddingFillsBlock(length: nat, n: nat)
    requires 1 <= n <= BLOCK
    ensures (length + n) % BLOCK == 0 <==> n == PaddingFor(length, BLOCK)
  {
  }

  function Pad(value: seq<Byte>, size: nat): (padded: seq<Byte>)
    requires size > 0
    ensures size == BLOCK ==> |padded| % BLOCK == 0
  {
    PaddingFillsBlock(|value|, PaddingFor(|value|, BLOCK));
    var n := PaddingFor(|value|, size);
    value + seq(n, i => (n % 256) as Byte)
  }

  /** The last byte says how much to remove; it must be plausible and repeated that often. */
  predicate WellPadded(padded: seq<Byte>) {
    && padded != [] && |padded| % BLOCK == 0
    && var n := padded[|padded| - 1] as int;
       1 <= n <= BLOCK && forall i :: |padded| - n <= i < |padded| ==> padded[i] as int == n
  }

  function Unpad(padded: seq<Byte>): Option<seq<Byte>> {
    if WellPadded(padded) then Some(padded[..|padded| - padded[|padded| - 1] as int]) else None
  }

  method PadPKCS7(value: array<Byte>, size: nat) returns (result: array<Byte>)
    requires size > 0
    ensures fresh(result) && result[..] == Pad(value[..], size)
  {
    var n := size - value.Length % size;
    assert n == PaddingFor(value.Length, size);
    result := new Byte[value.Length + n];
    var i := 0;
    while i < value.Length
      invariant 0 <= i <= value.Length
      invariant forall k :: 0 <= k < i ==> result[k] == value[k]
    {
      result[i] := value[i];
      i := i + 1;
    }
    while i < result.Length
      invariant value.Length <= i <= result.Length
      invariant forall k :: 0 <= k < value.Length ==> result[k] == value[k]
      invariant forall k :: value.Length <= k < i ==> result[k] == (n % 256) as Byte
    {
      result[i] := (n % 256) as Byte;
      i := i + 1;
    }
  }

  method UnpadPKCS7(value: array<Byte>) returns (result: Option<seq<Byte>>)
    ensures result == Unpad(value[..])
  {
    if value.Length == 0 || value.Length % BLOCK != 0 {
      return None;
    }
    var n := value[value.Length - 1] as int;
    if n < 1 || n > BLOCK || n > value.Length {
      return None;
    }
    var i := value.Length - n;
    while i < value.Length
      invariant value.Length - n <= i <= value.Length
      invariant forall k :: value.Length - n <= k < i ==> value[k] as int == n
    {
      if value[i] as int != n {
        return None;
      }
      i := i + 1;
    }
    return Some(value[..value.Length - n]);
  }

  /** A byte with value `n` is the byte that padding writes for `n`. */
  lemma PaddingByte(b: Byte, n: nat)
    requires 1 <= n <= BLOCK
    ensures b as int == n <==> b == (n % 256) as Byte
  {
    assert n % 256 == n;
    assert (n as Byte) as int == n;
  }

  /** The fill of a padded value: `n` bytes that all have value `n`. */
  lemma FillIs(fill: seq<Byte>, n: nat)
    requires 1 <= n <= BLOCK && |fill| == n
    ensures (forall i :: 0 <= i < n ==> fill[i] as int == n) <==> fill == seq(n, i => (n % 256) as Byte)
  {
    forall i | 0 <= i < n ensures fill[i] as int == n <==> fill[i] == (n % 256) as Byte {
      PaddingByte(fill[i], n);
    }
    var written := seq(n, i => (n % 256) as Byte);
    if fill == written {
      forall i | 0 <= i < n ensures fill[i] as int == n {
        assert fill[i] == written[i];
      }
    }
  }

  lemma UnpadPad(value: seq<Byte>)
    ensures WellPadded(Pad(value, BLOCK)) && Unpad(Pad(value, BLOCK)) == Some(value)
  {
    var n := PaddingFor(|value|, BLOCK);
    PaddingFillsBlock(|value|, n);
    hide PaddingFor;
    var padded := Pad(value, BLOCK);
    var fill := padded[|value|..];
    FillIs(fill, n);
    assert padded[|padded| - 1] == fill[n - 1];
    assert forall i :: |value| <= i < |padded| ==> padded[i] == fill[i - |value|];
    assert padded[..|value|] == value;
  }

  /** Padding appends 1 to 16 bytes that each say how many they are, up to a whole number of 16-byte blocks. */
  lemma PadIsPKCS7(value: seq<Byte>)
    ensures var padded := Pad(value, 16);
            var n := |padded| - |value|;
            && |padded| % 16 == 0 && 1 <= n <= 16 && padded[..|value|] == value
            && forall i :: |value| <= i < |padded| ==> padded[i] as int == n
  {
    var padded, n := Pad(value, 16), PaddingFor(|value|, 16);
    var fill := padded[|value|..];
    FillIs(fill, n);
    assert forall i :: |value| <= i < |padded| ==> padded[i] == fill[i - |value|];
  }

  /** Whatever unpads is the padding of what comes out: unpadding succeeds exactly on padded values. */
  lemma PadUnpad(padded: seq<Byte>)
    requires WellPadded(padded)
    ensures Pad(Unpad(padded).value, BLOCK) == padded
  {
    hide PaddingFor;
    var n := padded[|padded| - 1] as int;
    assert n <= |padded| by { BlockFits(|padded|); }
    var value, fill := padded[..|padded| - n], padded[|padded| - n..];
    PaddingFillsBlock(|value|, n);
    assert forall i :: 0 <= i < n ==> fill[i] == padded[|padded| - n + i];
    FillIs(fill, n);
    assert padded == value + fill;
  }

  lemma BlockFits(length: nat)
    requires length > 0 && length % BLOCK == 0
    ensures length >= BLOCK
  {
  }

  // ----- Chaining ------------------------------------------------------------

  function Xor(a: Block, b: Block): Block {
    seq(BLOCK, i requires 0 <= i < BLOCK => a[i] ^ b[i])
  }

  lemma XorTwice(a: Block, b: Block)
    ensures Xor(Xor(a, b), b) == a
  {
    forall i | 0 <= i < BLOCK ensures Xor(Xor(a, b), b)[i] == a[i] {
      ByteXorTwice(a[i], b[i]);
    }
  }

  lemma ByteXorTwice(x: Byte, y: Byte)
    ensures (x ^ y) ^ y == x
  {
  }

  /** A block cipher under a fixed key. */
  datatype Cipher = Cipher(encrypt: Block -> Block, decrypt: Block -> Block)

  ghost predicate IsPermutation(c: Cipher) {
    forall b: Block :: c.decrypt(c.encrypt(b)) == b && c.encrypt(c.decrypt(b)) == b
  }

  function CbcEncrypt(c: Cipher, iv: Block, plain: seq<Byte>): (r: seq<Byte>)
    requires |plain| % BLOCK == 0
    ensures |r| == |plain|
    decreases |plain|
  {
    if plain == [] then []
    else
      var block := c.encrypt(Xor(plain[..BLOCK], iv));
      block + CbcEncrypt(c, block, plain[BLOCK..])
  }

  function CbcDecrypt(c: Cipher, iv: Block, secret: seq<Byte>): (r: seq<Byte>)
    requires |secret| % BLOCK == 0
    ensures |r| == |secret|
    decreases |secret|
  {
    if secret == [] then []
    else Xor(c.decrypt(secret[..BLOCK]), iv) + CbcDecrypt(c, secret[..BLOCK], secret[BLOCK..])
  }

  lemma {:induction false} CbcInverts(c: Cipher, iv: Block, plain: seq<Byte>)
    requires IsPermutation(c) && |plain| % BLOCK == 0
    ensures CbcDecrypt(c, iv, CbcEncrypt(c, iv, plain)) == plain
    decreases |plain|
  {
    if plain != [] {
      var block := c.encrypt(Xor(plain[..BLOCK], iv));
      var secret := CbcEncrypt(c, iv, plain);
      assert secret[..BLOCK] == block && secret[BLOCK..] == CbcEncrypt(c, block, plain[BLOCK..]);
      CbcInverts(c, block, plain[BLOCK..]);
      XorTwice(plain[..BLOCK], iv);
      assert plain == plain[..BLOCK] + plain[BLOCK..];
    }
  }

  lemma {:induction false} CbcSurjective(c: Cipher, iv: Block, secret: seq<Byte>)
    requires IsPermutation(c) && |secret| % BLOCK == 0
    ensures CbcEncrypt(c, iv, CbcDecrypt(c, iv, secret)) == secret
    decreases |secret|
  {
    if secret != [] {
      var block := secret[..BLOCK];
      var plain := CbcDecrypt(c, iv, secret);
      assert plain[..BLOCK] == Xor(c.decrypt(block), iv) && plain[BLOCK..] == CbcDecrypt(c, block, secret[BLOCK..]);
      XorTwice(c.decrypt(block), iv);
      CbcSurjective(c, block, secret[BLOCK..]);
      assert secret == secret[..BLOCK] + secret[BLOCK..];
    }
  }

  /** Block `k` of a text. */
  function BlockAt(text: seq<Byte>, k: nat): Block
    requires 16 * k + 16 <= |text|
  {
    text[16 * k..16 * k + 16]
  }

  predicate IsXor(x: Block, a: Block, b: Block) {
    forall i :: 0 <= i < 16 ==> x[i] == a[i] ^ b[i]
  }

  /** Each block of the secret is the cipher of its plain block, combined with the secret block before it. */
  lemma {:induction false} CbcChains(c: Cipher, iv: Block, plain: seq<Byte>, k: nat)
    requires |plain| % 16 == 0 && 16 * k + 16 <= |plain|
    ensures var secret := CbcEncrypt(c, iv, plain);
            var before := if k == 0 then iv else BlockAt(secret, k - 1);
            exists x: Block :: IsXor(x, BlockAt(plain, k), before) && BlockAt(secret, k) == c.encrypt(x)
    decreases k
  {
    var secret := CbcEncrypt(c, iv, plain);
    var x := Xor(plain[..16], iv);
    var first, rest := c.encrypt(x), CbcEncrypt(c, c.encrypt(x), plain[16..]);
    assert secret == first + rest;
    if k == 0 {
      assert BlockAt(plain, 0) == plain[..16] && BlockAt(secret, 0) == first;
      assert IsXor(x, BlockAt(plain, 0), iv);
    } else {
      CbcChains(c, first, plain[16..], k - 1);
      assert BlockAt(plain[16..], k - 1) == BlockAt(plain, k) && BlockAt(rest, k - 1) == BlockAt(secret, k);
      assert (if k == 1 then first else BlockAt(rest, k - 2)) == BlockAt(secret, k - 1);
    }
  }

  // ----- The envelope --------------------------------------------------------

  datatype Codec = Codec(encode: seq<Byte> -> string, decode: string -> Option<seq<Byte>>)

  ghost predicate Decodes(codec: Codec) {
    forall bytes :: codec.decode(codec.encode(bytes)) == Some(bytes)
  }

  datatype Failure = NotBase64 | BadLength | BadPadding

  function Encrypt(c: Cipher, iv: Block, codec: Codec, plain: seq<Byte>): string {
    codec.encode(CbcEncrypt(c, iv, Pad(plain, BLOCK)))
  }

  function Decrypt(c: Cipher, iv: Block, codec: Codec, text: string): Result<seq<Byte>, Failure> {
    var secret := codec.decode(text);
    if secret.None? then Err(NotBase64)
    else if secret.value == [] || |secret.value| % BLOCK != 0 then Err(BadLength)
    else
      match Unpad(CbcDecrypt(c, iv, secret.value))
      case None => Err(BadPadding)
      case Some(plain) => Ok(plain)
  }

  lemma DecryptInvertsEncrypt(c: Cipher, iv: Block, codec: Codec, plain: seq<Byte>)
    requires IsPermutation(c) && Decodes(codec)
    ensures Decrypt(c, iv, codec, Encrypt(c, iv, codec, plain)) == Ok(plain)
  {
    CbcInverts(c, iv, Pad(plain, BLOCK));
    UnpadPad(plain);
  }

  /** Only the encryption of a plaintext opens, and it opens to that plaintext. */
  lemma DecryptOnlyEncrypted(c: Cipher, iv: Block, codec: Codec, text: string, plain: seq<Byte>)
    requires IsPermutation(c)
    ensures Decrypt(c, iv, codec, text) == Ok(plain)
            <==> codec.decode(text) == Some(CbcEncrypt(c, iv, Pad(plain, BLOCK)))
  {
    var secret := codec.decode(text);
    if Decrypt(c, iv, codec, text) == Ok(plain) {
      PadUnpad(CbcDecrypt(c, iv, secret.value));
      CbcSurjective(c, iv, secret.value);
    }
    if secret == Some(CbcEncrypt(c, iv, Pad(plain, BLOCK))) {
      CbcInverts(c, iv, Pad(plain, BLOCK));
      UnpadPad(plain);
    }
  }
}
