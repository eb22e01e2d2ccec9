/** chacha20_poly1305.c: the AEAD of section 2.8 of RFC 8439, over an arbitrary one-time authenticator. */
module ChachaPoly {
  import opened BlockOps
  import opened Chacha
  import opened ChachaSpec
  import opened Words

  /** Poly1305, as a function of a one-time key and a byte string. */
  type Authenticator = (seq<bv8>, seq<bv8>) -> Block

  // ----- what is authenticated ---------------------------------------------------------------------

  /** AAD || pad16(AAD) || ciphertext || pad16(ciphertext) || lengths, section 2.8. */
  function MacData(a: seq<bv8>, c: seq<bv8>): seq<bv8> {
    Pad(a) + Pad(c) + LittleEndian(|a|, 8) + LittleEndian(|c|, 8)
  }

  /** The authenticated bytes determine the associated data and the ciphertext. */
  lemma MacDataInjective(a1: seq<bv8>, c1: seq<bv8>, a2: seq<bv8>, c2: seq<bv8>)
    requires |a1| < Pow256(8) && |c1| < Pow256(8) && |a2| < Pow256(8) && |c2| < Pow256(8)
    requires MacData(a1, c1) == MacData(a2, c2)
    ensures a1 == a2 && c1 == c2
  {
    hide LittleEndian, FromLittleEndian, Pow256;
    var m1, m2 := MacData(a1, c1), MacData(a2, c2);
    var n := |m1|;
    Ending(a1, c1);
    Ending(a2, c2);
    ReadBack(|a1|, 8);
    ReadBack(|a2|, 8);
    ReadBack(|c1|, 8);
    ReadBack(|c2|, 8);
    var k := |Pad(a1)|;
    assert a1 == m1[..|a1|] && a2 == m2[..|a2|];
    assert c1 == m1[k..][..|c1|] && c2 == m2[k..][..|c2|];
  }

  lemma Ending(a: seq<bv8>, c: seq<bv8>)
    ensures var m := MacData(a, c);
            |m| >= 16 && m[|m| - 16..|m| - 8] == LittleEndian(|a|, 8) && m[|m| - 8..] == LittleEndian(|c|, 8)
  {
    hide LittleEndian, Pad;
  }

  /** Where the authenticated bytes carry the associated data, the ciphertext and their lengths. */
  lemma MacDataReads(a: seq<bv8>, c: seq<bv8>)
    requires |a| < Pow256(8) && |c| < Pow256(8)
    ensures var (m, k) := (MacData(a, c), (|a| + 15) / 16 * 16);
            && |m| == k + (|c| + 15) / 16 * 16 + 16
            && m[..|a|] == a && m[k..k + |c|] == c
            && (forall i :: |a| <= i < k || k + |c| <= i < |m| - 16 ==> m[i] == 0)
            && FromLittleEndian(m[|m| - 16..|m| - 8]) == |a| && FromLittleEndian(m[|m| - 8..]) == |c|
  {
    hide LittleEndian, FromLittleEndian, Pow256, Pad;
    Ending(a, c);
    ReadBack(|a|, 8);
    ReadBack(|c|, 8);
    PadBytes(a);
    PadBytes(c);
    var (p, q, l) := (Pad(a), Pad(c), LittleEndian(|a|, 8) + LittleEndian(|c|, 8));
    assert MacData(a, c) == p + q + l;
    Places(p, q, l, |a|, |c|);
  }

  lemma PadBytes(x: seq<bv8>)
    ensures |Pad(x)| == (|x| + 15) / 16 * 16 && Pad(x)[..|x|] == x
    ensures forall i :: |x| <= i < |Pad(x)| ==> Pad(x)[i] == 0
  {
  }

  lemma Places(p: seq<bv8>, q: seq<bv8>, l: seq<bv8>, m: nat, n: nat)
    requires m <= |p| && n <= |q|
    requires (forall i :: m <= i < |p| ==> p[i] == 0) && forall i :: n <= i < |q| ==> q[i] == 0
    ensures var s := p + q + l;
            && s[..m] == p[..m] && s[|p|..|p| + n] == q[..n]
            && forall i :: m <= i < |p| || |p| + n <= i < |p| + |q| ==> s[i] == 0
  {
  }

  // ----- the AEAD on byte strings ---------------------------------------------------------------------

  /** The first half of block 0. */
  function OneTimeKey(st: Words16): seq<bv8> {
    KeyStream(20, st, 0, 32)
  }

  /** The payload is encrypted from block 1 on. */
  function Ciphertext(st: Words16, p: seq<bv8>): (c: seq<bv8>)
    ensures |c| == |p|
  {
    Crypt(20, st, 64, p)
  }

  function Tag(mac: Authenticator, st: Words16, a: seq<bv8>, c: seq<bv8>): Block {
    mac(OneTimeKey(st), MacData(a, c))
  }

  /** The payload never meets the block the one-time key comes from. */
  lemma PayloadStartsAtBlockOne(st: Words16, i: nat)
    requires st[12] == 0 && i / 64 < 0xFFFF_FFFF
    ensures KeyByte(20, st, 64 + i) == BlockOf(20, st[12 := Counted(1 + i / 64)])[i % 64]
    ensures Counted(1 + i / 64) != 0
  {
    hide BlockOf, StateAt;
    assert (64 + i) / 64 == 1 + i / 64 && (64 + i) % 64 == i % 64;
    FirstBlocks(st, 1 + i / 64);
    CounterDoesNotWrap(1 + i / 64);
  }

  /**
   * The one-time key and every payload block use the nonce as given if and only if the payload has at
   * most 2^32 - 1 blocks, the limit of section 2.8 of RFC 8439.
   */
  lemma NonceKeptForPayload(st: Words16, length: nat)
    requires st[12] == 0
    ensures (forall i: nat | i < 1 + (length + 63) / 64 :: StateAt(st, i)[13..] == st[13..])
       <==> length <= 64 * 0xFFFF_FFFF
  {
    hide StateAt;
    NonceKeptIff(st, 1 + (length + 63) / 64);
  }

  /** Decrypting a ciphertext under the same key and nonce gives back the payload. */
  lemma DecryptionUndoesEncryption(st: Words16, p: seq<bv8>)
    ensures Ciphertext(st, Ciphertext(st, p)) == p
  {
    CryptTwice(20, st, 64, p);
    hide Crypt;
  }

  // ----- the code ----------------------------------------------------------------------------------------

  /** Poly1305 as it is used: a key, then any number of pieces, then the tag. */
  class Poly1305Context {
    const mac: Authenticator
    var key: seq<bv8>
    var data: seq<bv8>

    constructor (mac: Authenticator, key: seq<bv8>)
      ensures this.mac == mac && this.key == key && data == []
    {
      this.mac := mac;
      this.key := key;
      data := [];
    }

    method Update(x: seq<bv8>)
      modifies `data
      ensures data == old(data) + x
    {
      data := data + x;
    }

    method Final() returns (t: Block)
      ensures t == mac(key, data)
    {
      t := mac(key, data);
    }
  }

  lemma PadIs(x: seq<bv8>)
    ensures Pad(x) == if |x| % 16 != 0 then x + Repeat(0, 16 - |x| % 16) else x
  {
    hide Repeat;
  }

  /** One string and its padding. */
  method UpdatePadded(poly: Poly1305Context, x: seq<bv8>)
    modifies poly`data
    ensures poly.data == old(poly.data) + Pad(x)
  {
    hide *;
    PadIs(x);
    poly.Update(x);
    if |x| % 16 != 0 {
      var paddingLen := 16 - |x| % 16;
      poly.Update(Repeat(0, paddingLen));
    }
  }

  /** Everything poly1305Final is computed over. */
  method Authenticate(mac: Authenticator, key: seq<bv8>, a: seq<bv8>, c: seq<bv8>) returns (t: Block)
    ensures t == mac(key, MacData(a, c))
  {
    hide LittleEndian, Pad;
    var poly := new Poly1305Context(mac, key);
    UpdatePadded(poly, a);
    UpdatePadded(poly, c);
    poly.Update(LittleEndian(|a|, 8));
    poly.Update(LittleEndian(|c|, 8));
    assert poly.data == MacData(a, c);
    t := poly.Final();
  }

  /** The ChaCha20 context after the one-time key has been taken from block 0. */
  method Start(k: seq<bv8>, n: seq<bv8>) returns (error: ErrorCode, context: ChachaContext, temp: array<bv8>)
    ensures fresh(context) && fresh(context.state) && fresh(context.keystream) && fresh(temp) && temp != context.keystream
    ensures error == if Accepts(|k|, |n|) then NoError else InvalidParameter
    ensures error == NoError ==>
      && Accepts(|k|, |n|) && context.Valid() && context.nr == 20 && context.used == 64
      && context.base == InitialState(k, n) && temp[..] == OneTimeKey(InitialState(k, n))
  {
    hide ChachaContext.Valid, InitialState, KeyStream, Crypt;
    context := new ChachaContext();
    temp := new bv8[32];
    error := context.Init(20, k, n);
    if error != NoError {
      return;
    }
    context.Cipher(null, temp, 32);
    assert temp[..32] == temp[..];
    context.Cipher(null, null, 32);
  }

  /** The payload, encrypted or decrypted after the one-time key has been taken. */
  method CryptPayload(context: ChachaContext, input: array<bv8>, output: array<bv8>)
    requires context.Valid() && context.nr == 20 && context.used == 64 && input.Length == output.Length
    requires context.keystream != input && context.keystream != output
    modifies context, context.state, context.keystream, output
    ensures output[..] == Ciphertext(context.base, old(input[..])) && context.base == old(context.base)
  {
    hide ChachaContext.Valid, Crypt, KeyStream;
    var n := input.Length;
    assert input[..n] == input[..];
    context.Cipher(input, output, n);
    assert output[..n] == output[..];
  }

  /** The tag over associated data and ciphertext, in a buffer of its own. */
  method MakeTag(mac: Authenticator, key: array<bv8>, a: array<bv8>, c: array<bv8>) returns (b: array<bv8>)
    ensures fresh(b) && b.Length == 16 && b[..] == mac(key[..], MacData(a[..], c[..]))
  {
    hide MacData;
    var tag := Authenticate(mac, key[..], a[..], c[..]);
    b := NewBlock(tag);
  }

  /** chacha20Poly1305Encrypt */
  method Encrypt(mac: Authenticator, k: seq<bv8>, n: seq<bv8>, a: array<bv8>, p: array<bv8>, c: array<bv8>,
                 t: array<bv8>, tLen: nat) returns (error: ErrorCode)
    requires p.Length == c.Length && tLen <= t.Length && a != c && t != c && t != a && t != p
    modifies c, t
    ensures error == if tLen != 16 then InvalidLength else if Accepts(|k|, |n|) then NoError else InvalidParameter
    ensures error == NoError ==>
      && Accepts(|k|, |n|)
      && c[..] == Ciphertext(InitialState(k, n), old(p[..]))
      && t[..16] == Tag(mac, InitialState(k, n), a[..], c[..]) && t[16..] == old(t[16..])
    ensures error != NoError ==> c[..] == old(c[..]) && t[..] == old(t[..])
  {
    hide ChachaContext.Valid, InitialState, OneTimeKey, MacData, Ciphertext;
    if tLen != 16 {
      return InvalidLength;
    }
    var context, temp;
    error, context, temp := Start(k, n);
    if error != NoError {
      return;
    }
    CryptPayload(context, p, c);
    var b := MakeTag(mac, temp, a, c);
    StoreTag(t, b, 16);
    assert b[..16] == b[..];
  }

  /** chacha20Poly1305Decrypt */
  method Decrypt(mac: Authenticator, k: seq<bv8>, n: seq<bv8>, a: array<bv8>, c: array<bv8>, p: array<bv8>,
                 t: array<bv8>, tLen: nat) returns (error: ErrorCode)
    requires p.Length == c.Length && tLen <= t.Length && t != p
    modifies p
    ensures error == if tLen != 16 then InvalidLength
                     else if !Accepts(|k|, |n|) then InvalidParameter
                     else if t[..16] == Tag(mac, InitialState(k, n), old(a[..]), old(c[..])) then NoError
                     else Failed
    ensures error == NoError || error == Failed ==>
      Accepts(|k|, |n|) && p[..] == Ciphertext(InitialState(k, n), old(c[..]))
    ensures error == InvalidLength || error == InvalidParameter ==> p[..] == old(p[..])
  {
    hide ChachaContext.Valid, InitialState, OneTimeKey, MacData, Ciphertext;
    if tLen != 16 {
      return InvalidLength;
    }
    var context, temp;
    error, context, temp := Start(k, n);
    if error != NoError {
      return;
    }
    var b := MakeTag(mac, temp, a, c);
    CryptPayload(context, c, p);
    var mask := CompareTags(b, t, 16);
    assert b[..16] == b[..];
    return if mask == 0 then NoError else Failed;
  }

  /** Decrypting what was encrypted succeeds and gives the plaintext back. */
  method EncryptThenDecrypt(mac: Authenticator, k: seq<bv8>, n: seq<bv8>, a: array<bv8>, p: array<bv8>, c: array<bv8>,
                            q: array<bv8>, t: array<bv8>, tLen: nat) returns (first: ErrorCode, second: ErrorCode)
    requires p.Length == c.Length == q.Length && tLen <= t.Length
    requires t != a && t != p && t != c && t != q && c != a && c != p && q != c && q != p && q != a
    modifies c, t, q
    ensures first == NoError ==> second == NoError && q[..] == p[..]
    ensures first != NoError ==> second == first
  {
    hide InitialState, Ciphertext, Tag;
    ghost var x := p[..];
    first := Encrypt(mac, k, n, a, p, c, t, tLen);
    if first == NoError {
      DecryptionUndoesEncryption(InitialState(k, n), x);
    }
    second := Decrypt(mac, k, n, a, c, q, t, tLen);
  }
}
