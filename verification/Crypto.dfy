/** The in-place AES-ECB loops of the pairing code. */
module Crypto {
  import opened ByteStrings
  import opened Handshake

  lemma {:induction false} MapAppend(f: Bytes -> Bytes, data: Bytes, n: nat)
    requires n % 16 == 0 && n + 16 <= |data|
    ensures MapBlocks(f, data[..n + 16]) == MapBlocks(f, data[..n]) + f(data[n..n + 16])
  {
    var more := data[..n + 16];
    if n == 0 {
      assert more[..16] == data[n..n + 16] && more[16..] == [];
    } else {
      MapAppend(f, data[16..], n - 16);
      assert data[16..][..n] == more[16..] && data[16..][..n - 16] == data[..n][16..];
      assert data[16..][n - 16..n] == data[n..n + 16];
      assert more[..16] == data[..n][..16] == data[..16];
    }
  }

  /** The buffer with the block at position n replaced. */
  ghost function ReplaceAt(f: Bytes -> Bytes, buffer: Bytes, n: nat): Bytes {
    if n + 16 <= |buffer| then buffer[..n] + f(buffer[n..n + 16]) + buffer[n + 16..] else buffer
  }

  /** The buffer after i turns of the loop. */
  ghost function Turns(f: Bytes -> Bytes, data: Bytes, i: nat): Bytes {
    if i == 0 then data else ReplaceAt(f, Turns(f, data, i - 1), 16 * (i - 1))
  }

  lemma ReplaceInTail(f: Bytes -> Bytes, front: Bytes, data: Bytes, n: nat)
    requires |front| == n && n + 16 <= |data|
    ensures ReplaceAt(f, front + data[n..], n) == front + f(data[n..n + 16]) + data[n + 16..]
  {
    var buffer := front + data[n..];
    assert buffer[..n] == front;
    SliceOfTail(buffer, n, 0, 16);
    assert buffer[n..] == data[n..];
    SliceOfTail(data, n, 0, 16);
    assert buffer[n + 16..] == data[n + 16..];
  }

  /** The turns of the loop do the blocks one after the other. */
  lemma {:induction false} TurnsDoBlocks(f: Bytes -> Bytes, data: Bytes, i: nat)
    requires KeepsBlocks(f) && 16 * i <= |data|
    ensures Turns(f, data, i) == MapBlocks(f, data[..16 * i]) + data[16 * i..]
  {
    if i == 0 {
    } else {
      var n := 16 * (i - 1);
      TurnsDoBlocks(f, data, i - 1);
      MapLength(f, data[..n]);
      MapAppend(f, data, n);
      ReplaceInTail(f, MapBlocks(f, data[..n]), data, n);
    }
  }

  lemma AllTurns(f: Bytes -> Bytes, data: Bytes)
    requires KeepsBlocks(f) && |data| % 16 == 0
    ensures Turns(f, data, |data| / 16) == MapBlocks(f, data)
  {
    var blocks := |data| / 16;
    TurnsDoBlocks(f, data, blocks);
    assert 16 * blocks == |data|;
    assert data[..16 * blocks] == data && data[16 * blocks..] == [];
  }

  method ReplaceChunk(f: Bytes -> Bytes, out: array<Byte>, n: nat)
    requires KeepsBlocks(f) && n + 16 <= out.Length
    modifies out
    ensures out[..] == ReplaceAt(f, old(out[..]), n)
  {
    ghost var buffer := out[..];
    var chunk := out[n..n + 16];
    assert chunk == buffer[n..n + 16];
    var block := f(chunk);
    forall i | 0 <= i < 16 { out[n + i] := block[i]; }
    assert out[..] == buffer[..n] + block + buffer[n + 16..];
  }

  /** `chunks_exact_mut(16)`, each chunk overwritten in turn. */
  method ReplaceChunks(f: Bytes -> Bytes, out: array<Byte>, blocks: nat)
    requires KeepsBlocks(f) && out.Length == 16 * blocks
    modifies out
    ensures out[..] == Turns(f, old(out[..]), blocks)
  {
    for i := 0 to blocks
      invariant out[..] == Turns(f, old(out[..]), i)
    {
      ReplaceChunk(f, out, 16 * i);
    }
  }

  method AesEcbEncrypt(suite: Suite<Byte>, key: Bytes, data: Bytes) returns (r: Result<Bytes, PairError>)
    requires BlockLaws(suite)
    ensures r == Encrypt(suite, key, data)
  {
    if |data| == 0 || |data| % 16 != 0 { return Err(PairError.Crypto); }
    BlocksLength(suite, key, data);
    var out := new Byte[|data|](i requires 0 <= i < |data| => data[i]);
    assert out[..] == data;
    ReplaceChunks(Sealing(suite, key), out, |data| / 16);
    AllTurns(Sealing(suite, key), data);
    r := Ok(out[..]);
  }

  method AesEcbDecrypt(suite: Suite<Byte>, key: Bytes, data: Bytes) returns (r: Result<Bytes, PairError>)
    requires BlockLaws(suite)
    ensures r == Decrypt(suite, key, data)
  {
    if |data| == 0 || |data| % 16 != 0 { return Err(PairError.Crypto); }
    BlocksLength(suite, key, data);
    var out := new Byte[|data|](i requires 0 <= i < |data| => data[i]);
    assert out[..] == data;
    ReplaceChunks(Opening(suite, key), out, |data| / 16);
    AllTurns(Opening(suite, key), data);
    r := Ok(out[..]);
  }
}
