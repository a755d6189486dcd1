/** Bytes, framing thresholds and the length-prefixed wire format shared by the three SDKs. */
module Wire {
  type byte = x: int | 0 <= x < 256
  type Bytes = seq<byte>

  datatype Option<+T> = None | Some(value: T)

  const MAX_FRAME_SIZE: nat := 256 * 1024
  const FRAME_OVERHEAD: nat := 1024
  const INLINE_MAX: nat := 16 * 1024
  const MESSAGE_MAX: nat := MAX_FRAME_SIZE - FRAME_OVERHEAD
  /** Chunk payload size of the TypeScript SDK. */
  const TS_CHUNK_SIZE: nat := 60 * 1024
  /** Chunk payload size of the Go and Rust SDKs. */
  const GO_CHUNK_SIZE: nat := MAX_FRAME_SIZE - FRAME_OVERHEAD

  const INT32_LIMIT: nat := 0x8000_0000

  // ---------------------------------------------------------------- length prefix

  /** The four big-endian bytes of `n`; only the low 32 bits survive. */
  function Be32(n: nat): (b: Bytes)
    ensures |b| == 4
  {
    [n / 0x100_0000 % 256, n / 0x1_0000 % 256, n / 0x100 % 256, n % 256]
  }

  function ReadBe32(b: Bytes): nat
    requires |b| >= 4
  {
    b[0] as int * 0x100_0000 + b[1] as int * 0x1_0000 + b[2] as int * 0x100 + b[3] as int
  }

  lemma Bytes2(n: nat)
    ensures n / 0x1_0000 == n / 0x100 / 0x100
  {
    assert n == 0x1_0000 * (n / 0x100 / 0x100) + (0x100 * (n / 0x100 % 0x100) + n % 0x100);
  }

  lemma Bytes3(n: nat)
    ensures n / 0x100_0000 == n / 0x1_0000 / 0x100
  {
    assert n == 0x100_0000 * (n / 0x1_0000 / 0x100) + (0x1_0000 * (n / 0x1_0000 % 0x100) + n % 0x1_0000);
  }

  lemma Bytes4(n: nat)
    ensures n / 0x1_0000_0000 == n / 0x100_0000 / 0x100
  {
    assert n == 0x1_0000_0000 * (n / 0x100_0000 / 0x100) + (0x100_0000 * (n / 0x100_0000 % 0x100) + n % 0x100_0000);
  }

  lemma FourDigits(n: nat)
    ensures n / 0x100_0000 % 256 * 0x100_0000 + n / 0x1_0000 % 256 * 0x1_0000 + n / 0x100 % 256 * 0x100 + n % 256
         == n % 0x1_0000_0000
  {
    Bytes2(n);
    Bytes3(n);
    Bytes4(n);
    var n1, n2, n3, n4 := n / 0x100, n / 0x1_0000, n / 0x100_0000, n / 0x1_0000_0000;
    assert n == 0x100 * n1 + n % 256 && n1 == 0x100 * n2 + n1 % 256;
    assert n2 == 0x100 * n3 + n2 % 256 && n3 == 0x100 * n4 + n3 % 256;
    assert n == 0x1_0000_0000 * n4 + n % 0x1_0000_0000;
  }

  /** Reading back a written length gives the length modulo 2^32, whatever follows it. */
  lemma ReadWrittenLength(n: nat, rest: Bytes)
    ensures ReadBe32(Be32(n) + rest) == n % 0x1_0000_0000
  {
    FourDigits(n);
    var b := Be32(n) + rest;
    assert b[0] == Be32(n)[0] && b[1] == Be32(n)[1] && b[2] == Be32(n)[2] && b[3] == Be32(n)[3];
  }

  /** A payload with its length in front: what one DataChannel write carries. */
  function Prefixed(payload: Bytes): Bytes {
    Be32(|payload|) + payload
  }

  method LengthPrefix(payload: Bytes) returns (out: array<byte>)
    ensures fresh(out)
    ensures out[..] == Prefixed(payload)
  {
    out := new byte[4 + |payload|];
    var n := |payload|;
    out[0] := n / 0x100_0000 % 256;
    out[1] := n / 0x1_0000 % 256;
    out[2] := n / 0x100 % 256;
    out[3] := n % 256;
    for i := 0 to |payload|
      invariant out[..4] == Be32(n)
      invariant out[4..4 + i] == payload[..i]
    {
      out[4 + i] := payload[i];
      assert out[4..4 + i + 1] == out[4..4 + i] + [payload[i]];
    }
    assert out[..] == out[..4] + out[4..4 + |payload|];
  }

  /** Go's tolerant reader: a message without a plausible prefix is passed on untouched. */
  function StripPrefix(b: Bytes): Bytes {
    if |b| < 4 then b else
    var length := ReadBe32(b);
    if length <= 0 || 4 + length > |b| then b else b[4..4 + length]
  }

  /** What a reader finds at the front of a prefixed payload. */
  lemma ReadPrefixed(p: Bytes, rest: Bytes)
    requires |p| < 0x1_0000_0000
    ensures |Prefixed(p)| == 4 + |p|
    ensures ReadBe32(Prefixed(p) + rest) == |p|
    ensures (Prefixed(p) + rest)[4..4 + |p|] == p
  {
    hide Be32, ReadBe32;
    assert Prefixed(p) + rest == Be32(|p|) + (p + rest);
    ReadWrittenLength(|p|, p + rest);
  }

  /** Stripping undoes prefixing exactly on the non-empty payloads, whatever follows in the same message. */
  lemma StripUndoesPrefix(p: Bytes, rest: Bytes)
    requires |p| < 0x1_0000_0000
    ensures StripPrefix(Prefixed(p) + rest) == p <==> p != []
    ensures StripPrefix(Prefixed(p)) == p <==> p != []
  {
    ReadPrefixed(p, rest);
    ReadPrefixed(p, []);
    hide Prefixed, ReadBe32;
    assert Prefixed(p) + [] == Prefixed(p);
  }

  /** A message that starts with a protobuf tag byte cannot look length-prefixed: the tag would announce
      at least 16 MiB. */
  lemma StripKeepsTagged(p: Bytes)
    requires p != [] ==> p[0] != 0
    requires |p| <= MAX_FRAME_SIZE
    ensures StripPrefix(p) == p
  {
  }
}
