/**
  Machine words: bytes, 16- and 32-bit unsigned integers, and their little-endian layout
  in the buffers that the frontend, the backend and the viewer share.
 */
module Words {

  const TWO_32: int := 0x1_0000_0000

  type byte = x: int | 0 <= x < 0x100
  type u16 = x: int | 0 <= x < 0x1_0000
  type u32 = x: int | 0 <= x < 0x1_0000_0000

  // Addition of uint32_t values wraps.
  function Add32(a: u32, b: u32): u32 {
    (a + b) % TWO_32
  }

  // Quotient and remainder are determined by their defining equation.
  lemma {:induction false} DivMod(t: int, d: nat, quotient: int, remainder: nat)
    requires remainder < d && t == d * quotient + remainder
    ensures t / d == quotient && t % d == remainder
  {
    var q, r := t / d, t % d;
    assert t == d * q + r;
    AtLeastOneMultiple(d, q - quotient);
    AtLeastOneMultiple(d, quotient - q);
    assert d * (q - quotient) == remainder - r;
  }

  lemma {:induction false} AtLeastOneMultiple(d: nat, n: int)
    ensures n >= 1 ==> d * n >= d
  {
  }

  function Low16(w: u32): u16 {
    w % 0x1_0000
  }

  function Half(b: seq<byte>, at: nat): u16
    requires at + 2 <= |b|
  {
    b[at] as int + 0x100 * (b[at + 1] as int)
  }

  function Word(b: seq<byte>, at: nat): u32
    requires at + 4 <= |b|
  {
    b[at] as int + 0x100 * (b[at + 1] as int) + 0x1_0000 * (b[at + 2] as int) + 0x100_0000 * (b[at + 3] as int)
  }

  function HalfBytes(h: u16): seq<byte> {
    [h % 0x100, h / 0x100]
  }

  function WordBytes(w: u32): (b: seq<byte>)
    ensures |b| == 4 && Word(b, 0) == w
  {
    var high := w / 0x100;
    var higher := high / 0x100;
    [w % 0x100, high % 0x100, higher % 0x100, higher / 0x100]
  }

  // A list of words as bytes.
  function Bytes(words: seq<u32>): (b: seq<byte>)
    ensures |b| == 4 * |words|
  {
    if words == [] then [] else WordBytes(words[0]) + Bytes(words[1..])
  }

  lemma {:induction false} BytesWord(words: seq<u32>, k: nat)
    requires k < |words|
    ensures Word(Bytes(words), 4 * k) == words[k]
    ensures Bytes(words)[4 * k..4 * k + 4] == WordBytes(words[k])
  {
    var rest := Bytes(words[1..]);
    if k == 0 {
      assert Bytes(words)[..4] == WordBytes(words[0]);
    } else {
      BytesWord(words[1..], k - 1);
      assert Bytes(words)[4 * k..4 * k + 4] == rest[4 * (k - 1)..4 * (k - 1) + 4];
    }
  }

  // A word read from a longer buffer.
  lemma {:induction false} WordInside(before: seq<byte>, b: seq<byte>, after: seq<byte>, at: nat)
    requires at + 4 <= |b|
    ensures Word(before + b + after, |before| + at) == Word(b, at)
  {
    var all := before + b + after;
    assert all[|before| + at] == b[at];
    assert all[|before| + at + 1] == b[at + 1];
    assert all[|before| + at + 2] == b[at + 2];
    assert all[|before| + at + 3] == b[at + 3];
  }

  // Overwriting a stretch of memory.
  function Write(mem: seq<byte>, at: nat, data: seq<byte>): (r: seq<byte>)
    requires at + |data| <= |mem|
    ensures |r| == |mem|
    ensures forall k :: 0 <= k < |mem| ==>
      r[k] == if at <= k < at + |data| then data[k - at] else mem[k]
  {
    mem[..at] + data + mem[at + |data|..]
  }

  lemma {:induction false} WriteElsewhere(mem: seq<byte>, at: nat, data: seq<byte>, lo: nat, hi: nat)
    requires at + |data| <= |mem|
    requires lo <= hi <= |mem|
    requires hi <= at || at + |data| <= lo
    ensures Write(mem, at, data)[lo..hi] == mem[lo..hi]
  {
  }

  lemma {:induction false} WriteHere(mem: seq<byte>, at: nat, data: seq<byte>)
    requires at + |data| <= |mem|
    ensures Write(mem, at, data)[at..at + |data|] == data
  {
  }

  /** memcpy of bytes into a buffer. */
  method CopyInto(buffer: array<byte>, at: nat, data: seq<byte>)
    requires at + |data| <= buffer.Length
    modifies buffer
    ensures buffer[..] == Write(old(buffer[..]), at, data)
  {
    for i := 0 to |data|
      invariant forall k :: 0 <= k < buffer.Length ==>
        buffer[k] == if at <= k < at + i then data[k - at] else old(buffer[k])
    {
      buffer[at + i] := data[i];
    }
  }
}
