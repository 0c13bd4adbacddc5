/**
  The 32-bit xor-multiply hash that the backend uses for replay commands and frames
  and the shader parser uses for bytecode.
 */
module FnvHash {
  import opened Words

  const OFFSET_BASIS: u32 := 2166136261
  const PRIME: u32 := 16777619
  // PRIME times its inverse is one more than a multiple of 2^32.
  const PRIME_INVERSE: u32 := 0x359C449B

  // Exclusive or, bit by bit.
  function Xor(a: nat, b: nat): nat
    decreases a
  {
    if a == 0 then b else (a % 2 + b % 2) % 2 + 2 * Xor(a / 2, b / 2)
  }

  function Power2(n: nat): nat {
    if n == 0 then 1 else 2 * Power2(n - 1)
  }

  lemma {:induction false} XorBelow(a: nat, b: nat, n: nat)
    requires a < Power2(n) && b < Power2(n)
    ensures Xor(a, b) < Power2(n)
    decreases n
  {
    if a != 0 {
      XorBelow(a / 2, b / 2, n - 1);
    }
  }

  lemma {:induction false} XorWords(a: u32, b: u32)
    ensures Xor(a, b) < TWO_32
  {
    assert Power2(8) == 0x100;
    assert Power2(16) == 0x1_0000;
    assert Power2(24) == 0x100_0000;
    assert Power2(32) == TWO_32;
    XorBelow(a, b, 32);
  }

  lemma {:induction false} XorParts(a: nat, b: nat)
    ensures Xor(a, b) % 2 == (a % 2 + b % 2) % 2
    ensures Xor(a, b) / 2 == Xor(a / 2, b / 2)
  {
    if a != 0 {
      DivMod(Xor(a, b), 2, Xor(a / 2, b / 2), (a % 2 + b % 2) % 2);
    }
  }

  lemma {:induction false} ByParts(a: nat, b: nat)
    ensures a == b <==> a % 2 == b % 2 && a / 2 == b / 2
  {
  }

  lemma {:induction false} BitCancels(a: nat, b: nat, c: nat, d: nat)
    requires a < 2 && b < 2 && c < 2 && d < 2 && (a + b) % 2 == (c + d) % 2
    ensures a == c <==> b == d
  {
  }

  // Exclusive or determines either argument from the other.
  lemma {:induction false} XorCancels(a: nat, b: nat, c: nat, d: nat)
    requires Xor(a, b) == Xor(c, d)
    ensures a == c <==> b == d
    decreases a + b + c + d
  {
    if a + b + c + d > 0 {
      XorParts(a, b);
      XorParts(c, d);
      Halves(a, b, c, d);
      hide Xor;
      XorCancels(a / 2, b / 2, c / 2, d / 2);
      BitCancels(a % 2, b % 2, c % 2, d % 2);
      ByParts(a, c);
      ByParts(b, d);
    }
  }

  lemma {:induction false} Halves(a: nat, b: nat, c: nat, d: nat)
    requires a + b + c + d > 0
    ensures a / 2 + b / 2 + c / 2 + d / 2 < a + b + c + d
  {
  }

  function Mix(hash: u32, word: u32): u32 {
    Xor(hash, word) * PRIME % TWO_32
  }

  // Multiplying with the odd prime modulo 2^32 can be undone.
  lemma {:induction false} ProductInverts(x: u32)
    ensures (x * PRIME % TWO_32) * PRIME_INVERSE % TWO_32 == x
  {
    var q, y := x * 16777619 / TWO_32, x * 16777619 % TWO_32;
    assert 16777619 * 0x359C449B == 0x359C99 * 0x1_0000_0000 + 1;
    DivMod(y * PRIME_INVERSE, TWO_32, 0x359C99 * x - q * 0x359C449B, x);
  }

  /** A mixing step is a bijection in either argument. */
  lemma {:induction false} MixInjective(h1: u32, w1: u32, h2: u32, w2: u32)
    requires Mix(h1, w1) == Mix(h2, w2)
    ensures h1 == h2 <==> w1 == w2
  {
    XorWords(h1, w1);
    XorWords(h2, w2);
    ProductInverts(Xor(h1, w1));
    ProductInverts(Xor(h2, w2));
    XorCancels(h1, w1, h2, w2);
  }

  // The hash of a word list, left to right.
  function Fold(hash: u32, words: seq<u32>): u32
    decreases |words|
  {
    if words == [] then hash else Fold(Mix(hash, words[0]), words[1..])
  }

  lemma {:induction false} FoldAppend(hash: u32, a: seq<u32>, b: seq<u32>)
    ensures Fold(hash, a + b) == Fold(Fold(hash, a), b)
    decreases |a|
  {
    if a == [] {
      assert a + b == b;
    } else {
      assert (a + b)[1..] == a[1..] + b;
      FoldAppend(Mix(hash, a[0]), a[1..], b);
    }
  }

  lemma {:induction false} FoldInjectiveInStart(h1: u32, h2: u32, words: seq<u32>)
    requires Fold(h1, words) == Fold(h2, words)
    ensures h1 == h2
    decreases |words|
  {
    if words != [] {
      FoldInjectiveInStart(Mix(h1, words[0]), Mix(h2, words[0]), words[1..]);
      MixInjective(h1, words[0], h2, words[0]);
    }
  }

  /** Changing exactly one word of a word list always changes its hash. */
  lemma {:induction false} OneWordChangesHash(hash: u32, words: seq<u32>, i: nat, other: u32)
    requires i < |words| && words[i] != other
    ensures Fold(hash, words) != Fold(hash, words[i := other])
  {
    var changed := words[i := other];
    assert words == words[..i] + ([words[i]] + words[i + 1..]);
    assert changed == words[..i] + ([other] + words[i + 1..]);
    FoldAppend(hash, words[..i], [words[i]] + words[i + 1..]);
    FoldAppend(hash, words[..i], [other] + words[i + 1..]);
    var h := Fold(hash, words[..i]);
    if Fold(hash, words) == Fold(hash, changed) {
      FoldInjectiveInStart(Mix(h, words[i]), Mix(h, other), words[i + 1..]);
      MixInjective(h, words[i], h, other);
      assert false;
    }
  }

  /** The bytecode hash, computed by a loop over the dwords. */
  method BytecodeHash(bytecode: seq<u32>) returns (hash: u32)
    ensures hash == Fold(OFFSET_BASIS, bytecode)
  {
    hash := OFFSET_BASIS;
    for i := 0 to |bytecode|
      invariant hash == Fold(OFFSET_BASIS, bytecode[..i])
    {
      FoldAppend(OFFSET_BASIS, bytecode[..i], [bytecode[i]]);
      assert bytecode[..i + 1] == bytecode[..i] + [bytecode[i]];
      XorWords(hash, bytecode[i]);
      hash := Mix(hash, bytecode[i]);
    }
    assert bytecode[..|bytecode|] == bytecode;
  }

  // What the frame hash sees of a frame: the four counters, then each stored command
  // as the list of words that the command hash reads.
  datatype HashedFrame = HashedFrame(frameId: u32, total: u32, stored: u32, dropped: u32,
                                     commands: seq<seq<u32>>)

  function CommandHashes(commands: seq<seq<u32>>): (hashes: seq<u32>)
    ensures |hashes| == |commands|
    ensures forall k :: 0 <= k < |commands| ==> hashes[k] == Fold(OFFSET_BASIS, commands[k])
  {
    seq(|commands|, k requires 0 <= k < |commands| => Fold(OFFSET_BASIS, commands[k]))
  }

  function HashInput(f: HashedFrame): seq<u32> {
    [f.frameId, f.total, f.stored, f.dropped] + CommandHashes(f.commands)
  }

  function FrameHash(f: HashedFrame): u32 {
    Fold(OFFSET_BASIS, HashInput(f))
  }

  lemma {:induction false} FoldLast(words: seq<u32>, i: nat)
    requires i < |words|
    ensures Fold(OFFSET_BASIS, words[..i + 1]) == Mix(Fold(OFFSET_BASIS, words[..i]), words[i])
  {
    assert words[..i + 1] == words[..i] + [words[i]];
    FoldAppend(OFFSET_BASIS, words[..i], [words[i]]);
  }

  /** The frame hash, computed by the backend's loop over the stored commands. */
  method ComputeFrameHash(f: HashedFrame) returns (hash: u32)
    ensures hash == FrameHash(f)
  {
    ghost var all := HashInput(f);
    FoldLast(all, 0);
    FoldLast(all, 1);
    FoldLast(all, 2);
    FoldLast(all, 3);
    hash := Mix(OFFSET_BASIS, f.frameId);
    hash := Mix(hash, f.total);
    hash := Mix(hash, f.stored);
    hash := Mix(hash, f.dropped);
    for i := 0 to |f.commands|
      invariant hash == Fold(OFFSET_BASIS, all[..4 + i])
    {
      var command := BytecodeHash(f.commands[i]);
      FoldLast(all, 4 + i);
      hash := Mix(hash, command);
    }
    assert all[..4 + |f.commands|] == all;
  }

  function WithCommandWord(f: HashedFrame, c: nat, i: nat, other: u32): HashedFrame
    requires c < |f.commands| && i < |f.commands[c]|
  {
    var words: seq<u32> := f.commands[c][i := other];
    f.(commands := f.commands[c := words])
  }

  /** Two frames that differ in exactly one hashed word of one stored command never share
      a replay hash. */
  lemma {:induction false} OneCommandWordChangesFrameHash(f: HashedFrame, c: nat, i: nat, other: u32)
    requires c < |f.commands| && i < |f.commands[c]| && f.commands[c][i] != other
    ensures FrameHash(f) != FrameHash(WithCommandWord(f, c, i, other))
  {
    var g := WithCommandWord(f, c, i, other);
    OneWordChangesHash(OFFSET_BASIS, f.commands[c], i, other);
    var h := Fold(OFFSET_BASIS, g.commands[c]);
    var changed: seq<u32> := HashInput(f)[4 + c := h];
    assert HashInput(g) == changed;
    OneWordChangesHash(OFFSET_BASIS, HashInput(f), 4 + c, h);
  }
}
