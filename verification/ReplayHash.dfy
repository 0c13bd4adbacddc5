/**
  The replay hash of a frame: which words of a stored command it reads, in which order.
 */
module ReplayHash {
  import opened Words
  import opened Packets
  import opened Replay
  import opened FrameLayout
  import opened FnvHash

  function Zeros(n: nat): seq<u32> {
    seq(n, _ => 0)
  }

  function RefWords(body: Body, i: nat): seq<u32>
    requires i + 3 <= |body|
  {
    [Low16(body[i]), body[i + 1], body[i + 2]]
  }

  // Word s of each of n consecutive 8-word arrays.
  function Column(body: Body, first: nat, n: nat, s: nat): (c: seq<u32>)
    requires s < STAGES && first + STAGES * n <= |body|
  {
    seq(n, k requires 0 <= k < n => body[first + STAGES * k + s])
  }

  function StageWords(body: Body, s: nat): seq<u32>
    requires |body| == DRAW_WORDS && s < STAGES
  {
    Column(body, TEX_ID, 6, s) + RefWords(body, TEX_DATA + 3 * s) + Column(body, SAMPLERS, 6, s)
  }

  function StagesFrom(body: Body, s: nat): seq<u32>
    requires |body| == DRAW_WORDS && s <= STAGES
    decreases STAGES - s
  {
    if s == STAGES then [] else StageWords(body, s) + StagesFrom(body, s + 1)
  }

  const COMBINER := 146

  function HashedWords(c: Command): seq<u32>
    requires Sized(c)
  {
    match c
    case Draw(body) =>
      [0] + body[..13] + Zeros(14) + body[13..TEX_ID] + StagesFrom(body, 0) + body[COMBINER..CONSTANTS_VS]
      + body[RENDER_STATES..] + RefWords(body, CONSTANTS_VS) + RefWords(body, CONSTANTS_PS)
    case Stretch(rects) =>
      [1] + Zeros(7) + [rects[9], 0] + rects[10..14] + rects[..9] + rects[14..] + Zeros(13 + 15 * STAGES + 13 + 21 + 6)
  }

  function HashedCommands(cmds: seq<Command>): (words: seq<seq<u32>>)
    requires forall k :: 0 <= k < |cmds| ==> Sized(cmds[k])
    ensures |words| == |cmds|
  {
    seq(|cmds|, k requires 0 <= k < |cmds| => HashedWords(cmds[k]))
  }

  function Hashed(f: Frame): HashedFrame
    requires forall k :: 0 <= k < |f.draws| ==> Sized(f.draws[k])
    requires |f.draws| <= MAX_DRAWS
  {
    HashedFrame(f.frameId, f.total, |f.draws|, f.dropped, HashedCommands(f.draws))
  }

  /** Frames with the same id and counters whose stored commands differ in exactly one hashed
      word have different replay hashes. */
  lemma {:induction false} ReplayHashDiffers(f: Frame, g: Frame, c: nat, i: nat)
    requires |f.draws| == |g.draws| <= MAX_DRAWS
    requires forall k :: 0 <= k < |f.draws| ==> Sized(f.draws[k]) && Sized(g.draws[k])
    requires (f.frameId, f.total, f.dropped) == (g.frameId, g.total, g.dropped)
    requires c < |f.draws| && forall k :: 0 <= k < |f.draws| && k != c ==> f.draws[k] == g.draws[k]
    requires var v, w := HashedWords(f.draws[c]), HashedWords(g.draws[c]);
      |v| == |w| && i < |v| && v[i] != w[i] && forall k :: 0 <= k < |v| && k != i ==> v[k] == w[k]
    ensures FrameHash(Hashed(f)) != FrameHash(Hashed(g))
  {
    hide HashedWords, FrameHash, Sized;
    var w := HashedWords(g.draws[c]);
    assert HashedWords(f.draws[c])[i := w[i]] == w;
    OneCommandWordChangesFrameHash(Hashed(f), c, i, w[i]);
    assert Hashed(g).commands == Hashed(f).commands[c := w];
  }
}
