module Sequences {

  // The elements of e stand in b at pos.
  ghost predicate Stands<T>(b: seq<T>, pos: nat, e: seq<T>) {
    pos + |e| <= |b| && b[pos..pos + |e|] == e
  }

  lemma {:induction false} StandsParts<T>(b: seq<T>, pos: nat, e: seq<T>, f: seq<T>)
    requires Stands(b, pos, e + f)
    ensures Stands(b, pos, e) && Stands(b, pos + |e|, f)
  {
    assert (e + f)[..|e|] == e && (e + f)[|e|..] == f;
    assert b[pos..pos + |e|] == b[pos..pos + |e| + |f|][..|e|];
    assert b[pos + |e|..pos + |e| + |f|] == b[pos..pos + |e| + |f|][|e|..];
  }

  lemma {:induction false} StandsTogether<T>(b: seq<T>, pos: nat, e: seq<T>, f: seq<T>)
    requires Stands(b, pos, e) && Stands(b, pos + |e|, f)
    ensures Stands(b, pos, e + f)
  {
    assert b[pos..pos + |e| + |f|] == b[pos..pos + |e|] + b[pos + |e|..pos + |e| + |f|];
  }

  lemma {:induction false} StandsAt<T>(b: seq<T>, pos: nat, e: seq<T>, k: nat)
    requires Stands(b, pos, e) && k < |e|
    ensures b[pos + k] == e[k]
  {
    assert b[pos..pos + |e|][k] == e[k];
  }

  lemma {:induction false} StandsInside<T>(before: seq<T>, e: seq<T>, f: seq<T>, after: seq<T>)
    ensures Stands(before + e + f + after, |before|, e + f)
  {
    var b := before + e + f + after;
    assert b == before + (e + f) + after;
  }

  lemma {:induction false} Split1<T>(b: seq<T>, pos: nat, x: T)
    requires Stands(b, pos, [x])
    ensures pos < |b| && b[pos] == x
  {
    StandsAt(b, pos, [x], 0);
  }

  lemma {:induction false} Split3<T>(b: seq<T>, pos: nat, x: T, f: seq<T>, y: T)
    requires Stands(b, pos, [x] + f + [y])
    ensures pos + 2 + |f| <= |b|
    ensures b[pos] == x && Stands(b, pos + 1, f) && b[pos + 1 + |f|] == y
  {
    StandsParts(b, pos, [x] + f, [y]);
    StandsParts(b, pos, [x], f);
    StandsAt(b, pos, [x], 0);
    StandsAt(b, pos + 1 + |f|, [y], 0);
  }

  lemma {:induction false} Split5<T>(b: seq<T>, pos: nat, x: T, f: seq<T>, y: T, g: seq<T>, z: T)
    requires Stands(b, pos, [x] + f + [y] + g + [z])
    ensures pos + 3 + |f| + |g| <= |b|
    ensures b[pos] == x && Stands(b, pos + 1, f) && b[pos + 1 + |f|] == y
    ensures Stands(b, pos + 2 + |f|, g) && b[pos + 2 + |f| + |g|] == z
  {
    StandsParts(b, pos, [x] + f + [y] + g, [z]);
    StandsParts(b, pos, [x] + f + [y], g);
    Split3(b, pos, x, f, y);
    StandsAt(b, pos + 2 + |f| + |g|, [z], 0);
  }
}
