/** Hashing a message block by block: a fold over the whole blocks of a byte string,
    and what carries over from one block step to all of them. */
module Blocks {
  import opened Words

  // the length of a MurmurHash3 key is an int
  const MAX_LEN := 0x8000_0000

  /** step accepts every block of the given size in every state. */
  ghost predicate Steps<H(!new)>(size: nat, step: (seq<Byte>, H) --> H) {
    size > 0 && forall b, h :: |b| == size ==> step.requires(b, h)
  }

  /** Runs step over the whole size-byte blocks of m, first block first. */
  ghost function Fold<H(!new)>(m: seq<Byte>, size: nat, h: H, step: (seq<Byte>, H) --> H): H
    requires Steps(size, step)
    decreases |m|
  {
    if |m| < size then h else Fold(m[size..], size, step(m[..size], h), step)
  }

  /** For a fixed block, distinct states go to distinct states. */
  ghost predicate InjectiveInState<H(!new)>(size: nat, step: (seq<Byte>, H) --> H)
    requires Steps(size, step)
  {
    forall b, h, g :: |b| == size && step(b, h) == step(b, g) ==> h == g
  }

  /** From a fixed state, distinct blocks go to distinct states. */
  ghost predicate InjectiveInBlock<H(!new)>(size: nat, step: (seq<Byte>, H) --> H)
    requires Steps(size, step)
  {
    forall b, c, h :: |b| == |c| == size && step(b, h) == step(c, h) ==> b == c
  }

  lemma {:induction false} FoldConcat<H(!new)>(a: seq<Byte>, b: seq<Byte>, size: nat, h: H, step: (seq<Byte>, H) --> H)
    requires Steps(size, step) && |a| % size == 0
    ensures Fold(a + b, size, h, step) == Fold(b, size, Fold(a, size, h, step), step)
    decreases |a|
  {
    if |a| < size {
      assert a + b == b;
    } else {
      assert (a + b)[..size] == a[..size] && (a + b)[size..] == a[size..] + b;
      assert |a[size..]| % size == 0 by { LessABlock(|a|, size); }
      FoldConcat(a[size..], b, size, step(a[..size], h), step);
    }
  }

  lemma LessABlock(n: nat, size: nat)
    requires size > 0 && n >= size && n % size == 0
    ensures (n - size) % size == 0
  {
    var t := n / size - 1 - (n - size) / size;
    assert (n - size) % size == size * t;
    assert t >= 1 ==> size * t >= size;
  }

  /** The whole blocks of n bytes and a partial block of r more. */
  lemma WholePart(n: nat, r: nat)
    ensures n % 16 == 0 && r < 16 ==> (n + r) / 16 * 16 == n
    ensures n % 4 == 0 && r < 4 ==> (n + r) / 4 * 4 == n
  {
  }

  /** One more block at the end. */
  lemma FoldNext<H(!new)>(m: seq<Byte>, from: nat, size: nat, h: H, step: (seq<Byte>, H) --> H)
    requires Steps(size, step) && from % size == 0 && from + size <= |m|
    ensures Fold(m[..from + size], size, h, step) == step(m[from..from + size], Fold(m[..from], size, h, step))
  {
    var b := m[from..from + size];
    assert m[..from + size] == m[..from] + b;
    FoldConcat(m[..from], b, size, h, step);
    assert b[..size] == b && b[size..] == [];
    assert forall g :: Fold([], size, g, step) == g;
  }

  lemma FoldOne<H(!new)>(b: seq<Byte>, size: nat, h: H, step: (seq<Byte>, H) --> H)
    requires Steps(size, step) && |b| == size
    ensures Fold(b, size, h, step) == step(b, h)
  {
    assert b[..size] == b && b[size..] == [];
    assert Fold([], size, step(b, h), step) == step(b, h);
  }

  /** Bytes after the last whole block do not count. */
  lemma FoldRemainder<H(!new)>(m: seq<Byte>, from: nat, size: nat, h: H, step: (seq<Byte>, H) --> H)
    requires Steps(size, step) && from % size == 0 && from <= |m| < from + size
    ensures Fold(m, size, h, step) == Fold(m[..from], size, h, step)
  {
    assert m == m[..from] + m[from..];
    FoldConcat(m[..from], m[from..], size, h, step);
  }

  lemma {:induction false} FoldInjective<H(!new)>(m: seq<Byte>, size: nat, h: H, g: H, step: (seq<Byte>, H) --> H)
    requires Steps(size, step) && InjectiveInState(size, step)
    requires Fold(m, size, h, step) == Fold(m, size, g, step)
    ensures h == g
    decreases |m|
  {
    if |m| >= size {
      FoldInjective(m[size..], size, step(m[..size], h), step(m[..size], g), step);
    }
  }

  /** Messages that differ in exactly one block do not meet again. */
  lemma OneBlockApart<H(!new)>(pre: seq<Byte>, b: seq<Byte>, c: seq<Byte>, post: seq<Byte>, size: nat, h: H,
                               step: (seq<Byte>, H) --> H)
    requires Steps(size, step) && InjectiveInState(size, step) && InjectiveInBlock(size, step)
    requires |pre| % size == 0 && |b| == |c| == size && b != c
    ensures Fold(pre + b + post, size, h, step) != Fold(pre + c + post, size, h, step)
  {
    var g := Fold(pre, size, h, step);
    FoldOver(pre, b, post, size, h, step);
    FoldOver(pre, c, post, size, h, step);
    if Fold(post, size, step(b, g), step) == Fold(post, size, step(c, g), step) {
      FoldInjective(post, size, step(b, g), step(c, g), step);
    }
  }

  lemma SameFrom(pre: seq<Byte>, b: seq<Byte>, c: seq<Byte>, post: seq<Byte>, k: nat)
    requires |b| == |c| && |pre| + |b| <= k <= |pre| + |b| + |post|
    ensures (pre + b + post)[k..] == (pre + c + post)[k..]
  {
  }

  lemma FoldOver<H(!new)>(pre: seq<Byte>, b: seq<Byte>, post: seq<Byte>, size: nat, h: H, step: (seq<Byte>, H) --> H)
    requires Steps(size, step) && |pre| % size == 0 && |b| == size
    ensures Fold(pre + b + post, size, h, step) == Fold(post, size, step(b, Fold(pre, size, h, step)), step)
  {
    var rest := b + post;
    assert pre + b + post == pre + rest;
    FoldConcat(pre, rest, size, h, step);
    assert rest[..size] == b && rest[size..] == post;
  }
}
