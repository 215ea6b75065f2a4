/** Length-framed byte encodings: a big-endian length of fixed width before each text. */
module Framing {
  newtype Byte = b: int | 0 <= b < 256
  type Bytes = seq<Byte>
  type Digest = Bytes

  /** A hash is any function on bytes; where it matters it is required to be injective. */
  type Hash = Bytes -> Digest

  ghost predicate Injective(h: Hash) {
    forall x: Bytes, y: Bytes :: h(x) == h(y) ==> x == y
  }

  function Power256(width: nat): nat {
    if width == 0 then 1 else 256 * Power256(width - 1)
  }

  /** The low `width` bytes of n, most significant first: larger numbers are truncated. */
  function BigEndian(n: nat, width: nat): (r: Bytes)
    ensures |r| == width
  {
    if width == 0 then [] else BigEndian(n / 256, width - 1) + [(n % 256) as Byte]
  }

  function Frame(x: Bytes, width: nat): Bytes {
    BigEndian(|x|, width) + x
  }

  function Frames(xs: seq<Bytes>, width: nat): Bytes {
    if xs == [] then [] else Frames(xs[..|xs| - 1], width) + Frame(xs[|xs| - 1], width)
  }

  ghost predicate Short(xs: seq<Bytes>, width: nat) {
    forall x <- xs :: |x| < Power256(width)
  }

  lemma {:induction false} BigEndianInjective(m: nat, n: nat, width: nat)
    requires m < Power256(width) && n < Power256(width)
    requires BigEndian(m, width) == BigEndian(n, width)
    ensures m == n
  {
    if width > 0 {
      var a, b := BigEndian(m, width), BigEndian(n, width);
      assert a[..width - 1] == BigEndian(m / 256, width - 1) && b[..width - 1] == BigEndian(n / 256, width - 1);
      assert a[width - 1] == (m % 256) as Byte && b[width - 1] == (n % 256) as Byte;
      BigEndianInjective(m / 256, n / 256, width - 1);
    }
  }

  /** A number of known width followed by anything is read back unambiguously. */
  lemma NumberPrefix(m: nat, n: nat, width: nat, u: Bytes, v: Bytes)
    requires m < Power256(width) && n < Power256(width)
    requires BigEndian(m, width) + u == BigEndian(n, width) + v
    ensures m == n && u == v
  {
    Split(BigEndian(m, width), BigEndian(n, width), u, v);
    BigEndianInjective(m, n, width);
  }

  lemma Split(s: Bytes, t: Bytes, u: Bytes, v: Bytes)
    requires |s| == |t| && s + u == t + v
    ensures s == t && u == v
  {
    assert (s + u)[..|s|] == s && (s + u)[|s|..] == u && (t + v)[..|s|] == t && (t + v)[|s|..] == v;
  }

  lemma Associate(s: Bytes, t: Bytes, u: Bytes)
    ensures (s + t) + u == s + (t + u)
  {
  }

  /** No framed text is a proper prefix of another. */
  lemma FramePrefix(x: Bytes, y: Bytes, width: nat, u: Bytes, v: Bytes)
    requires |x| < Power256(width) && |y| < Power256(width)
    requires Frame(x, width) + u == Frame(y, width) + v
    ensures x == y && u == v
  {
    assert Frame(x, width) + u == BigEndian(|x|, width) + (x + u);
    assert Frame(y, width) + v == BigEndian(|y|, width) + (y + v);
    NumberPrefix(|x|, |y|, width, x + u, y + v);
    Split(x, y, u, v);
  }

  lemma {:induction false} FramesConcat(a: seq<Bytes>, b: seq<Bytes>, width: nat)
    ensures Frames(a + b, width) == Frames(a, width) + Frames(b, width)
  {
    hide Frame;
    if b == [] {
      assert a + b == a;
    } else {
      var n := |b| - 1;
      assert (a + b)[..|a + b| - 1] == a + b[..n];
      FramesConcat(a, b[..n], width);
    }
  }

  lemma FramesFirst(xs: seq<Bytes>, width: nat)
    requires xs != []
    ensures Frames(xs, width) == Frame(xs[0], width) + Frames(xs[1..], width)
  {
    assert xs == [xs[0]] + xs[1..];
    FramesConcat([xs[0]], xs[1..], width);
    assert Frames([xs[0]], width) == Frames([], width) + Frame(xs[0], width);
  }

  /** The framed concatenation determines the list of texts. */
  lemma {:induction false} FramesInjective(xs: seq<Bytes>, ys: seq<Bytes>, width: nat)
    requires Short(xs, width) && Short(ys, width) && width > 0
    requires Frames(xs, width) == Frames(ys, width)
    ensures xs == ys
    decreases |xs|
  {
    if xs == [] || ys == [] {
      if xs != [] { FramesFirst(xs, width); }
      if ys != [] { FramesFirst(ys, width); }
    } else {
      FramesFirst(xs, width);
      FramesFirst(ys, width);
      FramePrefix(xs[0], ys[0], width, Frames(xs[1..], width), Frames(ys[1..], width));
      FramesInjective(xs[1..], ys[1..], width);
      assert xs == [xs[0]] + xs[1..] && ys == [ys[0]] + ys[1..];
    }
  }

  /** As many framed texts as stated, followed by anything, are read back unambiguously. */
  lemma {:induction false} FramesPrefix(xs: seq<Bytes>, ys: seq<Bytes>, width: nat, u: Bytes, v: Bytes)
    requires Short(xs, width) && Short(ys, width) && |xs| == |ys|
    requires Frames(xs, width) + u == Frames(ys, width) + v
    ensures xs == ys && u == v
    decreases |xs|
  {
    if xs == [] {
      assert u == Frames(xs, width) + u && v == Frames(ys, width) + v;
    } else {
      FramesFirst(xs, width);
      FramesFirst(ys, width);
      hide Frame, Frames;
      var restX, restY := Frames(xs[1..], width), Frames(ys[1..], width);
      Associate(Frame(xs[0], width), restX, u);
      Associate(Frame(ys[0], width), restY, v);
      FramePrefix(xs[0], ys[0], width, restX + u, restY + v);
      FramesPrefix(xs[1..], ys[1..], width, u, v);
      assert xs == [xs[0]] + xs[1..] && ys == [ys[0]] + ys[1..];
    }
  }
}
