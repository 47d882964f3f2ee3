/**
 * The line converters of video_codec.c (the vc_copyline* family), scalar paths.
 * Each converter reads a source line through a 32-bit word (or byte) pointer and
 * writes whole 32-bit words to the destination, dst_len bytes' worth, rounded up
 * to the converter's output group. The source line is a read-only sequence, the
 * destination an array of words; the byte view is little-endian (Words.Bytes).
 */
module CopyLine {
  import opened Words

  /** How often `while (len >= least) { ...; len -= stride; }` runs. The loops
      `while (dst_len > 0)` are the case least = 1. */
  function Passes(len: int, least: int, stride: nat): (r: nat)
    requires stride > 0
    ensures r == 0 <==> len < least
    decreases if len >= least then len - least + 1 else 0
  {
    if len < least then 0 else 1 + Passes(len - stride, least, stride)
  }

  /** A loop `while (len > 0) len -= stride` runs just often enough to cover len: the
      least count whose strides add up to at least len. */
  lemma {:induction false} PassesCover(len: int, stride: nat)
    requires stride > 0 && len > 0
    ensures len <= Passes(len, 1, stride) * stride < len + stride
    decreases len
  {
    if len > stride {
      PassesCover(len - stride, stride);
    }
  }

  /** Stores a group of words at position d of dst (the `*d++ = ...` statements of one
      loop iteration). */
  method Store<T>(dst: array<T>, d: nat, out: seq<T>)
    requires d + |out| <= dst.Length
    modifies dst
    ensures forall j :: 0 <= j < dst.Length ==>
      dst[j] == if d <= j < d + |out| then out[j - d] else old(dst[j])
  {
    var t := 0;
    while t < |out|
      invariant 0 <= t <= |out|
      invariant forall j :: 0 <= j < dst.Length ==>
        dst[j] == if d <= j < d + t then out[j - d] else old(dst[j])
    {
      dst[d + t] := out[t];
      t := t + 1;
    }
  }

  /** One loop iteration of a converter: convert the k source elements at position s
      with f and store the m results at position d of dst. The words stored are the
      ones `want`, the whole converted line, holds there. */
  method StoreChunk<T(!new)>(dst: array<bv32>, src: seq<T>, f: seq<T> --> seq<bv32>, k: nat, m: nat,
                             ghost i: nat, s: nat, d: nat, ghost len: nat, ghost want: seq<bv32>)
    requires k > 0 && s == i * k && d == i * m && s + k <= len <= |src|
    requires forall c: seq<T> {:trigger f.requires(c)} {:trigger f(c)} :: |c| == k ==> f.requires(c) && |f(c)| == m
    requires want == MapChunks(src[..len], k, f)
    requires d + m <= dst.Length
    modifies dst
    ensures d + m <= |want|
    ensures forall j :: 0 <= j < dst.Length ==>
      dst[j] == if d <= j < d + m then want[j] else old(dst[j])
  {
    var out := f(src[s..s + k]);
    MapChunksAt(src[..len], k, f, m, i, s, d);
    assert src[..len][s..s + k] == src[s..s + k];
    Store(dst, d, out);
  }

  /** On a whole number of strides the loop runs once per stride. */
  lemma {:induction false} PassesExact(n: nat, stride: nat)
    requires stride > 0
    ensures Passes(stride * n, 1, stride) == n
    decreases n
  {
    if n > 0 {
      assert stride * n - stride == stride * (n - 1);
      PassesExact(n - 1, stride);
    }
  }

  /** The loop of the converters that read four words and write three: while
      len >= least, convert the next four source words with f, store the three
      results and take 12 bytes off len. Returns what is left of len and how far the
      source and destination pointers moved; dst holds f of every whole 4-word chunk
      read, followed by its old contents. */
  method CopyFourToThree(dst: array<bv32>, src: seq<bv32>, dstLen: int, least: int,
                         f: seq<bv32> --> seq<bv32>)
    returns (rest: int, s: nat, d: nat)
    requires forall c: seq<bv32> {:trigger f.requires(c)} {:trigger f(c)} ::
      |c| == 4 ==> f.requires(c) && |f(c)| == 3
    requires |src| >= 4 * Passes(dstLen, least, 12)
    requires dst.Length >= 3 * Passes(dstLen, least, 12)
    modifies dst
    ensures s == 4 * Passes(dstLen, least, 12) && d == 3 * Passes(dstLen, least, 12)
    ensures rest == dstLen - 12 * Passes(dstLen, least, 12) && rest < least
    ensures dst[..] == MapChunks(src[..s], 4, f) + old(dst[..])[d..]
  {
    ghost var n := Passes(dstLen, least, 12);
    ghost var want := MapChunks(src[..4 * n], 4, f);
    MapChunksLength(src[..4 * n], 4, f, 3, n);
    rest, s, d := dstLen, 0, 0;
    ghost var i := 0;
    while rest >= least
      invariant i + Passes(rest, least, 12) == n
      invariant rest == dstLen - 12 * i && s == 4 * i && d == 3 * i
      invariant forall j :: 0 <= j < d ==> dst[j] == want[j]
      invariant forall j :: d <= j < dst.Length ==> dst[j] == old(dst[j])
      decreases if rest >= least then rest - least + 1 else 0
    {
      StoreChunk(dst, src, f, 4, 3, i, s, d, 4 * n, want);
      rest, s, d, i := rest - 12, s + 4, d + 3, i + 1;
    }
    assert dst[..] == want + old(dst[..])[d..];
  }

  /** The loop of the converters that turn each word into one word:
      `while (dst_len > 0) { *d++ = f(*s++); dst_len -= 4; }`. */
  method CopyOneToOne(dst: array<bv32>, src: seq<bv32>, dstLen: int, f: seq<bv32> --> seq<bv32>)
    requires forall c: seq<bv32> {:trigger f.requires(c)} {:trigger f(c)} ::
      |c| == 1 ==> f.requires(c) && |f(c)| == 1
    requires |src| >= Passes(dstLen, 1, 4)
    requires dst.Length >= Passes(dstLen, 1, 4)
    modifies dst
    ensures dst[..] == MapChunks(src[..Passes(dstLen, 1, 4)], 1, f) +
                       old(dst[..])[Passes(dstLen, 1, 4)..]
  {
    ghost var n := Passes(dstLen, 1, 4);
    ghost var want := MapChunks(src[..n], 1, f);
    MapChunksLength(src[..n], 1, f, 1, n);
    var len, s := dstLen, 0;
    while len > 0
      invariant s + Passes(len, 1, 4) == n
      invariant forall j :: 0 <= j < s ==> dst[j] == want[j]
      invariant forall j :: s <= j < dst.Length ==> dst[j] == old(dst[j])
      decreases len
    {
      StoreChunk(dst, src, f, 1, 1, s, s, s, n, want);
      len, s := len - 4, s + 1;
    }
    assert dst[..] == want + old(dst[..])[s..];
  }

  /** The loop of the converter that packs three bytes into a word:
      `while (dst_len > 0) { *d++ = f(src[0..3]); src += 3; dst_len -= 4; }`. */
  method CopyThreeToOne(dst: array<bv32>, src: seq<bv8>, dstLen: int, f: seq<bv8> --> seq<bv32>)
    requires forall c: seq<bv8> {:trigger f.requires(c)} {:trigger f(c)} ::
      |c| == 3 ==> f.requires(c) && |f(c)| == 1
    requires |src| >= 3 * Passes(dstLen, 1, 4)
    requires dst.Length >= Passes(dstLen, 1, 4)
    modifies dst
    ensures dst[..] == MapChunks(src[..3 * Passes(dstLen, 1, 4)], 3, f) +
                       old(dst[..])[Passes(dstLen, 1, 4)..]
  {
    ghost var n := Passes(dstLen, 1, 4);
    ghost var want := MapChunks(src[..3 * n], 3, f);
    MapChunksLength(src[..3 * n], 3, f, 1, n);
    var len, s, d := dstLen, 0, 0;
    while len > 0
      invariant d + Passes(len, 1, 4) == n && s == 3 * d
      invariant forall j :: 0 <= j < d ==> dst[j] == want[j]
      invariant forall j :: d <= j < dst.Length ==> dst[j] == old(dst[j])
      decreases len
    {
      StoreChunk(dst, src, f, 3, 1, d, s, d, 3 * n, want);
      len, s, d := len - 4, s + 3, d + 1;
    }
    assert dst[..] == want + old(dst[..])[d..];
  }

  // ---------------------------------------------------------------------------
  // Pixel views shared by several converters

  /** The first three bytes of a word: a pixel's R, G and B without the fourth byte. */
  function DropFourth(c: seq<bv32>): (r: seq<bv8>)
    requires |c| == 1
    ensures r == WordBytes(c[0])[..3]
  {
    var b := WordBytes(c[0]);
    [b[0], b[1], b[2]]
  }

  /** The top eight bits of a 10-bit component. */
  function Top8(x: bv32): (r: bv8)
    requires x < 0x400
    ensures r as bv32 == x >> 2
  {
    (x >> 2) as bv8
  }

  // ---------------------------------------------------------------------------
  // vc_copylineRGBAtoRGB

  /** Four RGBA words packed into three RGB words. */
  function RgbaToRgbGroup(c: seq<bv32>): (r: seq<bv32>)
    requires |c| == 4
    ensures |r| == 3
  {
    [((c[1] & 0xff) << 24) | (c[0] & 0xffffff),
     ((c[2] & 0xffff) << 16) | ((c[1] & 0xffff00) >> 8),
     ((c[3] & 0xffffff) << 8) | ((c[2] & 0xff0000) >> 16)]
  }

  /** The words vc_copylineRGBAtoRGB writes for dst_len bytes. */
  function RgbaToRgbLine(src: seq<bv32>, dstLen: int): (r: seq<bv32>)
    requires |src| >= 4 * Passes(dstLen, 1, 12)
    ensures |r| == 3 * Passes(dstLen, 1, 12)
  {
    var n := Passes(dstLen, 1, 12);
    MapChunksLength(src[..4 * n], 4, RgbaToRgbGroup, 3, n);
    MapChunks(src[..4 * n], 4, RgbaToRgbGroup)
  }

  /** The bytes of the three words of a group, each in terms of the input bytes. */
  lemma RgbaToRgbWords(c: seq<bv32>)
    requires |c| == 4
    ensures var b0, b1 := WordBytes(c[0]), WordBytes(c[1]);
      WordBytes(RgbaToRgbGroup(c)[0]) == [b0[0], b0[1], b0[2], b1[0]]
    ensures var b1, b2 := WordBytes(c[1]), WordBytes(c[2]);
      WordBytes(RgbaToRgbGroup(c)[1]) == [b1[1], b1[2], b2[0], b2[1]]
    ensures var b2, b3 := WordBytes(c[2]), WordBytes(c[3]);
      WordBytes(RgbaToRgbGroup(c)[2]) == [b2[2], b3[0], b3[1], b3[2]]
  {
  }

  /** One group drops the fourth byte of each of its four pixels. */
  lemma RgbaToRgbGroupBytes(c: seq<bv32>)
    requires |c| == 4
    ensures Bytes(RgbaToRgbGroup(c)) == MapChunks(c, 1, DropFourth)
  {
    var g := RgbaToRgbGroup(c);
    var b0, b1, b2, b3 := WordBytes(c[0]), WordBytes(c[1]), WordBytes(c[2]), WordBytes(c[3]);
    calc {
      Bytes(g);
      { assert g == [g[0], g[1], g[2]]; BytesThree(g[0], g[1], g[2]); }
      WordBytes(g[0]) + WordBytes(g[1]) + WordBytes(g[2]);
      { RgbaToRgbWords(c); }
      [b0[0], b0[1], b0[2], b1[0]] + [b1[1], b1[2], b2[0], b2[1]] + [b2[2], b3[0], b3[1], b3[2]];
      { FoursAsThrees(DropFourth([c[0]]), DropFourth([c[1]]), DropFourth([c[2]]), DropFourth([c[3]])); }
      DropFourth([c[0]]) + DropFourth([c[1]]) + DropFourth([c[2]]) + DropFourth([c[3]]);
      { MapOneFour(c, DropFourth); }
      MapChunks(c, 1, DropFourth);
    }
  }

  /** vc_copylineRGBAtoRGB turns an RGBA line into the RGB line with every fourth byte
      left out. */
  lemma RgbaToRgbLineBytes(src: seq<bv32>, dstLen: int)
    requires |src| >= 4 * Passes(dstLen, 1, 12)
    ensures Bytes(RgbaToRgbLine(src, dstLen)) ==
            MapChunks(src[..4 * Passes(dstLen, 1, 12)], 1, DropFourth)
  {
    forall c: seq<bv32> | |c| == 4
      ensures Bytes(RgbaToRgbGroup(c)) == MapChunks(c, 1, DropFourth)
    {
      RgbaToRgbGroupBytes(c);
    }
    var n := Passes(dstLen, 1, 12);
    Recode(src[..4 * n], 4, RgbaToRgbGroup, 1, 4, DropFourth, n);
  }

  /** vc_copylineRGBAtoRGB. */
  method CopyLineRgbaToRgb(dst: array<bv32>, src: seq<bv32>, dstLen: int)
    requires |src| >= 4 * Passes(dstLen, 1, 12)
    requires dst.Length >= 3 * Passes(dstLen, 1, 12)
    modifies dst
    ensures dst[..] == RgbaToRgbLine(src, dstLen) + old(dst[..])[3 * Passes(dstLen, 1, 12)..]
  {
    var _, _, _ := CopyFourToThree(dst, src, dstLen, 1, RgbaToRgbGroup);
  }

  // ---------------------------------------------------------------------------
  // vc_copylinev210: 10-bit 4:2:2 words (three 10-bit components a, b, c at bits
  // 0-9, 10-19 and 20-29) down to their top eight bits, three bytes per word.

  function V210A(w: bv32): (r: bv32) ensures r < 0x400 { w & 0x3FF }
  function V210B(w: bv32): (r: bv32) ensures r < 0x400 { (w >> 10) & 0x3FF }
  function V210C(w: bv32): (r: bv32) ensures r < 0x400 { (w >> 20) & 0x3FF }

  /** The three 8-bit components a v210 word carries. */
  function V210Pixel(c: seq<bv32>): (r: seq<bv8>)
    requires |c| == 1
    ensures |r| == 3
  {
    [Top8(V210A(c[0])), Top8(V210B(c[0])), Top8(V210C(c[0]))]
  }

  /** First output word of a group: a, b, c of s0 and a of s1. */
  function V210Word0(s0: bv32, s1: bv32): bv32
  {
    (V210A(s0) >> 2) | ((V210B(s0) >> 2) << 8) | ((V210C(s0) >> 2) << 16) | ((V210A(s1) >> 2) << 24)
  }

  /** Second output word of a group: b, c of s1 and a, b of s2. */
  function V210Word1(s1: bv32, s2: bv32): bv32
  {
    (V210B(s1) >> 2) | ((V210C(s1) >> 2) << 8) | ((V210A(s2) >> 2) << 16) | ((V210B(s2) >> 2) << 24)
  }

  /** Third output word of a group: c of s2 and a, b, c of s3. */
  function V210Word2(s2: bv32, s3: bv32): bv32
  {
    (V210C(s2) >> 2) | ((V210A(s3) >> 2) << 8) | ((V210B(s3) >> 2) << 16) | ((V210C(s3) >> 2) << 24)
  }

  /** One pass of the main loop: four v210 words to three words of 8-bit components. */
  function V210Group(c: seq<bv32>): (r: seq<bv32>)
    requires |c| == 4
    ensures |r| == 3
  {
    [V210Word0(c[0], c[1]), V210Word1(c[1], c[2]), V210Word2(c[2], c[3])]
  }

  /** The words the two trailing `if`s write for what is left of dst_len. */
  function V210Tail(t: seq<bv32>, rest: int): (r: seq<bv32>)
    requires |t| >= V210TailReads(rest)
    ensures |r| == V210TailWrites(rest)
  {
    if rest >= 8 then [V210Word0(t[0], t[1]), V210Word1(t[1], t[2])]
    else if rest >= 4 then [V210Word0(t[0], t[1])]
    else []
  }

  /** Source words the tail reads. */
  function V210TailReads(rest: int): nat
  {
    if rest >= 8 then 3 else if rest >= 4 then 2 else 0
  }

  /** Destination words the tail writes. */
  function V210TailWrites(rest: int): nat
  {
    if rest >= 8 then 2 else if rest >= 4 then 1 else 0
  }

  /** What is left of dst_len when the main loop ends. */
  function V210Rest(dstLen: int): int
  {
    dstLen - 12 * Passes(dstLen, 12, 12)
  }

  /** Source words vc_copylinev210 reads. */
  function V210Reads(dstLen: int): nat
  {
    4 * Passes(dstLen, 12, 12) + V210TailReads(V210Rest(dstLen))
  }

  /** Destination words vc_copylinev210 writes. */
  function V210Writes(dstLen: int): nat
  {
    3 * Passes(dstLen, 12, 12) + V210TailWrites(V210Rest(dstLen))
  }

  /** vc_copylinev210 writes the whole words that fit in dst_len bytes, and nothing
      for a negative length. */
  lemma {:induction false} V210WritesWhole(dstLen: int)
    ensures V210Writes(dstLen) == if dstLen > 0 then dstLen / 4 else 0
    decreases if dstLen > 0 then dstLen else 0
  {
    if dstLen >= 12 {
      V210WritesWhole(dstLen - 12);
    }
  }

  /** The words vc_copylinev210 writes. */
  function V210Line(src: seq<bv32>, dstLen: int): (r: seq<bv32>)
    requires |src| >= V210Reads(dstLen)
    ensures |r| == V210Writes(dstLen)
  {
    var n := Passes(dstLen, 12, 12);
    MapChunksLength(src[..4 * n], 4, V210Group, 3, n);
    MapChunks(src[..4 * n], 4, V210Group) + V210Tail(src[4 * n..], V210Rest(dstLen))
  }

  /** The bytes of a group's first word: the components of s0 and the first of s1. */
  lemma V210Word0Bytes(s0: bv32, s1: bv32)
    ensures var p0, p1 := V210Pixel([s0]), V210Pixel([s1]);
      WordBytes(V210Word0(s0, s1)) == [p0[0], p0[1], p0[2], p1[0]]
  {
  }

  /** The bytes of a group's second word: the last two components of s1, the first
      two of s2. */
  lemma V210Word1Bytes(s1: bv32, s2: bv32)
    ensures var p1, p2 := V210Pixel([s1]), V210Pixel([s2]);
      WordBytes(V210Word1(s1, s2)) == [p1[1], p1[2], p2[0], p2[1]]
  {
  }

  /** The bytes of a group's third word: the last component of s2 and those of s3. */
  lemma V210Word2Bytes(s2: bv32, s3: bv32)
    ensures var p2, p3 := V210Pixel([s2]), V210Pixel([s3]);
      WordBytes(V210Word2(s2, s3)) == [p2[2], p3[0], p3[1], p3[2]]
  {
  }

  /** A group's words carry the 8-bit components of its four pixels in order. */
  lemma V210GroupBytes(c: seq<bv32>)
    requires |c| == 4
    ensures Bytes(V210Group(c)) == MapChunks(c, 1, V210Pixel)
  {
    var g := V210Group(c);
    var p0, p1, p2, p3 := V210Pixel([c[0]]), V210Pixel([c[1]]), V210Pixel([c[2]]), V210Pixel([c[3]]);
    calc {
      Bytes(g);
      { BytesThree(g[0], g[1], g[2]); }
      WordBytes(g[0]) + WordBytes(g[1]) + WordBytes(g[2]);
      { V210Word0Bytes(c[0], c[1]); V210Word1Bytes(c[1], c[2]); V210Word2Bytes(c[2], c[3]); }
      [p0[0], p0[1], p0[2], p1[0]] + [p1[1], p1[2], p2[0], p2[1]] + [p2[2], p3[0], p3[1], p3[2]];
      { FoursAsThrees(p0, p1, p2, p3); }
      p0 + p1 + p2 + p3;
      { MapOneFour(c, V210Pixel); }
      MapChunks(c, 1, V210Pixel);
    }
  }

  /** The main loop's words carry the components of the pixels it reads. */
  lemma V210GroupsBytes(head: seq<bv32>, n: nat)
    requires |head| == 4 * n
    ensures Bytes(MapChunks(head, 4, V210Group)) == MapChunks(head, 1, V210Pixel)
    ensures |MapChunks(head, 1, V210Pixel)| == 4 * (3 * n)
  {
    forall c: seq<bv32> | |c| == 4
      ensures Bytes(V210Group(c)) == MapChunks(c, 1, V210Pixel)
    {
      V210GroupBytes(c);
    }
    Recode(head, 4, V210Group, 1, 4, V210Pixel, n);
    MapChunksLength(head, 1, V210Pixel, 3, 4 * n);
  }

  /** The tail's words carry the components of the pixels it reads, cut at a word. */
  lemma V210TailBytes(t: seq<bv32>, rest: int)
    requires |t| == V210TailReads(rest)
    ensures 4 * V210TailWrites(rest) <= |MapChunks(t, 1, V210Pixel)|
    ensures Bytes(V210Tail(t, rest)) == MapChunks(t, 1, V210Pixel)[..4 * V210TailWrites(rest)]
  {
    MapChunksLength(t, 1, V210Pixel, 3, |t|);
    var w := V210Tail(t, rest);
    if rest >= 8 {
      MapOneThree(t, V210Pixel);
      V210Word0Bytes(t[0], t[1]);
      V210Word1Bytes(t[1], t[2]);
      TwoWords(w);
    } else if rest >= 4 {
      MapOneTwo(t, V210Pixel);
      V210Word0Bytes(t[0], t[1]);
      MapChunksSingle(w, 1, WordChunkBytes);
    }
  }

  /** vc_copylinev210 writes the 8-bit components of the source pixels in order, as
      many as fit in the words it writes. */
  lemma V210LineBytes(src: seq<bv32>, dstLen: int)
    requires |src| >= V210Reads(dstLen)
    ensures 4 * V210Writes(dstLen) <= |MapChunks(src[..V210Reads(dstLen)], 1, V210Pixel)|
    ensures Bytes(V210Line(src, dstLen)) ==
            MapChunks(src[..V210Reads(dstLen)], 1, V210Pixel)[..4 * V210Writes(dstLen)]
  {
    var n, rest := Passes(dstLen, 12, 12), V210Rest(dstLen);
    var head, tr := src[..4 * n], src[4 * n..V210Reads(dstLen)];
    assert src[..V210Reads(dstLen)] == head + tr;
    assert V210Tail(src[4 * n..], rest) == V210Tail(tr, rest);
    var a, b := MapChunks(head, 1, V210Pixel), MapChunks(tr, 1, V210Pixel);
    V210GroupsBytes(head, n);
    V210TailBytes(tr, rest);
    MapChunksAppend(head, tr, 1, 4 * n, V210Pixel);
    BytesAppend(MapChunks(head, 4, V210Group), V210Tail(tr, rest));
    assert (a + b)[..4 * V210Writes(dstLen)] == a + b[..4 * V210TailWrites(rest)];
  }

  /** The bytes of two words. */
  lemma TwoWords(ws: seq<bv32>)
    requires |ws| == 2
    ensures Bytes(ws) == WordBytes(ws[0]) + WordBytes(ws[1])
  {
    MapOneTwo(ws, WordChunkBytes);
  }

  /** A sequence is its three pieces laid end to end. */
  lemma SplitThree<X>(a: seq<X>, i: nat, j: nat)
    requires i <= j <= |a|
    ensures a == a[..i] + a[i..j] + a[j..]
  {
  }

  /** vc_copylinev210. */
  method CopyLineV210(dst: array<bv32>, src: seq<bv32>, dstLen: int)
    requires |src| >= V210Reads(dstLen)
    requires dst.Length >= V210Writes(dstLen)
    modifies dst
    ensures dst[..] == V210Line(src, dstLen) + old(dst[..])[V210Writes(dstLen)..]
  {
    var rest, s, d := CopyFourToThree(dst, src, dstLen, 12, V210Group);
    ghost var d0, groups, tail := d, dst[..d], V210Tail(src[s..], rest);
    assert V210Line(src, dstLen) == groups + tail;
    if rest >= 4 {
      dst[d] := V210Word0(src[s], src[s + 1]);
      s, d := s + 1, d + 1;
    }
    if rest >= 8 {
      dst[d] := V210Word1(src[s], src[s + 1]);
    }
    ghost var after := dst[..];
    assert after[..d0] == groups;
    assert after[d0..d0 + |tail|] == tail;
    assert after[d0 + |tail|..] == old(dst[..])[d0 + |tail|..];
    SplitThree(after, d0, d0 + |tail|);
  }

  // ---------------------------------------------------------------------------
  // vc_copylineYUYV (scalar branch): swaps the two bytes of each 16-bit half.

  /** One output word of the scalar loop. */
  function YuyvWord(w: bv32): bv32
  {
    ((w & 0x00ff0000) << 8) | ((w & 0xff000000) >> 8) | ((w & 0x000000ff) << 8) | ((w & 0x0000ff00) >> 8)
  }

  function YuyvChunk(c: seq<bv32>): (r: seq<bv32>)
    requires |c| == 1
    ensures |r| == 1
  {
    [YuyvWord(c[0])]
  }

  /** The words the scalar loop writes over a line of words. */
  function YuyvLine(ws: seq<bv32>): (r: seq<bv32>)
    ensures |r| == |ws|
  {
    MapChunksLength(ws, 1, YuyvChunk, 1, |ws|);
    MapChunks(ws, 1, YuyvChunk)
  }

  /** The scalar loop's end pointer: dst + dst_len / 4 (C division), so a line of
      a negative length writes nothing. */
  function YuyvWrites(dstLen: int): nat
  {
    if dstLen > 0 then dstLen / 4 else 0
  }

  /** Each output word holds the bytes of its input word with the two bytes of each
      16-bit half swapped. */
  lemma YuyvWordBytes(w: bv32)
    ensures var b := WordBytes(w); WordBytes(YuyvWord(w)) == [b[1], b[0], b[3], b[2]]
  {
  }

  /** Swapping twice restores the word. */
  lemma YuyvWordTwice(w: bv32)
    ensures YuyvWord(YuyvWord(w)) == w
  {
  }

  /** Within each word of the line, the output swaps bytes 0 and 1 and bytes 2 and 3
      of the input. */
  lemma YuyvLineBytes(ws: seq<bv32>, i: nat, j: nat)
    requires i < |ws| && j < 4
    ensures |Bytes(YuyvLine(ws))| == |Bytes(ws)| == 4 * |ws|
    ensures Bytes(YuyvLine(ws))[4 * i + j] == Bytes(ws)[4 * i + YuyvPartner(j)]
  {
    BytesOfWord(YuyvLine(ws), i, j);
    BytesOfWord(ws, i, YuyvPartner(j));
    MapOneAt(ws, YuyvChunk, i);
    YuyvWordBytes(ws[i]);
  }

  /** The byte a YUYV output byte comes from, within its word. */
  function YuyvPartner(j: nat): (r: nat)
    requires j < 4
    ensures r < 4 && r != j && r / 2 == j / 2
  {
    if j % 2 == 0 then j + 1 else j - 1
  }

  /** Converting a converted line restores it. */
  lemma YuyvLineTwice(ws: seq<bv32>)
    ensures YuyvLine(YuyvLine(ws)) == ws
  {
    forall i | 0 <= i < |ws|
      ensures YuyvLine(YuyvLine(ws))[i] == ws[i]
    {
      MapOneAt(ws, YuyvChunk, i);
      MapOneAt(YuyvLine(ws), YuyvChunk, i);
      YuyvWordTwice(ws[i]);
    }
  }

  /** vc_copylineYUYV, scalar branch. */
  method CopyLineYuyv(dst: array<bv32>, src: seq<bv32>, dstLen: int)
    requires dstLen % 4 == 0
    requires |src| >= YuyvWrites(dstLen) && dst.Length >= YuyvWrites(dstLen)
    modifies dst
    ensures dst[..] == YuyvLine(src[..YuyvWrites(dstLen)]) + old(dst[..])[YuyvWrites(dstLen)..]
  {
    var end := if dstLen > 0 then dstLen / 4 else 0;
    ghost var want := MapChunks(src[..end], 1, YuyvChunk);
    MapChunksLength(src[..end], 1, YuyvChunk, 1, end);
    var d := 0;
    while d < end
      invariant d <= end
      invariant forall j :: 0 <= j < d ==> dst[j] == want[j]
      invariant forall j :: d <= j < dst.Length ==> dst[j] == old(dst[j])
    {
      StoreChunk(dst, src, YuyvChunk, 1, 1, d, d, d, end, want);
      d := d + 1;
    }
    assert dst[..] == want + old(dst[..])[d..];
  }

  // ---------------------------------------------------------------------------
  // vc_copylineRGBtoRGBA: three bytes r, g, b into one word at caller-given shifts.

  /** The word stored for one pixel. */
  function PackRgb(c: seq<bv8>, rshift: nat, gshift: nat, bshift: nat): bv32
    requires |c| == 3 && rshift < 32 && gshift < 32 && bshift < 32
  {
    ((c[0] as bv32) << rshift) | ((c[1] as bv32) << gshift) | ((c[2] as bv32) << bshift)
  }

  /** The loop body as a function of the three source bytes. */
  function RgbToRgbaGroup(rshift: nat, gshift: nat, bshift: nat): seq<bv8> --> seq<bv32>
    requires rshift < 32 && gshift < 32 && bshift < 32
  {
    c requires |c| == 3 => [PackRgb(c, rshift, gshift, bshift)]
  }

  /** The words vc_copylineRGBtoRGBA writes. */
  function RgbToRgbaLine(src: seq<bv8>, dstLen: int, rshift: nat, gshift: nat, bshift: nat): (r: seq<bv32>)
    requires rshift < 32 && gshift < 32 && bshift < 32
    requires |src| >= 3 * Passes(dstLen, 1, 4)
    ensures |r| == Passes(dstLen, 1, 4)
  {
    var n := Passes(dstLen, 1, 4);
    MapChunksLength(src[..3 * n], 3, RgbToRgbaGroup(rshift, gshift, bshift), 1, n);
    MapChunks(src[..3 * n], 3, RgbToRgbaGroup(rshift, gshift, bshift))
  }

  /** A pixel with a zero fourth byte. */
  function PadPixel(c: seq<bv8>): (r: seq<bv8>)
    requires |c| == 3
    ensures |r| == 4 && r[..3] == c && r[3] == 0
  {
    c + [0]
  }

  /** With shifts 0, 8 and 16 a pixel is stored as its r, g, b bytes and a zero. */
  lemma PackRgbBytes(c: seq<bv8>)
    requires |c| == 3
    ensures WordBytes(PackRgb(c, 0, 8, 16)) == PadPixel(c)
  {
  }

  /** With shifts 0, 8 and 16, vc_copylineRGBtoRGBA writes each source pixel followed
      by a zero byte. */
  lemma RgbToRgbaLineBytes(src: seq<bv8>, dstLen: int)
    requires |src| >= 3 * Passes(dstLen, 1, 4)
    ensures Bytes(RgbToRgbaLine(src, dstLen, 0, 8, 16)) ==
            MapChunks(src[..3 * Passes(dstLen, 1, 4)], 3, PadPixel)
  {
    var f := RgbToRgbaGroup(0, 8, 16);
    forall c: seq<bv8> | |c| == 3
      ensures Bytes(f(c)) == MapChunks(c, 3, PadPixel)
    {
      PackRgbBytes(c);
      MapChunksSingle(f(c), 1, WordChunkBytes);
      MapChunksSingle(c, 3, PadPixel);
    }
    var n := Passes(dstLen, 1, 4);
    Recode(src[..3 * n], 3, f, 3, 1, PadPixel, n);
  }

  /** vc_copylineRGBtoRGBA. */
  method CopyLineRgbToRgba(dst: array<bv32>, src: seq<bv8>, dstLen: int, rshift: nat, gshift: nat, bshift: nat)
    requires rshift < 32 && gshift < 32 && bshift < 32
    requires |src| >= 3 * Passes(dstLen, 1, 4)
    requires dst.Length >= Passes(dstLen, 1, 4)
    modifies dst
    ensures dst[..] == RgbToRgbaLine(src, dstLen, rshift, gshift, bshift) +
                       old(dst[..])[Passes(dstLen, 1, 4)..]
  {
    CopyThreeToOne(dst, src, dstLen, RgbToRgbaGroup(rshift, gshift, bshift));
  }

  // ---------------------------------------------------------------------------
  // DPX 10-bit RGB words: R at bits 22-31, G at bits 12-21, B at bits 2-11.

  function DpxR(w: bv32): (r: bv32) ensures r < 0x400 { w >> 22 }
  function DpxG(w: bv32): (r: bv32) ensures r < 0x400 { (w >> 12) & 0x3FF }
  function DpxB(w: bv32): (r: bv32) ensures r < 0x400 { (w >> 2) & 0x3FF }

  /** The 8-bit R, G and B of a DPX word: the top eight bits of each component. */
  function DpxPixel(c: seq<bv32>): (r: seq<bv8>)
    requires |c| == 1
    ensures |r| == 3
  {
    [Top8(DpxR(c[0])), Top8(DpxG(c[0])), Top8(DpxB(c[0]))]
  }

  /** r, g and b as both DPX converters extract them from a word. */
  function DpxRed(val: bv32): bv32 { val >> 24 }
  function DpxGreen(val: bv32): bv32 { 0xff & (val >> 14) }
  function DpxBlue(val: bv32): bv32 { 0xff & (val >> 4) }

  /** The shifts and masks pick the top eight bits of each 10-bit component. */
  lemma DpxComponents(val: bv32)
    ensures DpxRed(val) == DpxR(val) >> 2 && DpxGreen(val) == DpxG(val) >> 2 && DpxBlue(val) == DpxB(val) >> 2
  {
  }

  /** A DPX pixel as the converters' r, g and b. */
  lemma DpxPixelComponents(val: bv32)
    ensures DpxPixel([val]) == [DpxRed(val) as bv8, DpxGreen(val) as bv8, DpxBlue(val) as bv8]
  {
    DpxComponents(val);
  }

  // ---------------------------------------------------------------------------
  // vc_copylineDPX10toRGBA

  /** The word stored for one DPX word. */
  function DpxPack(val: bv32, rshift: nat, gshift: nat, bshift: nat): bv32
    requires rshift < 32 && gshift < 32 && bshift < 32
  {
    (DpxRed(val) << rshift) | (DpxGreen(val) << gshift) | (DpxBlue(val) << bshift)
  }

  /** The loop body as a function of one source word. */
  function DpxToRgbaGroup(rshift: nat, gshift: nat, bshift: nat): seq<bv32> --> seq<bv32>
    requires rshift < 32 && gshift < 32 && bshift < 32
  {
    c requires |c| == 1 => [DpxPack(c[0], rshift, gshift, bshift)]
  }

  /** The words vc_copylineDPX10toRGBA writes. */
  function DpxToRgbaLine(src: seq<bv32>, dstLen: int, rshift: nat, gshift: nat, bshift: nat): (r: seq<bv32>)
    requires rshift < 32 && gshift < 32 && bshift < 32
    requires |src| >= Passes(dstLen, 1, 4)
    ensures |r| == Passes(dstLen, 1, 4)
  {
    var n := Passes(dstLen, 1, 4);
    MapChunksLength(src[..n], 1, DpxToRgbaGroup(rshift, gshift, bshift), 1, n);
    MapChunks(src[..n], 1, DpxToRgbaGroup(rshift, gshift, bshift))
  }

  /** A DPX pixel as 8-bit R, G, B and a zero byte. */
  function DpxPaddedPixel(c: seq<bv32>): (r: seq<bv8>)
    requires |c| == 1
    ensures r == DpxPixel(c) + [0]
  {
    PadPixel(DpxPixel(c))
  }

  /** With shifts 0, 8 and 16 a DPX word is stored as its 8-bit R, G, B and a zero. */
  lemma DpxPackBytes(val: bv32)
    ensures WordBytes(DpxPack(val, 0, 8, 16)) == DpxPaddedPixel([val])
  {
    DpxPixelComponents(val);
  }

  /** With shifts 0, 8 and 16, vc_copylineDPX10toRGBA writes the 8-bit R, G, B of
      each source word followed by a zero byte. */
  lemma DpxToRgbaLineBytes(src: seq<bv32>, dstLen: int)
    requires |src| >= Passes(dstLen, 1, 4)
    ensures Bytes(DpxToRgbaLine(src, dstLen, 0, 8, 16)) ==
            MapChunks(src[..Passes(dstLen, 1, 4)], 1, DpxPaddedPixel)
  {
    var f := DpxToRgbaGroup(0, 8, 16);
    forall c: seq<bv32> | |c| == 1
      ensures Bytes(f(c)) == MapChunks(c, 1, DpxPaddedPixel)
    {
      assert c == [c[0]];
      DpxPackBytes(c[0]);
      MapChunksSingle(f(c), 1, WordChunkBytes);
      MapChunksSingle(c, 1, DpxPaddedPixel);
    }
    var n := Passes(dstLen, 1, 4);
    Recode(src[..n], 1, f, 1, 1, DpxPaddedPixel, n);
  }

  /** vc_copylineDPX10toRGBA. */
  method CopyLineDpxToRgba(dst: array<bv32>, src: seq<bv32>, dstLen: int, rshift: nat, gshift: nat, bshift: nat)
    requires rshift < 32 && gshift < 32 && bshift < 32
    requires |src| >= Passes(dstLen, 1, 4)
    requires dst.Length >= Passes(dstLen, 1, 4)
    modifies dst
    ensures dst[..] == DpxToRgbaLine(src, dstLen, rshift, gshift, bshift) +
                       old(dst[..])[Passes(dstLen, 1, 4)..]
  {
    CopyOneToOne(dst, src, dstLen, DpxToRgbaGroup(rshift, gshift, bshift));
  }

  // ---------------------------------------------------------------------------
  // vc_copylineDPX10toRGB

  /** First word of a group: r, g, b of the first pixel and r of the second. */
  function DpxToRgbWord0(v1: bv32, v2: bv32): bv32
  {
    DpxRed(v1) | (DpxGreen(v1) << 8) | (DpxBlue(v1) << 16) | (DpxRed(v2) << 24)
  }

  /** Second word of a group: g, b of the second pixel and r, g of the third. */
  function DpxToRgbWord1(v2: bv32, v3: bv32): bv32
  {
    DpxGreen(v2) | (DpxBlue(v2) << 8) | (DpxRed(v3) << 16) | (DpxGreen(v3) << 24)
  }

  /** Third word of a group: b of the third pixel and r, g, b of the fourth. */
  function DpxToRgbWord2(v3: bv32, v4: bv32): bv32
  {
    DpxBlue(v3) | (DpxRed(v4) << 8) | (DpxGreen(v4) << 16) | (DpxBlue(v4) << 24)
  }

  /** Four DPX words packed into three words of 8-bit R, G, B. */
  function DpxToRgbGroup(c: seq<bv32>): (r: seq<bv32>)
    requires |c| == 4
    ensures |r| == 3
  {
    [DpxToRgbWord0(c[0], c[1]), DpxToRgbWord1(c[1], c[2]), DpxToRgbWord2(c[2], c[3])]
  }

  /** The words vc_copylineDPX10toRGB writes. */
  function DpxToRgbLine(src: seq<bv32>, dstLen: int): (r: seq<bv32>)
    requires |src| >= 4 * Passes(dstLen, 1, 12)
    ensures |r| == 3 * Passes(dstLen, 1, 12)
  {
    var n := Passes(dstLen, 1, 12);
    MapChunksLength(src[..4 * n], 4, DpxToRgbGroup, 3, n);
    MapChunks(src[..4 * n], 4, DpxToRgbGroup)
  }

  /** The bytes of the first word of a group. */
  lemma DpxToRgbWord0Bytes(v1: bv32, v2: bv32)
    ensures var p1, p2 := DpxPixel([v1]), DpxPixel([v2]);
      WordBytes(DpxToRgbWord0(v1, v2)) == [p1[0], p1[1], p1[2], p2[0]]
  {
    DpxPixelComponents(v1);
    DpxPixelComponents(v2);
  }

  /** The bytes of the second word of a group. */
  lemma DpxToRgbWord1Bytes(v2: bv32, v3: bv32)
    ensures var p2, p3 := DpxPixel([v2]), DpxPixel([v3]);
      WordBytes(DpxToRgbWord1(v2, v3)) == [p2[1], p2[2], p3[0], p3[1]]
  {
    DpxPixelComponents(v2);
    DpxPixelComponents(v3);
  }

  /** The bytes of the third word of a group. */
  lemma DpxToRgbWord2Bytes(v3: bv32, v4: bv32)
    ensures var p3, p4 := DpxPixel([v3]), DpxPixel([v4]);
      WordBytes(DpxToRgbWord2(v3, v4)) == [p3[2], p4[0], p4[1], p4[2]]
  {
    DpxPixelComponents(v3);
    DpxPixelComponents(v4);
  }

  /** A group's words carry the 8-bit R, G, B of its four pixels in order. */
  lemma DpxToRgbGroupBytes(c: seq<bv32>)
    requires |c| == 4
    ensures Bytes(DpxToRgbGroup(c)) == MapChunks(c, 1, DpxPixel)
  {
    var g := DpxToRgbGroup(c);
    var p0, p1, p2, p3 := DpxPixel([c[0]]), DpxPixel([c[1]]), DpxPixel([c[2]]), DpxPixel([c[3]]);
    calc {
      Bytes(g);
      { BytesThree(g[0], g[1], g[2]); }
      WordBytes(g[0]) + WordBytes(g[1]) + WordBytes(g[2]);
      { DpxToRgbWord0Bytes(c[0], c[1]); DpxToRgbWord1Bytes(c[1], c[2]); DpxToRgbWord2Bytes(c[2], c[3]); }
      [p0[0], p0[1], p0[2], p1[0]] + [p1[1], p1[2], p2[0], p2[1]] + [p2[2], p3[0], p3[1], p3[2]];
      { FoursAsThrees(p0, p1, p2, p3); }
      p0 + p1 + p2 + p3;
      { MapOneFour(c, DpxPixel); }
      MapChunks(c, 1, DpxPixel);
    }
  }

  /** vc_copylineDPX10toRGB writes the 8-bit R, G, B of each source word, packed. */
  lemma DpxToRgbLineBytes(src: seq<bv32>, dstLen: int)
    requires |src| >= 4 * Passes(dstLen, 1, 12)
    ensures Bytes(DpxToRgbLine(src, dstLen)) ==
            MapChunks(src[..4 * Passes(dstLen, 1, 12)], 1, DpxPixel)
  {
    forall c: seq<bv32> | |c| == 4
      ensures Bytes(DpxToRgbGroup(c)) == MapChunks(c, 1, DpxPixel)
    {
      DpxToRgbGroupBytes(c);
    }
    var n := Passes(dstLen, 1, 12);
    Recode(src[..4 * n], 4, DpxToRgbGroup, 1, 4, DpxPixel, n);
  }

  /** vc_copylineDPX10toRGB. */
  method CopyLineDpxToRgb(dst: array<bv32>, src: seq<bv32>, dstLen: int)
    requires |src| >= 4 * Passes(dstLen, 1, 12)
    requires dst.Length >= 3 * Passes(dstLen, 1, 12)
    modifies dst
    ensures dst[..] == DpxToRgbLine(src, dstLen) + old(dst[..])[3 * Passes(dstLen, 1, 12)..]
  {
    var _, _, _ := CopyFourToThree(dst, src, dstLen, 1, DpxToRgbGroup);
  }

  // ---------------------------------------------------------------------------
  // vc_copylineDVS10toV210: a DVS10 word carries the top eight bits of three 10-bit
  // components in bytes 0-2 and their two low bits each in byte 3 (bits 0-1, 2-3
  // and 4-5); the converter rebuilds the v210 word with a, b, c at bits 0-9, 10-19
  // and 20-29.

  /** One output word. */
  function Dvs10Word(w: bv32): bv32
  {
    var b0 := ((w >> 24) * 0x00010101) & 0x00300c03;
    var a1 := w << 2;
    var b1 := b0 | (a1 & (0xff << 2));
    var a2 := a1 << 2;
    var b2 := b1 | (a2 & (0xff00 << 4));
    var a3 := a2 << 2;
    b2 | (a3 & (0xff0000 << 6))
  }

  function Dvs10Chunk(c: seq<bv32>): (r: seq<bv32>)
    requires |c| == 1
    ensures |r| == 1
  {
    [Dvs10Word(c[0])]
  }

  /** The words vc_copylineDVS10toV210 writes. */
  function Dvs10Line(src: seq<bv32>, dstLen: int): (r: seq<bv32>)
    requires |src| >= Passes(dstLen, 1, 4)
    ensures |r| == Passes(dstLen, 1, 4)
  {
    var n := Passes(dstLen, 1, 4);
    MapChunksLength(src[..n], 1, Dvs10Chunk, 1, n);
    MapChunks(src[..n], 1, Dvs10Chunk)
  }

  /** Each 10-bit component of the output is the matching high byte followed by its
      two low bits from byte 3; the top two bits of the word are zero. */
  lemma Dvs10Fields(w: bv32)
    ensures var x := w >> 24;
      V210A(Dvs10Word(w)) == ((w & 0xff) << 2) | (x & 3) &&
      V210B(Dvs10Word(w)) == (((w >> 8) & 0xff) << 2) | ((x >> 2) & 3) &&
      V210C(Dvs10Word(w)) == (((w >> 16) & 0xff) << 2) | ((x >> 4) & 3) &&
      Dvs10Word(w) >> 30 == 0
  {
  }

  /** Reading a converted word as v210 gives back the three high bytes. */
  lemma Dvs10ThenV210(w: bv32)
    ensures V210Pixel(Dvs10Chunk([w])) == DropFourth([w])
  {
    Dvs10Fields(w);
  }

  /** Reading a converted line as v210 gives back the high bytes of every source
      word. */
  lemma Dvs10LineThenV210(src: seq<bv32>, dstLen: int)
    requires |src| >= Passes(dstLen, 1, 4)
    ensures MapChunks(Dvs10Line(src, dstLen), 1, V210Pixel) ==
            MapChunks(src[..Passes(dstLen, 1, 4)], 1, DropFourth)
  {
    forall c: seq<bv32> | |c| == 1
      ensures V210Pixel(Dvs10Chunk(c)) == DropFourth(c)
    {
      assert c == [c[0]];
      Dvs10ThenV210(c[0]);
    }
    MapOneFuse(src[..Passes(dstLen, 1, 4)], Dvs10Chunk, V210Pixel, DropFourth);
  }

  /** vc_copylineDVS10toV210. */
  method CopyLineDvs10ToV210(dst: array<bv32>, src: seq<bv32>, dstLen: int)
    requires |src| >= Passes(dstLen, 1, 4)
    requires dst.Length >= Passes(dstLen, 1, 4)
    modifies dst
    ensures dst[..] == Dvs10Line(src, dstLen) + old(dst[..])[Passes(dstLen, 1, 4)..]
  {
    CopyOneToOne(dst, src, dstLen, Dvs10Chunk);
  }
}
