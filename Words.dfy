/**
 * 32-bit words as the line converters see them: a pixel buffer read through a
 * uint32_t pointer on a little-endian machine, so byte k of the buffer is bits
 * 8k .. 8k+7 of word k / 4. Also a chunk-wise map over sequences, which is what
 * a converter loop that consumes n input words and emits m output words computes.
 */
module Words {

  /** The four bytes of a word in memory order (little-endian). */
  function WordBytes(w: bv32): (r: seq<bv8>)
    ensures |r| == 4
  {
    [(w & 0xFF) as bv8, ((w >> 8) & 0xFF) as bv8, ((w >> 16) & 0xFF) as bv8, (w >> 24) as bv8]
  }

  /** The concatenation of f over the consecutive k-element chunks of s; a trailing
      piece shorter than k is not mapped. */
  function MapChunks<T(!new), U>(s: seq<T>, k: nat, f: seq<T> --> seq<U>): seq<U>
    requires k > 0
    requires forall c: seq<T> {:trigger f.requires(c)} :: |c| == k ==> f.requires(c)
    decreases |s|
  {
    if |s| < k then [] else f(s[..k]) + MapChunks(s[k..], k, f)
  }

  /** WordBytes as a function of a one-word chunk. */
  function WordChunkBytes(c: seq<bv32>): seq<bv8>
    requires |c| == 1
  {
    WordBytes(c[0])
  }

  /** The bytes of a buffer of words, in memory order. */
  function Bytes(ws: seq<bv32>): seq<bv8>
  {
    MapChunks(ws, 1, WordChunkBytes)
  }

  /** Mapping chunk-wise commutes with concatenation after n whole chunks. */
  lemma {:induction false} MapChunksAppend<T(!new), U>(s: seq<T>, t: seq<T>, k: nat, n: nat, f: seq<T> --> seq<U>)
    requires k > 0 && |s| == n * k
    requires forall c: seq<T> {:trigger f.requires(c)} :: |c| == k ==> f.requires(c)
    ensures MapChunks(s + t, k, f) == MapChunks(s, k, f) + MapChunks(t, k, f)
    decreases n
  {
    if n == 0 {
      assert s + t == t;
    } else {
      assert (s + t)[..k] == s[..k];
      assert (s + t)[k..] == s[k..] + t;
      MapChunksAppend(s[k..], t, k, n - 1, f);
    }
  }

  /** A single chunk is mapped by f itself. */
  lemma MapChunksSingle<T(!new), U>(c: seq<T>, k: nat, f: seq<T> --> seq<U>)
    requires k > 0 && |c| == k
    requires forall d: seq<T> {:trigger f.requires(d)} :: |d| == k ==> f.requires(d)
    ensures MapChunks(c, k, f) == f(c)
  {
    assert c[..k] == c;
    assert c[k..] == [];
  }

  /** If every chunk is mapped to m elements, n chunks are mapped to n * m elements. */
  lemma {:induction false} MapChunksLength<T(!new), U>(s: seq<T>, k: nat, f: seq<T> --> seq<U>, m: nat, n: nat)
    requires k > 0 && |s| == n * k
    requires forall c: seq<T> {:trigger f.requires(c)} {:trigger f(c)} :: |c| == k ==> f.requires(c) && |f(c)| == m
    ensures |MapChunks(s, k, f)| == n * m
    decreases n
  {
    if n > 0 {
      MapChunksLength(s[k..], k, f, m, n - 1);
    }
  }

  /** A buffer of n words holds 4n bytes. */
  lemma BytesLength(ws: seq<bv32>)
    ensures |Bytes(ws)| == 4 * |ws|
  {
    MapChunksLength(ws, 1, WordChunkBytes, 4, |ws|);
  }

  /** The bytes of two buffers laid end to end. */
  lemma BytesAppend(a: seq<bv32>, b: seq<bv32>)
    ensures Bytes(a + b) == Bytes(a) + Bytes(b)
  {
    MapChunksAppend(a, b, 1, |a|, WordChunkBytes);
  }

  /** Recoding lemma: if a converter maps every k-element input chunk to output words
      whose bytes are what p makes of that chunk's j-element pieces (k = m * j), then
      it maps n whole chunks to output words whose bytes are p applied piece by piece. */
  lemma {:induction false} Recode<T(!new)>(s: seq<T>, k: nat, f: seq<T> --> seq<bv32>, j: nat, m: nat, p: seq<T> --> seq<bv8>, n: nat)
    requires j > 0 && k == m * j && k > 0 && |s| == n * k
    requires forall c: seq<T> {:trigger f.requires(c)} :: |c| == k ==> f.requires(c)
    requires forall c: seq<T> {:trigger p.requires(c)} :: |c| == j ==> p.requires(c)
    requires forall c: seq<T> {:trigger f(c)} {:trigger MapChunks(c, j, p)} :: |c| == k ==> Bytes(f(c)) == MapChunks(c, j, p)
    ensures Bytes(MapChunks(s, k, f)) == MapChunks(s, j, p)
    decreases n
  {
    if n > 0 {
      var head, tail := s[..k], s[k..];
      assert s == head + tail;
      calc {
        Bytes(MapChunks(s, k, f));
        Bytes(f(head) + MapChunks(tail, k, f));
        { BytesAppend(f(head), MapChunks(tail, k, f)); }
        Bytes(f(head)) + Bytes(MapChunks(tail, k, f));
        { Recode(tail, k, f, j, m, p, n - 1); }
        MapChunks(head, j, p) + MapChunks(tail, j, p);
        { MapChunksAppend(head, tail, j, m, p); }
        MapChunks(s, j, p);
      }
    }
  }

  /** The chunk at input position p = i * k becomes the group at output position
      q = i * m. */
  lemma MapChunksAt<T(!new), U>(s: seq<T>, k: nat, f: seq<T> --> seq<U>, m: nat, i: nat, p: nat, q: nat)
    requires k > 0 && p == i * k && q == i * m && p + k <= |s|
    requires forall c: seq<T> {:trigger f.requires(c)} {:trigger f(c)} :: |c| == k ==> f.requires(c) && |f(c)| == m
    ensures q + m <= |MapChunks(s, k, f)|
    ensures MapChunks(s, k, f)[q..q + m] == f(s[p..p + k])
  {
    var head, tail := s[..p], s[p..];
    assert s == head + tail;
    MapChunksAppend(head, tail, k, i, f);
    MapChunksLength(head, k, f, m, i);
    assert tail[..k] == s[p..p + k];
  }

  /** Element i of a one-for-one map is f of element i. */
  lemma {:induction false} MapOneAt<T(!new), U>(s: seq<T>, f: seq<T> --> seq<U>, i: nat)
    requires i < |s|
    requires forall c: seq<T> {:trigger f.requires(c)} {:trigger f(c)} :: |c| == 1 ==> f.requires(c) && |f(c)| == 1
    ensures |MapChunks(s, 1, f)| == |s|
    ensures MapChunks(s, 1, f)[i] == f([s[i]])[0]
    decreases |s|
  {
    MapChunksLength(s, 1, f, 1, |s|);
    assert s[..1] == [s[0]];
    if i > 0 {
      MapOneAt(s[1..], f, i - 1);
    }
  }

  /** Two one-for-one maps in a row are the one map that does both. */
  lemma {:induction false} MapOneFuse<T(!new), U(!new), W>(s: seq<T>, f: seq<T> --> seq<U>, g: seq<U> --> seq<W>, h: seq<T> --> seq<W>)
    requires forall c: seq<T> {:trigger f.requires(c)} {:trigger f(c)} :: |c| == 1 ==> f.requires(c) && |f(c)| == 1
    requires forall c: seq<U> {:trigger g.requires(c)} :: |c| == 1 ==> g.requires(c)
    requires forall c: seq<T> {:trigger h.requires(c)} {:trigger f(c)} {:trigger h(c)} :: |c| == 1 ==> h.requires(c) && g(f(c)) == h(c)
    ensures MapChunks(MapChunks(s, 1, f), 1, g) == MapChunks(s, 1, h)
    decreases |s|
  {
    if |s| > 0 {
      var head, rest := f(s[..1]), MapChunks(s[1..], 1, f);
      assert (head + rest)[..1] == head;
      assert (head + rest)[1..] == rest;
      MapOneFuse(s[1..], f, g, h);
    }
  }

  /** Byte k of a buffer of words is byte k % 4 of word k / 4. */
  lemma {:induction false} BytesAt(ws: seq<bv32>, k: nat)
    requires k < 4 * |ws|
    ensures |Bytes(ws)| == 4 * |ws|
    ensures Bytes(ws)[k] == WordBytes(ws[k / 4])[k % 4]
    decreases |ws|
  {
    BytesLength(ws);
    assert ws[..1] == [ws[0]];
    if k >= 4 {
      BytesAt(ws[1..], k - 4);
    }
  }

  /** Byte j of word i sits at position 4 * i + j of the buffer. */
  lemma BytesOfWord(ws: seq<bv32>, i: nat, j: nat)
    requires i < |ws| && j < 4
    ensures |Bytes(ws)| == 4 * |ws|
    ensures Bytes(ws)[4 * i + j] == WordBytes(ws[i])[j]
  {
    BytesAt(ws, 4 * i + j);
    assert (4 * i + j) / 4 == i && (4 * i + j) % 4 == j;
  }

  /** The bytes of three words. */
  lemma BytesThree(a: bv32, b: bv32, c: bv32)
    ensures Bytes([a, b, c]) == WordBytes(a) + WordBytes(b) + WordBytes(c)
  {
    MapOneThree([a, b, c], WordChunkBytes);
  }

  /** A one-for-one map over two elements. */
  lemma MapOneTwo<T(!new), U>(c: seq<T>, f: seq<T> --> seq<U>)
    requires |c| == 2
    requires forall d: seq<T> {:trigger f.requires(d)} :: |d| == 1 ==> f.requires(d)
    ensures MapChunks(c, 1, f) == f([c[0]]) + f([c[1]])
  {
    assert c == [c[0]] + [c[1]];
    MapChunksAppend([c[0]], [c[1]], 1, 1, f);
    MapChunksSingle([c[0]], 1, f);
    MapChunksSingle([c[1]], 1, f);
  }

  /** A one-for-one map over three elements. */
  lemma MapOneThree<T(!new), U>(c: seq<T>, f: seq<T> --> seq<U>)
    requires |c| == 3
    requires forall d: seq<T> {:trigger f.requires(d)} :: |d| == 1 ==> f.requires(d)
    ensures MapChunks(c, 1, f) == f([c[0]]) + f([c[1]]) + f([c[2]])
  {
    assert c == [c[0]] + [c[1]] + [c[2]];
    MapChunksAppend([c[0]] + [c[1]], [c[2]], 1, 2, f);
    MapChunksAppend([c[0]], [c[1]], 1, 1, f);
    MapChunksSingle([c[0]], 1, f);
    MapChunksSingle([c[1]], 1, f);
    MapChunksSingle([c[2]], 1, f);
  }

  /** A one-for-one map over four elements. */
  lemma MapOneFour<T(!new), U>(c: seq<T>, f: seq<T> --> seq<U>)
    requires |c| == 4
    requires forall d: seq<T> {:trigger f.requires(d)} :: |d| == 1 ==> f.requires(d)
    ensures MapChunks(c, 1, f) == f([c[0]]) + f([c[1]]) + f([c[2]]) + f([c[3]])
  {
    assert c == c[..3] + [c[3]];
    MapChunksAppend(c[..3], [c[3]], 1, 3, f);
    MapOneThree(c[..3], f);
    MapChunksSingle([c[3]], 1, f);
  }

  /** Twelve elements read as three groups of four or as four groups of three. */
  lemma FoursAsThrees<X>(a: seq<X>, b: seq<X>, c: seq<X>, d: seq<X>)
    requires |a| == |b| == |c| == |d| == 3
    ensures [a[0], a[1], a[2], b[0]] + [b[1], b[2], c[0], c[1]] + [c[2], d[0], d[1], d[2]] == a + b + c + d
  {
  }
}
