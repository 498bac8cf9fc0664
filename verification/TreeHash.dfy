/** The tree hash of botocore/utils.py: pair the digests level by level, carry an odd last one. */
module TreeHash {

  newtype byte = x: int | 0 <= x < 256

  type Bytes = seq<byte>
  type HashFn = Bytes -> Bytes

  /** Bytes read per chunk. */
  const CHUNK_SIZE: nat := 1024 * 1024

  /** Successive reads of at most `size` bytes, up to the first empty read. */
  function Chunks(body: Bytes, size: nat): (cs: seq<Bytes>)
    requires size > 0
    decreases |body|
  {
    if body == [] then []
    else
      var n := if |body| < size then |body| else size;
      [body[..n]] + Chunks(body[n..], size)
  }

  function Concat(cs: seq<Bytes>): Bytes {
    if cs == [] then [] else cs[0] + Concat(cs[1..])
  }

  /** Reading in chunks loses and reorders nothing, and only the last chunk may be short. */
  lemma {:induction false} ChunksPartitionTheBody(body: Bytes, size: nat)
    requires size > 0
    ensures Concat(Chunks(body, size)) == body
    ensures forall i :: 0 <= i < |Chunks(body, size)| ==> 0 < |Chunks(body, size)[i]| <= size
    ensures forall i :: 0 <= i < |Chunks(body, size)| - 1 ==> |Chunks(body, size)[i]| == size
    ensures Chunks(body, size) == [] <==> body == []
    decreases |body|
  {
    if body != [] {
      var n := if |body| < size then |body| else size;
      ChunksPartitionTheBody(body[n..], size);
      var rest := Chunks(body[n..], size);
      assert Chunks(body, size)[1..] == rest;
      assert forall i :: 0 < i < |Chunks(body, size)| ==> Chunks(body, size)[i] == rest[i - 1];
    }
  }

  /** The largest power of two strictly below n. */
  function SplitPoint(n: nat): (k: nat)
    requires n >= 2
    ensures 0 < k < n <= 2 * k
    ensures IsPowerOfTwo(k)
  {
    if n == 2 then 1 else 2 * SplitPoint((n + 1) / 2)
  }

  predicate IsPowerOfTwo(k: nat) {
    k == 1 || (k > 1 && k % 2 == 0 && IsPowerOfTwo(k / 2))
  }

  /** Only one power of two lies in [n/2, n). */
  lemma {:induction false} SplitPointUnique(n: nat, k: nat)
    requires n >= 2 && IsPowerOfTwo(k) && k < n <= 2 * k
    ensures k == SplitPoint(n)
    decreases n
  {
    if n > 2 {
      SplitPointUnique((n + 1) / 2, k / 2);
    }
  }

  /** Section 2.1 of RFC 6962: split at the largest power of two below the number of leaves. */
  function TopDown(h: HashFn, xs: seq<Bytes>): Bytes
    requires |xs| >= 1
    decreases |xs|
  {
    if |xs| == 1 then xs[0]
    else
      var k := SplitPoint(|xs|);
      h(TopDown(h, xs[..k]) + TopDown(h, xs[k..]))
  }

  /** One level of pairing. */
  function PairUp(h: HashFn, xs: seq<Bytes>): (ys: seq<Bytes>)
    ensures |ys| == (|xs| + 1) / 2
  {
    if |xs| == 0 then []
    else if |xs| == 1 then xs
    else [h(xs[0] + xs[1])] + PairUp(h, xs[2..])
  }

  lemma PairUpStep(h: HashFn, xs: seq<Bytes>)
    ensures xs == [] ==> PairUp(h, xs) == []
    ensures |xs| >= 2 ==> PairUp(h, xs) == [h(xs[0] + xs[1])] + PairUp(h, xs[2..])
  {}

  lemma {:induction false} PairUpSplits(h: HashFn, a: seq<Bytes>, b: seq<Bytes>)
    requires |a| % 2 == 0
    ensures PairUp(h, a + b) == PairUp(h, a) + PairUp(h, b)
    decreases |a|
  {
    hide PairUp;
    PairUpStep(h, a);
    if a == [] {
      assert a + b == b;
    } else {
      PairUpSplits(h, a[2..], b);
      PairUpStep(h, a + b);
      assert (a + b)[2..] == a[2..] + b;
      Regroup([h(a[0] + a[1])], PairUp(h, a[2..]), PairUp(h, b));
    }
  }

  lemma Regroup(a: seq<Bytes>, b: seq<Bytes>, c: seq<Bytes>)
    ensures a + (b + c) == a + b + c
  {}

  /** Pairing one level leaves the top-down hash unchanged. */
  lemma {:induction false} PairUpKeepsTopDown(h: HashFn, xs: seq<Bytes>)
    requires |xs| >= 2
    ensures TopDown(h, PairUp(h, xs)) == TopDown(h, xs)
    decreases |xs|
  {
    var n := |xs|;
    if n > 2 {
      var k := SplitPoint(n);
      var l, r := xs[..k], xs[k..];
      assert xs == l + r;
      assert k % 2 == 0;
      PairUpSplits(h, l, r);
      var pl, pr := PairUp(h, l), PairUp(h, r);
      assert PairUp(h, xs) == pl + pr;
      SplitPointUnique(|pl + pr|, k / 2);
      assert (pl + pr)[..k / 2] == pl && (pl + pr)[k / 2..] == pr;
      PairUpKeepsTopDown(h, l);
      if |r| >= 2 {
        PairUpKeepsTopDown(h, r);
      }
    } else {
      assert PairUp(h, xs[2..]) == [];
      assert xs[..1] == [xs[0]] && xs[1..] == [xs[1]];
    }
  }

  /** What the tree hash is, before it is written in hexadecimal: the leaves are the digests of every 0x10_0000 bytes. */
  function TreeHashSpec(h: HashFn, body: Bytes): Bytes {
    var leaves := Leaves(h, Chunks(body, 0x10_0000));
    if leaves == [] then h([]) else TopDown(h, leaves)
  }

  /** The digest of every chunk, in order. */
  function Leaves(h: HashFn, cs: seq<Bytes>): (ds: seq<Bytes>)
    ensures |ds| == |cs|
    ensures forall i :: 0 <= i < |cs| ==> ds[i] == h(cs[i])
  {
    if cs == [] then [] else [h(cs[0])] + Leaves(h, cs[1..])
  }

  /** The level loop: pair neighbours, carry the last one when their number is odd. */
  method PairLevel(h: HashFn, chunks: seq<Bytes>) returns (paired: seq<Bytes>, combines: nat)
    ensures paired == PairUp(h, chunks)
    ensures combines == |chunks| / 2
  {
    paired, combines := [], 0;
    var i := 0;
    while i < |chunks|
      invariant 0 <= i <= |chunks|
      invariant paired + PairUp(h, chunks[i..]) == PairUp(h, chunks)
      invariant if i < |chunks| then i == 2 * combines else combines == |chunks| / 2
    {
      if i + 1 < |chunks| {
        var both := h(chunks[i] + chunks[i + 1]);
        assert chunks[i..][2..] == chunks[i + 2..];
        paired, combines, i := paired + [both], combines + 1, i + 2;
      } else {
        assert chunks[i..] == [chunks[i]];
        paired, i := paired + [chunks[i]], i + 1;
      }
    }
  }

  /** Reduce the leaf digests to one; n leaves take exactly n - 1 combining calls. */
  method Reduce(h: HashFn, leaves: seq<Bytes>) returns (root: Bytes, combines: nat)
    requires |leaves| >= 1
    ensures root == TopDown(h, leaves)
    ensures combines == |leaves| - 1
  {
    var chunks := leaves;
    combines := 0;
    while |chunks| > 1
      invariant |chunks| >= 1
      invariant TopDown(h, chunks) == TopDown(h, leaves)
      invariant combines + |chunks| == |leaves|
      decreases |chunks|
    {
      PairUpKeepsTopDown(h, chunks);
      var n;
      chunks, n := PairLevel(h, chunks);
      combines := combines + n;
    }
    root := chunks[0];
  }

  /** Read the body chunk by chunk, then reduce. */
  method CalculateTreeHash(h: HashFn, body: Bytes) returns (digest: Bytes)
    ensures digest == TreeHashSpec(h, body)
  {
    var chunks: seq<Bytes> := [];
    ghost var all := Chunks(body, CHUNK_SIZE);
    var unread := body;
    while unread != []
      invariant Leaves(h, all) == chunks + Leaves(h, Chunks(unread, CHUNK_SIZE))
      invariant chunks == [] ==> unread == body
      decreases |unread|
    {
      var size := if |unread| < CHUNK_SIZE then |unread| else CHUNK_SIZE;
      var read := unread[..size];
      assert Chunks(unread, CHUNK_SIZE)[1..] == Chunks(unread[size..], CHUNK_SIZE);
      chunks, unread := chunks + [h(read)], unread[size..];
    }
    assert Leaves(h, all) == chunks;
    if chunks == [] {
      digest := h([]);
    } else {
      var combines;
      digest, combines := Reduce(h, chunks);
    }
  }
}
