/** The RFC 6962 tree hash over a feed, and what its root commits to. */
module FeedTree {
  import opened Field
  import opened Attestation

  /** SHA-256 and the canonical JSON encoding, both unknown functions. */
  datatype Oracle = Oracle(sha: Bytes -> Block, canonical: Attestation -> Bytes)

  function LeafHash(o: Oracle, a: Attestation): Block { o.sha([0] + o.canonical(a)) }

  function LeafHashes(o: Oracle, atts: seq<Attestation>): (leaves: seq<Block>)
    ensures |leaves| == |atts| && forall i :: 0 <= i < |atts| ==> leaves[i] == LeafHash(o, atts[i])
  {
    seq(|atts|, i requires 0 <= i < |atts| => LeafHash(o, atts[i]))
  }

  /** Doubling from `k` while the double stays below `n`. */
  function SplitFrom(k: nat, n: nat): (r: nat)
    requires 0 < k < n
    ensures k <= r < n <= 2 * r
    decreases n - k
  {
    if k * 2 < n then SplitFrom(k * 2, n) else k
  }

  function Root(o: Oracle, leaves: seq<Block>): Block
    decreases |leaves|
  {
    if |leaves| == 0 then o.sha([])
    else if |leaves| == 1 then leaves[0]
    else
      var k := SplitFrom(1, |leaves|);
      o.sha([1] + Root(o, leaves[..k]) + Root(o, leaves[k..]))
  }

  method MerkleRoot(o: Oracle, leaves: seq<Block>) returns (r: Block)
    ensures r == Root(o, leaves)
    decreases |leaves|
  {
    if |leaves| == 0 {
      return o.sha([]);
    }
    if |leaves| == 1 {
      return leaves[0];
    }
    var k := 1;
    while k * 2 < |leaves|
      invariant 0 < k < |leaves|
      invariant SplitFrom(1, |leaves|) == SplitFrom(k, |leaves|)
      decreases |leaves| - k
    {
      k := k * 2;
    }
    var left := MerkleRoot(o, leaves[..k]);
    var right := MerkleRoot(o, leaves[k..]);
    r := o.sha([1] + left + right);
  }

  predicate PowerOfTwo(k: nat)
    decreases k
  {
    k == 1 || (0 < k && k % 2 == 0 && PowerOfTwo(k / 2))
  }

  lemma {:induction false} SplitIsPower(k: nat, n: nat)
    requires 0 < k < n && PowerOfTwo(k)
    ensures PowerOfTwo(SplitFrom(k, n))
    decreases n - k
  {
    if k * 2 < n {
      assert k * 2 / 2 == k;
      SplitIsPower(k * 2, n);
    }
  }

  lemma {:induction false} PowersApart(j: nat, k: nat)
    requires PowerOfTwo(j) && PowerOfTwo(k) && j < k
    ensures 2 * j <= k
    decreases k
  {
    if j > 1 {
      PowersApart(j / 2, k / 2);
    }
  }

  /** RFC 6962 section 2.1: the split is the largest power of two below the length. */
  lemma SplitIsLargest(n: nat)
    requires 1 < n
    ensures PowerOfTwo(SplitFrom(1, n)) && SplitFrom(1, n) < n
    ensures forall j: nat :: PowerOfTwo(j) && j < n ==> j <= SplitFrom(1, n)
  {
    SplitIsPower(1, n);
    forall j: nat | PowerOfTwo(j) && j < n
      ensures j <= SplitFrom(1, n)
    {
      if SplitFrom(1, n) < j { PowersApart(SplitFrom(1, n), j); }
    }
  }

  /** The first trees, written out: the empty one, one leaf, two, and three split as two and one. */
  lemma SmallTrees(o: Oracle, a: Attestation, b: Attestation, c: Attestation)
    ensures Root(o, LeafHashes(o, [])) == o.sha([])
    ensures Root(o, LeafHashes(o, [a])) == o.sha([0] + o.canonical(a))
    ensures
      var x, y, z := o.sha([0] + o.canonical(a)), o.sha([0] + o.canonical(b)), o.sha([0] + o.canonical(c));
      && Root(o, LeafHashes(o, [a, b])) == o.sha([1] + x + y)
      && Root(o, LeafHashes(o, [a, b, c])) == o.sha([1] + o.sha([1] + x + y) + z)
  {
    var x, y, z := o.sha([0] + o.canonical(a)), o.sha([0] + o.canonical(b)), o.sha([0] + o.canonical(c));
    assert LeafHashes(o, []) == [] && LeafHashes(o, [a]) == [x] && LeafHashes(o, [a, b]) == [x, y] && LeafHashes(o, [a, b, c]) == [x, y, z];
    assert [x, y][..1] == [x] && [x, y][1..] == [y] && [x, y, z][..2] == [x, y] && [x, y, z][2..] == [z];
    assert SplitFrom(1, 2) == 1 && SplitFrom(1, 3) == 2;
    assert Root(o, [x, y]) == o.sha([1] + x + y);
  }

  // ----- commitment -----

  /** The bytes whose hash is the root of a feed. */
  function Preimage(o: Oracle, atts: seq<Attestation>): Bytes {
    if |atts| == 0 then []
    else if |atts| == 1 then [0] + o.canonical(atts[0])
    else
      var k := SplitFrom(1, |atts|);
      [1] + Root(o, LeafHashes(o, atts[..k])) + Root(o, LeafHashes(o, atts[k..]))
  }

  /** Every byte string the feed's root hashes, from the leaves up. */
  function Hashed(o: Oracle, atts: seq<Attestation>): set<Bytes>
    decreases |atts|
  {
    if |atts| <= 1 then {Preimage(o, atts)}
    else
      var k := SplitFrom(1, |atts|);
      {Preimage(o, atts)} + Hashed(o, atts[..k]) + Hashed(o, atts[k..])
  }

  /** A collision among what two feeds hash or encode: two different byte strings,
      one hashed for each, with one digest; or two different attestations, one of
      each, with one encoding. */
  ghost predicate Clash(o: Oracle, xs: seq<Attestation>, ys: seq<Attestation>) {
    || (exists x, y :: x in Hashed(o, xs) && y in Hashed(o, ys) && x != y && o.sha(x) == o.sha(y))
    || (exists a, b :: a in xs && b in ys && a != b && o.canonical(a) == o.canonical(b))
  }

  /** A clash between parts of two feeds is a clash between the feeds. */
  lemma ClashGrows(o: Oracle, xs: seq<Attestation>, ys: seq<Attestation>, xs1: seq<Attestation>, ys1: seq<Attestation>)
    requires Hashed(o, xs1) <= Hashed(o, xs) && Hashed(o, ys1) <= Hashed(o, ys)
    requires (forall a <- xs1 :: a in xs) && (forall b <- ys1 :: b in ys)
    ensures Clash(o, xs1, ys1) ==> Clash(o, xs, ys)
  {
    hide Hashed;
  }

  lemma RootOfPreimage(o: Oracle, atts: seq<Attestation>)
    ensures Root(o, LeafHashes(o, atts)) == o.sha(Preimage(o, atts))
  {
    if |atts| > 1 {
      var k := SplitFrom(1, |atts|);
      assert LeafHashes(o, atts)[..k] == LeafHashes(o, atts[..k]);
      assert LeafHashes(o, atts)[k..] == LeafHashes(o, atts[k..]);
    }
  }

  /** The first byte tells an empty feed, a leaf and an interior node apart. */
  lemma PreimageTag(o: Oracle, atts: seq<Attestation>)
    ensures match |atts|
            case 0 => Preimage(o, atts) == []
            case 1 => |Preimage(o, atts)| > 0 && Preimage(o, atts)[0] == 0
            case _ => |Preimage(o, atts)| > 0 && Preimage(o, atts)[0] == 1
  {}

  lemma TwoBlocks(a: Block, b: Block, c: Block, d: Block)
    requires [1] + a + b == [1] + c + d
    ensures a == c && b == d
  {
    assert ([1] + a + b)[1..33] == a && ([1] + c + d)[1..33] == c;
    assert ([1] + a + b)[33..] == b && ([1] + c + d)[33..] == d;
  }

  lemma SameLeaf(o: Oracle, a: Attestation, b: Attestation)
    requires [0] + o.canonical(a) == [0] + o.canonical(b)
    ensures o.canonical(a) == o.canonical(b)
  {
    assert ([0] + o.canonical(a))[1..] == o.canonical(a) && ([0] + o.canonical(b))[1..] == o.canonical(b);
  }

  /** Equal roots, equal feeds: the same attestations, as many, in the same order;
      or the two feeds exhibit a clash. */
  lemma {:induction false} RootCommits(o: Oracle, xs: seq<Attestation>, ys: seq<Attestation>)
    requires Root(o, LeafHashes(o, xs)) == Root(o, LeafHashes(o, ys))
    ensures Clash(o, xs, ys) || xs == ys
    decreases |xs|
  {
    hide Root, Clash;
    RootOfPreimage(o, xs);
    RootOfPreimage(o, ys);
    PreimageTag(o, xs);
    PreimageTag(o, ys);
    assert Preimage(o, xs) != Preimage(o, ys) ==> Clash(o, xs, ys) by { TopClash(o, xs, ys); }
    if Preimage(o, xs) == Preimage(o, ys) {
      if |xs| == 1 && |ys| == 1 {
        SameLeaf(o, xs[0], ys[0]);
        LeafClash(o, xs, ys);
      } else if |xs| > 1 && |ys| > 1 {
        var j, k := SplitFrom(1, |xs|), SplitFrom(1, |ys|);
        TwoBlocks(Root(o, LeafHashes(o, xs[..j])), Root(o, LeafHashes(o, xs[j..])),
                  Root(o, LeafHashes(o, ys[..k])), Root(o, LeafHashes(o, ys[k..])));
        RootCommits(o, xs[..j], ys[..k]);
        RootCommits(o, xs[j..], ys[k..]);
        ClashGrows(o, xs, ys, xs[..j], ys[..k]);
        ClashGrows(o, xs, ys, xs[j..], ys[k..]);
        assert xs == xs[..j] + xs[j..] && ys == ys[..k] + ys[k..];
      }
    }
  }

  lemma TopClash(o: Oracle, xs: seq<Attestation>, ys: seq<Attestation>)
    requires o.sha(Preimage(o, xs)) == o.sha(Preimage(o, ys))
    ensures Preimage(o, xs) != Preimage(o, ys) ==> Clash(o, xs, ys)
  {
    assert Preimage(o, xs) in Hashed(o, xs) && Preimage(o, ys) in Hashed(o, ys);
  }

  lemma LeafClash(o: Oracle, xs: seq<Attestation>, ys: seq<Attestation>)
    requires |xs| == 1 && |ys| == 1 && o.canonical(xs[0]) == o.canonical(ys[0])
    ensures Clash(o, xs, ys) || xs == ys
  {
    assert xs[0] in xs && ys[0] in ys;
  }

  /** A checkpoint of root and count pins a later feed: it reproduces the root
      over its first entries when those are the checkpoint's entries, and only
      then unless the two exhibit a clash. */
  lemma CheckpointPins(o: Oracle, then_: seq<Attestation>, now_: seq<Attestation>)
    requires |then_| <= |now_|
    ensures then_ <= now_ ==> Root(o, LeafHashes(o, now_[..|then_|])) == Root(o, LeafHashes(o, then_))
    ensures Root(o, LeafHashes(o, now_[..|then_|])) == Root(o, LeafHashes(o, then_)) ==>
              then_ <= now_ || Clash(o, now_[..|then_|], then_)
  {
    hide Root, Clash;
    if Root(o, LeafHashes(o, now_[..|then_|])) == Root(o, LeafHashes(o, then_)) {
      RootCommits(o, now_[..|then_|], then_);
    }
    if then_ <= now_ {
      assert now_[..|then_|] == then_;
    }
  }
}
