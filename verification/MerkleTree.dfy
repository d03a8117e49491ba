/** The dense tree that hashes every slot, and the sparse prover that hashes only
    around the leaves it is given. Both return the reference tree's proof. */
module MerkleTree {
  import opened Field
  import opened Merkle

  datatype Result<+T> = Ok(value: T) | Err

  /** Leaves in a row, as the slots they fill. */
  function SlotsOf(leaves: seq<Block>): Slots {
    map i: nat | i < |leaves| :: leaves[i]
  }

  function Padded(leaves: map<nat, Bytes>): Slots {
    map i | i in leaves :: PadTo32(leaves[i])
  }

  /** The hash of an empty subtree at every height. */
  method ZeroHashes(h: Mimc, depth: nat) returns (zero: seq<Block>)
    ensures |zero| == depth + 1 && forall l :: 0 <= l <= depth ==> zero[l] == ZeroAt(h, l)
  {
    hide HashTwoFields;
    zero := [ZERO];
    var i := 1;
    while i <= depth
      invariant 1 <= i <= depth + 1 && |zero| == i
      invariant forall l :: 0 <= l < i ==> zero[l] == ZeroAt(h, l)
    {
      zero := zero + [HashTwoFields(h, zero[i - 1], zero[i - 1])];
      i := i + 1;
    }
  }

  class Tree {
    const h: Mimc
    const depth: nat
    var leaves: seq<Block>
    var layers: seq<seq<Block>>
    var zeroHash: seq<Block>
    /** The leaves the layers were last built from; none before the first Build. */
    ghost var built: seq<Block>

    ghost predicate Valid()
      reads this
    {
      && 0 < depth <= 32
      && |leaves| <= Pow2(depth)
      && |zeroHash| == depth + 1
      && (forall l :: 0 <= l <= depth ==> zeroHash[l] == ZeroAt(h, l))
      && |layers| == depth + 1
      && built <= leaves
      && if built == [] then layers[depth] == [] else layers[depth] != [] && Layered(h, SlotsOf(built), layers, depth)
    }

    /** The layers are those of all the leaves. */
    ghost predicate Built()
      reads this
    {
      Valid() && 0 < |leaves| && built == leaves
    }

    constructor (h: Mimc, depth: nat)
      requires 0 < depth <= 32
      ensures Valid() && leaves == [] && this.h == h && this.depth == depth
      ensures forall l :: 0 <= l <= depth ==> layers[l] == []
    {
      this.h, this.depth := h, depth;
      leaves, built := [], [];
      layers := seq(depth + 1, _ => []);
      zeroHash := [];
      new;
      zeroHash := ZeroHashes(h, depth);
    }

    method AddLeaf(leaf: Bytes) returns (ok: bool)
      requires Valid()
      modifies this`leaves
      ensures Valid() && built == old(built)
      ensures ok == (|old(leaves)| < Pow2(depth))
      ensures leaves == if ok then old(leaves) + [PadTo32(leaf)] else old(leaves)
    {
      ok := |leaves| < Pow2(depth);
      if ok {
        leaves := leaves + [PadTo32(leaf)];
      }
    }

    method Build() returns (ok: bool)
      requires Valid()
      modifies this`layers, this`built
      ensures Valid()
      ensures ok == (leaves != [])
      ensures ok ==> Built()
      ensures !ok ==> layers == old(layers) && built == old(built)
    {
      ok := |leaves| != 0;
      if !ok { return; }
      layers := Layers(h, depth, PadLeaves(leaves, Pow2(depth), zeroHash[0]), SlotsOf(leaves));
      built := leaves;
      assert IsLayer(h, SlotsOf(built), depth, Pow2(depth - depth), layers[depth]);
    }

    /** The root when the tree was last built, or nothing. */
    function Root(): (r: Bytes)
      requires Valid()
      reads this
      ensures r == if built == [] then [] else NodeAt(h, SlotsOf(built), depth, 0)
    {
      if |layers[depth]| == 0 then []
      else
        assert built != [] ==> IsLayer(h, SlotsOf(built), depth, Pow2(depth - depth), layers[depth]);
        layers[depth][0]
    }

    /** A leaf's proof with the path and root of the last Build: an error out of range
        or before any. For a leaf added since, the path is that of the layers without it. */
    method GetProof(leafIndex: int) returns (r: Result<Proof>)
      requires Valid()
      ensures r == if 0 <= leafIndex < |leaves| && built != []
        then Ok(ProofOf(h, SlotsOf(built), depth, leafIndex).(leaf := leaves[leafIndex])) else Err
      ensures Built() && 0 <= leafIndex < |leaves| ==> r == Ok(ProofOf(h, SlotsOf(leaves), depth, leafIndex))
    {
      if leafIndex < 0 || leafIndex >= |leaves| {
        return Err;
      }
      if |layers[depth]| == 0 {
        return Err;
      }
      var path, bits := Siblings(h, layers, depth, leafIndex, SlotsOf(built));
      r := Ok(Proof(Root(), leaves[leafIndex], leafIndex, path, bits));
    }
  }

  /** A proof of a leaf added after the tree was built shows nothing but an empty
      leaf, unless it clashes with the tree. */
  lemma LateLeafUnproven(h: Mimc, built: seq<Block>, depth: nat, i: nat, leaf: Block)
    requires 0 < depth && |built| <= i < Pow2(depth) && IsCanonical(Slot(SlotsOf(built), Sibling(i)))
    requires Verifies(h, ProofOf(h, SlotsOf(built), depth, i).(leaf := leaf))
    ensures leaf == ZERO || ProofClashes(h, SlotsOf(built), ProofOf(h, SlotsOf(built), depth, i).(leaf := leaf))
  {
    hide HashTwoFields, Clashes, IsCanonical;
    BitsDescend(i, depth, 0);
    ZeroCanonical();
    VerifyBinds(h, SlotsOf(built), depth, i, ProofOf(h, SlotsOf(built), depth, i).(leaf := leaf));
  }

  lemma ZeroCanonical()
    ensures IsCanonical(ZERO)
  {
    ZerosSpell(32);
  }

  /** The leaves followed by empty slots up to `size`. */
  function PadLeaves(leaves: seq<Block>, size: nat, zero: Block): (padded: seq<Block>)
    requires |leaves| <= size
    ensures |padded| == size
    ensures forall i :: 0 <= i < size ==> padded[i] == if i < |leaves| then leaves[i] else zero
  {
    leaves + seq(size - |leaves|, _ => zero)
  }

  /** The loop of Build: every layer from the one below it, up to the root. */
  method Layers(h: Mimc, depth: nat, base: seq<Block>, ghost slots: Slots) returns (layers: seq<seq<Block>>)
    requires IsLayer(h, slots, 0, Pow2(depth), base)
    ensures Layered(h, slots, layers, depth)
  {
    hide HashTwoFields, NodeAt, Pow2;
    layers := [base];
    var level := 1;
    while level <= depth
      invariant 1 <= level <= depth + 1 && |layers| == level
      invariant forall l :: 0 <= l < level ==> IsLayer(h, slots, l, Pow2(depth - l), layers[l])
    {
      Doubles(depth - level);
      assert IsLayer(h, slots, level - 1, Pow2(depth - level + 1), layers[level - 1]);
      var next := NextLayer(h, slots, level - 1, layers[level - 1]);
      layers := layers + [next];
      level := level + 1;
    }
  }

  ghost predicate Layered(h: Mimc, slots: Slots, layers: seq<seq<Block>>, depth: nat) {
    |layers| == depth + 1 && forall l :: 0 <= l <= depth ==> IsLayer(h, slots, l, Pow2(depth - l), layers[l])
  }

  /** The loop of GetProof: the sibling and the side at each level on the way up. */
  method Siblings(h: Mimc, layers: seq<seq<Block>>, depth: nat, leafIndex: nat, ghost slots: Slots)
    returns (path: seq<Block>, bits: seq<nat>)
    requires Layered(h, slots, layers, depth) && leafIndex < Pow2(depth)
    ensures path == PathFrom(h, slots, 0, leafIndex, depth) && bits == BitsOf(leafIndex, depth)
  {
    hide HashTwoFields, PathFrom, BitsOf, Pow2;
    path, bits := [], [];
    var current: nat := leafIndex;
    var level := 0;
    while level < depth
      invariant 0 <= level <= depth && current < Pow2(depth - level)
      invariant path + PathFrom(h, slots, level, current, depth - level) == PathFrom(h, slots, 0, leafIndex, depth)
      invariant bits + BitsOf(current, depth - level) == BitsOf(leafIndex, depth)
    {
      PathStep(h, slots, level, current, depth - level, path, bits);
      SiblingFits(current, depth - level);
      assert IsLayer(h, slots, level, Pow2(depth - level), layers[level]);
      var isRight := current % 2;
      var sibling := if isRight == 0 then current + 1 else current - 1;
      bits := bits + [isRight];
      path := path + [layers[level][sibling]];
      current := current / 2;
      level := level + 1;
    }
    PathDone(h, slots, depth, current, path, bits);
  }

  lemma PathStep(h: Mimc, slots: Slots, lvl: nat, i: nat, n: nat, path: seq<Block>, bits: seq<nat>)
    requires 0 < n
    ensures path + [NodeAt(h, slots, lvl, Sibling(i))] + PathFrom(h, slots, lvl + 1, i / 2, n - 1) == path + PathFrom(h, slots, lvl, i, n)
    ensures bits + [i % 2] + BitsOf(i / 2, n - 1) == bits + BitsOf(i, n)
  {
    hide NodeAt;
  }

  lemma Doubles(n: nat)
    ensures Pow2(n + 1) == 2 * Pow2(n)
  {}

  lemma SiblingFits(i: nat, n: nat)
    requires 0 < n && i < Pow2(n)
    ensures Sibling(i) < Pow2(n) && i / 2 < Pow2(n - 1)
  {
    HalfFits(i, Pow2(n - 1));
  }

  lemma HalfFits(i: nat, p: nat)
    requires i < 2 * p
    ensures Sibling(i) < 2 * p && i / 2 < p
  {
    var half := i / 2;
    assert i == 2 * half || i == 2 * half + 1;
  }

  lemma PathDone(h: Mimc, slots: Slots, lvl: nat, i: nat, path: seq<Block>, bits: seq<nat>)
    ensures path + PathFrom(h, slots, lvl, i, 0) == path && bits + BitsOf(i, 0) == bits
  {}

  ghost predicate IsLayer(h: Mimc, slots: Slots, lvl: nat, size: nat, layer: seq<Block>) {
    |layer| == size && forall i :: 0 <= i < size ==> layer[i] == NodeAt(h, slots, lvl, i)
  }

  method NextLayer(h: Mimc, ghost slots: Slots, ghost lvl: nat, layer: seq<Block>) returns (next: seq<Block>)
    requires |layer| % 2 == 0 && IsLayer(h, slots, lvl, |layer|, layer)
    ensures IsLayer(h, slots, lvl + 1, |layer| / 2, next)
  {
    hide HashTwoFields;
    next := [];
    var i := 0;
    while i < |layer| / 2
      invariant 0 <= i <= |layer| / 2
      invariant IsLayer(h, slots, lvl + 1, i, next)
    {
      next := next + [HashTwoFields(h, layer[2 * i], layer[2 * i + 1])];
      i := i + 1;
    }
  }

  // ----- the sparse prover -----

  /** A level map agrees with the reference tree where it has an entry and with
      the zero hash everywhere else below `size`. */
  ghost predicate Agrees(h: Mimc, slots: Slots, lvl: nat, size: nat, level: map<nat, Block>) {
    && (forall i :: i in level ==> i < size)
    && (forall i: nat :: NodeAt(h, slots, lvl, i) == if i in level then level[i] else ZeroAt(h, lvl))
  }

  function Node(level: map<nat, Block>, zero: Block, i: nat): Block { if i in level then level[i] else zero }

  method Parents(h: Mimc, level: map<nat, Block>, zero: Block, ghost slots: Slots, ghost lvl: nat, ghost size: nat)
    returns (parents: map<nat, Block>)
    requires zero == ZeroAt(h, lvl) && Agrees(h, slots, lvl, 2 * size, level)
    ensures Agrees(h, slots, lvl + 1, size, parents)
  {
    hide HashTwoFields;
    parents := map[];
    var todo := level.Keys;
    while todo != {}
      invariant todo <= level.Keys
      invariant forall p :: p in parents ==> p < size && parents[p] == NodeAt(h, slots, lvl + 1, p)
      invariant forall i :: i in level && i !in todo ==> i / 2 in parents
      decreases todo
    {
      var i :| i in todo;
      todo := todo - {i};
      var p := i / 2;
      if p !in parents {
        parents := parents[p := HashTwoFields(h, Node(level, zero, 2 * p), Node(level, zero, 2 * p + 1))];
      }
    }
    forall p: nat | p !in parents
      ensures NodeAt(h, slots, lvl + 1, p) == ZeroAt(h, lvl + 1)
    {
      assert (2 * p) / 2 == p && (2 * p + 1) / 2 == p;
      assert 2 * p !in level && 2 * p + 1 !in level;
    }
  }

  function InTree(leaves: map<nat, Bytes>, depth: nat): bool { forall i :: i in leaves ==> i < Pow2(depth) }

  method SparseMerkleProof(h: Mimc, leaves: map<nat, Bytes>, depth: nat, leafIndex: nat) returns (r: Result<Proof>)
    ensures r == if 0 < depth <= 32 && leafIndex in leaves && InTree(leaves, depth)
                 then Ok(ProofOf(h, Padded(leaves), depth, leafIndex)) else Err
  {
    hide HashTwoFields, NodeAt, PathFrom, BitsOf, PadTo32;
    if depth <= 0 || depth > 32 || leafIndex >= Pow2(depth) || leafIndex !in leaves {
      return Err;
    }
    var zero := ZeroHashes(h, depth);
    if !InTree(leaves, depth) {
      return Err;
    }
    var level := map i | i in leaves :: PadTo32(leaves[i]);
    LeafLevel(h, leaves, depth);
    var path, bits, root := Climb(h, level, zero, depth, leafIndex, Padded(leaves));
    r := Ok(Proof(root, level[leafIndex], leafIndex, path, bits));
  }

  lemma LeafLevel(h: Mimc, leaves: map<nat, Bytes>, depth: nat)
    requires InTree(leaves, depth)
    ensures Agrees(h, Padded(leaves), 0, Pow2(depth), map i | i in leaves :: PadTo32(leaves[i]))
  {
    hide PadTo32;
  }

  /** The loop of the sparse prover: one level map after another, up to the root. */
  method Climb(h: Mimc, leafLevel: map<nat, Block>, zero: seq<Block>, depth: nat, leafIndex: nat, ghost slots: Slots)
    returns (path: seq<Block>, bits: seq<nat>, root: Block)
    requires |zero| == depth + 1 && forall l :: 0 <= l <= depth ==> zero[l] == ZeroAt(h, l)
    requires Agrees(h, slots, 0, Pow2(depth), leafLevel)
    ensures path == PathFrom(h, slots, 0, leafIndex, depth) && bits == BitsOf(leafIndex, depth)
    ensures root == NodeAt(h, slots, depth, 0)
  {
    hide HashTwoFields, NodeAt, ZeroAt, PathFrom, BitsOf;
    var level := leafLevel;
    path, bits := [], [];
    var cur: nat := leafIndex;
    var d := 0;
    while d < depth
      invariant 0 <= d <= depth
      invariant Agrees(h, slots, d, Pow2(depth - d), level)
      invariant path + PathFrom(h, slots, d, cur, depth - d) == PathFrom(h, slots, 0, leafIndex, depth)
      invariant bits + BitsOf(cur, depth - d) == BitsOf(leafIndex, depth)
    {
      PathStep(h, slots, d, cur, depth - d, path, bits);
      bits := bits + [cur % 2];
      path := path + [Node(level, zero[d], Sibling(cur))];
      level := Parents(h, level, zero[d], slots, d, Pow2(depth - d - 1));
      cur := cur / 2;
      d := d + 1;
    }
    PathDone(h, slots, depth, cur, path, bits);
    root := Node(level, zero[depth], 0);
  }

  /** The map form of a row of leaves. */
  function AsMap(leaves: seq<Bytes>): map<nat, Bytes> { map i: nat | i < |leaves| :: leaves[i] }

  function PadEach(leaves: seq<Bytes>): seq<Block> { seq(|leaves|, i requires 0 <= i < |leaves| => PadTo32(leaves[i])) }

  /** Fast and dense agree: for leaves that fit the depth and any index, the
      sparse prover returns what filling and building the dense tree returns. */
  method SparseIsDense(h: Mimc, leaves: seq<Bytes>, depth: nat, leafIndex: nat) returns (sparse: Result<Proof>, dense: Result<Proof>)
    requires 0 < depth <= 32 && 0 < |leaves| <= Pow2(depth)
    ensures sparse == dense
    ensures sparse.Ok? <==> leafIndex < |leaves|
    ensures sparse.Ok? ==> Verifies(h, sparse.value)
  {
    hide HashTwoFields, NodeAt, ZeroAt;
    var tree := new Tree(h, depth);
    var i := 0;
    while i < |leaves|
      invariant 0 <= i <= |leaves| && fresh(tree) && tree.Valid() && tree.h == h && tree.depth == depth
      invariant tree.leaves == PadEach(leaves)[..i]
    {
      var added := tree.AddLeaf(leaves[i]);
      i := i + 1;
    }
    var built := tree.Build();
    dense := tree.GetProof(leafIndex);
    sparse := SparseMerkleProof(h, AsMap(leaves), depth, leafIndex);
    assert Padded(AsMap(leaves)) == SlotsOf(tree.leaves);
    if leafIndex < |leaves| {
      GeneratedProofVerifies(h, SlotsOf(tree.leaves), depth, leafIndex);
    }
  }
}
