/** The trust tree: the node hash over a MiMC oracle, the reference tree, proof
    paths, and what a verifying proof shows.

    MiMC is an unknown function from the field elements written to it. A block
    at or above the modulus is refused by its Write and so drops out of the
    hash; that is modelled, because it decides which leaves a root binds. */
module Merkle {
  import opened Field

  type Mimc = seq<Element> -> Element

  /** What one Write adds: the element, or nothing when the block is not canonical. */
  function Written(b: Block): seq<Element> {
    if IsCanonical(b) then [BigEndian(b)] else []
  }

  function HashTwoFields(h: Mimc, left: Bytes, right: Bytes): Block {
    ToBlock(h(Written(PadTo32(left)) + Written(PadTo32(right))))
  }

  // ----- the reference tree -----

  type Slots = map<nat, Block>

  function Slot(slots: Slots, i: nat): Block { if i in slots then slots[i] else ZERO }

  /** The node at height `lvl`, position `i`, of the infinite tree over the slots. */
  function NodeAt(h: Mimc, slots: Slots, lvl: nat, i: nat): Block {
    if lvl == 0 then Slot(slots, i)
    else HashTwoFields(h, NodeAt(h, slots, lvl - 1, 2 * i), NodeAt(h, slots, lvl - 1, 2 * i + 1))
  }

  function ZeroAt(h: Mimc, lvl: nat): Block {
    if lvl == 0 then ZERO else HashTwoFields(h, ZeroAt(h, lvl - 1), ZeroAt(h, lvl - 1))
  }

  function Pow2(n: nat): (p: nat)
    ensures 0 < p
  {
    if n == 0 then 1 else 2 * Pow2(n - 1)
  }

  function Sibling(i: nat): nat { if i % 2 == 0 then i + 1 else i - 1 }

  // ----- proofs -----

  datatype Proof = Proof(root: Bytes, leaf: Bytes, leafIndex: nat, path: seq<Bytes>, bits: seq<nat>)

  /** The siblings on the way up from position `i` at height `lvl`, `n` levels of them. */
  function PathFrom(h: Mimc, slots: Slots, lvl: nat, i: nat, n: nat): (p: seq<Block>)
    ensures |p| == n
    decreases n
  {
    if n == 0 then [] else [NodeAt(h, slots, lvl, Sibling(i))] + PathFrom(h, slots, lvl + 1, i / 2, n - 1)
  }

  function BitsOf(i: nat, n: nat): (b: seq<nat>)
    ensures |b| == n
    decreases n
  {
    if n == 0 then [] else [i % 2] + BitsOf(i / 2, n - 1)
  }

  function ProofOf(h: Mimc, slots: Slots, depth: nat, i: nat): Proof {
    Proof(NodeAt(h, slots, depth, 0), Slot(slots, i), i, PathFrom(h, slots, 0, i, depth), BitsOf(i, depth))
  }

  function Step(h: Mimc, cur: Bytes, sibling: Bytes, bit: nat): Block {
    if bit == 0 then HashTwoFields(h, cur, sibling) else HashTwoFields(h, sibling, cur)
  }

  function Fold(h: Mimc, cur: Bytes, path: seq<Bytes>, bits: seq<nat>): Bytes
    requires |path| == |bits|
    decreases |path|
  {
    if path == [] then cur else Fold(h, Step(h, cur, path[0], bits[0]), path[1..], bits[1..])
  }

  predicate Verifies(h: Mimc, p: Proof) {
    |p.path| == |p.bits| && Fold(h, p.leaf, p.path, p.bits) == p.root
  }

  method Verify(h: Mimc, p: Proof) returns (ok: bool)
    ensures ok == Verifies(h, p)
  {
    if |p.path| != |p.bits| {
      return false;
    }
    hide HashTwoFields;
    var current := p.leaf;
    var i := 0;
    while i < |p.path|
      invariant 0 <= i <= |p.path|
      invariant Fold(h, current, p.path[i..], p.bits[i..]) == Fold(h, p.leaf, p.path, p.bits)
    {
      var sibling := p.path[i];
      var hash;
      if p.bits[i] == 0 {
        hash := HashTwoFields(h, current, sibling);
      } else {
        hash := HashTwoFields(h, sibling, current);
      }
      assert p.path[i..][1..] == p.path[i + 1..] && p.bits[i..][1..] == p.bits[i + 1..];
      current := hash;
      i := i + 1;
    }
    assert p.path[i..] == [] && p.bits[i..] == [];
    ok := SameBytes(current, p.root);
  }

  method SameBytes(a: Bytes, b: Bytes) returns (same: bool)
    ensures same == (a == b)
  {
    if |a| != |b| {
      return false;
    }
    var i := 0;
    while i < |a|
      invariant 0 <= i <= |a|
      invariant forall j :: 0 <= j < i ==> a[j] == b[j]
    {
      if a[i] != b[i] {
        return false;
      }
      i := i + 1;
    }
    return true;
  }

  // ----- completeness -----

  lemma {:induction false} PathFolds(h: Mimc, slots: Slots, lvl: nat, i: nat, n: nat, top: nat)
    requires i < Pow2(n) * (top + 1) && Pow2(n) * top <= i
    ensures Fold(h, NodeAt(h, slots, lvl, i), PathFrom(h, slots, lvl, i, n), BitsOf(i, n)) == NodeAt(h, slots, lvl + n, top)
    decreases n
  {
    hide HashTwoFields, Slot;
    if n > 0 {
      var path, bits := PathFrom(h, slots, lvl, i, n), BitsOf(i, n);
      Halve(i, Pow2(n - 1), top);
      PathFolds(h, slots, lvl + 1, i / 2, n - 1, top);
      assert Step(h, NodeAt(h, slots, lvl, i), path[0], bits[0]) == NodeAt(h, slots, lvl + 1, i / 2);
    }
  }

  lemma Halve(i: nat, p: nat, top: nat)
    requires i < 2 * p * (top + 1) && 2 * p * top <= i
    ensures i / 2 < p * (top + 1) && p * top <= i / 2
  {
    assert 2 * p * top == 2 * (p * top);
    assert 2 * p * (top + 1) == 2 * (p * (top + 1));
  }

  /** Every generated proof verifies. */
  lemma GeneratedProofVerifies(h: Mimc, slots: Slots, depth: nat, i: nat)
    requires i < Pow2(depth)
    ensures Verifies(h, ProofOf(h, slots, depth, i))
  {
    hide HashTwoFields, Slot;
    PathFolds(h, slots, 0, i, depth, 0);
  }

  // ----- binding -----

  /** What one step of `Verify` writes to MiMC. */
  function StepInput(cur: Bytes, sibling: Bytes, bit: nat): seq<Element> {
    if bit == 0 then Written(PadTo32(cur)) + Written(PadTo32(sibling)) else Written(PadTo32(sibling)) + Written(PadTo32(cur))
  }

  /** What the tree writes for the node above position `2 * i` at height `lvl`. */
  function NodeInput(h: Mimc, slots: Slots, lvl: nat, i: nat): seq<Element> {
    Written(NodeAt(h, slots, lvl, 2 * i)) + Written(NodeAt(h, slots, lvl, 2 * i + 1))
  }

  /** At some step the fold and the tree hash different inputs, at one and the
      same node, to one and the same element: a collision that can be read off
      the proof and the tree. */
  predicate Clashes(h: Mimc, slots: Slots, lvl: nat, cur: Bytes, path: seq<Bytes>, bits: seq<nat>, top: nat)
    requires |path| == |bits|
    decreases |path|
  {
    path != []
    && (ClashesHere(h, slots, lvl, cur, path[0], bits[0], Descend(top, bits[1..]))
        || Clashes(h, slots, lvl + 1, Step(h, cur, path[0], bits[0]), path[1..], bits[1..], top))
  }

  predicate ClashesHere(h: Mimc, slots: Slots, lvl: nat, cur: Bytes, sibling: Bytes, bit: nat, parent: nat) {
    var mine, trees := StepInput(cur, sibling, bit), NodeInput(h, slots, lvl, parent);
    mine != trees && h(mine) == h(trees)
  }

  /** Equal digests of one step and one node: equal inputs, or a clash. */
  lemma SameInput(h: Mimc, slots: Slots, lvl: nat, parent: nat, cur: Bytes, sibling: Bytes, bit: nat)
    requires Step(h, cur, sibling, bit) == NodeAt(h, slots, lvl + 1, parent)
    ensures ClashesHere(h, slots, lvl, cur, sibling, bit, parent)
            || StepInput(cur, sibling, bit) == NodeInput(h, slots, lvl, parent)
  {
    ToBlockSpells(h(StepInput(cur, sibling, bit)));
    ToBlockSpells(h(NodeInput(h, slots, lvl, parent)));
  }

  lemma WrittenPair(a: Block, b: Block, c: Block, d: Block)
    requires IsCanonical(c) && IsCanonical(d)
    requires Written(a) + Written(b) == Written(c) + Written(d)
    ensures a == c && b == d
  {
    var xs := Written(a) + Written(b);
    assert |xs| == 2;
    assert xs[0] == BigEndian(a) == BigEndian(c) && xs[1] == BigEndian(b) == BigEndian(d);
    BlockByValue(a, c);
    BlockByValue(b, d);
  }

  lemma NodeCanonical(h: Mimc, slots: Slots, lvl: nat, i: nat)
    requires 0 < lvl
    ensures IsCanonical(NodeAt(h, slots, lvl, i))
  {
    ToBlockSpells(h(Written(NodeAt(h, slots, lvl - 1, 2 * i)) + Written(NodeAt(h, slots, lvl - 1, 2 * i + 1))));
  }

  /** The position path bits lead down to from position `top`. */
  function Descend(top: nat, bits: seq<nat>): nat {
    if bits == [] then top else 2 * Descend(top, bits[1..]) + if bits[0] == 0 then 0 else 1
  }

  /** One level: a step that hashes to a node with canonical children started from the child it names. */
  lemma StepOpens(h: Mimc, slots: Slots, lvl: nat, parent: nat, cur: Bytes, sibling: Bytes, bit: nat)
    requires Step(h, cur, sibling, bit) == NodeAt(h, slots, lvl + 1, parent)
    requires IsCanonical(NodeAt(h, slots, lvl, 2 * parent)) && IsCanonical(NodeAt(h, slots, lvl, 2 * parent + 1))
    ensures ClashesHere(h, slots, lvl, cur, sibling, bit, parent)
            || PadTo32(cur) == NodeAt(h, slots, lvl, 2 * parent + if bit == 0 then 0 else 1)
  {
    hide ClashesHere, NodeAt, Step, Written, IsCanonical, PadTo32;
    SameInput(h, slots, lvl, parent, cur, sibling, bit);
    if !ClashesHere(h, slots, lvl, cur, sibling, bit, parent) {
      var l, r := NodeAt(h, slots, lvl, 2 * parent), NodeAt(h, slots, lvl, 2 * parent + 1);
      if bit == 0 {
        WrittenPair(PadTo32(cur), PadTo32(sibling), l, r);
      } else {
        WrittenPair(PadTo32(sibling), PadTo32(cur), l, r);
      }
    }
  }

  lemma {:induction false} FoldOpens(h: Mimc, slots: Slots, lvl: nat, cur: Block, path: seq<Bytes>, bits: seq<nat>, top: nat)
    requires 0 < lvl && |path| == |bits|
    requires Fold(h, cur, path, bits) == NodeAt(h, slots, lvl + |path|, top)
    ensures Clashes(h, slots, lvl, cur, path, bits, top) || cur == NodeAt(h, slots, lvl, Descend(top, bits))
    decreases |path|
  {
    hide HashTwoFields, Slot, IsCanonical, ClashesHere;
    if path != [] {
      var next := Step(h, cur, path[0], bits[0]);
      FoldOpens(h, slots, lvl + 1, next, path[1..], bits[1..], top);
      var parent := Descend(top, bits[1..]);
      NodeCanonical(h, slots, lvl, 2 * parent);
      NodeCanonical(h, slots, lvl, 2 * parent + 1);
      if !Clashes(h, slots, lvl, cur, path, bits, top) { StepOpens(h, slots, lvl, parent, cur, path[0], bits[0]); }
    }
  }

  /** A full-depth proof for position `i` against the tree's own root. */
  predicate ProvesAt(h: Mimc, slots: Slots, depth: nat, i: nat, p: Proof) {
    && |p.path| == depth && |p.bits| == depth && Descend(0, p.bits) == i
    && p.root == NodeAt(h, slots, depth, 0) && Verifies(h, p)
  }

  /** Folding the proof clashes with the tree on some level. */
  predicate ProofClashes(h: Mimc, slots: Slots, p: Proof)
    requires |p.path| == |p.bits|
  {
    Clashes(h, slots, 0, p.leaf, p.path, p.bits, 0)
  }

  /** Where both leaves of a pair are canonical, a proof opens exactly the tree's leaf, or clashes. */
  lemma VerifyBinds(h: Mimc, slots: Slots, depth: nat, i: nat, p: Proof)
    requires 0 < depth && ProvesAt(h, slots, depth, i, p)
    requires IsCanonical(Slot(slots, i)) && IsCanonical(Slot(slots, Sibling(i)))
    ensures ProofClashes(h, slots, p) || PadTo32(p.leaf) == Slot(slots, i)
  {
    hide HashTwoFields, Slot, IsCanonical, ClashesHere;
    var next := Step(h, p.leaf, p.path[0], p.bits[0]);
    FoldOpens(h, slots, 1, next, p.path[1..], p.bits[1..], 0);
    var parent := Descend(0, p.bits[1..]);
    if !ProofClashes(h, slots, p) { StepOpens(h, slots, 0, parent, p.leaf, p.path[0], p.bits[0]); }
  }

  /** Where a leaf of the pair is not canonical, no proof with a canonical leaf and
      sibling verifies without a clash: it hashes two elements where the tree hashed fewer. */
  lemma CanonicalPairClashes(h: Mimc, slots: Slots, depth: nat, i: nat, p: Proof)
    requires 0 < depth && ProvesAt(h, slots, depth, i, p)
    requires IsCanonical(PadTo32(p.leaf)) && IsCanonical(PadTo32(p.path[0]))
    requires !IsCanonical(Slot(slots, i)) || !IsCanonical(Slot(slots, Sibling(i)))
    ensures ProofClashes(h, slots, p)
  {
    hide HashTwoFields, Slot, IsCanonical, StepInput, NodeInput, NodeAt, Step, PadTo32;
    var parent := Descend(0, p.bits[1..]);
    FirstInputs(h, slots, parent, i, p);
    FoldOpens(h, slots, 1, Step(h, p.leaf, p.path[0], p.bits[0]), p.path[1..], p.bits[1..], 0);
    if Step(h, p.leaf, p.path[0], p.bits[0]) == NodeAt(h, slots, 1, parent) {
      SameInput(h, slots, 0, parent, p.leaf, p.path[0], p.bits[0]);
    }
  }

  lemma FirstInputs(h: Mimc, slots: Slots, parent: nat, i: nat, p: Proof)
    requires |p.path| > 0 && |p.bits| > 0 && i == 2 * parent + if p.bits[0] == 0 then 0 else 1
    requires IsCanonical(PadTo32(p.leaf)) && IsCanonical(PadTo32(p.path[0]))
    requires !IsCanonical(Slot(slots, i)) || !IsCanonical(Slot(slots, Sibling(i)))
    ensures StepInput(p.leaf, p.path[0], p.bits[0]) != NodeInput(h, slots, 0, parent)
  {
    hide IsCanonical, Slot, PadTo32;
    assert |StepInput(p.leaf, p.path[0], p.bits[0])| == 2;
    assert |NodeInput(h, slots, 0, parent)| < 2;
  }

  /** Two blocks MiMC refuses, one of them different from `b`. */
  function Refused(b: Block): (c: Block)
    ensures c != b && !IsCanonical(c)
  {
    ToBlockSpells(MODULUS);
    ToBlockSpells(MODULUS + 1);
    if b == Digits(MODULUS, 32) then Digits(MODULUS + 1, 32) else Digits(MODULUS, 32)
  }

  /** A proof of a leaf the tree does not hold, where a leaf of the pair is not canonical. */
  function Forgery(h: Mimc, slots: Slots, depth: nat, i: nat): Proof
    requires 0 < depth
  {
    var p := ProofOf(h, slots, depth, i);
    var mine, other := Slot(slots, i), Slot(slots, Sibling(i));
    var leaf := Refused(mine);
    if IsCanonical(mine) then p.(leaf := leaf, path := [mine] + p.path[1..]) else p.(leaf := leaf)
  }

  lemma {:induction false} BitsDescend(i: nat, n: nat, top: nat)
    requires i < Pow2(n) * (top + 1) && Pow2(n) * top <= i
    ensures Descend(top, BitsOf(i, n)) == i
    decreases n
  {
    if n > 0 {
      Halve(i, Pow2(n - 1), top);
      BitsDescend(i / 2, n - 1, top);
      assert BitsOf(i, n)[1..] == BitsOf(i / 2, n - 1);
    }
  }

  /** One level of the tree's own path: the input it hashes is the tree's. */
  lemma OwnStep(h: Mimc, slots: Slots, lvl: nat, i: nat)
    ensures StepInput(NodeAt(h, slots, lvl, i), NodeAt(h, slots, lvl, Sibling(i)), i % 2) == NodeInput(h, slots, lvl, i / 2)
    ensures Step(h, NodeAt(h, slots, lvl, i), NodeAt(h, slots, lvl, Sibling(i)), i % 2) == NodeAt(h, slots, lvl + 1, i / 2)
  {
    hide HashTwoFields, Slot, Written;
    assert 2 * (i / 2) + i % 2 == i;
  }

  /** The tree's own path hashes the tree's own inputs all the way up. */
  lemma {:induction false} PathNeverClashes(h: Mimc, slots: Slots, lvl: nat, i: nat, n: nat, top: nat)
    requires i < Pow2(n) * (top + 1) && Pow2(n) * top <= i
    ensures !Clashes(h, slots, lvl, NodeAt(h, slots, lvl, i), PathFrom(h, slots, lvl, i, n), BitsOf(i, n), top)
    decreases n
  {
    hide NodeAt, StepInput, NodeInput, Step;
    if n > 0 {
      var path, bits := PathFrom(h, slots, lvl, i, n), BitsOf(i, n);
      Halve(i, Pow2(n - 1), top);
      BitsDescend(i / 2, n - 1, top);
      PathNeverClashes(h, slots, lvl + 1, i / 2, n - 1, top);
      OwnStep(h, slots, lvl, i);
      assert path[1..] == PathFrom(h, slots, lvl + 1, i / 2, n - 1) && bits[1..] == BitsOf(i / 2, n - 1);
    }
  }

  /** A refused block adds nothing, so moving it around leaves the input alone. */
  lemma ForgedStep(mine: Block, other: Block, leaf: Block, bit: nat)
    requires !IsCanonical(leaf)
    ensures !IsCanonical(mine) ==> StepInput(leaf, other, bit) == StepInput(mine, other, bit)
    ensures IsCanonical(mine) && !IsCanonical(other) ==> StepInput(leaf, mine, bit) == StepInput(mine, other, bit)
  {
    var w := Written(mine);
    assert Written(leaf) == [] && [] + w == w == w + [];
  }

  lemma StepHashesInput(h: Mimc, cur: Bytes, sibling: Bytes, bit: nat)
    ensures Step(h, cur, sibling, bit) == ToBlock(h(StepInput(cur, sibling, bit)))
  {
  }

  /** The forgery's first step hashes what the tree's own proof does. */
  lemma ForgeryStarts(h: Mimc, slots: Slots, depth: nat, i: nat)
    requires 0 < depth
    requires !IsCanonical(Slot(slots, i)) || !IsCanonical(Slot(slots, Sibling(i)))
    ensures
      var p, q := ProofOf(h, slots, depth, i), Forgery(h, slots, depth, i);
      && q.path[1..] == p.path[1..] && q.bits == p.bits && q.root == p.root
      && StepInput(q.leaf, q.path[0], q.bits[0]) == StepInput(p.leaf, p.path[0], p.bits[0])
      && Step(h, q.leaf, q.path[0], q.bits[0]) == Step(h, p.leaf, p.path[0], p.bits[0])
  {
    hide HashTwoFields, Slot, IsCanonical, PadTo32, Step, StepInput, Written;
    var p, q := ProofOf(h, slots, depth, i), Forgery(h, slots, depth, i);
    ForgedStep(Slot(slots, i), Slot(slots, Sibling(i)), q.leaf, q.bits[0]);
    StepHashesInput(h, q.leaf, q.path[0], q.bits[0]);
    StepHashesInput(h, p.leaf, p.path[0], p.bits[0]);
  }

  /** It verifies, opens another leaf, and clashes nowhere. */
  lemma ForgeryVerifies(h: Mimc, slots: Slots, depth: nat, i: nat)
    requires 0 < depth && i < Pow2(depth)
    requires !IsCanonical(Slot(slots, i)) || !IsCanonical(Slot(slots, Sibling(i)))
    ensures ProvesAt(h, slots, depth, i, Forgery(h, slots, depth, i))
    ensures PadTo32(Forgery(h, slots, depth, i).leaf) != Slot(slots, i)
    ensures !ProofClashes(h, slots, Forgery(h, slots, depth, i))
  {
    hide HashTwoFields, Slot, IsCanonical, PadTo32, Step, StepInput, NodeInput, Written;
    GeneratedProofVerifies(h, slots, depth, i);
    PathNeverClashes(h, slots, 0, i, depth, 0);
    BitsDescend(i, depth, 0);
    ForgeryStarts(h, slots, depth, i);
  }

  /** Exactly when position `i` is bound: every proof of another leaf there clashes
      with the tree, if and only if the leaf and its sibling are both canonical
      field elements. */
  lemma BoundIffCanonical(h: Mimc, slots: Slots, depth: nat, i: nat)
    requires 0 < depth && i < Pow2(depth)
    ensures (forall p :: ProvesAt(h, slots, depth, i, p) && PadTo32(p.leaf) != Slot(slots, i) ==> ProofClashes(h, slots, p))
              <==> (IsCanonical(Slot(slots, i)) && IsCanonical(Slot(slots, Sibling(i))))
  {
    hide HashTwoFields, Slot, IsCanonical, PadTo32, Clashes;
    if IsCanonical(Slot(slots, i)) && IsCanonical(Slot(slots, Sibling(i))) {
      forall p | ProvesAt(h, slots, depth, i, p)
        ensures ProofClashes(h, slots, p) || PadTo32(p.leaf) == Slot(slots, i)
      {
        VerifyBinds(h, slots, depth, i, p);
      }
    } else {
      ForgeryVerifies(h, slots, depth, i);
    }
  }
}
