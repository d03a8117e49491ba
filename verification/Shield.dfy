/** Member keys and nullifiers, the constraint system over field elements, and
    the assignment the prover builds for it. */
module Shield {
  import opened Field
  import opened Merkle

  const TREE_DEPTH: nat := 20
  const RATE_LIMIT_TAG: nat := 0xFFFF_FFFF_FFFF_FFFF

  // ----- byte-level derivations -----

  /** The field value a byte string is read as. */
  function ElementOf(b: Bytes): Element { BigEndian(PadTo32(b)) % MODULUS }

  function ElementsOf(inputs: seq<Bytes>): (es: seq<Element>)
    ensures |es| == |inputs| && forall i :: 0 <= i < |es| ==> es[i] == ElementOf(inputs[i])
  {
    seq(|inputs|, i requires 0 <= i < |inputs| => ElementOf(inputs[i]))
  }

  function HashToField(h: Mimc, inputs: seq<Bytes>): Block { ToBlock(h(ElementsOf(inputs))) }

  function NumberToBytes(n: nat): Block { Digits(n, 32) }

  function DerivePublicKey(h: Mimc, secretKey: Bytes): Block { HashToField(h, [secretKey]) }

  function ComputeLeaf(h: Mimc, publicKey: Bytes, metadata: nat): Block {
    HashToField(h, [publicKey, NumberToBytes(metadata)])
  }

  function ScopeElement(h: Mimc, domain: nat, rawScope: nat): Block {
    HashToField(h, [NumberToBytes(domain), NumberToBytes(rawScope)])
  }

  function ComputeScopedNullifier(h: Mimc, secretKey: Bytes, domain: nat, rawScope: nat): Block {
    HashToField(h, [secretKey, ScopeElement(h, domain, rawScope)])
  }

  function ComputeRateLimitNullifier(h: Mimc, secretKey: Bytes, epoch: nat): Block {
    HashToField(h, [secretKey, NumberToBytes(RATE_LIMIT_TAG), NumberToBytes(epoch)])
  }

  lemma ReadsBack(n: nat)
    requires n < MODULUS
    ensures ElementOf(NumberToBytes(n)) == n && ElementOf(ToBlock(n)) == n && IsCanonical(ToBlock(n))
  {
    ToBlockSpells(n);
  }

  // ----- the circuit -----

  datatype Circuit = Circuit(
    merkleRoot: Element, nullifier: Element, rateLimitNullifier: Element, minTrustLevel: Element,
    scope: Element, rateLimitEpoch: Element, messageHash: Element,
    secretKey: Element, trustLevel: Element, pathElements: seq<Element>, pathIndices: seq<Element>)

  ghost predicate WellSized(c: Circuit) { |c.pathElements| == TREE_DEPTH && |c.pathIndices| == TREE_DEPTH }

  function Mul(a: Element, b: Element): Element { Reduce(a * b) }

  function Reduce(n: int): Element { n % 21888242871839275222246405745257275088548364400416034343698204186575808495617 }

  /** The gadget's selection: linear in its selector, no branch. */
  function Select(b: Element, yes: Element, no: Element): Element { Reduce(no + b * (yes - no)) }

  class MimcHasher {
    const h: Mimc
    var data: seq<Element>

    constructor (h: Mimc)
      ensures this.h == h && data == []
    {
      this.h := h;
      data := [];
    }

    method Reset()
      modifies this
      ensures data == []
    {
      data := [];
    }

    method Write(x: Element)
      modifies this
      ensures data == old(data) + [x]
    {
      data := data + [x];
    }

    function Sum(): Element
      reads this
    {
      h(data)
    }
  }

  function HashPair(h: Mimc, a: Element, b: Element): Element { h([a, b]) }

  /** The circuit's fold: both orders hashed, one selected. */
  function CircuitFold(h: Mimc, cur: Element, path: seq<Element>, bits: seq<Element>): Element
    requires |path| == |bits|
    decreases |path|
  {
    if path == [] then cur
    else CircuitFold(h, Select(bits[0], HashPair(h, path[0], cur), HashPair(h, cur, path[0])), path[1..], bits[1..])
  }

  method VerifyMerkleProof(hFunc: MimcHasher, c: Circuit, leaf: Element) returns (current: Element)
    requires WellSized(c)
    modifies hFunc
    ensures current == CircuitFold(hFunc.h, leaf, c.pathElements, c.pathIndices)
  {
    current := leaf;
    var i := 0;
    while i < TREE_DEPTH
      invariant 0 <= i <= TREE_DEPTH
      invariant CircuitFold(hFunc.h, current, c.pathElements[i..], c.pathIndices[i..])
             == CircuitFold(hFunc.h, leaf, c.pathElements, c.pathIndices)
    {
      hide Select;
      var sibling := c.pathElements[i];
      hFunc.Reset();
      hFunc.Write(current);
      hFunc.Write(sibling);
      var hashAsLeft := hFunc.Sum();
      assert hFunc.data == [current, sibling];
      hFunc.Reset();
      hFunc.Write(sibling);
      hFunc.Write(current);
      var hashAsRight := hFunc.Sum();
      assert hFunc.data == [sibling, current];
      assert c.pathElements[i..][1..] == c.pathElements[i + 1..] && c.pathIndices[i..][1..] == c.pathIndices[i + 1..];
      current := Select(c.pathIndices[i], hashAsRight, hashAsLeft);
      i := i + 1;
    }
  }

  function BinaryProduct(v: Element): Element { Mul(v, Reduce(v - 1)) }

  /** Whether every constraint `Define` declares holds of an assignment. */
  method Define(c: Circuit, h: Mimc) returns (satisfied: bool)
    requires WellSized(c)
    ensures satisfied == Constraints(h, c)
  {
    hide CircuitFold, BinaryProduct;
    var hFunc := new MimcHasher(h);
    hFunc.Reset();
    hFunc.Write(c.secretKey);
    var publicKey := hFunc.Sum();
    assert hFunc.data == [c.secretKey];
    hFunc.Reset();
    hFunc.Write(publicKey);
    hFunc.Write(c.trustLevel);
    var leaf := hFunc.Sum();
    assert hFunc.data == [publicKey, c.trustLevel];
    var root := VerifyMerkleProof(hFunc, c, leaf);
    satisfied := root == c.merkleRoot && c.minTrustLevel <= c.trustLevel;
    hFunc.Reset();
    hFunc.Write(c.secretKey);
    hFunc.Write(c.scope);
    assert hFunc.data == [c.secretKey, c.scope];
    satisfied := satisfied && hFunc.Sum() == c.nullifier;
    hFunc.Reset();
    hFunc.Write(c.secretKey);
    hFunc.Write(RATE_LIMIT_TAG);
    hFunc.Write(c.rateLimitEpoch);
    assert hFunc.data == [c.secretKey, RATE_LIMIT_TAG, c.rateLimitEpoch];
    satisfied := satisfied && hFunc.Sum() == c.rateLimitNullifier;
    var binary := AssertAllBinary(c.pathIndices);
    satisfied := satisfied && binary;
  }

  method AssertAllBinary(bits: seq<Element>) returns (satisfied: bool)
    requires |bits| == TREE_DEPTH
    ensures satisfied == forall j :: 0 <= j < TREE_DEPTH ==> BinaryProduct(bits[j]) == 0
  {
    hide BinaryProduct;
    satisfied := true;
    var i := 0;
    while i < TREE_DEPTH
      invariant 0 <= i <= TREE_DEPTH
      invariant satisfied == forall j :: 0 <= j < i ==> BinaryProduct(bits[j]) == 0
    {
      satisfied := satisfied && BinaryProduct(bits[i]) == 0;
      i := i + 1;
    }
  }

  ghost predicate Constraints(h: Mimc, c: Circuit)
    requires WellSized(c)
  {
    && CircuitFold(h, h([h([c.secretKey]), c.trustLevel]), c.pathElements, c.pathIndices) == c.merkleRoot
    && c.minTrustLevel <= c.trustLevel
    && h([c.secretKey, c.scope]) == c.nullifier
    && h([c.secretKey, RATE_LIMIT_TAG, c.rateLimitEpoch]) == c.rateLimitNullifier
    && forall j :: 0 <= j < TREE_DEPTH ==> BinaryProduct(c.pathIndices[j]) == 0
  }

  // ----- what the constraints mean -----

  /** The scalar field has no zero divisors: its modulus is prime. */
  ghost predicate ModulusPrime() {
    forall a: Element, b: Element :: Mul(a, b) == 0 ==> a == 0 || b == 0
  }

  predicate Binary(bits: seq<nat>) { forall j :: 0 <= j < |bits| ==> bits[j] <= 1 }

  lemma BinaryIff(v: Element)
    requires ModulusPrime()
    ensures BinaryProduct(v) == 0 <==> v <= 1
  {
    if BinaryProduct(v) == 0 {
      assert v == 0 || Reduce(v - 1) == 0;
    }
  }

  function Blocks(es: seq<Element>): (bs: seq<Bytes>)
    ensures |bs| == |es| && forall i :: 0 <= i < |bs| ==> bs[i] == ToBlock(es[i])
  {
    seq(|es|, i requires 0 <= i < |es| => ToBlock(es[i]))
  }

  lemma SelectBinary(b: Element, yes: Element, no: Element)
    requires b <= 1
    ensures Select(b, yes, no) == if b == 0 then no else yes
  {
    assert b == 0 ==> b * (yes - no) == 0;
    assert b == 1 ==> b * (yes - no) == yes - no;
  }

  lemma PairHash(h: Mimc, a: Element, b: Element)
    ensures HashTwoFields(h, ToBlock(a), ToBlock(b)) == ToBlock(HashPair(h, a, b))
  {
    ToBlockSpells(a);
    ToBlockSpells(b);
    assert Written(ToBlock(a)) + Written(ToBlock(b)) == [a, b];
  }

  /** On binary bits the circuit folds elements as `Verify` folds their bytes. */
  lemma {:induction false} FoldsAlike(h: Mimc, cur: Element, path: seq<Element>, bits: seq<Element>)
    requires |path| == |bits| && Binary(bits)
    ensures Fold(h, ToBlock(cur), Blocks(path), bits) == ToBlock(CircuitFold(h, cur, path, bits))
    decreases |path|
  {
    hide HashTwoFields, ToBlock, Select, HashPair;
    if path != [] {
      var next := Select(bits[0], HashPair(h, path[0], cur), HashPair(h, cur, path[0]));
      SelectBinary(bits[0], HashPair(h, path[0], cur), HashPair(h, cur, path[0]));
      PairHash(h, cur, path[0]);
      PairHash(h, path[0], cur);
      assert Step(h, ToBlock(cur), Blocks(path)[0], bits[0]) == ToBlock(next);
      assert Blocks(path)[1..] == Blocks(path[1..]);
      FoldsAlike(h, next, path[1..], bits[1..]);
    }
  }

  lemma HashesAlike(h: Mimc, inputs: seq<Bytes>, es: seq<Element>)
    requires |inputs| == |es| && forall i :: 0 <= i < |es| ==> ElementOf(inputs[i]) == es[i]
    ensures HashToField(h, inputs) == ToBlock(h(es))
  {
    assert ElementsOf(inputs) == es;
  }

  lemma SameBlock(a: Element, b: Element)
    ensures ToBlock(a) == ToBlock(b) <==> a == b
  {
    ToBlockSpells(a);
    ToBlockSpells(b);
  }

  /** What a satisfying assignment shows, in the bytes the rest of the system uses. */
  ghost predicate Shows(h: Mimc, c: Circuit)
    requires WellSized(c)
  {
    var key := ToBlock(c.secretKey);
    && Binary(c.pathIndices)
    && Verifies(h, Proof(ToBlock(c.merkleRoot), ComputeLeaf(h, DerivePublicKey(h, key), c.trustLevel), 0,
                         Blocks(c.pathElements), c.pathIndices))
    && c.minTrustLevel <= c.trustLevel
    && ToBlock(c.nullifier) == HashToField(h, [key, ToBlock(c.scope)])
    && ToBlock(c.rateLimitNullifier) == ComputeRateLimitNullifier(h, key, c.rateLimitEpoch)
  }

  lemma KeysAlike(h: Mimc, key: Element, trust: Element, scope: Element, epoch: Element)
    ensures ComputeLeaf(h, DerivePublicKey(h, ToBlock(key)), trust) == ToBlock(h([h([key]), trust]))
    ensures HashToField(h, [ToBlock(key), ToBlock(scope)]) == ToBlock(h([key, scope]))
    ensures ComputeRateLimitNullifier(h, ToBlock(key), epoch) == ToBlock(h([key, RATE_LIMIT_TAG, epoch]))
  {
    hide ElementOf, ToBlock, NumberToBytes, HashToField;
    ReadsBack(key);
    ReadsBack(trust);
    ReadsBack(scope);
    ReadsBack(epoch);
    ReadsBack(RATE_LIMIT_TAG);
    ReadsBack(h([key]));
    HashesAlike(h, [ToBlock(key)], [key]);
    HashesAlike(h, [ToBlock(h([key])), NumberToBytes(trust)], [h([key]), trust]);
    HashesAlike(h, [ToBlock(key), ToBlock(scope)], [key, scope]);
    HashesAlike(h, [ToBlock(key), NumberToBytes(RATE_LIMIT_TAG), NumberToBytes(epoch)], [key, RATE_LIMIT_TAG, epoch]);
  }

  /** The constraints hold exactly when the assignment shows a member of the
      tree, with enough trust, and that member's two nullifiers. */
  lemma ConstraintsMean(h: Mimc, c: Circuit)
    requires WellSized(c) && ModulusPrime()
    ensures Constraints(h, c) <==> Shows(h, c)
  {
    hide ComputeLeaf, DerivePublicKey, HashToField, ComputeRateLimitNullifier, ToBlock, CircuitFold, BinaryProduct, Fold, ModulusPrime;
    KeysAlike(h, c.secretKey, c.trustLevel, c.scope, c.rateLimitEpoch);
    var leaf := h([h([c.secretKey]), c.trustLevel]);
    forall j | 0 <= j < TREE_DEPTH
      ensures BinaryProduct(c.pathIndices[j]) == 0 <==> c.pathIndices[j] <= 1
    {
      BinaryIff(c.pathIndices[j]);
    }
    if Binary(c.pathIndices) {
      FoldsAlike(h, leaf, c.pathElements, c.pathIndices);
      SameBlock(CircuitFold(h, leaf, c.pathElements, c.pathIndices), c.merkleRoot);
    }
    SameBlock(h([c.secretKey, c.scope]), c.nullifier);
    SameBlock(h([c.secretKey, RATE_LIMIT_TAG, c.rateLimitEpoch]), c.rateLimitNullifier);
  }

  // ----- the prover -----

  datatype Input = Input(
    secretKey: Bytes, trustLevel: nat, merkleProof: Proof, merkleRoot: Bytes,
    minTrustLevel: nat, domain: nat, scope: nat, rateLimitEpoch: nat, messageHash: Bytes)

  datatype Result<+T> = Ok(value: T) | Err

  /** The Go types' ranges: a uint32 domain and uint64 numbers; the path bits are uint64 too. */
  predicate InRange(i: Input) {
    && i.trustLevel <= RATE_LIMIT_TAG && i.minTrustLevel <= RATE_LIMIT_TAG && i.domain < 0x1_0000_0000
    && i.scope <= RATE_LIMIT_TAG && i.rateLimitEpoch <= RATE_LIMIT_TAG
    && forall j :: 0 <= j < |i.merkleProof.bits| ==> i.merkleProof.bits[j] <= RATE_LIMIT_TAG
  }

  predicate ValidInput(i: Input) {
    |i.secretKey| == 32 && |i.merkleRoot| != 0 && |i.merkleProof.path| == TREE_DEPTH
  }

  /** The proof GenerateProof checks first: the caller's path under a recomputed leaf. */
  function Rechecked(h: Mimc, i: Input): Proof {
    i.merkleProof.(root := i.merkleRoot, leaf := ComputeLeaf(h, DerivePublicKey(h, i.secretKey), i.trustLevel))
  }

  lemma CheckedSizes(h: Mimc, i: Input)
    requires Verifies(h, Rechecked(h, i))
    ensures |i.merkleProof.bits| == |i.merkleProof.path|
  {}

  method GenerateProof(h: Mimc, i: Input) returns (r: Result<Circuit>)
    requires InRange(i)
    ensures r.Ok? <==> ValidInput(i) && Verifies(h, Rechecked(h, i))
    ensures r.Ok? ==> WellSized(r.value) && r.value == AssignmentOf(h, i)
  {
    if |i.secretKey| == 0 || |i.secretKey| != 32 || |i.merkleRoot| == 0 || |i.merkleProof.path| != TREE_DEPTH {
      return Err;
    }
    hide ElementOf, Rechecked, Verifies, Assignment;
    var valid := Verify(h, Rechecked(h, i));
    if !valid {
      return Err;
    }
    CheckedSizes(h, i);
    var elements, indices := FillPath(i.merkleProof.path, i.merkleProof.bits);
    r := Ok(Assignment(h, i, elements, indices));
  }

  /** The loop that sets the path arrays of the assignment. */
  method FillPath(path: seq<Bytes>, bits: seq<nat>) returns (elements: seq<Element>, indices: seq<Element>)
    requires |path| == |bits| == TREE_DEPTH && forall j :: 0 <= j < |bits| ==> bits[j] <= RATE_LIMIT_TAG
    ensures elements == ElementsOf(path) && indices == bits
  {
    hide ElementOf;
    elements, indices := [], [];
    var j := 0;
    while j < TREE_DEPTH
      invariant 0 <= j <= TREE_DEPTH && |elements| == |indices| == j
      invariant forall l :: 0 <= l < j ==> elements[l] == ElementOf(path[l])
      invariant forall l :: 0 <= l < j ==> indices[l] == bits[l]
    {
      elements := elements + [ElementOf(path[j])];
      indices := indices + [bits[j]];
      j := j + 1;
    }
  }

  function Assignment(h: Mimc, i: Input, elements: seq<Element>, indices: seq<Element>): Circuit
    requires InRange(i)
  {
    Circuit(ElementOf(i.merkleRoot), ElementOf(ComputeScopedNullifier(h, i.secretKey, i.domain, i.scope)),
            ElementOf(ComputeRateLimitNullifier(h, i.secretKey, i.rateLimitEpoch)), i.minTrustLevel,
            ElementOf(ScopeElement(h, i.domain, i.scope)), i.rateLimitEpoch, ElementOf(i.messageHash),
            ElementOf(i.secretKey), i.trustLevel, elements, indices)
  }

  function AssignmentOf(h: Mimc, i: Input): Circuit
    requires InRange(i)
  {
    Assignment(h, i, ElementsOf(i.merkleProof.path), i.merkleProof.bits)
  }

  predicate CanonicalPath(path: seq<Bytes>) {
    forall j :: 0 <= j < |path| ==> |path[j]| == 32 && IsCanonical(path[j])
  }

  lemma CanonicalBlocks(path: seq<Bytes>)
    requires CanonicalPath(path)
    ensures Blocks(ElementsOf(path)) == path
  {
    hide ToBlock, ElementOf, IsCanonical;
    forall j | 0 <= j < |path|
      ensures ToBlock(ElementOf(path[j])) == path[j]
    {
      CanonicalBlock(path[j]);
    }
  }

  lemma CanonicalBlock(b: Block)
    requires IsCanonical(b)
    ensures ToBlock(ElementOf(b)) == b
  {
    SpellDigits(b);
    assert BigEndian(b) % MODULUS == BigEndian(b);
  }

  /** A key and the element it is read as derive the same leaf and nullifiers. */
  lemma KeyReads(h: Mimc, key: Bytes, trust: nat, domain: nat, scope: nat, epoch: nat)
    ensures ComputeLeaf(h, DerivePublicKey(h, key), trust) == ComputeLeaf(h, DerivePublicKey(h, ToBlock(ElementOf(key))), trust)
    ensures ComputeScopedNullifier(h, key, domain, scope)
         == HashToField(h, [ToBlock(ElementOf(key)), ToBlock(ElementOf(ScopeElement(h, domain, scope)))])
    ensures ComputeRateLimitNullifier(h, key, epoch) == ComputeRateLimitNullifier(h, ToBlock(ElementOf(key)), epoch)
  {
    hide ElementOf, ToBlock, NumberToBytes;
    var k, s := ElementOf(key), ScopeElement(h, domain, scope);
    ReadsBack(k);
    ReadsBack(ElementOf(s));
    assert ElementsOf([key]) == ElementsOf([ToBlock(k)]);
    assert ElementsOf([key, s]) == ElementsOf([ToBlock(k), ToBlock(ElementOf(s))]);
    assert ElementsOf([key, NumberToBytes(RATE_LIMIT_TAG), NumberToBytes(epoch)])
        == ElementsOf([ToBlock(k), NumberToBytes(RATE_LIMIT_TAG), NumberToBytes(epoch)]);
  }

  lemma DigestReads(h: Mimc, inputs: seq<Bytes>)
    ensures ToBlock(ElementOf(HashToField(h, inputs))) == HashToField(h, inputs)
  {
    ReadsBack(h(ElementsOf(inputs)));
  }

  lemma {:induction false} FoldDigest(h: Mimc, cur: Bytes, path: seq<Bytes>, bits: seq<nat>)
    requires |path| == |bits| && 0 < |path|
    ensures |Fold(h, cur, path, bits)| == 32 && IsCanonical(Fold(h, cur, path, bits))
    decreases |path|
  {
    hide ToBlock;
    var next := Step(h, cur, path[0], bits[0]);
    if |path| == 1 {
      ReadsBack(h(Written(PadTo32(cur)) + Written(PadTo32(path[0]))));
      ReadsBack(h(Written(PadTo32(path[0])) + Written(PadTo32(cur))));
      assert Fold(h, cur, path, bits) == next;
    } else {
      FoldDigest(h, next, path[1..], bits[1..]);
    }
  }

  /** The proof with its path as the circuit reads it: each element reduced into the field. */
  function Reduced(p: Proof): Proof { p.(path := Blocks(ElementsOf(p.path))) }

  /** Once the prover's own check passes, on any path, its assignment satisfies the
      circuit exactly when the bits are binary, trust suffices, and the proof still
      verifies with its path reduced into the field. */
  lemma AssignmentMeans(h: Mimc, i: Input)
    requires ModulusPrime() && InRange(i) && ValidInput(i) && Verifies(h, Rechecked(h, i))
    ensures Constraints(h, AssignmentOf(h, i)) <==>
            Binary(i.merkleProof.bits) && i.minTrustLevel <= i.trustLevel && Verifies(h, Reduced(Rechecked(h, i)))
  {
    hide ComputeLeaf, DerivePublicKey, HashToField, ToBlock, ElementOf, Fold, ModulusPrime, IsCanonical;
    var c, p := AssignmentOf(h, i), Rechecked(h, i);
    ConstraintsMean(h, c);
    KeyReads(h, i.secretKey, i.trustLevel, i.domain, i.scope, i.rateLimitEpoch);
    FoldDigest(h, p.leaf, p.path, p.bits);
    CanonicalBlocks([i.merkleRoot]);
    assert Blocks(ElementsOf([i.merkleRoot]))[0] == i.merkleRoot;
    DigestReads(h, [i.secretKey, ScopeElement(h, i.domain, i.scope)]);
    DigestReads(h, [i.secretKey, NumberToBytes(RATE_LIMIT_TAG), NumberToBytes(i.rateLimitEpoch)]);
  }

  /** On a canonical path reducing changes nothing: the bits must be binary and trust suffice. */
  lemma AssignmentSatisfies(h: Mimc, i: Input)
    requires ModulusPrime() && InRange(i) && ValidInput(i) && Verifies(h, Rechecked(h, i))
    requires CanonicalPath(i.merkleProof.path)
    ensures Constraints(h, AssignmentOf(h, i)) <==> Binary(i.merkleProof.bits) && i.minTrustLevel <= i.trustLevel
  {
    hide Constraints, Fold, ModulusPrime, CanonicalPath;
    AssignmentMeans(h, i);
    CanonicalBlocks(i.merkleProof.path);
  }

  lemma {:induction false} GeneratedPath(h: Mimc, slots: Slots, lvl: nat, i: nat, n: nat)
    requires lvl == 0 && 0 < n ==> IsCanonical(Slot(slots, Sibling(i)))
    ensures CanonicalPath(PathFrom(h, slots, lvl, i, n)) && Binary(BitsOf(i, n))
    decreases n
  {
    hide IsCanonical, HashTwoFields;
    if n > 0 {
      if lvl > 0 { NodeCanonical(h, slots, lvl, Sibling(i)); }
      GeneratedPath(h, slots, lvl + 1, i / 2, n - 1);
    }
  }

  /** A member proven by the tree: the prover accepts. Next to a canonical leaf the
      assignment satisfies the circuit exactly when the member's trust suffices; next
      to one at or above the modulus, never without a clash of MiMC with the tree. */
  lemma MemberProves(h: Mimc, slots: Slots, index: nat, i: Input)
    requires ModulusPrime() && InRange(i) && |i.secretKey| == 32
    requires index < Pow2(TREE_DEPTH)
    requires Slot(slots, index) == ComputeLeaf(h, DerivePublicKey(h, i.secretKey), i.trustLevel)
    requires i.merkleProof == ProofOf(h, slots, TREE_DEPTH, index) && i.merkleRoot == NodeAt(h, slots, TREE_DEPTH, 0)
    ensures ValidInput(i) && Verifies(h, Rechecked(h, i))
    ensures IsCanonical(Slot(slots, Sibling(index))) ==> (Constraints(h, AssignmentOf(h, i)) <==> i.minTrustLevel <= i.trustLevel)
    ensures !IsCanonical(Slot(slots, Sibling(index))) && Constraints(h, AssignmentOf(h, i)) ==>
              ProofClashes(h, slots, Reduced(i.merkleProof))
  {
    hide ComputeLeaf, DerivePublicKey, ModulusPrime, IsCanonical, NodeAt, Slot, Fold, Constraints, Clashes;
    GeneratedProofVerifies(h, slots, TREE_DEPTH, index);
    if IsCanonical(Slot(slots, Sibling(index))) {
      GeneratedPath(h, slots, 0, index, TREE_DEPTH);
      AssignmentSatisfies(h, i);
    } else if Constraints(h, AssignmentOf(h, i)) {
      AssignmentMeans(h, i);
      ReducedClashes(h, slots, index, i);
    }
  }

  lemma ReducedClashes(h: Mimc, slots: Slots, index: nat, i: Input)
    requires index < Pow2(TREE_DEPTH) && !IsCanonical(Slot(slots, Sibling(index)))
    requires i.merkleProof == ProofOf(h, slots, TREE_DEPTH, index) && i.merkleRoot == NodeAt(h, slots, TREE_DEPTH, 0)
    requires Slot(slots, index) == ComputeLeaf(h, DerivePublicKey(h, i.secretKey), i.trustLevel)
    requires Verifies(h, Reduced(Rechecked(h, i)))
    ensures ProofClashes(h, slots, Reduced(i.merkleProof))
  {
    hide ComputeLeaf, DerivePublicKey, IsCanonical, NodeAt, Slot, Fold, Clashes, PadTo32, ElementsOf, Blocks, PathFrom, BitsOf;
    BitsDescend(index, TREE_DEPTH, 0);
    ReducedCanonical(h, i);
    assert Reduced(Rechecked(h, i)) == Reduced(i.merkleProof);
    CanonicalPairClashes(h, slots, TREE_DEPTH, index, Reduced(i.merkleProof));
  }

  lemma ReducedCanonical(h: Mimc, i: Input)
    requires |i.merkleProof.path| > 0
    ensures IsCanonical(PadTo32(ComputeLeaf(h, DerivePublicKey(h, i.secretKey), i.trustLevel)))
    ensures IsCanonical(PadTo32(Reduced(i.merkleProof).path[0]))
  {
    ReadsBack(ElementOf(i.merkleProof.path[0]));
    ReadsBack(h(ElementsOf([DerivePublicKey(h, i.secretKey), NumberToBytes(i.trustLevel)])));
  }

  /** The check before proving takes any nonzero bit for a right turn; the
      circuit does not. Where the path turns right, a 2 passes the check and
      leaves the constraints unsatisfied. */
  lemma {:induction false} CheckTakesAnyTurn(h: Mimc, cur: Bytes, path: seq<Bytes>, bits: seq<nat>, k: nat)
    requires |path| == |bits| && k < |bits| && bits[k] != 0
    ensures Fold(h, cur, path, bits[k := 2]) == Fold(h, cur, path, bits)
    decreases |path|
  {
    hide HashTwoFields;
    if k == 0 {
      assert bits[k := 2][1..] == bits[1..];
    } else {
      assert bits[k := 2][1..] == bits[1..][k - 1 := 2];
      CheckTakesAnyTurn(h, Step(h, cur, path[0], bits[0]), path[1..], bits[1..], k - 1);
    }
  }

  lemma NonBinaryBitUnprovable(h: Mimc, i: Input, k: nat)
    requires ModulusPrime() && InRange(i) && ValidInput(i) && Verifies(h, Rechecked(h, i))
    requires k < TREE_DEPTH && i.merkleProof.bits[k] != 0
    ensures var bad := i.(merkleProof := i.merkleProof.(bits := i.merkleProof.bits[k := 2]));
            InRange(bad) && ValidInput(bad) && Verifies(h, Rechecked(h, bad)) && !Constraints(h, AssignmentOf(h, bad))
  {
    hide ComputeLeaf, DerivePublicKey, Fold, ModulusPrime, CircuitFold;
    var p := Rechecked(h, i);
    CheckTakesAnyTurn(h, p.leaf, p.path, p.bits, k);
    var bad := i.(merkleProof := i.merkleProof.(bits := i.merkleProof.bits[k := 2]));
    BinaryIff(2);
    assert AssignmentOf(h, bad).pathIndices[k] == 2;
  }
}
