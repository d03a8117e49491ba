/** What a shield proof is about: the public inputs the prover fills in and the
    verifier rebuilds, and what two proofs with equal inputs have in common. */
module Statement {
  import opened Field
  import opened Merkle
  import opened Shield

  type Sha = Bytes -> Block

  // ----- binding, up to a named clash -----

  ghost predicate HashClash(h: Mimc, xs: seq<Element>, ys: seq<Element>) { xs != ys && h(xs) == h(ys) }

  lemma DigestsMeet(h: Mimc, xs: seq<Bytes>, ys: seq<Bytes>)
    ensures HashToField(h, xs) == HashToField(h, ys) <==> h(ElementsOf(xs)) == h(ElementsOf(ys))
  {
    hide ToBlock;
    SameBlock(h(ElementsOf(xs)), h(ElementsOf(ys)));
  }

  /** A hash of two inputs is of their two elements. */
  lemma HashOfTwo(h: Mimc, a: Bytes, b: Bytes)
    ensures HashToField(h, [a, b]) == ToBlock(h([ElementOf(a), ElementOf(b)]))
  {
    hide ElementOf, ToBlock;
    assert ElementsOf([a, b]) == [ElementOf(a), ElementOf(b)];
  }

  /** A scope of one domain is a scope of another only by a clash of the hash. */
  lemma ScopesBind(h: Mimc, domain: nat, scope: nat, domain1: nat, scope1: nat)
    requires domain <= RATE_LIMIT_TAG && scope <= RATE_LIMIT_TAG && domain1 <= RATE_LIMIT_TAG && scope1 <= RATE_LIMIT_TAG
    ensures ScopeElement(h, domain, scope) == ScopeElement(h, domain1, scope1) <==>
            (domain == domain1 && scope == scope1) || HashClash(h, [domain, scope], [domain1, scope1])
  {
    hide ElementOf, ToBlock, NumberToBytes;
    ReadsBack(domain);
    ReadsBack(scope);
    ReadsBack(domain1);
    ReadsBack(scope1);
    HashOfTwo(h, NumberToBytes(domain), NumberToBytes(scope));
    HashOfTwo(h, NumberToBytes(domain1), NumberToBytes(scope1));
    SameBlock(h([domain, scope]), h([domain1, scope1]));
    assert [domain, scope] == [domain1, scope1] <==> domain == domain1 && scope == scope1;
  }

  /** What a digest is read back as. */
  lemma DigestElement(h: Mimc, inputs: seq<Bytes>)
    ensures ElementOf(HashToField(h, inputs)) == h(ElementsOf(inputs))
  {
    hide ElementOf, ToBlock;
    ReadsBack(h(ElementsOf(inputs)));
  }

  /** Two action nullifiers are equal only for one key, one domain and one scope, or by a clash. */
  lemma NullifiersBind(h: Mimc, key: Bytes, domain: nat, scope: nat, key1: Bytes, domain1: nat, scope1: nat)
    requires domain <= RATE_LIMIT_TAG && scope <= RATE_LIMIT_TAG && domain1 <= RATE_LIMIT_TAG && scope1 <= RATE_LIMIT_TAG
    requires ComputeScopedNullifier(h, key, domain, scope) == ComputeScopedNullifier(h, key1, domain1, scope1)
    ensures
      || (ElementOf(key) == ElementOf(key1) && domain == domain1 && scope == scope1)
      || HashClash(h, [domain, scope], [domain1, scope1])
      || HashClash(h, [ElementOf(key), ElementOf(ScopeElement(h, domain, scope))],
                      [ElementOf(key1), ElementOf(ScopeElement(h, domain1, scope1))])
  {
    hide ElementOf, ToBlock, ScopeElement;
    var s, s1 := ScopeElement(h, domain, scope), ScopeElement(h, domain1, scope1);
    var xs, ys := [ElementOf(key), ElementOf(s)], [ElementOf(key1), ElementOf(s1)];
    HashOfTwo(h, key, s);
    HashOfTwo(h, key1, s1);
    SameBlock(h(xs), h(ys));
    if xs == ys {
      assert xs[0] == ys[0] && xs[1] == ys[1];
      ScopeReads(h, domain, scope);
      ScopeReads(h, domain1, scope1);
      ScopesBind(h, domain, scope, domain1, scope1);
    }
  }

  lemma ScopeReads(h: Mimc, domain: nat, scope: nat)
    ensures ToBlock(ElementOf(ScopeElement(h, domain, scope))) == ScopeElement(h, domain, scope)
  {
    hide ElementOf, ToBlock;
    DigestReads(h, [NumberToBytes(domain), NumberToBytes(scope)]);
  }

  /** One member's rate-limit nullifiers are equal exactly in one epoch, or by a clash. */
  lemma RateLimitsBind(h: Mimc, key: Bytes, epoch: nat, key1: Bytes, epoch1: nat)
    requires epoch <= RATE_LIMIT_TAG && epoch1 <= RATE_LIMIT_TAG
    ensures ComputeRateLimitNullifier(h, key, epoch) == ComputeRateLimitNullifier(h, key1, epoch1) <==>
            || (ElementOf(key) == ElementOf(key1) && epoch == epoch1)
            || HashClash(h, [ElementOf(key), RATE_LIMIT_TAG, epoch], [ElementOf(key1), RATE_LIMIT_TAG, epoch1])
  {
    hide ElementOf, ToBlock;
    var xs, ys := [ElementOf(key), RATE_LIMIT_TAG, epoch], [ElementOf(key1), RATE_LIMIT_TAG, epoch1];
    RateLimitHashes(h, key, epoch);
    RateLimitHashes(h, key1, epoch1);
    SameBlock(h(xs), h(ys));
    assert xs == ys <==> xs[0] == ys[0] && xs[2] == ys[2];
  }

  lemma RateLimitHashes(h: Mimc, key: Bytes, epoch: nat)
    requires epoch <= RATE_LIMIT_TAG
    ensures ComputeRateLimitNullifier(h, key, epoch) == ToBlock(h([ElementOf(key), RATE_LIMIT_TAG, epoch]))
  {
    hide ElementOf, ToBlock, NumberToBytes;
    ReadsBack(RATE_LIMIT_TAG);
    ReadsBack(epoch);
    assert ElementsOf([key, NumberToBytes(RATE_LIMIT_TAG), NumberToBytes(epoch)]) == [ElementOf(key), RATE_LIMIT_TAG, epoch];
  }

  /** The tag keeps the two kinds apart: a rate-limit nullifier is an action
      nullifier only by a clash. */
  lemma KindsApart(h: Mimc, key: Bytes, domain: nat, scope: nat, key1: Bytes, epoch: nat)
    requires epoch <= RATE_LIMIT_TAG
    requires ComputeScopedNullifier(h, key, domain, scope) == ComputeRateLimitNullifier(h, key1, epoch)
    ensures HashClash(h, [ElementOf(key), ElementOf(ScopeElement(h, domain, scope))], [ElementOf(key1), RATE_LIMIT_TAG, epoch])
  {
    hide ElementOf, ToBlock, ScopeElement;
    var xs, ys := [ElementOf(key), ElementOf(ScopeElement(h, domain, scope))], [ElementOf(key1), RATE_LIMIT_TAG, epoch];
    HashOfTwo(h, key, ScopeElement(h, domain, scope));
    RateLimitHashes(h, key1, epoch);
    SameBlock(h(xs), h(ys));
    assert |xs| != |ys|;
  }

  /** Two members' leaves are equal only for one key and one trust level, or by a clash. */
  lemma LeavesBind(h: Mimc, key: Bytes, trust: nat, key1: Bytes, trust1: nat)
    requires trust <= RATE_LIMIT_TAG && trust1 <= RATE_LIMIT_TAG
    requires ComputeLeaf(h, DerivePublicKey(h, key), trust) == ComputeLeaf(h, DerivePublicKey(h, key1), trust1)
    ensures
      || (ElementOf(key) == ElementOf(key1) && trust == trust1)
      || HashClash(h, [ElementOf(key)], [ElementOf(key1)])
      || HashClash(h, [h([ElementOf(key)]), trust], [h([ElementOf(key1)]), trust1])
  {
    hide ElementOf, ToBlock;
    var xs, ys := [h([ElementOf(key)]), trust], [h([ElementOf(key1)]), trust1];
    LeafHashes(h, key, trust);
    LeafHashes(h, key1, trust1);
    SameBlock(h(xs), h(ys));
    if xs == ys {
      assert xs[0] == ys[0] && xs[1] == ys[1];
      assert [ElementOf(key)] == [ElementOf(key1)] ==> [ElementOf(key)][0] == [ElementOf(key1)][0];
    }
  }

  lemma LeafHashes(h: Mimc, key: Bytes, trust: nat)
    requires trust <= RATE_LIMIT_TAG
    ensures ComputeLeaf(h, DerivePublicKey(h, key), trust) == ToBlock(h([h([ElementOf(key)]), trust]))
  {
    hide ElementOf, ToBlock, NumberToBytes;
    ReadsBack(trust);
    HashOfTwo(h, DerivePublicKey(h, key), NumberToBytes(trust));
    DigestElement(h, [key]);
    assert ElementsOf([key]) == [ElementOf(key)];
  }

  // ----- message hashes -----

  const MESSAGE_DOMAIN := "sparkdream/shield/message/v1"
  const OWNED_DOMAIN := "sparkdream/shield/owned-message/v1"

  function Ascii(s: string): (b: Bytes)
    ensures |b| == |s|
    ensures forall i :: 0 <= i < |s| && s[i] < 128 as char ==> b[i] == s[i] as int
  {
    seq(|s|, i requires 0 <= i < |s| => s[i] as int % 256)
  }

  /** The number's low bytes, `len` of them, as a fixed-width big-endian write leaves them. */
  function FixedWidth(n: nat, len: nat): (b: Bytes)
    ensures |b| == len
  {
    Digits(n, len)
  }

  /** Clears the top three bits. */
  function Masked(b: Block): Block { b[0 := b[0] % 32] }

  function MessageBytes(typeURL: Bytes, value: Bytes): Bytes {
    Ascii(MESSAGE_DOMAIN) + FixedWidth(|typeURL|, 4) + typeURL + value
  }

  function OwnedMessageBytes(typeURL: Bytes, value: Bytes, sequence: nat): Bytes {
    Ascii(OWNED_DOMAIN) + FixedWidth(|typeURL|, 4) + typeURL + value + FixedWidth(sequence, 8)
  }

  function ShieldMessageHash(sha: Sha, typeURL: Bytes, value: Bytes): Block {
    Masked(sha(MessageBytes(typeURL, value)))
  }

  function ShieldOwnedMessageHash(sha: Sha, typeURL: Bytes, value: Bytes, sequence: nat): Block {
    Masked(sha(OwnedMessageBytes(typeURL, value, sequence)))
  }

  ghost predicate ShaClash(sha: Sha, x: Bytes, y: Bytes) { x != y && Masked(sha(x)) == Masked(sha(y)) }

  lemma {:induction false} SpellsHead(b: Bytes)
    requires b != []
    ensures BigEndian(b) == b[0] * Power256(|b| - 1) + BigEndian(b[1..])
    ensures BigEndian(b[1..]) < Power256(|b| - 1)
  {
    var last := |b| - 1;
    if last > 0 {
      SpellsHead(b[..last]);
      assert b[1..][..last - 1] == b[..last][1..];
      assert Power256(last) == 256 * Power256(last - 1);
      assert b[0] * Power256(last) == 256 * (b[0] * Power256(last - 1));
    } else {
      assert b[..0] == [] && b[1..] == [];
    }
  }

  lemma ThirtyTwoFit()
    ensures 32 * Power256(31) < MODULUS
  {
    assert Power256(4) == 0x1_0000_0000;
    assert Power256(8) == 0x1_0000_0000 * Power256(4);
    assert Power256(12) == 0x1_0000_0000 * Power256(8);
    assert Power256(16) == 0x1_0000_0000 * Power256(12);
    assert Power256(20) == 0x1_0000_0000 * Power256(16);
    assert Power256(24) == 0x1_0000_0000 * Power256(20);
    assert Power256(28) == 0x1_0000_0000 * Power256(24);
    assert Power256(31) == 0x100_0000 * Power256(28);
  }

  lemma TopByte(x: nat, p: nat, rest: nat)
    requires rest < p
    ensures x * p + rest == x / 32 * (32 * p) + (x % 32 * p + rest)
    ensures x % 32 * p + rest < 32 * p
  {
    assert x % 32 * p <= 31 * p;
  }

  /** Clearing the top bits leaves what is below 2^253, which is always a field element. */
  lemma MessageHashCanonical(b: Block)
    ensures IsCanonical(Masked(b)) && BigEndian(Masked(b)) < 32 * Power256(31)
    ensures BigEndian(b) == b[0] / 32 * (32 * Power256(31)) + BigEndian(Masked(b))
  {
    hide BigEndian, Power256;
    var m: Bytes := Masked(b);
    SpellsHead(b);
    SpellsHead(m);
    assert m[1..] == b[1..];
    ThirtyTwoFit();
    TopByte(b[0], Power256(31), BigEndian(b[1..]));
  }

  lemma FixedWidthBinds(n: nat, n1: nat, len: nat)
    requires n < Power256(len) && n1 < Power256(len)
    ensures FixedWidth(n, len) == FixedWidth(n1, len) <==> n == n1
  {
    DigitsSpell(n, len);
    DigitsSpell(n1, len);
  }

  /** A length in front of a name says where the name ends. */
  lemma FramedBinds(domain: Bytes, name: Bytes, value: Bytes, name1: Bytes, value1: Bytes)
    requires |name| < 0x1_0000_0000 && |name1| < 0x1_0000_0000
    requires domain + FixedWidth(|name|, 4) + name + value == domain + FixedWidth(|name1|, 4) + name1 + value1
    ensures name == name1 && value == value1
  {
    var x, y := domain + FixedWidth(|name|, 4) + name + value, domain + FixedWidth(|name1|, 4) + name1 + value1;
    var d := |domain|;
    assert Power256(4) == 0x1_0000_0000;
    assert x[d..d + 4] == FixedWidth(|name|, 4) && y[d..d + 4] == FixedWidth(|name1|, 4);
    FixedWidthBinds(|name|, |name1|, 4);
    assert x[d + 4..d + 4 + |name|] == name && y[d + 4..d + 4 + |name|] == name1;
    assert x[d + 4 + |name|..] == value && y[d + 4 + |name|..] == value1;
  }

  /** Two messages have one hash only by a clash of SHA-256 under the mask. */
  lemma MessageBinds(sha: Sha, typeURL: Bytes, value: Bytes, typeURL1: Bytes, value1: Bytes)
    requires |typeURL| < 0x1_0000_0000 && |typeURL1| < 0x1_0000_0000
    ensures ShieldMessageHash(sha, typeURL, value) == ShieldMessageHash(sha, typeURL1, value1) <==>
            (typeURL == typeURL1 && value == value1)
            || ShaClash(sha, MessageBytes(typeURL, value), MessageBytes(typeURL1, value1))
  {
    hide Masked;
    if MessageBytes(typeURL, value) == MessageBytes(typeURL1, value1) {
      FramedBinds(Ascii(MESSAGE_DOMAIN), typeURL, value, typeURL1, value1);
    }
  }

  /** The same with a sequence: a used one never comes back but by a clash. */
  lemma OwnedMessageBinds(sha: Sha, typeURL: Bytes, value: Bytes, sequence: nat, typeURL1: Bytes, value1: Bytes, sequence1: nat)
    requires |typeURL| < 0x1_0000_0000 && |typeURL1| < 0x1_0000_0000
    requires sequence <= RATE_LIMIT_TAG && sequence1 <= RATE_LIMIT_TAG
    ensures ShieldOwnedMessageHash(sha, typeURL, value, sequence) == ShieldOwnedMessageHash(sha, typeURL1, value1, sequence1) <==>
            (typeURL == typeURL1 && value == value1 && sequence == sequence1)
            || ShaClash(sha, OwnedMessageBytes(typeURL, value, sequence), OwnedMessageBytes(typeURL1, value1, sequence1))
  {
    hide Masked;
    var x, y := OwnedMessageBytes(typeURL, value, sequence), OwnedMessageBytes(typeURL1, value1, sequence1);
    if x == y {
      OwnedFrame(typeURL, value, sequence);
      OwnedFrame(typeURL1, value1, sequence1);
      FramedBinds(Ascii(OWNED_DOMAIN), typeURL, value + FixedWidth(sequence, 8), typeURL1, value1 + FixedWidth(sequence1, 8));
      var v, v1 := value + FixedWidth(sequence, 8), value1 + FixedWidth(sequence1, 8);
      assert |v| == |value| + 8 && |v1| == |value1| + 8;
      assert v[..|value|] == value && v1[..|value|] == value1;
      assert v[|value|..] == FixedWidth(sequence, 8) && v1[|value|..] == FixedWidth(sequence1, 8);
      EightBytes();
      FixedWidthBinds(sequence, sequence1, 8);
    }
  }

  lemma OwnedFrame(typeURL: Bytes, value: Bytes, sequence: nat)
    ensures OwnedMessageBytes(typeURL, value, sequence)
         == Ascii(OWNED_DOMAIN) + FixedWidth(|typeURL|, 4) + typeURL + (value + FixedWidth(sequence, 8))
  {}

  lemma EightBytes()
    ensures Power256(8) == RATE_LIMIT_TAG + 1
  {
    assert Power256(4) == 0x1_0000_0000;
    assert Power256(8) == 0x1_0000_0000 * Power256(4);
  }

  lemma DomainsDiffer()
    ensures |Ascii(MESSAGE_DOMAIN)| > 18 && |Ascii(OWNED_DOMAIN)| > 18 && Ascii(MESSAGE_DOMAIN)[18] != Ascii(OWNED_DOMAIN)[18]
  {}

  lemma PrefixesDiffer(a: Bytes, b: Bytes, x: Bytes, y: Bytes)
    requires |a| > 18 && |b| > 18 && a[18] != b[18]
    ensures a + x != b + y
  {
    assert (a + x)[18] == a[18] && (b + y)[18] == b[18];
  }

  /** A plain message and an owned one share a hash only by a clash. */
  lemma ModesApart(sha: Sha, typeURL: Bytes, value: Bytes, typeURL1: Bytes, value1: Bytes, sequence: nat)
    requires ShieldMessageHash(sha, typeURL, value) == ShieldOwnedMessageHash(sha, typeURL1, value1, sequence)
    ensures ShaClash(sha, MessageBytes(typeURL, value), OwnedMessageBytes(typeURL1, value1, sequence))
  {
    hide Masked, FixedWidth, Ascii;
    DomainsDiffer();
    var rest := FixedWidth(|typeURL|, 4) + typeURL + value;
    var rest1 := FixedWidth(|typeURL1|, 4) + typeURL1 + value1 + FixedWidth(sequence, 8);
    assert MessageBytes(typeURL, value) == Ascii(MESSAGE_DOMAIN) + rest;
    assert OwnedMessageBytes(typeURL1, value1, sequence) == Ascii(OWNED_DOMAIN) + rest1;
    PrefixesDiffer(Ascii(MESSAGE_DOMAIN), Ascii(OWNED_DOMAIN), rest, rest1);
  }

  // ----- what a verifier rebuilds -----

  /** What the prover hands over beside the proof bytes. */
  datatype Output = Output(
    nullifier: Bytes, rateLimitNullifier: Bytes, merkleRoot: Bytes, minTrustLevel: nat,
    domain: nat, scope: nat, rateLimitEpoch: nat, messageHash: Bytes)

  /** The circuit's public inputs. */
  datatype PublicInputs = PublicInputs(
    merkleRoot: Element, nullifier: Element, rateLimitNullifier: Element, minTrustLevel: Element,
    scope: Element, rateLimitEpoch: Element, messageHash: Element)

  function Public(c: Circuit): PublicInputs {
    PublicInputs(c.merkleRoot, c.nullifier, c.rateLimitNullifier, c.minTrustLevel, c.scope, c.rateLimitEpoch, c.messageHash)
  }

  predicate OutputInRange(o: Output) {
    && o.minTrustLevel <= RATE_LIMIT_TAG && o.domain < 0x1_0000_0000 && o.scope <= RATE_LIMIT_TAG
    && o.rateLimitEpoch <= RATE_LIMIT_TAG
  }

  function OutputOf(h: Mimc, i: Input): Output {
    Output(ComputeScopedNullifier(h, i.secretKey, i.domain, i.scope), ComputeRateLimitNullifier(h, i.secretKey, i.rateLimitEpoch),
           i.merkleRoot, i.minTrustLevel, i.domain, i.scope, i.rateLimitEpoch, i.messageHash)
  }

  /** The public witness `Verify` checks a proof against. */
  function Rebuilt(h: Mimc, o: Output): PublicInputs
    requires OutputInRange(o)
  {
    PublicInputs(ElementOf(o.merkleRoot), ElementOf(o.nullifier), ElementOf(o.rateLimitNullifier), o.minTrustLevel,
                 ElementOf(ScopeElement(h, o.domain, o.scope)), o.rateLimitEpoch, ElementOf(o.messageHash))
  }

  predicate CanonicalBytes(b: Bytes) { |b| == 32 && IsCanonical(b) }

  lemma ElementBinds(a: Bytes, b: Bytes)
    requires CanonicalBytes(a) && CanonicalBytes(b)
    ensures ElementOf(a) == ElementOf(b) <==> a == b
  {
    hide ElementOf, ToBlock, IsCanonical;
    CanonicalBlock(a);
    CanonicalBlock(b);
  }

  lemma DigestCanonical(h: Mimc, inputs: seq<Bytes>)
    ensures CanonicalBytes(HashToField(h, inputs))
  {
    hide ToBlock;
    ReadsBack(h(ElementsOf(inputs)));
  }

  /** A proof is good for exactly the output it was made with: a verifier handed
      any other output, in canonical form, checks other public inputs. Only the
      domain and scope of a clashing scope element could be exchanged. */
  lemma ProofPinsOutput(h: Mimc, i: Input, o: Output)
    requires InRange(i) && CanonicalBytes(i.merkleRoot) && CanonicalBytes(i.messageHash)
    requires OutputInRange(o) && CanonicalBytes(o.merkleRoot) && CanonicalBytes(o.messageHash)
    requires CanonicalBytes(o.nullifier) && CanonicalBytes(o.rateLimitNullifier)
    ensures Rebuilt(h, o) == Public(AssignmentOf(h, i)) <==>
            && o == OutputOf(h, i).(domain := o.domain, scope := o.scope)
            && ((o.domain == i.domain && o.scope == i.scope) || HashClash(h, [i.domain, i.scope], [o.domain, o.scope]))
  {
    hide ElementOf, CanonicalBytes, ScopeElement, ComputeScopedNullifier, ComputeRateLimitNullifier, HashClash;
    NullifierForms(h, i);
    ElementBinds(o.merkleRoot, i.merkleRoot);
    ElementBinds(o.messageHash, i.messageHash);
    ElementBinds(o.nullifier, OutputOf(h, i).nullifier);
    ElementBinds(o.rateLimitNullifier, OutputOf(h, i).rateLimitNullifier);
    ScopeForm(h, i.domain, i.scope);
    ScopeForm(h, o.domain, o.scope);
    ElementBinds(ScopeElement(h, i.domain, i.scope), ScopeElement(h, o.domain, o.scope));
    ScopesBind(h, i.domain, i.scope, o.domain, o.scope);
  }

  lemma ScopeForm(h: Mimc, domain: nat, scope: nat)
    ensures CanonicalBytes(ScopeElement(h, domain, scope))
  {
    hide CanonicalBytes;
    DigestCanonical(h, [NumberToBytes(domain), NumberToBytes(scope)]);
  }

  lemma NullifierForms(h: Mimc, i: Input)
    ensures CanonicalBytes(OutputOf(h, i).nullifier) && CanonicalBytes(OutputOf(h, i).rateLimitNullifier)
  {
    hide CanonicalBytes;
    DigestCanonical(h, [i.secretKey, ScopeElement(h, i.domain, i.scope)]);
    DigestCanonical(h, [i.secretKey, NumberToBytes(RATE_LIMIT_TAG), NumberToBytes(i.rateLimitEpoch)]);
  }

  /** Two proofs with the same public inputs are of one key in one epoch with one
      action, root, threshold and message, or show a clash. */
  lemma InputsBind(h: Mimc, i: Input, j: Input)
    requires InRange(i) && CanonicalBytes(i.merkleRoot) && CanonicalBytes(i.messageHash)
    requires InRange(j) && CanonicalBytes(j.merkleRoot) && CanonicalBytes(j.messageHash)
    requires Public(AssignmentOf(h, i)) == Public(AssignmentOf(h, j))
    ensures i.merkleRoot == j.merkleRoot && i.messageHash == j.messageHash
    ensures i.minTrustLevel == j.minTrustLevel && i.rateLimitEpoch == j.rateLimitEpoch
    ensures (i.domain == j.domain && i.scope == j.scope) || HashClash(h, [i.domain, i.scope], [j.domain, j.scope])
    ensures ElementOf(i.secretKey) == ElementOf(j.secretKey)
            || HashClash(h, [ElementOf(i.secretKey), RATE_LIMIT_TAG, i.rateLimitEpoch],
                            [ElementOf(j.secretKey), RATE_LIMIT_TAG, j.rateLimitEpoch])
  {
    hide ElementOf, CanonicalBytes, ComputeScopedNullifier, ComputeRateLimitNullifier, HashClash, ScopeElement;
    NullifierForms(h, j);
    assert Rebuilt(h, OutputOf(h, j)) == Public(AssignmentOf(h, j));
    ProofPinsOutput(h, i, OutputOf(h, j));
    RateLimitsBind(h, i.secretKey, i.rateLimitEpoch, j.secretKey, j.rateLimitEpoch);
  }
}
