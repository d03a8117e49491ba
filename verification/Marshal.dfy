/** The generated marshalling of a shielded message: sizes first, then the fields
    from the last to the first, each written in front of what follows it. */
module Marshal {
  import opened Wrappers
  import opened Field
  import opened Fragment

  // ----- sizes -----

  /** The position of a number's highest bit, from one. */
  function Len64(x: nat): nat { if x == 0 then 0 else 1 + Len64(x / 2) }

  /** How many bytes a varint takes; setting the lowest bit makes zero take one. */
  function Sov(x: nat): nat { (Len64(if x == 0 then 1 else x) + 6) / 7 }

  lemma OneBit(x: nat)
    requires 0 < x
    ensures Len64(x) == 1 + Len64(x / 2)
  {}

  lemma SevenBits(x: nat)
    requires 128 <= x
    ensures Len64(x) == 7 + Len64(x / 128)
  {
    hide Len64;
    OneBit(x);
    OneBit(x / 2);
    OneBit(x / 2 / 2);
    OneBit(x / 2 / 2 / 2);
    OneBit(x / 2 / 2 / 2 / 2);
    OneBit(x / 2 / 2 / 2 / 2 / 2);
    OneBit(x / 2 / 2 / 2 / 2 / 2 / 2);
    assert x / 2 / 2 / 2 / 2 / 2 / 2 / 2 == x / 128;
  }

  lemma {:induction false} FewBits(x: nat, n: nat, bound: nat)
    requires x < bound && bound == Power2(n)
    ensures Len64(x) <= n && (0 < x ==> 0 < Len64(x))
    decreases n
  {
    if x > 0 { FewBits(x / 2, n - 1, Power2(n - 1)); }
  }

  function Power2(n: nat): nat { if n == 0 then 1 else 2 * Power2(n - 1) }

  /** The size computed from the bits is the size of the varint written. */
  lemma {:induction false} SovIsSize(x: nat)
    ensures Sov(x) == |Varint(x)|
  {
    if x == 0 {
      assert Len64(1) == 1 by { assert Len64(0) == 0; }
    } else if x < 128 {
      assert Power2(7) == 128;
      FewBits(x, 7, 128);
    } else {
      SevenBits(x);
      SovIsSize(x / 128);
    }
  }

  // ----- the message -----

  datatype Any = Any(typeUrl: Bytes, value: Bytes)

  /** Enumerations and numbers as the 64-bit casts leave them. */
  datatype ShieldedExec = ShieldedExec(
    submitter: Bytes, inner: Option<Any>, proof: Bytes, nullifier: Bytes, rateLimitNullifier: Bytes, merkleRoot: Bytes,
    proofDomain: nat, minTrustLevel: nat, execMode: nat, encryptedPayload: Bytes, targetEpoch: nat)

  function LenSize(v: Bytes): nat { if |v| > 0 then 1 + |v| + Sov(|v|) else 0 }

  function NumberSize(x: nat): nat { if x != 0 then 1 + Sov(x) else 0 }

  function AnySize(y: Any): nat { LenSize(y.typeUrl) + LenSize(y.value) }

  function InnerSize(inner: Option<Any>): nat {
    if inner.Some? then 1 + AnySize(inner.value) + Sov(AnySize(inner.value)) else 0
  }

  function Size(m: ShieldedExec): nat {
    LenSize(m.submitter) + InnerSize(m.inner) + LenSize(m.proof) + LenSize(m.nullifier) + LenSize(m.rateLimitNullifier)
    + LenSize(m.merkleRoot) + NumberSize(m.proofDomain) + NumberSize(m.minTrustLevel) + NumberSize(m.execMode)
    + LenSize(m.encryptedPayload) + NumberSize(m.targetEpoch)
  }

  // ----- the wire form, front to back -----

  /** A number field: its tag and a varint, or nothing for zero. */
  function NumberField(field: nat, x: nat): Bytes { if x == 0 then [] else Varint(field * 8) + Varint(x) }

  /** A message field is there even when it is empty, if it is there at all. */
  function InnerField(inner: Option<Any>): Bytes {
    if inner.None? then []
    else var any := AnyOf(inner.value.typeUrl, inner.value.value); Varint(18) + Varint(|any|) + any
  }

  /** Fields in the order of their numbers. */
  function Wire(m: ShieldedExec): Bytes {
    BytesField(1, m.submitter) + (InnerField(m.inner) + (BytesField(3, m.proof) + (BytesField(4, m.nullifier) + Unset(m))))
  }

  /** The fields a fragment leaves to the chain. */
  function Unset(m: ShieldedExec): Bytes {
    BytesField(5, m.rateLimitNullifier) + (BytesField(6, m.merkleRoot) + (NumberField(7, m.proofDomain)
    + (NumberField(8, m.minTrustLevel) + (NumberField(9, m.execMode) + (BytesField(10, m.encryptedPayload)
    + NumberField(11, m.targetEpoch))))))
  }

  lemma BytesSize(field: nat, v: Bytes)
    requires field < 16
    ensures |BytesField(field, v)| == LenSize(v)
    ensures v != [] ==> BytesField(field, v) == [field * 8 + 2] + Varint(|v|) + v
  {
    SovIsSize(|v|);
  }

  lemma NumberFieldSize(field: nat, x: nat)
    requires field < 16
    ensures |NumberField(field, x)| == NumberSize(x)
    ensures x != 0 ==> NumberField(field, x) == [field * 8] + Varint(x)
  {
    SovIsSize(x);
  }

  lemma InnerFieldSize(inner: Option<Any>)
    ensures |InnerField(inner)| == InnerSize(inner)
    ensures inner.Some? ==> |AnyOf(inner.value.typeUrl, inner.value.value)| == AnySize(inner.value)
  {
    if inner.Some? {
      BytesSize(1, inner.value.typeUrl);
      BytesSize(2, inner.value.value);
      SovIsSize(AnySize(inner.value));
      assert |Varint(18)| == 1;
    }
  }

  /** The size computed beforehand is that of the wire form. */
  lemma SizeIsWire(m: ShieldedExec)
    ensures Size(m) == |Wire(m)|
  {
    hide BytesField, NumberField, InnerField, LenSize, NumberSize, InnerSize;
    BytesSize(1, m.submitter);
    InnerFieldSize(m.inner);
    BytesSize(3, m.proof);
    BytesSize(4, m.nullifier);
    BytesSize(5, m.rateLimitNullifier);
    BytesSize(6, m.merkleRoot);
    NumberFieldSize(7, m.proofDomain);
    NumberFieldSize(8, m.minTrustLevel);
    NumberFieldSize(9, m.execMode);
    BytesSize(10, m.encryptedPayload);
    NumberFieldSize(11, m.targetEpoch);
  }

  // ----- writing back to front -----

  /** Writes a varint in front of `offset` and returns where it starts. */
  method EncodeVarint(a: array<Byte>, offset: nat, value: nat) returns (base: nat)
    requires Sov(value) <= offset <= a.Length
    modifies a
    ensures base == offset - Sov(value)
    ensures a[base..] == Varint(value) + old(a[offset..])
  {
    SovIsSize(value);
    base := offset - Sov(value);
    var o, v := base, value;
    ghost var tail := a[offset..];
    while v >= 128
      invariant base <= o && o + |Varint(v)| == offset
      invariant a[base..o] + Varint(v) == Varint(value)
      invariant a[offset..] == tail
    {
      ghost var before := a[base..o];
      a[o] := v % 128 + 128;
      assert a[base..o + 1] == before + [v % 128 + 128];
      v := v / 128;
      o := o + 1;
    }
    ghost var before := a[base..o];
    a[o] := v;
    assert a[base..] == before + [v] + a[offset..];
  }

  method PutByte(a: array<Byte>, i: nat, b: Byte) returns (j: nat)
    requires 0 < i <= a.Length
    modifies a
    ensures j == i - 1 && a[j..] == [b] + old(a[i..])
  {
    j := i - 1;
    a[j] := b;
  }

  /** Copies bytes in front of `i`. */
  method Copy(a: array<Byte>, i: nat, v: Bytes) returns (j: nat)
    requires |v| <= i <= a.Length
    modifies a
    ensures j == i - |v| && a[j..] == v + old(a[i..])
  {
    j := i - |v|;
    var k := 0;
    ghost var tail := a[i..];
    while k < |v|
      invariant 0 <= k <= |v| && a[j..j + k] == v[..k] && a[i..] == tail
    {
      a[j + k] := v[k];
      assert a[j..j + k + 1] == a[j..j + k] + [v[k]];
      k := k + 1;
    }
    assert a[j..] == a[j..j + k] + a[i..];
  }

  lemma Regroup(tag: Bytes, len: Bytes, v: Bytes, rest: Bytes)
    ensures tag + (len + (v + rest)) == (tag + len + v) + rest
  {}

  method PutBytes(a: array<Byte>, i: nat, field: nat, v: Bytes) returns (j: nat)
    requires field < 16 && LenSize(v) <= i <= a.Length
    modifies a
    ensures j == i - LenSize(v) && a[j..] == BytesField(field, v) + old(a[i..])
  {
    hide Varint, Sov, BytesField;
    j := i;
    BytesSize(field, v);
    if |v| > 0 {
      ghost var was := a[i..];
      j := Copy(a, j, v);
      j := EncodeVarint(a, j, |v|);
      j := PutByte(a, j, field * 8 + 2);
      Regroup([field * 8 + 2], Varint(|v|), v, was);
    }
  }

  method PutNumber(a: array<Byte>, i: nat, field: nat, x: nat) returns (j: nat)
    requires field < 16 && NumberSize(x) <= i <= a.Length
    modifies a
    ensures j == i - NumberSize(x) && a[j..] == NumberField(field, x) + old(a[i..])
  {
    hide Varint, Sov, NumberField;
    j := i;
    NumberFieldSize(field, x);
    if x != 0 {
      ghost var was := a[i..];
      j := EncodeVarint(a, j, x);
      j := PutByte(a, j, field * 8);
      Regroup([], [field * 8], Varint(x), was);
    } else {
      assert NumberField(field, x) == [];
    }
  }

  lemma InnerShape(inner: Option<Any>)
    ensures inner.None? ==> InnerField(inner) == [] && InnerSize(inner) == 0
    ensures inner.Some? ==>
      var any := AnyOf(inner.value.typeUrl, inner.value.value);
      && InnerField(inner) == [18] + Varint(|any|) + any
      && InnerSize(inner) == 1 + |any| + Sov(|any|)
      && |any| == LenSize(inner.value.typeUrl) + LenSize(inner.value.value)
  {
    InnerFieldSize(inner);
    assert Varint(18) == [18];
  }

  method PutInner(a: array<Byte>, i: nat, inner: Option<Any>) returns (j: nat)
    requires InnerSize(inner) <= i <= a.Length
    modifies a
    ensures j == i - InnerSize(inner) && a[j..] == InnerField(inner) + old(a[i..])
  {
    hide BytesField, Sov, LenSize, InnerSize, InnerField, Varint;
    j := i;
    InnerFieldSize(inner);
    InnerShape(inner);
    if inner.Some? {
      ghost var any := AnyOf(inner.value.typeUrl, inner.value.value);
      ghost var was := a[i..];
      j := PutBytes(a, j, 2, inner.value.value);
      j := PutBytes(a, j, 1, inner.value.typeUrl);
      assert a[j..] == any + was by { Regroup([], BytesField(1, inner.value.typeUrl), BytesField(2, inner.value.value), was); }
      j := EncodeVarint(a, j, i - j);
      j := PutByte(a, j, 18);
      Regroup([18], Varint(|any|), any, was);
    }
  }

  method MarshalToSizedBuffer(m: ShieldedExec, a: array<Byte>) returns (n: nat)
    requires Size(m) <= a.Length
    modifies a
    ensures n == Size(m) && a[a.Length - n..] == Wire(m)
  {
    hide BytesField, NumberField, InnerField, LenSize, NumberSize, InnerSize;
    var i := a.Length;
    i := PutNumber(a, i, 11, m.targetEpoch);
    i := PutBytes(a, i, 10, m.encryptedPayload);
    i := PutNumber(a, i, 9, m.execMode);
    i := PutNumber(a, i, 8, m.minTrustLevel);
    i := PutNumber(a, i, 7, m.proofDomain);
    i := PutBytes(a, i, 6, m.merkleRoot);
    i := PutBytes(a, i, 5, m.rateLimitNullifier);
    assert a[i..] == Unset(m);
    i := PutBytes(a, i, 4, m.nullifier);
    i := PutBytes(a, i, 3, m.proof);
    i := PutInner(a, i, m.inner);
    i := PutBytes(a, i, 1, m.submitter);
    n := a.Length - i;
  }

  method MarshalExec(m: ShieldedExec) returns (bz: Bytes)
    ensures bz == Wire(m)
  {
    var a := new Byte[Size(m)];
    var n := MarshalToSizedBuffer(m, a);
    bz := a[..n];
  }

  // ----- the promise -----

  /** A message with nothing set but what a fragment carries. */
  function FragmentMessage(x: Exec): ShieldedExec {
    ShieldedExec([], Some(Any(x.typeUrl, x.value)), x.proof, x.nullifier, [], [], 0, 0, 0, [], 0)
  }

  /** The hand-written encoding is byte for byte the generated one. */
  lemma ByteIdentical(x: Exec)
    requires x.typeUrl != []
    ensures Encoding(x) == Wire(FragmentMessage(x))
  {
    hide Varint, AnyOf;
    NonEmptyAny(x);
    assert Unset(FragmentMessage(x)) == [];
  }

  lemma NonEmptyAny(x: Exec)
    requires x.typeUrl != []
    ensures AnyOf(x.typeUrl, x.value) != []
  {}

  // ----- reading any marshalled message -----

  ghost predicate Fits(m: ShieldedExec) {
    && Sliceable(m.submitter) && Sliceable(m.proof) && Sliceable(m.nullifier) && Sliceable(m.rateLimitNullifier)
    && Sliceable(m.merkleRoot) && Sliceable(m.encryptedPayload)
    && (m.inner.Some? ==> Sliceable(m.inner.value.typeUrl) && Sliceable(m.inner.value.value)
                          && Sliceable(AnyOf(m.inner.value.typeUrl, m.inner.value.value)))
    && m.proofDomain < 0x1_0000_0000_0000_0000 && m.minTrustLevel < 0x1_0000_0000_0000_0000
    && m.execMode < 0x1_0000_0000_0000_0000 && m.targetEpoch < 0x1_0000_0000_0000_0000
  }

  lemma NumberItem(field: nat, x: nat, suffix: Bytes)
    requires field < 16 && 0 < x < 0x1_0000_0000_0000_0000
    ensures NextItem(NumberField(field, x) + suffix) == Ok(Item(map[], |NumberField(field, x)|))
  {
    hide ReadFrom, Varint;
    var tail := Varint(x) + suffix;
    assert NumberField(field, x) + suffix == Varint(field * 8) + tail;
    VarintRoundTrip(field * 8, tail);
    VarintRoundTrip(x, suffix);
    assert (NumberField(field, x) + suffix)[|Varint(field * 8)|..] == tail;
  }

  /** A number field is skipped. */
  lemma NumberParses(field: nat, x: nat, suffix: Bytes)
    requires field < 16 && x < 0x1_0000_0000_0000_0000 && Parse(suffix).Ok?
    ensures Parse(NumberField(field, x) + suffix) == Parse(suffix)
  {
    hide NextItem;
    if x == 0 {
      assert NumberField(field, x) + suffix == suffix;
    } else {
      NumberItem(field, x, suffix);
      assert (NumberField(field, x) + suffix)[|NumberField(field, x)|..] == suffix;
      var none: Fields := map[];
      assert none + Parse(suffix).value == Parse(suffix).value;
    }
  }

  lemma InnerItem(any: Bytes, suffix: Bytes)
    requires Sliceable(any)
    ensures NextItem(Varint(18) + Varint(|any|) + any + suffix) == Ok(Item(map[2 := any], |Varint(18) + Varint(|any|) + any|))
  {
    hide ReadFrom, Varint;
    var tail := Varint(|any|) + (any + suffix);
    var bz := Varint(18) + Varint(|any|) + any + suffix;
    assert bz == Varint(18) + tail;
    VarintRoundTrip(18, tail);
    VarintRoundTrip(|any|, any + suffix);
    var n, m := |Varint(18)|, |Varint(|any|)|;
    assert bz[n..] == tail;
    assert tail[m..m + |any|] == any;
  }

  lemma InnerParses(inner: Option<Any>, suffix: Bytes)
    requires Parse(suffix).Ok?
    requires inner.Some? ==> Sliceable(AnyOf(inner.value.typeUrl, inner.value.value))
    ensures Parse(InnerField(inner) + suffix) ==
            Ok((if inner.None? then map[] else map[2 := AnyOf(inner.value.typeUrl, inner.value.value)]) + Parse(suffix).value)
  {
    hide NextItem, Varint;
    if inner.None? {
      assert InnerField(inner) + suffix == suffix;
      var none: Fields := map[];
      assert none + Parse(suffix).value == Parse(suffix).value;
    } else {
      InnerItem(AnyOf(inner.value.typeUrl, inner.value.value), suffix);
      assert (InnerField(inner) + suffix)[|InnerField(inner)|..] == suffix;
    }
  }

  /** What an optional field adds to the fields after it. */
  function Bound(field: nat, v: Bytes): Fields { if v == [] then map[] else map[field := v] }

  lemma UnsetParses(m: ShieldedExec)
    requires Fits(m)
    ensures Parse(Unset(m)) ==
            Ok(Bound(5, m.rateLimitNullifier) + (Bound(6, m.merkleRoot) + (Bound(10, m.encryptedPayload) + map[])))
  {
    hide Parse, NumberField, BytesField;
    EmptyParses();
    NumberParses(11, m.targetEpoch, []);
    var s11 := NumberField(11, m.targetEpoch);
    assert s11 + [] == s11;
    FieldParses(10, m.encryptedPayload, s11);
    var s10 := BytesField(10, m.encryptedPayload) + s11;
    NumberParses(9, m.execMode, s10);
    var s9 := NumberField(9, m.execMode) + s10;
    NumberParses(8, m.minTrustLevel, s9);
    var s8 := NumberField(8, m.minTrustLevel) + s9;
    NumberParses(7, m.proofDomain, s8);
    var s7 := NumberField(7, m.proofDomain) + s8;
    FieldParses(6, m.merkleRoot, s7);
    FieldParses(5, m.rateLimitNullifier, BytesField(6, m.merkleRoot) + s7);
  }

  lemma WireParses(m: ShieldedExec)
    requires Fits(m)
    ensures
      Parse(Wire(m)) ==
      Ok(Bound(1, m.submitter)
         + ((if m.inner.None? then map[] else map[2 := AnyOf(m.inner.value.typeUrl, m.inner.value.value)])
            + (Bound(3, m.proof) + (Bound(4, m.nullifier)
               + (Bound(5, m.rateLimitNullifier) + (Bound(6, m.merkleRoot) + (Bound(10, m.encryptedPayload) + map[])))))))
  {
    hide Parse, NumberField, BytesField, InnerField, Unset;
    UnsetParses(m);
    FieldParses(4, m.nullifier, Unset(m));
    var s4 := BytesField(4, m.nullifier) + Unset(m);
    FieldParses(3, m.proof, s4);
    var s3 := BytesField(3, m.proof) + s4;
    InnerParses(m.inner, s3);
    FieldParses(1, m.submitter, InnerField(m.inner) + s3);
  }

  lemma AnyParses(y: Any)
    requires Sliceable(y.typeUrl) && Sliceable(y.value)
    ensures Parse(AnyOf(y.typeUrl, y.value)) == Ok(Bound(1, y.typeUrl) + (Bound(2, y.value) + map[]))
  {
    hide Parse, BytesField;
    EmptyParses();
    FieldParses(2, y.value, []);
    assert BytesField(2, y.value) + [] == BytesField(2, y.value);
    FieldParses(1, y.typeUrl, BytesField(2, y.value));
  }

  /** The fragment reader finds a fragment's parts in any marshalled message, whatever
      else is set, and refuses exactly a message without an inner one. */
  lemma ReadsAnyMessage(m: ShieldedExec)
    requires Fits(m)
    ensures Decoding(Wire(m)) ==
            if m.inner.None? then Err else Ok(Exec(m.inner.value.typeUrl, m.inner.value.value, m.proof, m.nullifier))
  {
    hide Parse, Wire, AnyOf, FieldOf, Bound;
    WireParses(m);
    var inner: Fields := if m.inner.None? then map[] else map[2 := AnyOf(m.inner.value.typeUrl, m.inner.value.value)];
    Lookups(inner, m.submitter, m.proof, m.nullifier,
            Bound(5, m.rateLimitNullifier) + (Bound(6, m.merkleRoot) + (Bound(10, m.encryptedPayload) + map[]))) by {
      Above(m.rateLimitNullifier, m.merkleRoot, m.encryptedPayload);
    }
    if m.inner.Some? {
      AnyParses(m.inner.value);
      AnyLookups(m.inner.value);
    }
  }

  lemma Above(five: Bytes, six: Bytes, ten: Bytes)
    ensures forall k <- Bound(5, five) + (Bound(6, six) + (Bound(10, ten) + map[])) :: 5 <= k
  {}

  lemma Lookups(inner: Fields, one: Bytes, three: Bytes, four: Bytes, above: Fields)
    requires (forall k <- above :: 5 <= k) && inner.Keys <= {2}
    ensures var m := Bound(1, one) + (inner + (Bound(3, three) + (Bound(4, four) + above)));
      && (2 in m <==> 2 in inner) && (2 in inner ==> m[2] == inner[2])
      && FieldOf(m, 3) == three && FieldOf(m, 4) == four
  {}

  lemma AnyLookups(y: Any)
    ensures var m := Bound(1, y.typeUrl) + (Bound(2, y.value) + map[]);
            FieldOf(m, 1) == y.typeUrl && FieldOf(m, 2) == y.value
  {}
}
