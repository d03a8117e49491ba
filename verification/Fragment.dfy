/** The hand-written protobuf codec of an encrypted-batch fragment. */
module Fragment {
  import opened Field

  datatype Result<+T> = Ok(value: T) | Err {
    predicate IsFailure() { Err? }
    function PropagateFailure<U>(): Result<U>
      requires Err?
    { Err }
    function Extract(): T
      requires Ok?
    { value }
  }

  /** The length a Go slice can have. */
  predicate Sliceable(b: Bytes) { |b| < 0x8000_0000_0000_0000 }

  // ----- varints -----

  function Varint(v: nat): (b: Bytes)
    ensures 0 < |b|
  {
    if v < 128 then [v] else [v % 128 + 128] + Varint(v / 128)
  }

  method AppendVarint(dst: Bytes, value: nat) returns (out: Bytes)
    requires value < 0x1_0000_0000_0000_0000
    ensures out == dst + Varint(value)
  {
    var v := value;
    out := dst;
    while v >= 128
      invariant out + Varint(v) == dst + Varint(value)
    {
      out := out + [v % 128 + 128];
      v := v / 128;
    }
    out := out + [v];
  }

  function Power128(i: nat): (p: nat)
    ensures 0 < p
  {
    if i == 0 then 1 else 128 * Power128(i - 1)
  }

  /** Seven bits shifted to group `i` of a uint64; what passes bit 63 is lost. */
  function Group(b: Byte, i: nat): nat { b % 128 * Power128(i) % 0x1_0000_0000_0000_0000 }

  /** A value and how many bytes it took. */
  datatype Read = Read(value: nat, n: nat)

  /** Reading on from byte `i`. The groups occupy disjoint bits, so or-ing them is adding them. */
  function ReadFrom(bz: Bytes, i: nat): (r: Result<Read>)
    ensures r.Ok? ==> i < r.value.n <= |bz|
    decreases |bz| - i
  {
    if i >= |bz| || i >= 10 then Err
    else if bz[i] < 128 then Ok(Read(Group(bz[i], i), i + 1))
    else
      var rest :- ReadFrom(bz, i + 1);
      Ok(Read(Group(bz[i], i) + rest.value, rest.n))
  }

  method ReadVarint(bz: Bytes) returns (r: Result<Read>)
    ensures r == ReadFrom(bz, 0)
  {
    var v: nat := 0;
    var i := 0;
    while i < |bz| && i < 10
      invariant 0 <= i <= |bz| && i <= 10
      invariant ReadFrom(bz, 0) == match ReadFrom(bz, i)
                                   case Ok(rest) => Ok(Read(v + rest.value, rest.n))
                                   case Err => Err
    {
      v := v + Group(bz[i], i);
      if bz[i] < 128 {
        return Ok(Read(v, i + 1));
      }
      i := i + 1;
    }
    return Err;
  }

  /** The continuation bit is not part of the group. */
  lemma GroupOf(b: Byte, low: Byte, i: nat)
    requires low < 128 && b == low + 128
    ensures Group(b, i) == Group(low, i)
  {}

  lemma GroupWhole(w: nat, i: nat)
    requires w * Power128(i) < 0x1_0000_0000_0000_0000
    ensures Group(w % 128, i) == w % 128 * Power128(i)
    ensures w * Power128(i) == w % 128 * Power128(i) + w / 128 * Power128(i + 1)
    ensures 128 <= w ==> w / 128 * Power128(i + 1) < 0x1_0000_0000_0000_0000
  {
    var p, q, r := Power128(i), w / 128, w % 128;
    assert w == 128 * q + r;
    assert w * p == 128 * (q * p) + r * p by { assert (128 * q + r) * p == 128 * (q * p) + r * p; }
    assert q * Power128(i + 1) == 128 * (q * p);
    assert 0 <= q * p && 0 <= r * p;
  }

  lemma TenGroups(w: nat, i: nat)
    requires 0 < w && w * Power128(i) < 0x1_0000_0000_0000_0000
    ensures i < 10
  {
    AtLeast(w, Power128(i));
    if 10 <= i {
      PowerGrows(i);
    }
  }

  lemma AtLeast(w: nat, p: nat)
    requires 0 < w
    ensures p <= w * p
  {}

  lemma {:induction false} PowerGrows(i: nat)
    requires 10 <= i
    ensures 0x1_0000_0000_0000_0000 <= Power128(i)
  {
    if i == 10 {
      assert Power128(5) == 0x8_0000_0000;
      assert Power128(10) == 0x8_0000_0000 * Power128(5);
    } else {
      PowerGrows(i - 1);
    }
  }

  lemma ZeroPower()
    ensures Power128(0) == 1
  {}

  lemma {:induction false} VarintReads(pre: Bytes, w: nat, suffix: Bytes)
    requires |pre| == 0 || 0 < w
    requires w * Power128(|pre|) < 0x1_0000_0000_0000_0000
    ensures ReadFrom(pre + Varint(w) + suffix, |pre|) == Ok(Read(w * Power128(|pre|), |pre| + |Varint(w)|))
    decreases w
  {
    hide Group, Power128;
    var bz, i := pre + Varint(w) + suffix, |pre|;
    if w == 0 { ZeroPower(); }
    if 0 < w { TenGroups(w, i); }
    GroupWhole(w, i);
    if w < 128 {
      assert bz[i] == w;
      assert w % 128 == w && w / 128 == 0;
    } else {
      var b: Byte := w % 128 + 128;
      assert bz[i] == b;
      GroupOf(b, w % 128, i);
      assert bz == (pre + [b]) + Varint(w / 128) + suffix;
      VarintReads(pre + [b], w / 128, suffix);
    }
  }

  /** Every uint64 survives the round trip, whatever follows it. */
  lemma VarintRoundTrip(v: nat, suffix: Bytes)
    requires v < 0x1_0000_0000_0000_0000
    ensures ReadFrom(Varint(v) + suffix, 0) == Ok(Read(v, |Varint(v)|))
  {
    assert [] + Varint(v) + suffix == Varint(v) + suffix;
    VarintReads([], v, suffix);
  }

  /** A varint that reads keeps reading the same when bytes follow. */
  lemma {:induction false} ReadStable(a: Bytes, b: Bytes, i: nat)
    requires ReadFrom(a, i).Ok?
    ensures ReadFrom(a + b, i) == ReadFrom(a, i)
    decreases |a| - i
  {
    if a[i] >= 128 {
      ReadStable(a, b, i + 1);
    }
  }

  // ----- fields -----

  type Fields = map<nat, Bytes>

  /** The first field of a message: what it binds and how many bytes it takes. */
  datatype Item = Item(binds: Fields, size: nat)

  function NextItem(bz: Bytes): (r: Result<Item>)
    ensures r.Ok? ==> 0 < r.value.size <= |bz|
  {
    var tag :- ReadFrom(bz, 0);
    var rest := bz[tag.n..];
    match tag.value % 8
    case 0 =>
      var skipped :- ReadFrom(rest, 0);
      Ok(Item(map[], tag.n + skipped.n))
    case 1 => if |rest| < 8 then Err else Ok(Item(map[], tag.n + 8))
    case 2 =>
      var len :- ReadFrom(rest, 0);
      if |rest| - len.n < len.value then Err
      else Ok(Item(map[tag.value / 8 := rest[len.n..len.n + len.value]], tag.n + len.n + len.value))
    case 5 => if |rest| < 4 then Err else Ok(Item(map[], tag.n + 4))
    case _ => Err
  }

  /** A message as the map of its length-delimited fields, later ones winning. */
  function Parse(bz: Bytes): Result<Fields>
    decreases |bz|
  {
    if bz == [] then Ok(map[])
    else
      var item :- NextItem(bz);
      var rest :- Parse(bz[item.size..]);
      Ok(item.binds + rest)
  }

  /** One turn of the parsing loop: the tag, then the branch on its wire type. */
  method TakeItem(bz: Bytes) returns (r: Result<Item>)
    ensures r == NextItem(bz)
  {
    hide ReadFrom;
    var tag := ReadVarint(bz);
    if tag.Err? {
      return Err;
    }
    var rest := bz[tag.value.n..];
    var field, wire := tag.value.value / 8, tag.value.value % 8;
    match wire {
      case 0 =>
        var skipped := ReadVarint(rest);
        if skipped.Err? {
          return Err;
        }
        return Ok(Item(map[], tag.value.n + skipped.value.n));
      case 1 =>
        if |rest| < 8 {
          return Err;
        }
        return Ok(Item(map[], tag.value.n + 8));
      case 2 =>
        var len := ReadVarint(rest);
        if len.Err? || |rest| - len.value.n < len.value.value {
          return Err;
        }
        var end := len.value.n + len.value.value;
        return Ok(Item(map[field := rest[len.value.n..end]], tag.value.n + end));
      case 5 =>
        if |rest| < 4 {
          return Err;
        }
        return Ok(Item(map[], tag.value.n + 4));
      case _ =>
        return Err;
    }
  }

  method ParseFields(message: Bytes) returns (r: Result<Fields>)
    ensures r == Parse(message)
  {
    hide NextItem;
    var fields: Fields := map[];
    var bz := message;
    assert Parse(message).Ok? ==> fields + Parse(message).value == Parse(message).value;
    while |bz| > 0
      invariant Parse(message) == match Parse(bz)
                                  case Ok(rest) => Ok(fields + rest)
                                  case Err => Err
      decreases |bz|
    {
      var item := TakeItem(bz);
      if item.Err? {
        return Err;
      }
      if Parse(bz[item.value.size..]).Ok? {
        Override(fields, item.value.binds, Parse(bz[item.value.size..]).value);
      }
      fields := fields + item.value.binds;
      bz := bz[item.value.size..];
    }
    r := Ok(fields);
    assert fields + map[] == fields;
  }

  lemma Override(a: Fields, b: Fields, c: Fields)
    ensures a + (b + c) == (a + b) + c
  {}

  lemma ItemStable(a: Bytes, b: Bytes)
    requires NextItem(a).Ok?
    ensures NextItem(a + b) == NextItem(a)
  {
    hide ReadFrom;
    ReadStable(a, b, 0);
    var tag := ReadFrom(a, 0).value;
    var rest := a[tag.n..];
    assert (a + b)[tag.n..] == rest + b;
    if tag.value % 8 == 0 || tag.value % 8 == 2 {
      ReadStable(rest, b, 0);
      if tag.value % 8 == 2 {
        var len := ReadFrom(rest, 0).value;
        assert (rest + b)[len.n..len.n + len.value] == rest[len.n..len.n + len.value];
      }
    }
  }

  /** Messages concatenate: after one that parses, anything parses or fails as
      it does alone, and its fields override the first one's. */
  lemma {:induction false} ParseConcat(a: Bytes, b: Bytes)
    requires Parse(a).Ok?
    ensures Parse(a + b) == match Parse(b)
                            case Ok(second) => Ok(Parse(a).value + second)
                            case Err => Err
    decreases |a|
  {
    hide NextItem;
    if a == [] {
      assert a + b == b;
      if Parse(b).Ok? { assert map[] + Parse(b).value == Parse(b).value; }
    } else {
      ItemStable(a, b);
      var item := NextItem(a).value;
      assert (a + b)[item.size..] == a[item.size..] + b;
      ParseConcat(a[item.size..], b);
      if Parse(b).Ok? {
        var rest, second := Parse(a[item.size..]).value, Parse(b).value;
        Override(item.binds, rest, second);
      }
    }
  }

  // ----- the fragment -----

  function BytesField(field: nat, v: Bytes): Bytes {
    if |v| == 0 then [] else Varint(field * 8 + 2) + Varint(|v|) + v
  }

  method AppendBytesField(dst: Bytes, field: nat, v: Bytes) returns (out: Bytes)
    requires field <= 4 && Sliceable(v)
    ensures out == dst + BytesField(field, v)
  {
    hide Varint;
    if |v| == 0 {
      return dst;
    }
    out := AppendVarint(dst, field * 8 + 2);
    out := AppendVarint(out, |v|);
    out := out + v;
    assert out == dst + (Varint(field * 8 + 2) + Varint(|v|) + v);
  }

  function AnyOf(typeUrl: Bytes, value: Bytes): Bytes { BytesField(1, typeUrl) + BytesField(2, value) }

  datatype Exec = Exec(typeUrl: Bytes, value: Bytes, proof: Bytes, nullifier: Bytes)

  method EncodeExecFragment(x: Exec) returns (r: Result<Bytes>)
    requires Sliceable(x.typeUrl) && Sliceable(x.value) && Sliceable(x.proof) && Sliceable(x.nullifier)
    requires Sliceable(AnyOf(x.typeUrl, x.value))
    ensures r == if x.typeUrl == [] then Err else Ok(Encoding(x))
    ensures r.Ok? ==> Decoding(r.value) == Ok(x)
  {
    hide BytesField, Decoding;
    if x.typeUrl == [] {
      return Err;
    }
    var anyBytes := AppendBytesField([], 1, x.typeUrl);
    anyBytes := AppendBytesField(anyBytes, 2, x.value);
    var out := AppendBytesField([], 2, anyBytes);
    out := AppendBytesField(out, 3, x.proof);
    out := AppendBytesField(out, 4, x.nullifier);
    assert [] + BytesField(1, x.typeUrl) == BytesField(1, x.typeUrl);
    assert anyBytes == AnyOf(x.typeUrl, x.value);
    assert out == Encoding(x);
    FragmentRoundTrip(x);
    r := Ok(out);
  }

  function Encoding(x: Exec): Bytes {
    BytesField(2, AnyOf(x.typeUrl, x.value)) + BytesField(3, x.proof) + BytesField(4, x.nullifier)
  }

  /** An absent field reads as no bytes. */
  function FieldOf(m: Fields, field: nat): Bytes { if field in m then m[field] else [] }

  function Decoding(bz: Bytes): Result<Exec> {
    var fields :- Parse(bz);
    if 2 !in fields then Err
    else
      var any :- Parse(fields[2]);
      Ok(Exec(FieldOf(any, 1), FieldOf(any, 2), FieldOf(fields, 3), FieldOf(fields, 4)))
  }

  method DecodeExecFragment(bz: Bytes) returns (r: Result<Exec>)
    ensures r == Decoding(bz)
  {
    var fields := ParseFields(bz);
    if fields.Err? || 2 !in fields.value {
      return Err;
    }
    var any := ParseFields(fields.value[2]);
    if any.Err? {
      return Err;
    }
    r := Ok(Exec(FieldOf(any.value, 1), FieldOf(any.value, 2), FieldOf(fields.value, 3), FieldOf(fields.value, 4)));
  }

  lemma FieldItem(field: nat, v: Bytes, suffix: Bytes)
    requires field < 16 && Sliceable(v) && v != []
    ensures NextItem(BytesField(field, v) + suffix) == Ok(Item(map[field := v], |BytesField(field, v)|))
  {
    hide ReadFrom, Varint;
    var tail := Varint(|v|) + (v + suffix);
    var bz := BytesField(field, v) + suffix;
    assert bz == Varint(field * 8 + 2) + tail;
    VarintRoundTrip(field * 8 + 2, tail);
    VarintRoundTrip(|v|, v + suffix);
    var n, m := |Varint(field * 8 + 2)|, |Varint(|v|)|;
    assert bz[n..] == tail;
    assert tail[m..m + |v|] == v;
  }

  /** A field written and then anything parses to that field under what follows. */
  lemma FieldParses(field: nat, v: Bytes, suffix: Bytes)
    requires field < 16 && Sliceable(v) && Parse(suffix).Ok?
    ensures Parse(BytesField(field, v) + suffix) == Ok((if v == [] then map[] else map[field := v]) + Parse(suffix).value)
  {
    hide NextItem;
    var none: Fields := map[];
    if v == [] {
      assert BytesField(field, v) + suffix == suffix;
      assert none + Parse(suffix).value == Parse(suffix).value;
    } else {
      FieldItem(field, v, suffix);
      assert (BytesField(field, v) + suffix)[|BytesField(field, v)|..] == suffix;
    }
  }

  lemma FragmentRoundTrip(x: Exec)
    requires x.typeUrl != [] && Sliceable(x.typeUrl) && Sliceable(x.value) && Sliceable(x.proof) && Sliceable(x.nullifier)
    requires Sliceable(AnyOf(x.typeUrl, x.value))
    ensures Decoding(Encoding(x)) == Ok(x)
  {
    hide BytesField, Parse;
    assert Parse([]) == Ok(map[]) by { EmptyParses(); }
    FieldParses(2, x.value, []);
    assert BytesField(2, x.value) + [] == BytesField(2, x.value);
    FieldParses(1, x.typeUrl, BytesField(2, x.value));
    FieldParses(4, x.nullifier, []);
    assert BytesField(4, x.nullifier) + [] == BytesField(4, x.nullifier);
    FieldParses(3, x.proof, BytesField(4, x.nullifier));
    var any, tail := AnyOf(x.typeUrl, x.value), BytesField(3, x.proof) + BytesField(4, x.nullifier);
    FieldParses(2, any, tail);
    assert Encoding(x) == BytesField(2, any) + tail;
    assert any != [] by { NonEmptyField(1, x.typeUrl); }
  }

  lemma EmptyParses()
    ensures Parse([]) == Ok(map[])
  {}

  lemma NonEmptyField(field: nat, v: Bytes)
    requires v != []
    ensures BytesField(field, v) != []
  {}

  /** Two fragments encode to the same bytes only if they are the same. */
  lemma EncodingInjective(x: Exec, y: Exec)
    requires x.typeUrl != [] && Sliceable(x.typeUrl) && Sliceable(x.value) && Sliceable(x.proof) && Sliceable(x.nullifier)
    requires y.typeUrl != [] && Sliceable(y.typeUrl) && Sliceable(y.value) && Sliceable(y.proof) && Sliceable(y.nullifier)
    requires Sliceable(AnyOf(x.typeUrl, x.value)) && Sliceable(AnyOf(y.typeUrl, y.value))
    requires Encoding(x) == Encoding(y)
    ensures x == y
  {
    hide Encoding, Decoding;
    FragmentRoundTrip(x);
    FragmentRoundTrip(y);
  }
}
