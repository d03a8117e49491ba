/** A worker's feed: append-only segments, read back in name order. */
module Feed {
  import opened Field
  import opened Attestation
  import opened FeedTree
  import opened StringOrder
  import opened Decimal

  // ----- segment names -----

  /** `n` in decimal, padded on the left with zeros to `width` (longer when it needs more). */
  function Padded(n: nat, width: nat): string
    decreases width, n
  {
    if width <= 1 && n < 10 then [Digit(n)] else Padded(n / 10, if width == 0 then 0 else width - 1) + [Digit(n % 10)]
  }

  function Digit(d: nat): char
    requires d < 10
  {
    (d as char) + '0'
  }

  function SegmentName(n: nat): string { Padded(n, 6) + ".jsonl" }

  lemma {:induction false} PaddedWidth(n: nat, width: nat)
    requires 0 < width && n < Power10(width)
    ensures |Padded(n, width)| == width
    decreases width
  {
    if 1 < width { PaddedWidth(n / 10, width - 1); }
  }

  /** Below the padding width, names sort as their numbers do. */
  lemma {:induction false} PaddedOrder(m: nat, n: nat, width: nat)
    requires 0 < width && m < Power10(width) && n < Power10(width)
    ensures Before(Padded(m, width), Padded(n, width)) <==> m < n
    ensures Padded(m, width) == Padded(n, width) <==> m == n
    decreases width
  {
    if width == 1 {
      DigitOrder(m, n);
    } else {
      PaddedWidth(m / 10, width - 1);
      PaddedWidth(n / 10, width - 1);
      PaddedOrder(m / 10, n / 10, width - 1);
      DigitOrder(m % 10, n % 10);
      var a, b := Padded(m / 10, width - 1), Padded(n / 10, width - 1);
      BeforeAppend(a, b, [Digit(m % 10)], [Digit(n % 10)]);
      assert a + [Digit(m % 10)] == b + [Digit(n % 10)] <==> a == b && Digit(m % 10) == Digit(n % 10) by {
        assert (a + [Digit(m % 10)])[..width - 1] == a && (b + [Digit(n % 10)])[..width - 1] == b;
      }
    }
  }

  lemma DigitOrder(c: nat, d: nat)
    requires c < 10 && d < 10
    ensures Before([Digit(c)], [Digit(d)]) <==> c < d
    ensures Digit(c) == Digit(d) <==> c == d
  {}

  lemma MillionFits()
    ensures Power10(6) == 1_000_000
  {
    assert Power10(3) == 1000;
  }

  /** With fewer than a million segments, name order is number order. */
  lemma NamesSort(m: nat, n: nat)
    requires m < 1_000_000 && n < 1_000_000
    ensures Before(SegmentName(m), SegmentName(n)) <==> m < n
    ensures SegmentName(m) == SegmentName(n) <==> m == n
  {
    MillionFits();
    PaddedWidth(m, 6);
    PaddedWidth(n, 6);
    PaddedOrder(m, n, 6);
    BeforeAppend(Padded(m, 6), Padded(n, 6), ".jsonl", ".jsonl");
    NotBeforeSelf(".jsonl");
    assert SegmentName(m)[..6] == Padded(m, 6) && SegmentName(n)[..6] == Padded(n, 6);
  }

  lemma LastDigit(n: nat, width: nat)
    requires 1 < width
    ensures Padded(n, width) == Padded(n / 10, width - 1) + [Digit(n % 10)]
  {}

  /** A name is the six decimal digits and the extension that readers look for. */
  lemma SixDigits(n: nat)
    requires n < 1_000_000
    ensures SegmentName(n) == [Digit(n / 100_000), Digit(n / 10_000 % 10), Digit(n / 1000 % 10), Digit(n / 100 % 10), Digit(n / 10 % 10),
                               Digit(n % 10)] + ".jsonl"
  {
    hide Digit;
    LastDigit(n, 6);
    LastDigit(n / 10, 5);
    LastDigit(n / 100, 4);
    LastDigit(n / 1000, 3);
    LastDigit(n / 10_000, 2);
    assert n / 10 / 10 == n / 100 && n / 100 / 10 == n / 1000 && n / 1000 / 10 == n / 10_000 && n / 10_000 / 10 == n / 100_000;
    assert Padded(n / 100_000, 1) == [Digit(n / 100_000)];
  }

  // ----- where entries lie -----

  type Segments = map<string, seq<Attestation>>

  function Lines(segments: Segments, name: string): seq<Attestation> {
    if name in segments then segments[name] else []
  }

  /** Entry number `c` (from 0) lies in segment c / 1000 + 1. */
  function SegmentOf(c: nat): nat { c / 1000 + 1 }

  /** The segments a feed with this history has on disk. */
  function SegmentsOf(history: seq<Attestation>): Segments {
    if history == [] then map[]
    else
      var n := |history| - 1;
      var before := SegmentsOf(history[..n]);
      var name := SegmentName(SegmentOf(n));
      before[name := Lines(before, name) + [history[n]]]
  }

  function SegmentCount(n: nat): nat { if n == 0 then 0 else SegmentOf(n - 1) }

  function Least(a: nat, b: nat): nat { if a < b then a else b }

  function Slice(history: seq<Attestation>, i: nat): seq<Attestation>
    requires 1 <= i <= SegmentCount(|history|)
  {
    history[(i - 1) * 1000..Least(i * 1000, |history|)]
  }

  /** The names of segments 1 to n. */
  ghost function Names(n: nat): set<string> { set i: nat | 1 <= i <= n :: SegmentName(i) }

  lemma InNames(name: string, n: nat) returns (i: nat)
    requires name in Names(n)
    ensures 1 <= i <= n && name == SegmentName(i)
  {
    i :| 1 <= i <= n && name == SegmentName(i);
  }

  lemma NameIn(i: nat, n: nat)
    requires 1 <= n < 1_000_000 && i < 1_000_000
    ensures SegmentName(i) in Names(n) <==> 1 <= i <= n
  {
    hide SegmentName;
    if SegmentName(i) in Names(n) {
      var j := InNames(SegmentName(i), n);
      NamesSort(i, j);
    }
  }

  lemma NamesGrow(n: nat)
    ensures Names(n + 1) == Names(n) + {SegmentName(n + 1)}
  {
    hide SegmentName;
  }

  /** The files are exactly segments 1 to the last one. */
  lemma {:induction false} SegmentNames(history: seq<Attestation>)
    ensures SegmentsOf(history).Keys == Names(SegmentCount(|history|))
    decreases |history|
  {
    hide SegmentName;
    if history == [] {
      assert Names(0) == {};
    } else {
      var n := |history| - 1;
      SegmentNames(history[..n]);
      if n % 1000 == 0 {
        NamesGrow(n / 1000);
        assert SegmentCount(n) == n / 1000;
      } else {
        assert SegmentCount(n) == SegmentOf(n);
        assert SegmentName(SegmentOf(n)) in Names(SegmentCount(n));
      }
    }
  }

  /** How the slices change when one entry is appended. */
  lemma SliceGrows(history: seq<Attestation>, i: nat)
    requires 1 <= i <= SegmentCount(|history|)
    ensures var n := |history| - 1;
      if i < SegmentOf(n) then i <= SegmentCount(n) && Slice(history, i) == Slice(history[..n], i)
      else if n % 1000 == 0 then i == SegmentOf(n) && Slice(history, i) == [history[n]]
      else i == SegmentOf(n) == SegmentCount(n) && Slice(history, i) == Slice(history[..n], i) + [history[n]]
  {
    var n := |history| - 1;
    var lo := (i - 1) * 1000;
    if i < SegmentOf(n) {
      assert i * 1000 <= n;
      assert history[lo..i * 1000] == history[..n][lo..i * 1000];
    } else {
      assert lo <= n < i * 1000;
      assert history[lo..n + 1] == history[..n][lo..n] + [history[n]];
    }
  }

  /** Segment i holds exactly the entries 1000 (i - 1) up to 1000 i, in order. */
  lemma {:induction false} SegmentHolds(history: seq<Attestation>, i: nat)
    requires 1 <= i <= SegmentCount(|history|) < 1_000_000
    ensures Lines(SegmentsOf(history), SegmentName(i)) == Slice(history, i)
    decreases |history|
  {
    hide SegmentName, Slice;
    var n := |history| - 1;
    var before, last := history[..n], SegmentOf(n);
    SegmentNames(before);
    NamesSort(i, last);
    SliceGrows(history, i);
    if i < last || n % 1000 != 0 {
      SegmentHolds(before, i);
    } else if SegmentName(last) in SegmentsOf(before) {
      var j := InNames(SegmentName(last), SegmentCount(n));
      NamesSort(last, j);
    }
  }

  // ----- reading in name order -----

  /** Every file's lines, smallest name first. */
  ghost function ReadBack(segments: Segments): seq<Attestation>
    decreases segments.Keys
  {
    if segments == map[] then []
    else
      LeastExists(segments.Keys);
      var name :| IsLeast(segments.Keys, name);
      segments[name] + ReadBack(segments - {name})
  }

  lemma ReadBackAt(segments: Segments, name: string)
    requires IsLeast(segments.Keys, name)
    ensures ReadBack(segments) == segments[name] + ReadBack(segments - {name})
  {
    LeastExists(segments.Keys);
    var least :| IsLeast(segments.Keys, least) && ReadBack(segments) == segments[least] + ReadBack(segments - {least});
    LeastUnique(segments.Keys, name, least);
  }

  method ReadSegments(segments: Segments) returns (out: seq<Attestation>)
    ensures out == ReadBack(segments)
  {
    hide IsLeast;
    out := [];
    var left := segments;
    while left.Keys != {}
      invariant out + ReadBack(left) == ReadBack(segments)
      decreases left.Keys
    {
      var name := SmallestName(left.Keys);
      assert name in left.Keys by { LeastIn(left.Keys, name); }
      ReadBackAt(left, name);
      out := out + left[name];
      left := left - {name};
    }
    assert left == map[];
  }

  lemma NextIsLeast(done: nat, n: nat)
    requires done < n < 1_000_000
    ensures IsLeast(Names(n) - Names(done), SegmentName(done + 1))
  {
    hide SegmentName, Before;
    NamesShrink(done, n);
    forall other | other in Names(n) - Names(done) && other != SegmentName(done + 1)
      ensures Before(SegmentName(done + 1), other)
    {
      var i := InNames(other, n);
      if done > 0 { NameIn(i, done); }
      NamesSort(done + 1, i);
    }
  }

  lemma NamesShrink(done: nat, n: nat)
    requires done < n < 1_000_000
    ensures Names(n) - Names(done) - {SegmentName(done + 1)} == Names(n) - Names(done + 1)
    ensures SegmentName(done + 1) in Names(n) - Names(done)
  {
    hide SegmentName;
    NamesGrow(done);
    NameIn(done + 1, n);
    if done > 0 { NameIn(done + 1, done); }
  }

  lemma {:induction false} ReadBackFrom(history: seq<Attestation>, left: Segments, done: nat)
    requires SegmentCount(|history|) < 1_000_000 && done <= SegmentCount(|history|)
    requires left.Keys == Names(SegmentCount(|history|)) - Names(done)
    requires forall name :: name in left ==> left[name] == Lines(SegmentsOf(history), name)
    ensures ReadBack(left) == history[Least(done * 1000, |history|)..]
    decreases SegmentCount(|history|) - done
  {
    hide SegmentName, SegmentsOf, Names, IsLeast;
    var count := SegmentCount(|history|);
    if done == count {
      assert left == map[];
    } else {
      NextIsLeast(done, count);
      NamesShrink(done, count);
      SegmentHolds(history, done + 1);
      var name := SegmentName(done + 1);
      ReadBackAt(left, name);
      ReadBackFrom(history, left - {name}, done + 1);
    }
  }

  /** What was appended is what is read back, in the same order. */
  lemma ReadBackHistory(history: seq<Attestation>)
    requires SegmentCount(|history|) < 1_000_000
    ensures ReadBack(SegmentsOf(history)) == history
  {
    hide SegmentName, SegmentsOf, ReadBack;
    SegmentNames(history);
    assert Names(0) == {};
    ReadBackFrom(history, SegmentsOf(history), 0);
  }
}
