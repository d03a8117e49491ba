/** The feed writer: in-memory index and on-disk files kept in step. */
module FeedWriter {
  import opened Wrappers
  import opened Field
  import opened Attestation
  import opened FeedTree
  import opened Feed

  datatype Manifest = Manifest(
    worker: string, verdictKey: string, latestSegment: int, count: nat, scannedHeight: int, root: Block)

  datatype TakedownEntry = TakedownEntry(sha256: string, pdq: string, category: string)

  type Takedowns = map<string, TakedownEntry>

  datatype Result<+T> = Ok(value: T) | Err

  /** The feed directory. */
  class Dir {
    var segments: Segments
    var manifest: Option<Manifest>
    var takedowns: Takedowns

    constructor ()
      ensures segments == map[] && manifest == None && takedowns == map[]
    {
      segments, manifest, takedowns := map[], None, map[];
    }
  }

  predicate Listed(a: Attestation) { a.verdict == Removed && a.category != CATEGORY_TEST }

  function EntryOf(a: Attestation): TakedownEntry { TakedownEntry(a.subject.sha256, a.subject.pdq, a.category) }

  /** The takedown list a history leaves: each removed subject under its latest entry. */
  function TakedownsOf(history: seq<Attestation>): Takedowns {
    if history == [] then map[]
    else
      var n := |history| - 1;
      var before := TakedownsOf(history[..n]);
      if Listed(history[n]) then before[history[n].subject.sha256 := EntryOf(history[n])] else before
  }

  /** A subject is listed exactly when some removal names it, with the last such entry. */
  lemma {:induction false} TakedownsMean(history: seq<Attestation>, sha256: string)
    ensures sha256 in TakedownsOf(history) <==>
      exists i :: 0 <= i < |history| && Listed(history[i]) && history[i].subject.sha256 == sha256
    ensures sha256 in TakedownsOf(history) ==>
      exists i :: 0 <= i < |history| && Listed(history[i]) && history[i].subject.sha256 == sha256
        && TakedownsOf(history)[sha256] == EntryOf(history[i])
        && forall j :: i < j < |history| && Listed(history[j]) ==> history[j].subject.sha256 != sha256
    decreases |history|
  {
    if history != [] {
      var n := |history| - 1;
      var before := history[..n];
      TakedownsMean(before, sha256);
      if Listed(history[n]) && history[n].subject.sha256 == sha256 {
        assert TakedownsOf(history)[sha256] == EntryOf(history[n]);
      } else if sha256 in TakedownsOf(before) {
        var i :| 0 <= i < n && Listed(before[i]) && before[i].subject.sha256 == sha256
          && TakedownsOf(before)[sha256] == EntryOf(before[i])
          && forall j :: i < j < n && Listed(before[j]) ==> before[j].subject.sha256 != sha256;
        assert history[i] == before[i];
        forall j | i < j < |history| && Listed(history[j])
          ensures history[j].subject.sha256 != sha256
        {
          assert j < n ==> history[j] == before[j];
        }
      } else {
        assert forall i :: 0 <= i < n ==> history[i] == before[i];
      }
    }
  }

  /** In an attestation's own fields: what is listed is a removal not of the test
      category, under its hash, with the perceptual hash and category of the last such removal. */
  lemma TakedownsTell(history: seq<Attestation>, sha256: string)
    ensures sha256 in TakedownsOf(history) <==>
      exists a <- history :: a.verdict == Removed && a.category != "test" && a.subject.sha256 == sha256
    ensures sha256 in TakedownsOf(history) ==>
      var e := TakedownsOf(history)[sha256];
      exists i :: 0 <= i < |history| && history[i].verdict == Removed && history[i].category != "test"
        && history[i].subject.sha256 == sha256 && e.sha256 == sha256
        && e.pdq == history[i].subject.pdq && e.category == history[i].category
        && forall j :: i < j < |history| && history[j].verdict == Removed && history[j].category != "test" ==>
             history[j].subject.sha256 != sha256
  {
    hide TakedownsOf;
    TakedownsMean(history, sha256);
    if a :| a in history && a.verdict == Removed && a.category != "test" && a.subject.sha256 == sha256 {
      var i :| 0 <= i < |history| && history[i] == a;
      assert Listed(history[i]);
    }
    if sha256 in TakedownsOf(history) {
      var i :| 0 <= i < |history| && Listed(history[i]) && history[i].subject.sha256 == sha256
        && TakedownsOf(history)[sha256] == EntryOf(history[i])
        && forall j :: i < j < |history| && Listed(history[j]) ==> history[j].subject.sha256 != sha256;
      forall j | i < j < |history| && history[j].verdict == Removed && history[j].category != "test"
        ensures history[j].subject.sha256 != sha256
      {
        assert Listed(history[j]);
      }
      assert history[i] in history;
    }
  }

  /** The segment the writer is at after `n` entries. */
  function Latest(n: nat): nat { if n == 0 then 1 else SegmentOf(n - 1) }

  class Writer {
    const o: Oracle
    const dir: Dir
    var manifest: Manifest
    var leaves: seq<Block>
    var takedown: Takedowns
    /** Everything appended to the directory since it was created. */
    ghost var history: seq<Attestation>

    /** Memory and files agree with the history. */
    ghost predicate Valid()
      reads this, dir
    {
      && leaves == LeafHashes(o, history)
      && takedown == TakedownsOf(history)
      && manifest.count == |history|
      && manifest.latestSegment == Latest(|history|)
      && manifest.root == Root(o, leaves)
      && dir.segments == SegmentsOf(history)
      && SegmentCount(|history|) < 1_000_000
      && dir.takedowns == takedown
      && match dir.manifest
         case Some(m) => m == manifest
         case None => history == [] && manifest.scannedHeight == 0
    }

    /** Opens a directory that holds `written`: indexes what the segments say and
        takes the position and height from the manifest file. */
    constructor (o: Oracle, dir: Dir, worker: string, verdictKey: string, ghost written: seq<Attestation>)
      requires dir.segments == SegmentsOf(written) && SegmentCount(|written|) < 1_000_000
      requires dir.manifest.Some? ==> dir.manifest.value.worker == worker
      ensures this.o == o && this.dir == dir && history == written
      ensures leaves == LeafHashes(o, written) && takedown == TakedownsOf(written)
      ensures manifest == Manifest(worker, verdictKey,
                                   if dir.manifest.Some? && dir.manifest.value.latestSegment > 1 then dir.manifest.value.latestSegment else 1,
                                   |written|,
                                   if dir.manifest.Some? then dir.manifest.value.scannedHeight else 0,
                                   Root(o, leaves))
      ensures fresh(this)
    {
      hide SegmentsOf, TakedownsOf, Root;
      this.o, this.dir := o, dir;
      var latest, height := 1, 0;
      if dir.manifest.Some? {
        latest := if dir.manifest.value.latestSegment > 1 then dir.manifest.value.latestSegment else 1;
        height := dir.manifest.value.scannedHeight;
      }
      manifest := Manifest(worker, verdictKey, latest, 0, height, ZERO);
      leaves, takedown, history := [], map[], [];
      new;
      var atts := ReadSegments(dir.segments);
      ReadBackHistory(written);
      Empty(o);
      var i := 0;
      while i < |atts|
        invariant 0 <= i <= |atts| && history == atts[..i]
        invariant leaves == LeafHashes(o, history) && takedown == TakedownsOf(history)
        invariant manifest == Manifest(worker, verdictKey, latest, 0, height, ZERO)
      {
        Index(atts[i]);
        i := i + 1;
      }
      var root := MerkleRoot(o, leaves);
      manifest := manifest.(count := |leaves|, root := root);
    }

    method Index(a: Attestation)
      requires leaves == LeafHashes(o, history) && takedown == TakedownsOf(history)
      modifies this`leaves, this`takedown, this`history
      ensures history == old(history) + [a]
      ensures leaves == LeafHashes(o, history) && takedown == TakedownsOf(history)
    {
      leaves := leaves + [LeafHash(o, a)];
      if a.verdict == Removed && a.category != CATEGORY_TEST {
        takedown := takedown[a.subject.sha256 := TakedownEntry(a.subject.sha256, a.subject.pdq, a.category)];
      }
      assert (history + [a])[..|history|] == history;
      history := history + [a];
    }

    method Flush()
      modifies dir`manifest, dir`takedowns
      ensures dir.manifest == Some(manifest) && dir.takedowns == takedown
    {
      dir.manifest := Some(manifest);
      dir.takedowns := takedown;
    }

    /** Entry number `c` goes to segment c / 1000 + 1, in memory and on disk. A
        batch with an unsigned attestation stops there, unflushed. */
    method Append(atts: seq<Attestation>) returns (ok: bool)
      requires Valid() && SegmentCount(|history| + |atts|) < 1_000_000
      modifies this, dir
      ensures ok <==> forall i :: 0 <= i < |atts| ==> atts[i].sig != ""
      ensures ok ==> Valid() && history == old(history) + atts
      ensures ok ==> manifest.scannedHeight == old(manifest.scannedHeight) && manifest.worker == old(manifest.worker)
                     && manifest.verdictKey == old(manifest.verdictKey)
    {
      hide SegmentsOf, TakedownsOf, Root, SegmentName;
      var i := 0;
      while i < |atts|
        invariant 0 <= i <= |atts| && history == old(history) + atts[..i]
        invariant forall j :: 0 <= j < i ==> atts[j].sig != ""
        invariant leaves == LeafHashes(o, history) && takedown == TakedownsOf(history)
        invariant dir.segments == SegmentsOf(history)
        invariant manifest == old(manifest).(latestSegment := Latest(|history|), count := |history|)
      {
        if atts[i].sig == "" {
          return false;
        }
        if manifest.count > 0 && manifest.count % 1000 == 0 {
          manifest := manifest.(latestSegment := manifest.count / 1000 + 1);
        }
        var name := SegmentName(manifest.latestSegment);
        SegmentsAppend(history, atts[i]);
        dir.segments := dir.segments[name := Lines(dir.segments, name) + [atts[i]]];
        Index(atts[i]);
        manifest := manifest.(count := manifest.count + 1);
        i := i + 1;
      }
      var root := MerkleRoot(o, leaves);
      manifest := manifest.(root := root);
      Flush();
      ok := true;
    }

    method SetScannedHeight(height: int)
      requires Valid()
      modifies this`manifest, dir`manifest, dir`takedowns
      ensures Valid() && history == old(history)
      ensures manifest == old(manifest).(scannedHeight := if height > old(manifest.scannedHeight) then height else old(manifest.scannedHeight))
    {
      if height > manifest.scannedHeight {
        manifest := manifest.(scannedHeight := height);
      }
      Flush();
    }
  }

  /** Another worker's feed is refused. */
  method OpenFeed(o: Oracle, dir: Dir, worker: string, verdictKey: string, ghost written: seq<Attestation>)
    returns (r: Result<Writer>)
    requires dir.segments == SegmentsOf(written) && SegmentCount(|written|) < 1_000_000
    ensures r.Ok? <==> (dir.manifest.Some? ==> dir.manifest.value.worker == worker)
    ensures r.Ok? ==> fresh(r.value) && r.value.dir == dir && r.value.o == o && r.value.history == written
    ensures r.Ok? && (dir.manifest == None ==> written == []) ==>
      (r.value.Valid() <==>
        && dir.takedowns == TakedownsOf(written)
        && (dir.manifest.Some? ==>
              dir.manifest.value == r.value.manifest && dir.manifest.value.latestSegment == Latest(|written|)))
  {
    if dir.manifest.Some? && dir.manifest.value.worker != worker {
      return Err;
    }
    hide SegmentsOf, TakedownsOf, Root;
    NothingWritten();
    var w := new Writer(o, dir, worker, verdictKey, written);
    r := Ok(w);
  }

  lemma Empty(o: Oracle)
    ensures LeafHashes(o, []) == [] && TakedownsOf([]) == map[]
  {}

  lemma SegmentsAppend(history: seq<Attestation>, a: Attestation)
    ensures SegmentsOf(history + [a]) ==
      SegmentsOf(history)[SegmentName(SegmentOf(|history|)) := Lines(SegmentsOf(history), SegmentName(SegmentOf(|history|))) + [a]]
  {
    assert (history + [a])[..|history|] == history;
  }

  /** A closed feed opens as it was: same index, position, count, root, height and takedowns. */
  method Reopen(w: Writer) returns (again: Writer)
    requires w.Valid()
    ensures fresh(again) && again.Valid() && again.dir == w.dir && again.o == w.o
    ensures again.history == w.history && again.leaves == w.leaves && again.takedown == w.takedown
    ensures again.manifest == w.manifest
  {
    again := new Writer(w.o, w.dir, w.manifest.worker, w.manifest.verdictKey, w.history);
  }

  /** What a run does with a feed: batches of signed attestations, scanned heights,
      and closing and opening again. */
  datatype Use = Appending(atts: seq<Attestation>) | Scanning(height: int) | Reopening

  function Added(u: Use): seq<Attestation> { if u.Appending? then u.atts else [] }

  function Appended(uses: seq<Use>): seq<Attestation> {
    if uses == [] then [] else Appended(uses[..|uses| - 1]) + Added(uses[|uses| - 1])
  }

  /** The greatest height scanned, or 0. */
  function ScannedTo(uses: seq<Use>): int {
    if uses == [] then 0
    else
      var before, u := ScannedTo(uses[..|uses| - 1]), uses[|uses| - 1];
      if u.Scanning? && u.height > before then u.height else before
  }

  method UseOnce(w: Writer, u: Use) returns (again: Writer)
    requires w.Valid() && SegmentCount(|w.history| + |Added(u)|) < 1_000_000 && forall a <- Added(u) :: a.sig != ""
    modifies w, w.dir
    ensures (again == w || fresh(again)) && again.dir == w.dir && again.o == w.o
    ensures again.Valid() && again.history == old(w.history) + Added(u)
    ensures again.manifest.scannedHeight ==
      if u.Scanning? && u.height > old(w.manifest.scannedHeight) then u.height else old(w.manifest.scannedHeight)
    ensures again.manifest.worker == old(w.manifest.worker)
    ensures again.manifest.count == |again.history| && again.manifest.root == Root(again.o, LeafHashes(again.o, again.history))
  {
    again := w;
    match u {
      case Appending(atts) => var ok := w.Append(atts);
      case Scanning(height) => w.SetScannedHeight(height);
      case Reopening => again := Reopen(w);
    }
  }

  /** A checkpoint's count and root are those of a prefix of the feed. */
  ghost predicate Reproduced(o: Oracle, history: seq<Attestation>, checkpoint: (nat, Block)) {
    checkpoint.0 <= |history| && checkpoint.1 == Root(o, LeafHashes(o, history[..checkpoint.0]))
  }

  lemma StillReproduced(o: Oracle, history: seq<Attestation>, more: seq<Attestation>, checkpoint: (nat, Block))
    requires Reproduced(o, history, checkpoint)
    ensures Reproduced(o, history + more, checkpoint)
  {
    assert (history + more)[..checkpoint.0] == history[..checkpoint.0];
  }

  lemma NowReproduced(o: Oracle, history: seq<Attestation>)
    ensures Reproduced(o, history, (|history|, Root(o, LeafHashes(o, history))))
  {
    assert history[..|history|] == history;
  }

  /** After each use a count and root were reported, and a prefix of the feed has them. */
  ghost predicate Reported(o: Oracle, uses: seq<Use>, roots: seq<(nat, Block)>, history: seq<Attestation>) {
    && |roots| == |uses|
    && forall i :: 0 <= i < |roots| ==> roots[i].0 == |Appended(uses[..i + 1])| && Reproduced(o, history, roots[i])
  }

  lemma ReportNext(o: Oracle, uses: seq<Use>, i: nat, roots: seq<(nat, Block)>, history: seq<Attestation>)
    requires i < |uses| && Reported(o, uses[..i], roots, history)
    requires history + Added(uses[i]) == Appended(uses[..i + 1])
    ensures var after := history + Added(uses[i]);
            Reported(o, uses[..i + 1], roots + [(|after|, Root(o, LeafHashes(o, after)))], after)
  {
    hide Root, Reproduced, Appended;
    var after := history + Added(uses[i]);
    forall j | 0 <= j < i
      ensures uses[..i + 1][..j + 1] == uses[..i][..j + 1] && Reproduced(o, after, roots[j])
    {
      StillReproduced(o, history, Added(uses[i]), roots[j]);
    }
    NowReproduced(o, after);
    assert uses[..i + 1][..i + 1] == uses[..i + 1];
  }

  /** Any run of appends, scans and reopenings, in any order: the directory reads
      back exactly everything appended, the height is the greatest scanned, and
      every root on the way is reproduced by a prefix of the final feed. */
  method Session(o: Oracle, worker: string, verdictKey: string, uses: seq<Use>) returns (w: Writer, roots: seq<(nat, Block)>)
    requires forall u <- uses, a <- Added(u) :: a.sig != ""
    requires SegmentCount(|Appended(uses)|) < 1_000_000
    ensures w.Valid() && w.history == Appended(uses)
    ensures w.manifest.worker == worker && w.manifest.scannedHeight == ScannedTo(uses)
    ensures ReadBack(w.dir.segments) == Appended(uses)
    ensures Reported(o, uses, roots, w.history)
  {
    hide SegmentsOf, TakedownsOf, Root, ReadBack, LeafHashes, Reported;
    var dir := new Dir();
    NothingWritten();
    Empty(o);
    w := new Writer(o, dir, worker, verdictKey, []);
    w, roots := UseAll(w, uses);
    ReadBackHistory(w.history);
  }

  method UseAll(first: Writer, uses: seq<Use>) returns (w: Writer, roots: seq<(nat, Block)>)
    requires first.Valid() && first.history == [] && first.manifest.scannedHeight == 0
    requires forall u <- uses, a <- Added(u) :: a.sig != ""
    requires SegmentCount(|Appended(uses)|) < 1_000_000
    modifies first, first.dir
    ensures w.Valid() && w.history == Appended(uses)
    ensures w.manifest.worker == old(first.manifest.worker) && w.manifest.scannedHeight == ScannedTo(uses)
    ensures Reported(first.o, uses, roots, w.history)
  {
    w, roots := first, [];
    hide SegmentCount, SegmentsOf, Root, LeafHashes, Reported, Writer.Valid;
    var i := 0;
    NothingReported(w.o, uses);
    while i < |uses|
      invariant 0 <= i <= |uses| && (w == first || fresh(w)) && w.dir == first.dir && w.o == first.o && w.Valid()
      invariant w.history == Appended(uses[..i])
      invariant w.manifest.worker == old(first.manifest.worker) && w.manifest.scannedHeight == ScannedTo(uses[..i])
      invariant Reported(w.o, uses[..i], roots, w.history)
    {
      AppendedPrefix(uses, i);
      StillFits(w.history, Added(uses[i]), Appended(uses));
      ReportNext(w.o, uses, i, roots, w.history);
      w := UseOnce(w, uses[i]);
      roots := roots + [(w.manifest.count, w.manifest.root)];
      i := i + 1;
    }
    assert uses[..i] == uses;
  }

  lemma NothingReported(o: Oracle, uses: seq<Use>)
    ensures Reported(o, uses[..0], [], [])
  {
  }

  lemma StillFits(history: seq<Attestation>, more: seq<Attestation>, all: seq<Attestation>)
    requires history + more <= all && SegmentCount(|all|) < 1_000_000
    ensures SegmentCount(|history| + |more|) < 1_000_000
  {
  }

  lemma NothingWritten()
    ensures SegmentsOf([]) == map[] && TakedownsOf([]) == map[]
  {}

  lemma {:induction false} AppendedPrefix(uses: seq<Use>, i: nat)
    requires i < |uses|
    ensures Appended(uses[..i + 1]) == Appended(uses[..i]) + Added(uses[i])
    ensures ScannedTo(uses[..i + 1])
            == if uses[i].Scanning? && uses[i].height > ScannedTo(uses[..i]) then uses[i].height else ScannedTo(uses[..i])
    ensures Appended(uses[..i + 1]) <= Appended(uses)
    decreases |uses|
  {
    assert uses[..i + 1][..i] == uses[..i];
    if i + 1 == |uses| {
      assert uses[..i + 1] == uses;
    } else {
      var front := uses[..|uses| - 1];
      AppendedPrefix(front, i);
      assert front[..i + 1] == uses[..i + 1];
    }
  }
}
