/** What a replay leaves behind, whichever blocks apply: the heights applied and
    stored, and the error it ends with. */
module ReplayOutcome {
  import opened Wrappers
  import opened Replay

  // ----- any files -----

  /** Every height from the start up to the tip was applied in order, and every one of them applies. */
  ghost predicate Sound(n: Node, start: int, applies: int -> bool) {
    OnTrack(n, start) && forall h: int <- n.applied :: applies(h)
  }

  lemma HandleSound(n: Node, b: Block, start: int, applies: int -> bool)
    requires Sound(n, start, applies)
    ensures Sound(Handle(n, b, applies).0, start, applies)
    ensures Handle(n, b, applies).1 == ApplyFailed ==> !applies(Handle(n, b, applies).0.tip + 1)
  {}

  lemma {:induction false} FileSound(n: Node, lines: seq<Block>, start: int, end: int, applies: int -> bool)
    requires Sound(n, start, applies)
    ensures Sound(ReadFile(n, lines, start, end, applies).0, start, applies)
    ensures ReadFile(n, lines, start, end, applies).1 == ApplyFailed ==> !applies(ReadFile(n, lines, start, end, applies).0.tip + 1)
    decreases |lines|
  {
    hide Sound, Handle;
    if lines != [] {
      HandleSound(n, lines[0], start, applies);
      var skip := lines[0].height < start;
      if skip || Handle(n, lines[0], applies).1 == Running {
        FileSound(if skip then n else Handle(n, lines[0], applies).0, lines[1..], start, end, applies);
      }
    }
  }

  lemma {:induction false} AllSound(n: Node, archives: seq<Archive>, start: int, end: int, applies: int -> bool)
    requires Sound(n, start, applies)
    ensures Sound(ReadAll(n, archives, start, end, applies).0, start, applies)
    ensures ReadAll(n, archives, start, end, applies).1 == ApplyFailed ==> !applies(ReadAll(n, archives, start, end, applies).0.tip + 1)
    decreases |archives|
  {
    hide Sound, ReadFile;
    if archives != [] {
      if Skipped(archives[0], start) {
        AllSound(n, archives[1..], start, end, applies);
      } else {
        FileSound(n, archives[0].lines, start, end, applies);
        var (n1, status) := ReadFile(n, archives[0].lines, start, end, applies);
        if status == Running { AllSound(n1, archives[1..], start, end, applies); }
      }
    }
  }

  /** Whatever the files hold, replay applies consecutive heights from the start,
      only such as apply, and reports a failure exactly at one that does not. */
  lemma OnlyWhatApplies(archives: seq<Archive>, start: int, end: int, applies: int -> bool)
    ensures
      var (n, status) := Replayed(archives, start, end, applies);
      && start <= n.tip + 1 && n.applied == Heights(start, n.tip)
      && (forall h <- n.applied :: applies(h))
      && (status == ApplyFailed ==> !applies(n.tip + 1))
  {
    AllSound(Fresh(start), archives, start, end, applies);
  }

  // ----- files that hold what they name -----

  /** The line replay takes for a height: that of the first file that covers it. */
  function LineAt(archives: seq<Archive>, h: int): Option<Block> {
    if archives == [] then None
    else
      var a := archives[0];
      if a.from <= h <= a.to && h - a.from < |a.lines| then Some(a.lines[h - a.from]) else LineAt(archives[1..], h)
  }

  /** The block after `h` brings its commit. */
  predicate CommitFollows(archives: seq<Archive>, h: int) {
    LineAt(archives, h + 1).Some? && LineAt(archives, h + 1).value.hasLastCommit
  }

  /** The heights from `from` to `to` whose commit came with the next block. */
  function Confirmed(archives: seq<Archive>, from: int, to: int): seq<int>
    decreases to - from
  {
    if to < from then [] else Confirmed(archives, from, to - 1) + if CommitFollows(archives, to) then [to] else []
  }

  lemma {:induction false} ConfirmedMeans(archives: seq<Archive>, from: int, to: int, h: int)
    ensures h in Confirmed(archives, from, to) <==> from <= h <= to && CommitFollows(archives, h)
    decreases 1 + to - from
  {
    if from <= to { ConfirmedMeans(archives, from, to - 1, h); }
  }

  ghost predicate AllApply(from: int, to: int, applies: int -> bool) { forall h :: from <= h <= to ==> applies(h) }

  /** Where replay stands when it has applied every height below its tip from `all`. */
  ghost predicate Standing(n: Node, all: seq<Archive>, start: int) {
    && OnTrack(n, start)
    && n.saved == Confirmed(all, start, n.tip - 1)
    && (n.prev.Some? ==> LineAt(all, n.tip).Some? && n.commit == LineAt(all, n.tip).value.hasCommit)
  }

  /** Where it stopped at the height after its tip. */
  ghost predicate Stopped(n: Node, all: seq<Archive>, start: int) {
    OnTrack(n, start) && n.saved == Confirmed(all, start, n.tip)
  }

  predicate Wanted(h: int, tip: int, end: int) { tip < h && (end > 0 ==> h <= end) }

  /** The lines still to read are those `all` gives for the heights above the tip. */
  ghost predicate Leads(lines: seq<Block>, all: seq<Archive>, tip: int, end: int) {
    forall i :: 0 <= i < |lines| && Wanted(lines[i].height, tip, end) ==> LineAt(all, lines[i].height) == Some(lines[i])
  }

  /** After reading up to `goal`: there, or at the first height on the way that does not apply. */
  ghost predicate Reached(n: Node, status: Status, tip: int, goal: int, all: seq<Archive>, start: int, applies: int -> bool) {
    && tip <= n.tip <= goal && AllApply(tip + 1, n.tip, applies)
    && (AllApply(tip + 1, goal, applies) ==> status == Running && n.tip == goal)
    && (!AllApply(tip + 1, goal, applies) ==> status == ApplyFailed && n.tip < goal && !applies(n.tip + 1))
    && (status == Running ==> Standing(n, all, start))
    && (status == ApplyFailed ==> Stopped(n, all, start))
  }

  lemma HandleStands(n: Node, b: Block, all: seq<Archive>, start: int, applies: int -> bool)
    requires Standing(n, all, start) && b.height == n.tip + 1 && LineAt(all, b.height) == Some(b)
    ensures var (n1, status) := Handle(n, b, applies);
      && (applies(b.height) ==> status == Running && n1.tip == b.height && Standing(n1, all, start))
      && (!applies(b.height) ==> status == ApplyFailed && n1.tip == n.tip && Stopped(n1, all, start))
  {
    hide LineAt;
    assert n.prev.Some? && b.hasLastCommit <==> start <= n.tip && CommitFollows(all, n.tip);
  }

  lemma {:induction false} FileReaches(n: Node, lines: seq<Block>, h: int, to: int, all: seq<Archive>,
                                       start: int, end: int, applies: int -> bool)
    requires Standing(n, all, start) && Leads(lines, all, n.tip, end)
    requires |lines| == to - h + 1 && forall i :: 0 <= i < |lines| ==> lines[i].height == h + i
    requires h <= Max(start, n.tip + 1)
    ensures var (n1, status) := ReadFile(n, lines, start, end, applies);
      Reached(n1, status, n.tip, Max(n.tip, Reach(to, end)), all, start, applies)
    decreases |lines|
  {
    hide Standing, Stopped, Handle, LineAt, Leads;
    assert start <= n.tip + 1 by { Begun(n, all, start); }
    if lines != [] {
      LeadsOn(lines, all, n.tip, end);
      if h <= n.tip || h < start {
        assert h <= n.tip ==> Handle(n, lines[0], applies) == (n, Running) by { if h <= n.tip { Old(n, lines[0], applies); } }
        FileReaches(n, lines[1..], h + 1, to, all, start, end, applies);
      } else if end <= 0 || h <= end {
        assert lines[0].height == h == n.tip + 1;
        HandleStands(n, lines[0], all, start, applies);
        var (n1, status) := Handle(n, lines[0], applies);
        if applies(h) {
          FileReaches(n1, lines[1..], h + 1, to, all, start, end, applies);
          var (n2, status2) := ReadFile(n1, lines[1..], start, end, applies);
          FirstApplied(n2, status2, h, Max(h, Reach(to, end)), all, start, applies);
        }
      }
    }
  }

  lemma FirstApplied(n: Node, status: Status, h: int, goal: int, all: seq<Archive>, start: int, applies: int -> bool)
    requires Reached(n, status, h, goal, all, start, applies) && applies(h)
    ensures Reached(n, status, h - 1, goal, all, start, applies)
  {
    hide Standing, Stopped;
    assert AllApply(h, goal, applies) <==> AllApply(h + 1, goal, applies);
  }

  lemma LeadsOn(lines: seq<Block>, all: seq<Archive>, tip: int, end: int)
    requires lines != [] && Leads(lines, all, tip, end)
    ensures Wanted(lines[0].height, tip, end) ==> LineAt(all, lines[0].height) == Some(lines[0])
    ensures Leads(lines[1..], all, tip, end) && (tip <= lines[0].height ==> Leads(lines[1..], all, lines[0].height, end))
  {
    hide LineAt;
  }

  lemma Begun(n: Node, all: seq<Archive>, start: int)
    requires Standing(n, all, start)
    ensures start <= n.tip + 1
  {}

  lemma Old(n: Node, b: Block, applies: int -> bool)
    requires b.height <= n.tip
    ensures Handle(n, b, applies) == (n, Running)
  {}

  /** The next block needed when the check stops, at a gap or at the end. */
  function Covered(archives: seq<Archive>, start: int, end: int, next: int): int {
    if archives == [] then next
    else
      var a := archives[0];
      if Skipped(a, start) then Covered(archives[1..], start, end, next)
      else if Past(a, end) || a.from > next then next
      else Covered(archives[1..], start, end, if a.to >= next then a.to + 1 else next)
  }

  lemma {:induction false} CoveredIsCoverage(archives: seq<Archive>, start: int, end: int, next: int)
    ensures next <= Covered(archives, start, end, next)
    ensures Coverage(archives, start, end, next).Some? ==> Coverage(archives, start, end, next).value == Covered(archives, start, end, next)
  {
    if archives != [] {
      var a := archives[0];
      CoveredIsCoverage(archives[1..], start, end, if !Skipped(a, start) && a.to >= next then a.to + 1 else next);
    }
  }

  /** The files still to read give the lines `all` gives for the heights above the tip. */
  ghost predicate Remain(rest: seq<Archive>, all: seq<Archive>, tip: int, end: int) {
    forall h :: Wanted(h, tip, end) && LineAt(rest, h).Some? ==> LineAt(all, h) == LineAt(rest, h)
  }

  lemma FirstLeads(rest: seq<Archive>, all: seq<Archive>, tip: int, end: int)
    requires rest != [] && Exact(rest[0]) && Remain(rest, all, tip, end)
    ensures Leads(rest[0].lines, all, tip, end)
  {
    var a := rest[0];
    forall i | 0 <= i < |a.lines| && Wanted(a.lines[i].height, tip, end)
      ensures LineAt(all, a.lines[i].height) == Some(a.lines[i])
    {
      assert LineAt(rest, a.from + i) == Some(a.lines[i]);
    }
  }

  lemma RestRemains(rest: seq<Archive>, all: seq<Archive>, tip: int, tip1: int, end: int)
    requires rest != [] && Remain(rest, all, tip, end) && tip <= tip1 && Reach(rest[0].to, end) <= tip1
    ensures Remain(rest[1..], all, tip1, end)
  {
    forall h | Wanted(h, tip1, end) && LineAt(rest[1..], h).Some?
      ensures LineAt(all, h) == LineAt(rest[1..], h)
    {
      assert LineAt(rest, h) == LineAt(rest[1..], h);
    }
  }

  /** How a whole reading ends. */
  ghost predicate Ends(n: Node, status: Status, tip: int, goal: int, gap: bool, all: seq<Archive>, start: int, applies: int -> bool) {
    && tip <= n.tip <= goal && AllApply(tip + 1, n.tip, applies)
    && (AllApply(tip + 1, goal, applies) ==> n.tip == goal && Standing(n, all, start) && status == if gap then ForwardGap else Running)
    && (!AllApply(tip + 1, goal, applies) ==>
          status == ApplyFailed && n.tip < goal && !applies(n.tip + 1) && Stopped(n, all, start))
  }

  function Goal(tip: int, next: int, end: int): int { Max(tip, Reach(next - 1, end)) }

  lemma GapStops(n: Node, a: Archive, all: seq<Archive>, start: int, end: int, applies: int -> bool)
    requires Standing(n, all, start) && Exact(a) && !Past(a, end) && n.tip + 1 < a.from
    ensures ReadFile(n, a.lines, start, end, applies) == (n, ForwardGap)
  {
    assert a.lines[0].height == a.from;
  }

  lemma {:induction false} AllReaches(n: Node, rest: seq<Archive>, all: seq<Archive>, start: int, end: int, next: int, applies: int -> bool)
    requires Standing(n, all, start) && Agree(n, next, start, end) && AllExact(rest) && Remain(rest, all, n.tip, end)
    ensures var (n1, status) := ReadAll(n, rest, start, end, applies);
      Ends(n1, status, n.tip, Goal(n.tip, Covered(rest, start, end, next), end), Coverage(rest, start, end, next).None?, all, start, applies)
    decreases |rest|
  {
    hide Standing, Stopped, ReadFile, LineAt, Remain, Leads;
    if rest != [] {
      var a := rest[0];
      if Skipped(a, start) {
        assert start <= n.tip + 1 by { Begun(n, all, start); }
        RestRemains(rest, all, n.tip, n.tip, end);
        AllReaches(n, rest[1..], all, start, end, next, applies);
      } else if !Past(a, end) {
        if a.from > next {
          GapStops(n, a, all, start, end, applies);
        } else {
          OneFile(n, rest, all, start, end, next, applies);
        }
      }
    }
  }

  lemma Shape(a: Archive)
    requires Exact(a)
    ensures a.from <= a.to && |a.lines| == a.to - a.from + 1
    ensures forall i :: 0 <= i < |a.lines| ==> a.lines[i].height == a.from + i
  {}

  lemma {:induction false} OneFile(n: Node, rest: seq<Archive>, all: seq<Archive>, start: int, end: int, next: int, applies: int -> bool)
    requires Standing(n, all, start) && Agree(n, next, start, end) && AllExact(rest) && Remain(rest, all, n.tip, end)
    requires rest != [] && !Skipped(rest[0], start) && !Past(rest[0], end) && rest[0].from <= next
    ensures var (n1, status) := ReadAll(n, rest, start, end, applies);
      Ends(n1, status, n.tip, Goal(n.tip, Covered(rest, start, end, next), end), Coverage(rest, start, end, next).None?, all, start, applies)
    decreases |rest|, 0
  {
    hide Standing, Stopped, ReadFile, LineAt, Remain, Leads, Exact;
    var a := rest[0];
    assert Exact(a);
    Shape(a);
    var next1 := if a.to >= next then a.to + 1 else next;
    CoveredIsCoverage(rest[1..], start, end, next1);
    FirstLeads(rest, all, n.tip, end);
    FileReaches(n, a.lines, a.from, a.to, all, start, end, applies);
    var (n1, status) := ReadFile(n, a.lines, start, end, applies);
    if status == Running {
      RestRemains(rest, all, n.tip, n1.tip, end);
      AllReaches(n1, rest[1..], all, start, end, next1, applies);
    }
  }

  lemma FreshStands(all: seq<Archive>, start: int, end: int)
    ensures Standing(Fresh(start), all, start) && Agree(Fresh(start), start, start, end)
    ensures Remain(all, all, start - 1, end)
  {}

  /** Replay of exact files, whichever blocks apply. It goes through the heights
      from the start as far as the check sees them covered, up to the end height:
      to the first that does not apply, which is its error; else to a gap, which is
      its error exactly when the check refuses; else to the end, where it fails
      only for want of the last block's commit. It has then applied each height it
      went through and stored each whose commit came with the next block, and the
      last under its own. */
  lemma ReplayExact(archives: seq<Archive>, start: int, end: int, applies: int -> bool)
    requires AllExact(archives)
    ensures
      var last := Goal(start - 1, Covered(archives, start, end, start), end);
      var gap := Coverage(archives, start, end, start).None?;
      var (n, status) := Replayed(archives, start, end, applies);
      && (forall f :: start <= f <= last && !applies(f) && AllApply(start, f - 1, applies) ==>
            status == ApplyFailed && n.applied == Heights(start, f - 1) && n.saved == Confirmed(archives, start, f - 1))
      && (AllApply(start, last, applies) && gap ==>
            status == ForwardGap && n.applied == Heights(start, last) && n.saved == Confirmed(archives, start, last - 1))
      && (AllApply(start, last, applies) && !gap && last < start ==> status == Running && n.applied == [] && n.saved == [])
      && (AllApply(start, last, applies) && !gap && start <= last ==>
            && LineAt(archives, last).Some? && n.applied == Heights(start, last)
            && if LineAt(archives, last).value.hasCommit
               then status == Running && n.saved == Confirmed(archives, start, last - 1) + [last]
               else status == MissingCommit && n.saved == Confirmed(archives, start, last - 1))
  {
    hide ReadAll, Covered, Coverage, LineAt, Confirmed, Heights, Ends, Standing, Stopped, OnTrack, AllApply, Agree, Remain;
    var n0 := Fresh(start);
    FreshStands(archives, start, end);
    var last := Goal(start - 1, Covered(archives, start, end, start), end);
    var gap := Coverage(archives, start, end, start).None?;
    AllReaches(n0, archives, archives, start, end, start, applies);
    var (n, status) := ReadAll(n0, archives, start, end, applies);
    forall f | start <= f <= last && !applies(f) && AllApply(start, f - 1, applies)
      ensures status == ApplyFailed && n.applied == Heights(start, f - 1) && n.saved == Confirmed(archives, start, f - 1)
    {
      Failing(n, status, start, last, gap, archives, applies, f);
    }
    if AllApply(start, last, applies) {
      Arriving(n, status, start, last, gap, archives, applies);
    }
  }

  lemma Failing(n: Node, status: Status, start: int, last: int, gap: bool, all: seq<Archive>, applies: int -> bool, f: int)
    requires Ends(n, status, start - 1, last, gap, all, start, applies)
    requires start <= f <= last && !applies(f) && AllApply(start, f - 1, applies)
    ensures status == ApplyFailed && n.applied == Heights(start, f - 1) && n.saved == Confirmed(all, start, f - 1)
  {
    hide Heights, Confirmed, LineAt;
    assert !AllApply(start, last, applies);
    assert n.tip < f - 1 ==> applies(n.tip + 1);
    assert n.tip >= f ==> applies(f);
  }

  lemma Arriving(n: Node, status: Status, start: int, last: int, gap: bool, all: seq<Archive>, applies: int -> bool)
    requires Ends(n, status, start - 1, last, gap, all, start, applies) && AllApply(start, last, applies)
    ensures status == (if gap then ForwardGap else Running)
    ensures n.applied == Heights(start, last) && n.saved == Confirmed(all, start, last - 1)
    ensures last < start ==> n.prev.None? && n.applied == [] && n.saved == []
    ensures start <= last ==> n.prev.Some? && n.prev.value.height == last
                              && LineAt(all, last).Some? && n.commit == LineAt(all, last).value.hasCommit
  {
    hide LineAt;
  }
}
