/** Replaying archived blocks: the preflight gap check and the loop it predicts. */
module Replay {
  import opened Wrappers

  /** An archived block: whether it carries its predecessor's commit, and whether
      the archive line carries the block's own. */
  datatype Block = Block(height: int, hasLastCommit: bool, hasCommit: bool)

  datatype Archive = Archive(from: int, to: int, lines: seq<Block>)

  // ----- ordering -----

  predicate InOrder(a: Archive, b: Archive) { a.from < b.from || (a.from == b.from && a.to <= b.to) }

  predicate Sorted(s: seq<Archive>) { forall i, j :: 0 <= i < j < |s| ==> InOrder(s[i], s[j]) }

  /** By first block, then by last, so that a tail comes before the range that covers it. */
  method SortArchives(found: seq<Archive>) returns (s: seq<Archive>)
    ensures Sorted(s) && multiset(s) == multiset(found)
  {
    s := [];
    var i := 0;
    while i < |found|
      invariant 0 <= i <= |found| && Sorted(s) && multiset(s) == multiset(found[..i])
    {
      assert found[..i + 1] == found[..i] + [found[i]];
      s := Insert(s, found[i]);
      i := i + 1;
    }
    assert found[..i] == found;
  }

  method Insert(s: seq<Archive>, a: Archive) returns (t: seq<Archive>)
    requires Sorted(s)
    ensures Sorted(t) && multiset(t) == multiset(s) + multiset{a}
  {
    var i := |s|;
    while i > 0 && !InOrder(s[i - 1], a)
      invariant 0 <= i <= |s| && forall j :: i <= j < |s| ==> InOrder(a, s[j])
    {
      i := i - 1;
    }
    t := s[..i] + [a] + s[i..];
    InsertSorted(s, i, a);
    assert s == s[..i] + s[i..];
  }

  lemma InsertSorted(s: seq<Archive>, i: nat, a: Archive)
    requires Sorted(s) && i <= |s|
    requires 0 < i ==> InOrder(s[i - 1], a)
    requires forall j :: i <= j < |s| ==> InOrder(a, s[j])
    ensures Sorted(s[..i] + [a] + s[i..])
  {
    var t := s[..i] + [a] + s[i..];
    forall j, k | 0 <= j < k < |t|
      ensures InOrder(t[j], t[k])
    {
      if k == i { assert j < i - 1 ==> InOrder(s[j], s[i - 1]); }
    }
  }

  // ----- the preflight check -----

  predicate Skipped(a: Archive, start: int) { a.to < start }

  predicate Past(a: Archive, end: int) { end > 0 && a.from > end }

  /** The next block needed after these archives, or nothing when one starts beyond it. */
  function Coverage(archives: seq<Archive>, start: int, end: int, next: int): Option<int> {
    if archives == [] then Some(next)
    else
      var a := archives[0];
      if Skipped(a, start) then Coverage(archives[1..], start, end, next)
      else if Past(a, end) then Some(next)
      else if a.from > next then None
      else Coverage(archives[1..], start, end, if a.to >= next then a.to + 1 else next)
  }

  method DetectArchiveGaps(archives: seq<Archive>, start: int, end: int) returns (ok: bool)
    ensures ok == Coverage(archives, start, end, start).Some?
  {
    var nextExpected := start;
    var i := 0;
    while i < |archives|
      invariant 0 <= i <= |archives|
      invariant Coverage(archives, start, end, start) == Coverage(archives[i..], start, end, nextExpected)
    {
      var a := archives[i];
      if a.to < start {
        i := i + 1;
        continue;
      }
      if end > 0 && a.from > end {
        return true;
      }
      if a.from > nextExpected {
        return false;
      }
      if a.to >= nextExpected {
        nextExpected := a.to + 1;
      }
      i := i + 1;
    }
    return true;
  }

  // ----- the replay loop -----

  datatype Status = Running | ForwardGap | ApplyFailed | MissingCommit

  /** The node: last applied height, the block waiting to be stored and the commit
      read with it, the heights applied and the heights in the block store. */
  datatype Node = Node(tip: int, prev: Option<Block>, commit: bool, applied: seq<int>, saved: seq<int>)

  /** `applies` says whether a block executes and its app hash matches. */
  function Handle(n: Node, b: Block, applies: int -> bool): (Node, Status) {
    if b.height < n.tip + 1 then (n, Running)
    else if b.height != n.tip + 1 then (n, ForwardGap)
    else
      var saved := if n.prev.Some? && b.hasLastCommit then n.saved + [n.prev.value.height] else n.saved;
      if !applies(b.height) then (n.(saved := saved), ApplyFailed)
      else (Node(b.height, Some(b), b.hasCommit, n.applied + [b.height], saved), Running)
  }

  function ReadFile(n: Node, lines: seq<Block>, start: int, end: int, applies: int -> bool): (Node, Status)
    decreases |lines|
  {
    if lines == [] then (n, Running)
    else if lines[0].height < start then ReadFile(n, lines[1..], start, end, applies)
    else if end > 0 && lines[0].height > end then (n, Running)
    else
      var (n1, status) := Handle(n, lines[0], applies);
      if status != Running then (n1, status) else ReadFile(n1, lines[1..], start, end, applies)
  }

  function ReadAll(n: Node, archives: seq<Archive>, start: int, end: int, applies: int -> bool): (Node, Status)
    decreases |archives|
  {
    if archives == [] then (n, Running)
    else if Skipped(archives[0], start) then ReadAll(n, archives[1..], start, end, applies)
    else if Past(archives[0], end) then (n, Running)
    else
      var (n1, status) := ReadFile(n, archives[0].lines, start, end, applies);
      if status != Running then (n1, status) else ReadAll(n1, archives[1..], start, end, applies)
  }

  /** The last block goes to the store under its own commit. */
  function Finish(n: Node): (Node, Status) {
    if n.prev.None? then (n, Running)
    else if !n.commit then (n, MissingCommit)
    else (n.(saved := n.saved + [n.prev.value.height]), Running)
  }

  function Fresh(start: int): Node { Node(start - 1, None, false, [], []) }

  function Replayed(archives: seq<Archive>, start: int, end: int, applies: int -> bool): (Node, Status) {
    var (n, status) := ReadAll(Fresh(start), archives, start, end, applies);
    if status != Running then (n, status) else Finish(n)
  }

  class Replayer {
    var tip: int
    var prev: Option<Block>
    var lastCommit: bool
    ghost var applied: seq<int>
    var store: seq<int>

    ghost function At(): Node
      reads this
    {
      Node(tip, prev, lastCommit, applied, store)
    }

    constructor (start: int)
      ensures At() == Fresh(start)
    {
      tip, prev, lastCommit, applied, store := start - 1, None, false, [], [];
    }

    method HandleBlock(b: Block, applies: int -> bool) returns (status: Status)
      modifies this
      ensures (At(), status) == Handle(old(At()), b, applies)
    {
      var expected := tip + 1;
      if b.height < expected {
        return Running;
      }
      if b.height != expected {
        return ForwardGap;
      }
      if prev.Some? && b.hasLastCommit {
        store := store + [prev.value.height];
      }
      if !applies(b.height) {
        return ApplyFailed;
      }
      prev, lastCommit := Some(b), b.hasCommit;
      tip := b.height;
      applied := applied + [b.height];
      return Running;
    }

    method ProcessArchiveFile(a: Archive, start: int, end: int, applies: int -> bool) returns (status: Status)
      modifies this
      ensures (At(), status) == ReadFile(old(At()), a.lines, start, end, applies)
    {
      var i := 0;
      while i < |a.lines|
        invariant 0 <= i <= |a.lines|
        invariant ReadFile(old(At()), a.lines, start, end, applies) == ReadFile(At(), a.lines[i..], start, end, applies)
      {
        hide Handle;
        var b := a.lines[i];
        i := i + 1;
        if b.height < start { continue; }
        if end > 0 && b.height > end { return Running; }
        status := HandleBlock(b, applies);
        if status != Running { return; }
      }
      status := Running;
    }

    method Replay(archives: seq<Archive>, start: int, end: int, applies: int -> bool) returns (status: Status)
      requires At() == Fresh(start)
      modifies this
      ensures (At(), status) == Replayed(archives, start, end, applies)
    {
      hide ReadFile;
      var i := 0;
      while i < |archives|
        invariant 0 <= i <= |archives|
        invariant ReadAll(old(At()), archives, start, end, applies) == ReadAll(At(), archives[i..], start, end, applies)
      {
        var a := archives[i];
        i := i + 1;
        if a.to < start { continue; }
        if end > 0 && a.from > end { break; }
        status := ProcessArchiveFile(a, start, end, applies);
        if status != Running { return; }
      }
      if prev.Some? {
        if !lastCommit {
          return MissingCommit;
        }
        store := store + [prev.value.height];
      }
      status := Running;
    }
  }

  // ----- the check predicts the loop -----

  /** The archive holds exactly the consecutive blocks it names. */
  ghost predicate Exact(a: Archive) {
    && a.from <= a.to && |a.lines| == a.to - a.from + 1
    && forall i :: 0 <= i < |a.lines| ==> a.lines[i].height == a.from + i
  }

  ghost predicate AllExact(archives: seq<Archive>) { forall i :: 0 <= i < |archives| ==> Exact(archives[i]) }

  ghost predicate Committed(archives: seq<Archive>) {
    forall i, j :: 0 <= i < |archives| && 0 <= j < |archives[i].lines| ==>
      archives[i].lines[j].hasLastCommit && archives[i].lines[j].hasCommit
  }

  function Heights(from: int, to: int): seq<int>
    decreases to - from
  {
    if to < from then [] else Heights(from, to - 1) + [to]
  }

  function Max(a: int, b: int): int { if a < b then b else a }
  function Min(a: int, b: int): int { if a < b then a else b }

  /** The highest block that may be applied out of those up to `to`. */
  function Reach(to: int, end: int): int { if end > 0 then Min(to, end) else to }

  /** What replay has done once it stands at `tip`: applied every height from
      `start`, and stored every one of them but the last. */
  ghost predicate OnTrack(n: Node, start: int) {
    && start <= n.tip + 1
    && n.applied == Heights(start, n.tip)
    && (n.prev == None <==> n.tip < start)
    && (n.prev.Some? ==> n.prev.value.height == n.tip)
  }

  ghost predicate Stored(n: Node, start: int) {
    n.saved == Heights(start, n.tip - 1) && (n.prev.Some? ==> n.commit)
  }

  /** Reading the rest of an exact file that starts no later than needed applies up to its reach. */
  lemma {:induction false} FileApplies(n: Node, lines: seq<Block>, h: int, to: int, start: int, end: int, applies: int -> bool)
    requires OnTrack(n, start) && |lines| == to - h + 1
    requires forall i :: 0 <= i < |lines| ==> lines[i].height == h + i
    requires h <= Max(start, n.tip + 1)
    requires forall x :: applies(x)
    ensures var (n1, status) := ReadFile(n, lines, start, end, applies);
      && status == Running && OnTrack(n1, start) && n1.tip == Max(n.tip, Reach(to, end))
      && (Stored(n, start) && (forall i :: 0 <= i < |lines| ==> lines[i].hasLastCommit && lines[i].hasCommit) ==> Stored(n1, start))
    decreases |lines|
  {
    if lines != [] {
      if h < start {
        FileApplies(n, lines[1..], h + 1, to, start, end, applies);
      } else if end > 0 && h > end {
        assert n.tip >= h - 1;
      } else {
        var (n1, status) := Handle(n, lines[0], applies);
        FileApplies(n1, lines[1..], h + 1, to, start, end, applies);
      }
    }
  }

  lemma FileGaps(n: Node, a: Archive, start: int, end: int, applies: int -> bool)
    requires OnTrack(n, start) && Exact(a) && !Past(a, end) && n.tip + 1 < a.from
    ensures ReadFile(n, a.lines, start, end, applies).1 == ForwardGap
  {
    assert a.lines[0].height == a.from;
  }

  /** The loop stands where the check says, up to the end height. */
  ghost predicate Agree(n: Node, next: int, start: int, end: int) {
    start <= next && n.tip == Max(start - 1, Reach(next - 1, end))
  }

  lemma {:induction false} CheckPredicts(n: Node, archives: seq<Archive>, start: int, end: int, next: int, applies: int -> bool)
    requires OnTrack(n, start) && Agree(n, next, start, end) && AllExact(archives)
    requires forall x :: applies(x)
    ensures
      var (n1, status) := ReadAll(n, archives, start, end, applies);
      match Coverage(archives, start, end, next)
      case None => status == ForwardGap
      case Some(last) =>
        && status == Running && OnTrack(n1, start) && Agree(n1, last, start, end)
        && (Stored(n, start) && Committed(archives) ==> Stored(n1, start))
    decreases |archives|
  {
    hide ReadFile, OnTrack, Stored;
    if archives != [] {
      var a, rest := archives[0], archives[1..];
      if Skipped(a, start) {
        CheckPredicts(n, rest, start, end, next, applies);
      } else if !Past(a, end) {
        if a.from > next {
          FileGaps(n, a, start, end, applies);
        } else {
          FileApplies(n, a.lines, a.from, a.to, start, end, applies);
          var (n1, status) := ReadFile(n, a.lines, start, end, applies);
          CheckPredicts(n1, rest, start, end, if a.to >= next then a.to + 1 else next, applies);
        }
      }
    }
  }

  /** With exact archives the check accepts exactly when replay meets no forward gap. */
  lemma PreflightExact(archives: seq<Archive>, start: int, end: int, applies: int -> bool)
    requires AllExact(archives) && forall x :: applies(x)
    ensures Coverage(archives, start, end, start).Some? <==> Replayed(archives, start, end, applies).1 != ForwardGap
  {
    CheckPredicts(Fresh(start), archives, start, end, start, applies);
  }

  /** On acceptance, with every commit present, each height from the start up to
      the end height or the last one covered is applied once, in order, and
      stored once, in order. */
  lemma ReplayComplete(archives: seq<Archive>, start: int, end: int, applies: int -> bool)
    requires AllExact(archives) && Committed(archives) && forall x :: applies(x)
    requires Coverage(archives, start, end, start).Some?
    ensures
      var last := Max(start - 1, Reach(Coverage(archives, start, end, start).value - 1, end));
      var (n, status) := Replayed(archives, start, end, applies);
      status == Running && n.tip == last && n.applied == Heights(start, last) && n.saved == Heights(start, last)
  {
    CheckPredicts(Fresh(start), archives, start, end, start, applies);
  }

  /** What the check counts as covered: every height from the start below the
      next one needed lies in some archive that is neither skipped nor past the end. */
  lemma {:induction false} CoverageCovers(archives: seq<Archive>, start: int, end: int, next: int, h: int)
    requires Coverage(archives, start, end, next).Some? && next <= h < Coverage(archives, start, end, next).value
    ensures exists i :: 0 <= i < |archives| && archives[i].from <= h <= archives[i].to
    decreases |archives|
  {
    var a, rest := archives[0], archives[1..];
    var next1 := if !Skipped(a, start) && a.to >= next then a.to + 1 else next;
    if h < next1 {
      assert archives[0].from <= h <= archives[0].to;
    } else {
      CoverageCovers(rest, start, end, next1, h);
      var i :| 0 <= i < |rest| && rest[i].from <= h <= rest[i].to;
      assert archives[i + 1] == rest[i];
    }
  }

  /** A block failing to apply never turns an accepted preflight into a gap. */
  lemma {:induction false} NoGapWhenAccepted(n: Node, archives: seq<Archive>, start: int, end: int, next: int, applies: int -> bool)
    requires OnTrack(n, start) && Agree(n, next, start, end) && AllExact(archives)
    requires Coverage(archives, start, end, next).Some?
    ensures ReadAll(n, archives, start, end, applies).1 != ForwardGap
    decreases |archives|
  {
    hide OnTrack;
    if archives != [] {
      var a, rest := archives[0], archives[1..];
      if Skipped(a, start) {
        NoGapWhenAccepted(n, rest, start, end, next, applies);
      } else if !Past(a, end) {
        FileNoGap(n, a.lines, a.from, a.to, start, end, applies);
        var (n1, status) := ReadFile(n, a.lines, start, end, applies);
        if status == Running {
          NoGapWhenAccepted(n1, rest, start, end, if a.to >= next then a.to + 1 else next, applies);
        }
      }
    }
  }

  lemma {:induction false} FileNoGap(n: Node, lines: seq<Block>, h: int, to: int, start: int, end: int, applies: int -> bool)
    requires OnTrack(n, start) && |lines| == to - h + 1
    requires forall i :: 0 <= i < |lines| ==> lines[i].height == h + i
    requires h <= Max(start, n.tip + 1)
    ensures var (n1, status) := ReadFile(n, lines, start, end, applies);
      && status != ForwardGap
      && (status == Running ==> OnTrack(n1, start) && n1.tip == Max(n.tip, Reach(to, end)))
    decreases |lines|
  {
    if lines != [] {
      if h < start {
        FileNoGap(n, lines[1..], h + 1, to, start, end, applies);
      } else if !(end > 0 && h > end) {
        var (n1, status) := Handle(n, lines[0], applies);
        if status == Running {
          FileNoGap(n1, lines[1..], h + 1, to, start, end, applies);
        }
      }
    }
  }

  // ----- names with the range backwards -----

  /** The archive holds exactly the blocks it names; none when its range is backwards. */
  ghost predicate Named(a: Archive) { Exact(a) || (a.to < a.from && a.lines == []) }

  /** The check comes to a backwards name that starts beyond the next block needed. */
  predicate Strands(archives: seq<Archive>, start: int, end: int, next: int) {
    archives != []
    && var a := archives[0];
       if Skipped(a, start) then Strands(archives[1..], start, end, next)
       else if Past(a, end) then false
       else if a.from > next then a.to < a.from
       else Strands(archives[1..], start, end, if a.to >= next then a.to + 1 else next)
  }

  lemma {:induction false} BackwardsPredicts(n: Node, archives: seq<Archive>, start: int, end: int, next: int, applies: int -> bool)
    requires OnTrack(n, start) && Agree(n, next, start, end) && (forall a <- archives :: Named(a))
    requires forall x :: applies(x)
    ensures Coverage(archives, start, end, next).Some? <==>
            ReadAll(n, archives, start, end, applies).1 != ForwardGap && !Strands(archives, start, end, next)
    decreases |archives|
  {
    hide ReadFile, OnTrack, Stored;
    if archives != [] {
      var a, rest := archives[0], archives[1..];
      assert a in archives && Named(a);
      if Skipped(a, start) {
        BackwardsPredicts(n, rest, start, end, next, applies);
      } else if !Past(a, end) {
        if a.to < a.from {
          EmptyFile(n, start, end, applies);
          if a.from <= next { BackwardsPredicts(n, rest, start, end, next, applies); }
        } else if a.from > next {
          FileGaps(n, a, start, end, applies);
        } else {
          FileApplies(n, a.lines, a.from, a.to, start, end, applies);
          var (n1, status) := ReadFile(n, a.lines, start, end, applies);
          BackwardsPredicts(n1, rest, start, end, if a.to >= next then a.to + 1 else next, applies);
        }
      }
    }
  }

  lemma EmptyFile(n: Node, start: int, end: int, applies: int -> bool)
    ensures ReadFile(n, [], start, end, applies) == (n, Running)
  {
  }

  /** With backwards names among the files, the check accepts exactly when replay
      meets no forward gap and no such name starts beyond what is covered at its turn. */
  lemma BackwardsExact(archives: seq<Archive>, start: int, end: int, applies: int -> bool)
    requires (forall a <- archives :: Named(a)) && forall x :: applies(x)
    ensures Coverage(archives, start, end, start).Some? <==>
            Replayed(archives, start, end, applies).1 != ForwardGap && !Strands(archives, start, end, start)
  {
    BackwardsPredicts(Fresh(start), archives, start, end, start, applies);
  }

  /** For one: an empty file named with its ends swapped is refused, and replay
      would have met no gap. */
  lemma BackwardsNameRefused(start: int, a: Archive, applies: int -> bool)
    requires a.lines == [] && start <= a.to < a.from && start < a.from
    ensures Coverage([a], start, 0, start) == None
    ensures Replayed([a], start, 0, applies).1 == Running
  {
    var n := Fresh(start);
    assert [a][0] == a && [a][1..] == [];
    assert ReadAll(n, [a], start, 0, applies) == (n, Running) by {
      assert ReadFile(n, a.lines, start, 0, applies) == (n, Running);
      assert ReadAll(n, [a][1..], start, 0, applies) == (n, Running);
    }
  }
}
