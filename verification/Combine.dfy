/** The rule that combines the verdicts of several workers about one subject. */
module Combine {
  import opened Wrappers
  import opened Attestation
  import opened StringOrder

  type Key = string

  datatype TrustedWorker = TrustedWorker(address: string, verdictKey: Key)

  datatype Outcome = RemovedBy(category: string) | HeldBy(category: string) | CleanByQuorum | Unchecked

  datatype Result = Result(outcome: Outcome, conflict: bool, cleanVotes: nat)

  /** What is fixed while verdicts are combined: the keys, the hash asked about,
      the time, and signature verification as an unknown predicate. */
  datatype Query = Query(keys: map<string, Key>, sha256: string, now: int, valid: (Attestation, Key) -> bool)

  /** A worker listed twice is known by its last key. */
  function KeysOf(workers: seq<TrustedWorker>): map<string, Key> {
    if workers == [] then map[]
    else
      var n := |workers| - 1;
      KeysOf(workers[..n])[workers[n].address := workers[n].verdictKey]
  }

  predicate Counts(q: Query, a: Attestation) {
    && a.worker in q.keys && a.subject.sha256 == q.sha256
    && (a.expiresAt == 0 || q.now < a.expiresAt)
    && q.valid(a, q.keys[a.worker])
  }

  type Latest = map<string, Attestation>

  function Take(q: Query, latest: Latest, a: Attestation): Latest {
    if Counts(q, a) && (a.worker in latest ==> a.issuedAt > latest[a.worker].issuedAt) then latest[a.worker := a] else latest
  }

  function LatestOf(q: Query, atts: seq<Attestation>): Latest {
    if atts == [] then map[] else Take(q, LatestOf(q, atts[..|atts| - 1]), atts[|atts| - 1])
  }

  function Voters(latest: Latest, v: Verdict): set<string> { set w | w in latest && latest[w].verdict == v }

  function CategoryOf(latest: Latest, w: string): string { if w in latest then latest[w].category else "" }

  /** The rule over each worker's counted verdict: removed beats held beats a
      quorum of clean workers, and the first worker by address names the category. */
  ghost predicate Rules(latest: Latest, quorum: int, r: Result) {
    && r.cleanVotes == |Voters(latest, Clean)|
    && (r.conflict <==> Voters(latest, Clean) != {} && (r.outcome.RemovedBy? || r.outcome.HeldBy?))
    && match r.outcome
       case RemovedBy(c) => exists w :: IsLeast(Voters(latest, Removed), w) && c == CategoryOf(latest, w)
       case HeldBy(c) => Voters(latest, Removed) == {} && exists w :: IsLeast(Voters(latest, Held), w) && c == CategoryOf(latest, w)
       case CleanByQuorum =>
         Voters(latest, Removed) == {} == Voters(latest, Held) && 1 <= r.cleanVotes && quorum <= r.cleanVotes
       case Unchecked =>
         Voters(latest, Removed) == {} == Voters(latest, Held) && !(1 <= r.cleanVotes && quorum <= r.cleanVotes)
  }

  method Combine(atts: seq<Attestation>, workers: seq<TrustedWorker>, sha256: string, quorum: int, now: int,
                 valid: (Attestation, Key) -> bool) returns (r: Result)
    ensures Rules(LatestOf(Query(KeysOf(workers), sha256, now, valid), atts), quorum, r)
  {
    var needed := if quorum < 1 then 1 else quorum;
    var keys: map<string, Key> := map[];
    var i := 0;
    while i < |workers|
      invariant 0 <= i <= |workers| && keys == KeysOf(workers[..i])
    {
      assert workers[..i + 1][..i] == workers[..i];
      keys := keys[workers[i].address := workers[i].verdictKey];
      i := i + 1;
    }
    assert workers[..i] == workers;
    var q := Query(keys, sha256, now, valid);
    var latest: Latest := map[];
    i := 0;
    while i < |atts|
      invariant 0 <= i <= |atts| && latest == LatestOf(q, atts[..i])
    {
      assert atts[..i + 1][..i] == atts[..i];
      var a := atts[i];
      i := i + 1;
      if a.worker !in keys || a.subject.sha256 != sha256 { continue; }
      if a.expiresAt != 0 && now >= a.expiresAt { continue; }
      if !valid(a, keys[a.worker]) { continue; }
      if a.worker in latest && a.issuedAt <= latest[a.worker].issuedAt { continue; }
      latest := latest[a.worker := a];
    }
    assert atts[..i] == atts;
    r := Tally(latest, needed);
    if quorum < 1 { QuorumFloor(latest, quorum, r); }
  }

  /** Walks the workers by address, keeping the first removal and the first hold. */
  method Tally(latest: Latest, needed: int) returns (r: Result)
    requires 1 <= needed
    ensures Rules(latest, needed, r)
  {
    var removed: Option<string>, held: Option<string>, cleanVotes := None, None, 0;
    var left := latest.Keys;
    ghost var seen: set<string> := {};
    hide Before, Voters, FirstOf, Rules, Among;
    NoneSeen(latest);
    while left != {}
      invariant forall w :: w in latest <==> w in left || w in seen
      invariant left !! seen
      invariant forall s, l :: s in seen && l in left ==> Before(s, l)
      invariant cleanVotes == |Among(latest, Clean, seen)|
      invariant FirstOf(latest, Removed, seen, removed)
      invariant FirstOf(latest, Held, seen, held)
      decreases left
    {
      var w := SmallestName(left);
      assert w in latest && w !in seen;
      AmongGrows(latest, Clean, seen, w);
      FirstGrows(latest, Removed, seen, w, removed);
      FirstGrows(latest, Held, seen, w, held);
      match latest[w].verdict {
        case Removed => if removed == None { removed := Some(w); }
        case Held => if held == None { held := Some(w); }
        case Clean => cleanVotes := cleanVotes + 1;
      }
      left := left - {w};
      seen := seen + {w};
    }
    assert seen == latest.Keys;
    r := Decide(latest, seen, removed, held, cleanVotes, needed);
  }

  /** The closing switch. */
  method Decide(latest: Latest, ghost seen: set<string>, removed: Option<string>, held: Option<string>, cleanVotes: nat, needed: int)
    returns (r: Result)
    requires 1 <= needed && seen == latest.Keys
    requires cleanVotes == |Among(latest, Clean, seen)|
    requires FirstOf(latest, Removed, seen, removed) && FirstOf(latest, Held, seen, held)
    ensures Rules(latest, needed, r)
  {
    hide Before;
    AllSeen(latest, seen);
    assert cleanVotes == |Voters(latest, Clean)|;
    if removed.Some? {
      assert IsLeast(Voters(latest, Removed), removed.value);
      r := Result(RemovedBy(CategoryOf(latest, removed.value)), cleanVotes > 0, cleanVotes);
    } else if held.Some? {
      assert IsLeast(Voters(latest, Held), held.value);
      r := Result(HeldBy(CategoryOf(latest, held.value)), cleanVotes > 0, cleanVotes);
    } else if cleanVotes >= needed {
      r := Result(CleanByQuorum, false, cleanVotes);
    } else {
      r := Result(Unchecked, false, cleanVotes);
    }
  }

  ghost function Among(latest: Latest, v: Verdict, seen: set<string>): set<string> { Voters(latest, v) * seen }

  /** The first of the workers seen so far with verdict `v`, if any. */
  ghost predicate FirstOf(latest: Latest, v: Verdict, seen: set<string>, first: Option<string>) {
    match first
    case None => Among(latest, v, seen) == {}
    case Some(w) => IsLeast(Among(latest, v, seen), w)
  }

  lemma NoneSeen(latest: Latest)
    ensures forall v :: Among(latest, v, {}) == {} && FirstOf(latest, v, {}, None)
  {}

  lemma AmongGrows(latest: Latest, v: Verdict, seen: set<string>, w: string)
    requires w in latest && w !in seen
    ensures Among(latest, v, seen + {w}) == Among(latest, v, seen) + if latest[w].verdict == v then {w} else {}
    ensures |Among(latest, v, seen + {w})| == |Among(latest, v, seen)| + if latest[w].verdict == v then 1 else 0
  {
    var now_ := Among(latest, v, seen + {w});
    assert w !in Among(latest, v, seen);
    if latest[w].verdict == v {
      assert now_ == Among(latest, v, seen) + {w};
    } else {
      assert now_ == Among(latest, v, seen);
    }
  }

  lemma FirstGrows(latest: Latest, v: Verdict, seen: set<string>, w: string, first: Option<string>)
    requires w in latest && w !in seen && (forall s :: s in seen ==> Before(s, w)) && FirstOf(latest, v, seen, first)
    ensures FirstOf(latest, v, seen + {w}, if latest[w].verdict == v && first == None then Some(w) else first)
  {
    AmongGrows(latest, v, seen, w);
  }

  lemma AllSeen(latest: Latest, seen: set<string>)
    requires seen == latest.Keys
    ensures forall v :: Among(latest, v, seen) == Voters(latest, v)
  {
    forall v
      ensures Among(latest, v, seen) == Voters(latest, v)
    {
      assert Voters(latest, v) <= seen;
    }
  }

  // ----- the rule decides, and what it depends on -----

  /** The rule has one answer. */
  lemma RulesDecide(latest: Latest, quorum: int, r: Result, s: Result)
    requires Rules(latest, quorum, r) && Rules(latest, quorum, s)
    ensures r == s
  {
    forall v, a, b | IsLeast(Voters(latest, v), a) && IsLeast(Voters(latest, v), b)
      ensures a == b
    {
      LeastUnique(Voters(latest, v), a, b);
    }
  }

  /** A quorum below one asks for one clean worker. */
  lemma QuorumFloor(latest: Latest, quorum: int, r: Result)
    requires quorum < 1
    ensures Rules(latest, quorum, r) <==> Rules(latest, 1, r)
  {}

  /** Each worker's entry is a counted attestation of its own, none of its others is later. */
  lemma {:induction false} LatestMeans(q: Query, atts: seq<Attestation>, w: string)
    ensures w in LatestOf(q, atts) <==> exists a :: a in atts && Counts(q, a) && a.worker == w
    ensures w in LatestOf(q, atts) ==>
      var l := LatestOf(q, atts)[w];
      l in atts && Counts(q, l) && l.worker == w
      && forall a :: a in atts && Counts(q, a) && a.worker == w ==> a.issuedAt <= l.issuedAt
    decreases |atts|
  {
    hide Counts;
    if atts != [] {
      var n := |atts| - 1;
      var before := atts[..n];
      assert atts == before + [atts[n]];
      LatestMeans(q, before, w);
      forall a
        ensures a in atts <==> a in before || a == atts[n]
      {
      }
    }
  }

  /** A counted attestation no counted one of its worker is later than. */
  ghost predicate IsTop(q: Query, atts: seq<Attestation>, a: Attestation) {
    a in atts && Counts(q, a) && forall c :: c in atts && Counts(q, c) && c.worker == a.worker ==> c.issuedAt <= a.issuedAt
  }

  /** No worker has two different counted attestations at its latest counted issue time. */
  ghost predicate TopUntied(q: Query, atts: seq<Attestation>) {
    forall a, b :: IsTop(q, atts, a) && IsTop(q, atts, b) && a.worker == b.worker ==> a == b
  }

  ghost predicate SameCounted(q: Query, xs: seq<Attestation>, ys: seq<Attestation>) {
    forall a :: Counts(q, a) ==> (a in xs <==> a in ys)
  }

  /** Without such a tie the result depends only on which counted attestations there
      are: not on their order, not on repeats, not on any uncounted one. */
  lemma OrderIrrelevant(q: Query, xs: seq<Attestation>, ys: seq<Attestation>)
    requires TopUntied(q, xs) && SameCounted(q, xs, ys)
    ensures LatestOf(q, xs) == LatestOf(q, ys)
  {
    hide Counts, LatestOf;
    forall w: string
      ensures w in LatestOf(q, xs) <==> w in LatestOf(q, ys)
      ensures w in LatestOf(q, xs) ==> LatestOf(q, xs)[w] == LatestOf(q, ys)[w]
    {
      LatestMeans(q, xs, w);
      LatestMeans(q, ys, w);
      if w in LatestOf(q, xs) {
        assert IsTop(q, xs, LatestOf(q, xs)[w]) && IsTop(q, xs, LatestOf(q, ys)[w]);
      }
    }
  }

  /** Put first, an attestation no other counted one is later than is the one that counts. */
  lemma {:induction false} FirstTopCounts(q: Query, a: Attestation, rest: seq<Attestation>)
    requires Counts(q, a) && forall c :: c in rest && Counts(q, c) && c.worker == a.worker ==> c.issuedAt <= a.issuedAt
    ensures a.worker in LatestOf(q, [a] + rest) && LatestOf(q, [a] + rest)[a.worker] == a
    decreases |rest|
  {
    hide Counts;
    if rest == [] {
      assert ([a] + rest)[..0] == [];
    } else {
      var n := |rest| - 1;
      FirstTopCounts(q, a, rest[..n]);
      assert ([a] + rest)[..n + 1] == [a] + rest[..n];
    }
  }

  /** A worker that signed two verdicts in the same second is counted by whichever comes first. */
  lemma TieByPosition(q: Query, a: Attestation, b: Attestation)
    requires Counts(q, a) && Counts(q, b) && a.worker == b.worker && a.issuedAt == b.issuedAt
    ensures LatestOf(q, [a, b]) == map[a.worker := a] && LatestOf(q, [b, a]) == map[a.worker := b]
  {
    hide Counts;
    assert [a, b][..1] == [a] && [b, a][..1] == [b] && [a][..0] == [] && [b][..0] == [];
    assert LatestOf(q, [a]) == map[a.worker := a] && LatestOf(q, [b]) == map[b.worker := b];
    assert LatestOf(q, [a, b]) == Take(q, LatestOf(q, [a]), b);
    assert LatestOf(q, [b, a]) == Take(q, LatestOf(q, [b]), a);
  }

  lemma PulledFirst(atts: seq<Attestation>, a: Attestation) returns (rest: seq<Attestation>)
    requires a in atts
    ensures multiset([a] + rest) == multiset(atts) && forall c :: c in rest ==> c in atts
  {
    var i :| 0 <= i < |atts| && atts[i] == a;
    rest := atts[..i] + atts[i + 1..];
    assert atts == atts[..i] + [a] + atts[i + 1..];
  }

  /** The order of the attestations never matters exactly when no worker's latest
      counted issue time is tied. */
  lemma OrderMattersIffTied(q: Query, atts: seq<Attestation>)
    ensures (forall ys :: multiset(ys) == multiset(atts) ==> LatestOf(q, ys) == LatestOf(q, atts)) <==> TopUntied(q, atts)
  {
    hide Counts, LatestOf;
    if TopUntied(q, atts) {
      forall ys | multiset(ys) == multiset(atts)
        ensures LatestOf(q, ys) == LatestOf(q, atts)
      {
        assert forall a :: a in ys <==> a in multiset(ys);
        assert forall a :: a in atts <==> a in multiset(atts);
        OrderIrrelevant(q, atts, ys);
      }
    } else {
      var a, b :| IsTop(q, atts, a) && IsTop(q, atts, b) && a.worker == b.worker && a != b;
      var afterA := PulledFirst(atts, a);
      var afterB := PulledFirst(atts, b);
      FirstTopCounts(q, a, afterA);
      FirstTopCounts(q, b, afterB);
      assert LatestOf(q, [a] + afterA) != LatestOf(q, [b] + afterB);
    }
  }

  // ----- what a verdict rests on -----

  /** Signed under the key last listed for its worker, about this hash, and not expired. */
  ghost predicate Backed(a: Attestation, workers: seq<TrustedWorker>, sha256: string, now: int, valid: (Attestation, Key) -> bool) {
    && a.subject.sha256 == sha256 && (a.expiresAt == 0 || now < a.expiresAt)
    && exists i :: 0 <= i < |workers| && workers[i].address == a.worker && valid(a, workers[i].verdictKey)
                   && forall j :: i < j < |workers| ==> workers[j].address != a.worker
  }

  lemma {:induction false} KeysMean(workers: seq<TrustedWorker>, i: nat)
    requires i < |workers| && forall j :: i < j < |workers| ==> workers[j].address != workers[i].address
    ensures workers[i].address in KeysOf(workers) && KeysOf(workers)[workers[i].address] == workers[i].verdictKey
    decreases |workers|
  {
    if i < |workers| - 1 { KeysMean(workers[..|workers| - 1], i); }
  }

  lemma {:induction false} KeysCome(workers: seq<TrustedWorker>, w: string) returns (i: nat)
    requires w in KeysOf(workers)
    ensures i < |workers| && workers[i].address == w && forall j :: i < j < |workers| ==> workers[j].address != w
    decreases |workers|
  {
    i := |workers| - 1;
    if workers[i].address != w { i := KeysCome(workers[..i], w); }
  }

  lemma CountsBacked(a: Attestation, workers: seq<TrustedWorker>, sha256: string, now: int, valid: (Attestation, Key) -> bool)
    ensures Counts(Query(KeysOf(workers), sha256, now, valid), a) <==> Backed(a, workers, sha256, now, valid)
  {
    if a.worker in KeysOf(workers) {
      var i := KeysCome(workers, a.worker);
      KeysMean(workers, i);
    }
    if i :| 0 <= i < |workers| && workers[i].address == a.worker && valid(a, workers[i].verdictKey)
            && forall j :: i < j < |workers| ==> workers[j].address != a.worker {
      KeysMean(workers, i);
    }
  }

  /** No other backed attestation of its worker is as late. */
  ghost predicate LastWord(a: Attestation, atts: seq<Attestation>, workers: seq<TrustedWorker>, sha256: string, now: int,
                          valid: (Attestation, Key) -> bool) {
    && a in atts && Backed(a, workers, sha256, now, valid)
    && forall c :: c in atts && c != a && Backed(c, workers, sha256, now, valid) && c.worker == a.worker ==> c.issuedAt < a.issuedAt
  }

  /** Every verdict rests on backed attestations: a removal or hold on one that says so
      with that category, clean on as many workers as the quorum asks, at least one. */
  lemma VerdictBacked(atts: seq<Attestation>, workers: seq<TrustedWorker>, sha256: string, quorum: int, now: int,
                      valid: (Attestation, Key) -> bool, r: Result)
    requires Rules(LatestOf(Query(KeysOf(workers), sha256, now, valid), atts), quorum, r)
    ensures match r.outcome
      case RemovedBy(c) => exists a <- atts :: Backed(a, workers, sha256, now, valid) && a.verdict == Removed && a.category == c
      case HeldBy(c) => exists a <- atts :: Backed(a, workers, sha256, now, valid) && a.verdict == Held && a.category == c
      case CleanByQuorum =>
        exists ws: set<string> :: 1 <= |ws| && quorum <= |ws|
          && forall w <- ws :: exists a <- atts :: Backed(a, workers, sha256, now, valid) && a.worker == w && a.verdict == Clean
      case Unchecked => true
  {
    hide LatestOf, Counts, KeysOf, Backed;
    var q := Query(KeysOf(workers), sha256, now, valid);
    var latest := LatestOf(q, atts);
    forall w <- latest
      ensures latest[w] in atts && Backed(latest[w], workers, sha256, now, valid) && latest[w].worker == w
    {
      LatestMeans(q, atts, w);
      CountsBacked(latest[w], workers, sha256, now, valid);
    }
    match r.outcome {
      case RemovedBy(c) =>
        var w :| IsLeast(Voters(latest, Removed), w) && c == CategoryOf(latest, w);
        assert latest[w] in atts;
      case HeldBy(c) =>
        var w :| IsLeast(Voters(latest, Held), w) && c == CategoryOf(latest, w);
        assert latest[w] in atts;
      case CleanByQuorum =>
        var ws := Voters(latest, Clean);
        forall w <- ws
          ensures exists a <- atts :: Backed(a, workers, sha256, now, valid) && a.worker == w && a.verdict == Clean
        {
          assert latest[w] in atts;
        }
      case Unchecked =>
    }
  }

  /** And a worker's latest backed word is heard: a removal removes, and a hold at
      least holds. */
  lemma LastWordHeard(atts: seq<Attestation>, workers: seq<TrustedWorker>, sha256: string, quorum: int, now: int,
                      valid: (Attestation, Key) -> bool, r: Result, a: Attestation)
    requires Rules(LatestOf(Query(KeysOf(workers), sha256, now, valid), atts), quorum, r)
    requires LastWord(a, atts, workers, sha256, now, valid)
    ensures a.verdict == Removed ==> r.outcome.RemovedBy?
    ensures a.verdict == Held ==> r.outcome.RemovedBy? || r.outcome.HeldBy?
    ensures a.verdict == Clean ==> 1 <= r.cleanVotes && (r.conflict <==> r.outcome.RemovedBy? || r.outcome.HeldBy?)
  {
    hide LatestOf, Counts, KeysOf, Backed;
    var q := Query(KeysOf(workers), sha256, now, valid);
    var latest := LatestOf(q, atts);
    LatestMeans(q, atts, a.worker);
    CountsBacked(a, workers, sha256, now, valid);
    var l := latest[a.worker];
    CountsBacked(l, workers, sha256, now, valid);
    assert l == a;
    assert a.worker in Voters(latest, a.verdict);
    if a.verdict == Clean { assert |Voters(latest, Clean)| >= 1; }
  }
}
