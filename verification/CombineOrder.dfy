/** When the order of the attestations can change the combined result: which maps
    of counted attestations the orders give, and exactly when those agree. */
module CombineOrder {
  import opened Wrappers
  import opened Attestation
  import opened StringOrder
  import opened Combine

  // ----- the maps the orders give -----

  /** One attestation per counted worker, none of its counted ones later. */
  ghost predicate Chooses(q: Query, atts: seq<Attestation>, m: Latest) {
    && (forall w :: w in m <==> exists a :: a in atts && Counts(q, a) && a.worker == w)
    && forall w <- m :: m[w].worker == w && IsTop(q, atts, m[w])
  }

  function At(q: Query, atts: seq<Attestation>, w: string): Option<Attestation> {
    if w in LatestOf(q, atts) then Some(LatestOf(q, atts)[w]) else None
  }

  lemma SameMembers(xs: seq<Attestation>, ys: seq<Attestation>)
    requires multiset(xs) == multiset(ys)
    ensures forall a :: a in xs <==> a in ys
  {
    assert forall a :: a in xs <==> a in multiset(xs);
    assert forall a :: a in ys <==> a in multiset(ys);
  }

  lemma OrdersChoose(q: Query, atts: seq<Attestation>, ys: seq<Attestation>)
    requires multiset(ys) == multiset(atts)
    ensures Chooses(q, atts, LatestOf(q, ys))
  {
    SameMembers(ys, atts);
    hide Counts, LatestOf;
    forall w
      ensures w in LatestOf(q, ys) <==> exists a :: a in atts && Counts(q, a) && a.worker == w
      ensures w in LatestOf(q, ys) ==> LatestOf(q, ys)[w].worker == w && IsTop(q, atts, LatestOf(q, ys)[w])
    {
      LatestMeans(q, ys, w);
    }
  }

  /** An attestation of another worker makes no difference. */
  lemma {:induction false} OthersIgnored(q: Query, a: seq<Attestation>, x: Attestation, b: seq<Attestation>, w: string)
    requires x.worker != w
    ensures At(q, a + [x] + b, w) == At(q, a + b, w)
    decreases |b|
  {
    hide Counts;
    if b == [] {
      assert a + [x] + b == a + [x] && a + b == a && (a + [x])[..|a|] == a;
    } else {
      var n := |b| - 1;
      OthersIgnored(q, a, x, b[..n], w);
      assert (a + [x] + b)[..|a| + 1 + n] == a + [x] + b[..n] && (a + b)[..|a| + n] == a + b[..n];
    }
  }

  /** Moving a worker's attestation to the front leaves the others' as they were. */
  lemma Pull(q: Query, atts: seq<Attestation>, ys: seq<Attestation>, x: Attestation) returns (zs: seq<Attestation>)
    requires multiset(ys) == multiset(atts) && IsTop(q, atts, x)
    ensures multiset(zs) == multiset(atts)
    ensures At(q, zs, x.worker) == Some(x)
    ensures forall w :: w != x.worker ==> At(q, zs, w) == At(q, ys, w)
  {
    SameMembers(ys, atts);
    hide Counts, LatestOf;
    var i :| 0 <= i < |ys| && ys[i] == x;
    var front, back := ys[..i], ys[i + 1..];
    assert ys == front + [x] + back;
    zs := [x] + (front + back);
    FirstTopCounts(q, x, front + back);
    forall w | w != x.worker
      ensures At(q, zs, w) == At(q, ys, w)
    {
      OthersIgnored(q, front, x, back, w);
      OthersIgnored(q, [], x, front + back, w);
      assert [] + [x] + (front + back) == zs && [] + (front + back) == front + back;
    }
  }

  lemma {:induction false} PullAll(q: Query, atts: seq<Attestation>, m: Latest, ws: set<string>) returns (ys: seq<Attestation>)
    requires Chooses(q, atts, m) && ws <= m.Keys
    ensures multiset(ys) == multiset(atts) && forall w <- ws :: At(q, ys, w) == Some(m[w])
    decreases ws
  {
    hide Counts, LatestOf, At, IsTop;
    if ws == {} {
      ys := atts;
    } else {
      var w :| w in ws;
      var before := PullAll(q, atts, m, ws - {w});
      ys := Pull(q, atts, before, m[w]);
    }
  }

  /** The orders of the attestations give exactly the choices of one latest counted
      attestation for each counted worker. */
  lemma OrdersAreChoices(q: Query, atts: seq<Attestation>, m: Latest)
    ensures Chooses(q, atts, m) <==> exists ys :: multiset(ys) == multiset(atts) && LatestOf(q, ys) == m
  {
    if Chooses(q, atts, m) {
      var ys := PullAll(q, atts, m, m.Keys);
      OrdersChoose(q, atts, ys);
      hide Counts;
      forall w
        ensures w in LatestOf(q, ys) <==> w in m
        ensures w in m ==> LatestOf(q, ys)[w] == m[w]
      {
        assert w in m ==> At(q, ys, w) == Some(m[w]);
      }
      assert LatestOf(q, ys) == m;
    }
    if ys :| multiset(ys) == multiset(atts) && LatestOf(q, ys) == m {
      OrdersChoose(q, atts, ys);
    }
  }

  // ----- when they all give one result -----

  /** The workers all of whose latest counted attestations say removed. */
  ghost function Musts(q: Query, atts: seq<Attestation>): set<string> {
    set w | w in LatestOf(q, atts) && forall a :: IsTop(q, atts, a) && a.worker == w ==> a.verdict == Removed
  }

  /** The workers one of whose latest counted attestations says held. */
  ghost function Holders(q: Query, atts: seq<Attestation>): set<string> {
    set w | w in LatestOf(q, atts) && exists a :: IsTop(q, atts, a) && a.worker == w && a.verdict == Held
  }

  ghost predicate CleanAgreed(q: Query, atts: seq<Attestation>) {
    forall a, b :: IsTop(q, atts, a) && IsTop(q, atts, b) && a.worker == b.worker ==> (a.verdict == Clean <==> b.verdict == Clean)
  }

  ghost predicate SomeRemoves(q: Query, atts: seq<Attestation>) { exists a :: IsTop(q, atts, a) && a.verdict == Removed }

  /** Every removal that could decide, by a worker up to the first that must remove, names one category. */
  ghost predicate RemovalAgreed(q: Query, atts: seq<Attestation>) {
    exists c :: IsLeast(Musts(q, atts), c) && OneCategoryUpTo(q, atts, c)
  }

  ghost predicate OneCategoryUpTo(q: Query, atts: seq<Attestation>, c: string) {
    forall a, b :: IsTop(q, atts, a) && a.verdict == Removed && !Before(c, a.worker) && IsTop(q, atts, b) && b.worker == c ==>
      a.category == b.category
  }

  /** The first worker that holds names one category. */
  ghost predicate HoldAgreed(q: Query, atts: seq<Attestation>) {
    forall a, b :: IsTop(q, atts, a) && IsTop(q, atts, b) && a.worker == b.worker && IsLeast(Holders(q, atts), a.worker) ==>
      a.category == b.category
  }

  /** Tied latest attestations of a worker agree on being clean; and the deciding
      category is fixed: some worker must remove and every removal up to the first
      such names its category, or none removes and the first holder names one. */
  ghost predicate Agreed(q: Query, atts: seq<Attestation>) {
    CleanAgreed(q, atts) && if SomeRemoves(q, atts) then RemovalAgreed(q, atts) else HoldAgreed(q, atts)
  }

  lemma RulesTotal(m: Latest, quorum: int) returns (r: Result)
    ensures Rules(m, quorum, r)
  {
    var clean := |Voters(m, Clean)|;
    var conflict := Voters(m, Clean) != {};
    if Voters(m, Removed) != {} {
      LeastExists(Voters(m, Removed));
      var w :| IsLeast(Voters(m, Removed), w);
      r := Result(RemovedBy(CategoryOf(m, w)), conflict, clean);
    } else if Voters(m, Held) != {} {
      LeastExists(Voters(m, Held));
      var w :| IsLeast(Voters(m, Held), w);
      r := Result(HeldBy(CategoryOf(m, w)), conflict, clean);
    } else {
      r := Result(if 1 <= clean && quorum <= clean then CleanByQuorum else Unchecked, false, clean);
    }
  }

  lemma RemovedDecides(m: Latest, quorum: int, r: Result, w: string)
    requires Rules(m, quorum, r) && IsLeast(Voters(m, Removed), w)
    ensures r.outcome == RemovedBy(CategoryOf(m, w))
  {
    forall v | IsLeast(Voters(m, Removed), v)
      ensures v == w
    {
      LeastUnique(Voters(m, Removed), v, w);
    }
  }

  lemma HeldDecides(m: Latest, quorum: int, r: Result, w: string)
    requires Rules(m, quorum, r) && Voters(m, Removed) == {} && IsLeast(Voters(m, Held), w)
    ensures r.outcome == HeldBy(CategoryOf(m, w))
  {
    forall v | IsLeast(Voters(m, Held), v)
      ensures v == w
    {
      LeastUnique(Voters(m, Held), v, w);
    }
  }

  // Agreed is enough.

  lemma CleanFixed(q: Query, atts: seq<Attestation>, m: Latest, n: Latest)
    requires CleanAgreed(q, atts) && Chooses(q, atts, m) && Chooses(q, atts, n)
    ensures Voters(m, Clean) == Voters(n, Clean)
  {
    hide IsTop;
    forall w
      ensures w in Voters(m, Clean) <==> w in Voters(n, Clean)
    {
      if w in m { assert w in n && IsTop(q, atts, m[w]) && IsTop(q, atts, n[w]); }
      if w in n { assert w in m && IsTop(q, atts, m[w]) && IsTop(q, atts, n[w]); }
    }
  }

  lemma RemovalFixed(q: Query, atts: seq<Attestation>, m: Latest, c: string, b: Attestation) returns (w: string)
    requires Chooses(q, atts, m) && IsLeast(Musts(q, atts), c) && OneCategoryUpTo(q, atts, c)
    requires IsTop(q, atts, b) && b.worker == c
    ensures IsLeast(Voters(m, Removed), w) && CategoryOf(m, w) == b.category
  {
    MustsRemove(q, atts, m);
    hide IsTop, Musts, Chooses;
    LeastExists(Voters(m, Removed));
    w :| IsLeast(Voters(m, Removed), w);
    BeforeTotal(c, w);
    NotBeforeSelf(c);
    ChosenTop(q, atts, m, w);
  }

  lemma ChosenTop(q: Query, atts: seq<Attestation>, m: Latest, w: string)
    requires Chooses(q, atts, m) && w in m
    ensures m[w].worker == w && IsTop(q, atts, m[w])
  {
  }

  lemma MustsRemove(q: Query, atts: seq<Attestation>, m: Latest)
    requires Chooses(q, atts, m)
    ensures Musts(q, atts) <= Voters(m, Removed)
  {
    hide IsTop, Counts;
    forall w <- Musts(q, atts)
      ensures w in m && m[w].verdict == Removed
    {
      LatestMeans(q, atts, w);
    }
  }

  lemma HoldersAre(q: Query, atts: seq<Attestation>, m: Latest)
    requires CleanAgreed(q, atts) && !SomeRemoves(q, atts) && Chooses(q, atts, m)
    ensures Voters(m, Removed) == {} && Voters(m, Held) == Holders(q, atts)
  {
    hide IsTop, Counts;
    forall w
      ensures w in Voters(m, Held) <==> w in Holders(q, atts)
      ensures w !in Voters(m, Removed)
    {
      LatestMeans(q, atts, w);
      if w in m { ChosenTop(q, atts, m, w); }
    }
  }

  lemma AgreedFixes(q: Query, atts: seq<Attestation>, quorum: int, m: Latest, n: Latest, r: Result, s: Result)
    requires Agreed(q, atts) && Chooses(q, atts, m) && Chooses(q, atts, n) && Rules(m, quorum, r) && Rules(n, quorum, s)
    ensures r == s
  {
    hide IsTop, Chooses, CleanAgreed, SomeRemoves, OneCategoryUpTo, Holders, Musts;
    CleanFixed(q, atts, m, n);
    if SomeRemoves(q, atts) {
      var c :| IsLeast(Musts(q, atts), c) && OneCategoryUpTo(q, atts, c);
      MustsRemove(q, atts, m);
      ChosenTop(q, atts, m, c);
      var v := RemovalFixed(q, atts, m, c, m[c]);
      var w := RemovalFixed(q, atts, n, c, m[c]);
      RemovedDecides(m, quorum, r, v);
      RemovedDecides(n, quorum, s, w);
    } else {
      HoldersAre(q, atts, m);
      HoldersAre(q, atts, n);
      if Holders(q, atts) != {} {
        LeastExists(Holders(q, atts));
        var w :| IsLeast(Holders(q, atts), w);
        ChosenTop(q, atts, m, w);
        ChosenTop(q, atts, n, w);
        HeldDecides(m, quorum, r, w);
        HeldDecides(n, quorum, s, w);
      }
    }
  }

  // And it is needed.

  ghost predicate Differ(quorum: int, m: Latest, n: Latest) {
    forall r, s :: Rules(m, quorum, r) && Rules(n, quorum, s) ==> r != s
  }

  lemma Swapped(q: Query, atts: seq<Attestation>, m: Latest, a: Attestation)
    requires Chooses(q, atts, m) && IsTop(q, atts, a)
    ensures Chooses(q, atts, m[a.worker := a])
  {
    hide Counts;
  }

  lemma CleanDiffers(q: Query, atts: seq<Attestation>, quorum: int, m: Latest, a: Attestation, b: Attestation)
    requires a.worker == b.worker && a.verdict == Clean && b.verdict != Clean
    ensures Differ(quorum, m[a.worker := a], m[a.worker := b])
  {
    var x, y := Voters(m[a.worker := a], Clean), Voters(m[a.worker := b], Clean);
    assert x == y + {a.worker} && a.worker !in y;
  }

  /** A choice that removes only where it must. */
  ghost function Calm(q: Query, atts: seq<Attestation>, m: Latest): Latest {
    map w | w in m :: Calmest(q, atts, w, m[w])
  }

  ghost function Calmest(q: Query, atts: seq<Attestation>, w: string, a: Attestation): Attestation {
    if exists b :: IsTop(q, atts, b) && b.worker == w && b.verdict != Removed
    then var b :| IsTop(q, atts, b) && b.worker == w && b.verdict != Removed; b
    else a
  }

  lemma CalmRemoves(q: Query, atts: seq<Attestation>, m: Latest)
    requires Chooses(q, atts, m)
    ensures Chooses(q, atts, Calm(q, atts, m)) && Voters(Calm(q, atts, m), Removed) == Musts(q, atts)
  {
    hide Counts, IsTop;
    var c := Calm(q, atts, m);
    forall w
      ensures w in Voters(c, Removed) <==> w in Musts(q, atts)
    {
      LatestMeans(q, atts, w);
    }
  }

  /** A removal before, or at, the first worker that must remove decides. */
  lemma RemovalDiffers(q: Query, atts: seq<Attestation>, quorum: int, m: Latest, c: string, a: Attestation, b: Attestation)
    returns (x: Latest, y: Latest)
    requires Chooses(q, atts, m) && IsLeast(Musts(q, atts), c)
    requires IsTop(q, atts, a) && a.verdict == Removed && !Before(c, a.worker)
    requires IsTop(q, atts, b) && b.worker == c && a.category != b.category
    ensures Chooses(q, atts, x) && Chooses(q, atts, y) && Differ(quorum, x, y)
  {
    CalmRemoves(q, atts, m);
    LeastIn(Musts(q, atts), c);
    MustVerdict(q, atts, b);
    x := Calm(q, atts, m)[c := b];
    Swapped(q, atts, Calm(q, atts, m), b);
    y := x[a.worker := a];
    Swapped(q, atts, x, a);
    hide IsTop, Calm, Chooses, Musts, Voters, Rules, IsLeast;
    RemoverJoins(Calm(q, atts, m), b);
    RemoverJoins(x, a);
    assert Musts(q, atts) + {c} == Musts(q, atts);
    FirstOfMore(Voters(x, Removed), c, a.worker);
    forall r, s | Rules(x, quorum, r) && Rules(y, quorum, s)
      ensures r != s
    {
      RemovedDecides(x, quorum, r, c);
      RemovedDecides(y, quorum, s, a.worker);
    }
  }

  lemma RemoverJoins(m: Latest, a: Attestation)
    requires a.verdict == Removed
    ensures Voters(m[a.worker := a], Removed) == Voters(m, Removed) + {a.worker}
  {
  }

  lemma MustVerdict(q: Query, atts: seq<Attestation>, b: Attestation)
    requires IsTop(q, atts, b) && b.worker in Musts(q, atts)
    ensures b.verdict == Removed
  {
  }

  lemma FirstOfMore(names: set<string>, c: string, w: string)
    requires IsLeast(names, c) && !Before(c, w)
    ensures IsLeast(names + {w}, w)
  {
    BeforeTotal(c, w);
    forall other <- names | other != w
      ensures Before(w, other)
    {
      if other != c && w != c { BeforeTransitive(w, c, other); }
    }
  }

  /** Where nobody must remove, one who may decides or not. */
  lemma MayDiffers(q: Query, atts: seq<Attestation>, quorum: int, m: Latest, a: Attestation) returns (x: Latest, y: Latest)
    requires Chooses(q, atts, m) && IsTop(q, atts, a) && a.verdict == Removed && Musts(q, atts) == {}
    ensures Chooses(q, atts, x) && Chooses(q, atts, y) && Differ(quorum, x, y)
  {
    CalmRemoves(q, atts, m);
    x := Calm(q, atts, m);
    y := x[a.worker := a];
    Swapped(q, atts, x, a);
    hide IsTop, Calm, Chooses, Musts;
    assert a.worker in Voters(y, Removed);
  }

  lemma HoldDiffers(q: Query, atts: seq<Attestation>, quorum: int, m: Latest, a: Attestation, b: Attestation)
    returns (x: Latest, y: Latest)
    requires CleanAgreed(q, atts) && !SomeRemoves(q, atts) && Chooses(q, atts, m)
    requires IsTop(q, atts, a) && IsTop(q, atts, b) && a.worker == b.worker && IsLeast(Holders(q, atts), a.worker)
    requires a.category != b.category
    ensures Chooses(q, atts, x) && Chooses(q, atts, y) && Differ(quorum, x, y)
  {
    x, y := m[a.worker := a], m[a.worker := b];
    Swapped(q, atts, m, a);
    Swapped(q, atts, m, b);
    HoldersAre(q, atts, x);
    HoldersAre(q, atts, y);
    hide IsTop, Chooses, Holders;
    forall r, s | Rules(x, quorum, r) && Rules(y, quorum, s)
      ensures r != s
    {
      HeldDecides(x, quorum, r, a.worker);
      HeldDecides(y, quorum, s, a.worker);
    }
  }

  lemma NotAgreedDiffers(q: Query, atts: seq<Attestation>, quorum: int) returns (x: Latest, y: Latest)
    requires !Agreed(q, atts)
    ensures Chooses(q, atts, x) && Chooses(q, atts, y) && Differ(quorum, x, y)
  {
    var m := LatestOf(q, atts);
    OrdersChoose(q, atts, atts);
    hide IsTop, Chooses, Differ, LatestOf, Holders, Musts, Counts;
    if !CleanAgreed(q, atts) {
      var a, b :| IsTop(q, atts, a) && IsTop(q, atts, b) && a.worker == b.worker && a.verdict == Clean && b.verdict != Clean;
      x, y := m[a.worker := a], m[a.worker := b];
      Swapped(q, atts, m, a);
      Swapped(q, atts, m, b);
      CleanDiffers(q, atts, quorum, m, a, b);
    } else if SomeRemoves(q, atts) {
      if Musts(q, atts) == {} {
        var a :| IsTop(q, atts, a) && a.verdict == Removed;
        x, y := MayDiffers(q, atts, quorum, m, a);
      } else {
        LeastExists(Musts(q, atts));
        var c :| IsLeast(Musts(q, atts), c);
        assert !OneCategoryUpTo(q, atts, c);
        var a, b :| IsTop(q, atts, a) && a.verdict == Removed && !Before(c, a.worker) && IsTop(q, atts, b) && b.worker == c
                    && a.category != b.category;
        x, y := RemovalDiffers(q, atts, quorum, m, c, a, b);
      }
    } else {
      var a, b :| IsTop(q, atts, a) && IsTop(q, atts, b) && a.worker == b.worker && IsLeast(Holders(q, atts), a.worker)
                  && a.category != b.category;
      x, y := HoldDiffers(q, atts, quorum, m, a, b);
    }
  }

  /** Every order gives the result that this one gives. */
  ghost predicate ResultFixed(q: Query, atts: seq<Attestation>, quorum: int) {
    forall ys, r, s :: multiset(ys) == multiset(atts) && Rules(LatestOf(q, ys), quorum, r) && Rules(LatestOf(q, atts), quorum, s) ==> r == s
  }

  /** Exactly when no order of the attestations changes the combined result. */
  lemma ResultFixedIff(q: Query, atts: seq<Attestation>, quorum: int)
    ensures ResultFixed(q, atts, quorum) <==> Agreed(q, atts)
  {
    hide Agreed, Rules, Chooses, LatestOf;
    OrdersChoose(q, atts, atts);
    if Agreed(q, atts) {
      forall ys, r, s | multiset(ys) == multiset(atts) && Rules(LatestOf(q, ys), quorum, r) && Rules(LatestOf(q, atts), quorum, s)
        ensures r == s
      {
        OrdersChoose(q, atts, ys);
        AgreedFixes(q, atts, quorum, LatestOf(q, ys), LatestOf(q, atts), r, s);
      }
    } else {
      var x, y := NotAgreedDiffers(q, atts, quorum);
      OrdersAreChoices(q, atts, x);
      OrdersAreChoices(q, atts, y);
      var xs :| multiset(xs) == multiset(atts) && LatestOf(q, xs) == x;
      var ys :| multiset(ys) == multiset(atts) && LatestOf(q, ys) == y;
      var r := RulesTotal(x, quorum);
      var s := RulesTotal(y, quorum);
      var t := RulesTotal(LatestOf(q, atts), quorum);
      assert r != s;
    }
  }

  /** Such a tie: a clean verdict and a removal of one worker in one second, and
      whichever comes first decides. */
  lemma TieChangesResult(q: Query, a: Attestation, b: Attestation, r: Result, s: Result)
    requires Counts(q, a) && Counts(q, b) && a.worker == b.worker && a.issuedAt == b.issuedAt
    requires a.verdict == Clean && b.verdict == Removed
    requires Rules(LatestOf(q, [a, b]), 1, r) && Rules(LatestOf(q, [b, a]), 1, s)
    ensures r == Result(CleanByQuorum, false, 1) && s == Result(RemovedBy(b.category), false, 0)
  {
    TieByPosition(q, a, b);
    hide Counts, LatestOf;
    var m, n := map[a.worker := a], map[a.worker := b];
    assert Voters(m, Clean) == {a.worker} && Voters(m, Removed) == {} && Voters(m, Held) == {};
    assert Voters(n, Clean) == {} && Voters(n, Removed) == {a.worker};
    assert IsLeast(Voters(n, Removed), a.worker);
    RemovedDecides(n, 1, s, a.worker);
  }
}
