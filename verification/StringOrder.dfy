/** Go's order on strings, and picking the least of a set. */
module StringOrder {

  /** Go's order on strings. */
  predicate Before(a: string, b: string) {
    if b == [] then false
    else if a == [] then true
    else a[0] < b[0] || (a[0] == b[0] && Before(a[1..], b[1..]))
  }

  lemma {:induction false} BeforeAppend(a: string, b: string, c: string, d: string)
    requires |a| == |b|
    ensures Before(a + c, b + d) <==> Before(a, b) || (a == b && Before(c, d))
    decreases |a|
  {
    if a == [] {
      assert a + c == c && b + d == d;
    } else {
      assert (a + c)[1..] == a[1..] + c && (b + d)[1..] == b[1..] + d;
      BeforeAppend(a[1..], b[1..], c, d);
      assert a == b <==> a[0] == b[0] && a[1..] == b[1..];
    }
  }

  lemma {:induction false} NotBeforeSelf(a: string)
    ensures !Before(a, a)
  {
    if a != [] { NotBeforeSelf(a[1..]); }
  }

  lemma {:induction false} BeforeTotal(a: string, b: string)
    ensures a == b || Before(a, b) || Before(b, a)
    ensures !(Before(a, b) && Before(b, a))
  {
    if a != [] && b != [] {
      BeforeTotal(a[1..], b[1..]);
      assert a[0] == b[0] && a[1..] == b[1..] ==> a == b;
    }
  }

  lemma {:induction false} BeforeTransitive(a: string, b: string, c: string)
    requires Before(a, b) && Before(b, c)
    ensures Before(a, c)
  {
    if a != [] && a[0] == b[0] && b[0] == c[0] {
      BeforeTransitive(a[1..], b[1..], c[1..]);
    }
  }

  ghost predicate IsLeast(names: set<string>, name: string) {
    name in names && forall other :: other in names && other != name ==> Before(name, other)
  }

  method SmallestName(names: set<string>) returns (least: string)
    requires names != {}
    ensures IsLeast(names, least)
  {
    least :| least in names;
    var rest := names - {least};
    while rest != {}
      invariant rest <= names && least in names - rest
      invariant forall other :: other in names - rest && other != least ==> Before(least, other)
      decreases rest
    {
      var name :| name in rest;
      ghost var was := least;
      rest := rest - {name};
      BeforeTotal(name, least);
      if Before(name, least) {
        forall other | other in names - rest && other != name
          ensures Before(name, other)
        {
          if other != was { BeforeTransitive(name, was, other); }
        }
        least := name;
      }
    }
  }

  lemma {:induction false} LeastExists(names: set<string>)
    requires names != {}
    ensures exists name :: IsLeast(names, name)
    decreases names
  {
    var name :| name in names;
    var rest := names - {name};
    if rest == {} {
      assert names == rest + {name} == {name};
      assert IsLeast(names, name);
    } else {
      LeastExists(rest);
      var least :| IsLeast(rest, least);
      BeforeTotal(name, least);
      if Before(name, least) {
        forall other | other in names && other != name
          ensures Before(name, other)
        {
          if other != least { BeforeTransitive(name, least, other); }
        }
        assert IsLeast(names, name);
      } else {
        assert IsLeast(names, least);
      }
    }
  }

  lemma LeastUnique(names: set<string>, a: string, b: string)
    requires IsLeast(names, a) && IsLeast(names, b)
    ensures a == b
  {
    BeforeTotal(a, b);
  }

  lemma LeastIn(names: set<string>, name: string)
    requires IsLeast(names, name)
    ensures name in names
  {}
}
