/** The components of a composed app and the two views the release code takes of
    them: all of them by name, and the stateful ones that run on their own. */
module Components {
  import opened GitTree
  import Lex
  import opened Sorting
  import opened Wrappers

  datatype Component = Component(name: string, stateful: bool, template: Option<string>)

  predicate NameAtMost(a: Component, b: Component) {
    Lex.AtMost(a.name, b.name)
  }

  lemma NamesAreTotal()
    ensures TotalOrder(NameAtMost)
  {
    Lex.StrictTotalOrder();
  }

  ghost predicate DistinctNames(cs: seq<Component>) {
    forall i, j :: 0 <= i < j < |cs| ==> cs[i].name != cs[j].name
  }

  predicate OwnApplication(c: Component) {
    c.stateful && c.template.Some?
  }

  function StatefulOf(cs: seq<Component>): (r: seq<Component>)
    ensures |r| <= |cs|
    ensures forall c :: c in r <==> c in cs && OwnApplication(c)
  {
    if cs == [] then []
    else
      var c := cs[|cs| - 1];
      var r := StatefulOf(cs[..|cs| - 1]);
      assert cs == cs[..|cs| - 1] + [c];
      if OwnApplication(c) then r + [c] else r
  }

  /** Fewer stateful components than components is how the activation decides that
      a shared Application exists. */
  lemma {:induction false} SharedExists(cs: seq<Component>)
    ensures |cs| > |StatefulOf(cs)| <==> exists c :: c in cs && !OwnApplication(c)
  {
    if cs == [] {
    } else {
      var c := cs[|cs| - 1];
      SharedExists(cs[..|cs| - 1]);
      assert cs == cs[..|cs| - 1] + [c];
      if |cs[..|cs| - 1]| > |StatefulOf(cs[..|cs| - 1])| {
        var d :| d in cs[..|cs| - 1] && !OwnApplication(d);
        assert d in cs;
      }
    }
  }

  method ComposedComponents(cs: seq<Component>) returns (r: seq<Component>)
    ensures Sorts(cs, r, NameAtMost)
  {
    NamesAreTotal();
    r := SortSlice(cs, NameAtMost);
  }

  method StatefulComponents(cs: seq<Component>) returns (r: seq<Component>)
    ensures exists sorted :: Sorts(cs, sorted, NameAtMost) && r == StatefulOf(sorted)
    ensures forall c :: c in r <==> c in cs && c.stateful && c.template.Some?
    ensures NamesAscend(r)
  {
    var sorted := ComposedComponents(cs);
    r := [];
    for i := 0 to |sorted|
      invariant r == StatefulOf(sorted[..i])
    {
      assert sorted[..i + 1][..i] == sorted[..i];
      if sorted[i].stateful && sorted[i].template.Some? { r := r + [sorted[i]]; }
    }
    assert sorted[..|sorted|] == sorted;
    MultisetMembers(cs, sorted);
    StatefulKeepsOrder(sorted);
  }

  ghost predicate NamesAscend(cs: seq<Component>) {
    forall i, j :: 0 <= i < j < |cs| ==> !Lex.Less(cs[j].name, cs[i].name)
  }

  lemma {:induction false} StatefulKeepsOrder(cs: seq<Component>)
    requires Sorted(cs, NameAtMost)
    ensures NamesAscend(StatefulOf(cs))
  {
    if cs == [] {
    } else {
      var n := |cs| - 1;
      StatefulKeepsOrder(cs[..n]);
      forall c | c in cs[..n] ensures !Lex.Less(cs[n].name, c.name) { LastIsLatest(cs, c); }
      if OwnApplication(cs[n]) { AppendAscends(StatefulOf(cs[..n]), cs[n]); }
    }
  }

  lemma AppendAscends(cs: seq<Component>, c: Component)
    requires NamesAscend(cs) && forall x :: x in cs ==> !Lex.Less(c.name, x.name)
    ensures NamesAscend(cs + [c])
  {
    forall i, j | 0 <= i < j < |cs| + 1 ensures !Lex.Less((cs + [c])[j].name, (cs + [c])[i].name) {
      if j == |cs| { assert cs[i] in cs; }
    }
  }

  lemma LastIsLatest(cs: seq<Component>, c: Component)
    requires Sorted(cs, NameAtMost) && cs != [] && c in cs[..|cs| - 1]
    ensures !Lex.Less(cs[|cs| - 1].name, c.name)
  {
    var i :| 0 <= i < |cs| - 1 && cs[i] == c;
    assert NameAtMost(cs[i], cs[|cs| - 1]);
    var (a, b) := (c.name, cs[|cs| - 1].name);
    if a == b { Lex.Irreflexive(a); } else { Lex.Asymmetric(a, b); }
  }

  /** With distinct names there is only one such view, whatever the sort does. */
  lemma OneOrder(cs: seq<Component>, a: seq<Component>, b: seq<Component>)
    requires DistinctNames(cs) && Sorts(cs, a, NameAtMost) && Sorts(cs, b, NameAtMost)
    ensures a == b
  {
    MultisetMembers(cs, a);
    Lex.StrictTotalOrder();
    forall x, y | x in a && y in a && NameAtMost(x, y) && NameAtMost(y, x) ensures x == y {
      var i :| 0 <= i < |cs| && cs[i] == x;
      var j :| 0 <= j < |cs| && cs[j] == y;
    }
    SortedUnique(a, b, NameAtMost);
  }
}
