/** Concatenation of a sequence of sequences, folded from either end. */
module Sequences {

  function Flatten<T>(groups: seq<seq<T>>): seq<T> {
    if groups == [] then [] else Flatten(groups[..|groups| - 1]) + groups[|groups| - 1]
  }

  function FlattenFront<T>(groups: seq<seq<T>>): seq<T> {
    if groups == [] then [] else groups[0] + FlattenFront(groups[1..])
  }

  lemma {:induction false} FlattenFrontSnoc<T>(groups: seq<seq<T>>, g: seq<T>)
    ensures FlattenFront(groups + [g]) == FlattenFront(groups) + g
  {
    if groups == [] {
      assert [g][1..] == [];
      assert groups + [g] == [g];
      assert FlattenFront([g]) == g + FlattenFront([g][1..]);
    } else {
      assert (groups + [g])[1..] == groups[1..] + [g];
      FlattenFrontSnoc(groups[1..], g);
    }
  }

  lemma {:induction false} FlattensAgree<T>(groups: seq<seq<T>>)
    ensures Flatten(groups) == FlattenFront(groups)
  {
    if groups == [] {
    } else {
      var n := |groups| - 1;
      FlattensAgree(groups[..n]);
      assert groups[..n] + [groups[n]] == groups;
      FlattenFrontSnoc(groups[..n], groups[n]);
    }
  }

  lemma {:induction false} FlattenFrontConcat<T>(a: seq<seq<T>>, b: seq<seq<T>>)
    ensures FlattenFront(a + b) == FlattenFront(a) + FlattenFront(b)
  {
    if a == [] {
      assert a + b == b;
    } else {
      assert (a + b)[1..] == a[1..] + b;
      FlattenFrontConcat(a[1..], b);
    }
  }

  lemma FlattenCut<T>(groups: seq<seq<T>>, k: nat)
    requires k <= |groups|
    ensures FlattenFront(groups) == FlattenFront(groups[..k]) + FlattenFront(groups[k..])
  {
    FlattenFrontConcat(groups[..k], groups[k..]);
    assert groups[..k] + groups[k..] == groups;
  }

  lemma FlattenCuts<T>(groups: seq<seq<T>>, j: nat, k: nat)
    requires j <= k <= |groups|
    ensures FlattenFront(groups[..k]) == FlattenFront(groups[..j]) + FlattenFront(groups[j..k])
    ensures FlattenFront(groups) == FlattenFront(groups[..k]) + FlattenFront(groups[k..])
  {
    var front := groups[..k];
    FlattenCut(groups, k);
    FlattenCut(front, j);
    assert front[..j] == groups[..j] && front[j..] == groups[j..k];
  }
}
