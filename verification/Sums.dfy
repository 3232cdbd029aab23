/** Sums of weights over a sequence, and how they follow a change of it. */
module Sums {
  function Sum<T>(cells: seq<T>, weight: T -> nat): nat {
    if cells == [] then 0 else weight(cells[0]) + Sum(cells[1..], weight)
  }

  lemma {:induction false} SumConcat<T>(a: seq<T>, b: seq<T>, weight: T -> nat)
    ensures Sum(a + b, weight) == Sum(a, weight) + Sum(b, weight)
    decreases |a|
  {
    if a == [] {
      assert a + b == b;
    } else {
      assert (a + b)[1..] == a[1..] + b;
      SumConcat(a[1..], b, weight);
    }
  }

  lemma SumOne<T>(c: T, weight: T -> nat)
    ensures Sum([c], weight) == weight(c)
  {
    assert Sum([c][1..], weight) == 0;
  }

  lemma SumPush<T>(cells: seq<T>, c: T, weight: T -> nat)
    ensures Sum(cells + [c], weight) == Sum(cells, weight) + weight(c)
  {
    SumConcat(cells, [c], weight);
    SumOne(c, weight);
  }

  lemma SumSplit<T>(cells: seq<T>, i: nat, weight: T -> nat)
    requires i < |cells|
    ensures Sum(cells, weight) == Sum(cells[..i], weight) + weight(cells[i]) + Sum(cells[i + 1..], weight)
  {
    hide Sum;
    var front, c, back := cells[..i], cells[i], cells[i + 1..];
    assert cells == front + [c] + back;
    SumConcat(front + [c], back, weight);
    SumConcat(front, [c], weight);
    SumOne(c, weight);
  }

  lemma SumRemove<T>(cells: seq<T>, i: nat, weight: T -> nat)
    requires i < |cells|
    ensures Sum(cells[..i] + cells[i + 1..], weight) == Sum(cells, weight) - weight(cells[i])
  {
    hide Sum;
    SumSplit(cells, i, weight);
    SumConcat(cells[..i], cells[i + 1..], weight);
  }

  lemma SumUpdate<T>(cells: seq<T>, i: nat, c: T, weight: T -> nat)
    requires i < |cells|
    ensures Sum(cells[i := c], weight) == Sum(cells, weight) - weight(cells[i]) + weight(c)
  {
    hide Sum;
    SumSplit(cells, i, weight);
    SumSplit(cells[i := c], i, weight);
    assert cells[i := c][..i] == cells[..i] && cells[i := c][i + 1..] == cells[i + 1..];
  }

  /** Two cells weigh no more than all of them. */
  lemma SumTwo<T>(cells: seq<T>, i: nat, j: nat, weight: T -> nat)
    requires i < j < |cells|
    ensures weight(cells[i]) + weight(cells[j]) <= Sum(cells, weight)
  {
    hide Sum;
    SumSplit(cells, j, weight);
    SumSplit(cells[..j], i, weight);
  }

  lemma SumCell<T>(cells: seq<T>, i: nat, weight: T -> nat)
    requires i < |cells|
    ensures weight(cells[i]) <= Sum(cells, weight)
  {
    hide Sum;
    SumSplit(cells, i, weight);
  }

  lemma {:induction false} SumZero<T>(cells: seq<T>, weight: T -> nat)
    requires forall i :: 0 <= i < |cells| ==> weight(cells[i]) == 0
    ensures Sum(cells, weight) == 0
  {
    if cells != [] {
      SumZero(cells[1..], weight);
    }
  }

  /** A positive sum has a cell with weight. */
  lemma {:induction false} SumPositive<T>(cells: seq<T>, weight: T -> nat) returns (i: nat)
    requires Sum(cells, weight) > 0
    ensures i < |cells| && weight(cells[i]) > 0
  {
    if weight(cells[0]) > 0 {
      i := 0;
    } else {
      i := SumPositive(cells[1..], weight);
      i := i + 1;
    }
  }
}
