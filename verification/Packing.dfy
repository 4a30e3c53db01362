/**
 Order-preserving packing under a byte budget, as the forwarder does it for devices, for the
 fragments of one oversized device, and for trailing links and events.
 */
module Packing {

  /** Base cost of the first group, base cost of every later group, and the budget. */
  datatype Limits = Limits(first: nat, rest: nat, max: nat)

  function Base(l: Limits, k: nat): nat
  {
    if k == 0 then l.first else l.rest
  }

  function Sum<T>(cost: T -> nat, g: seq<T>): nat
  {
    if g == [] then 0 else Sum(cost, g[..|g| - 1]) + cost(g[|g| - 1])
  }

  lemma {:induction false} SumConcat<T>(cost: T -> nat, a: seq<T>, b: seq<T>)
    ensures Sum(cost, a + b) == Sum(cost, a) + Sum(cost, b)
  {
    if b == [] {
      assert a + b == a;
    } else {
      assert (a + b)[..|a + b| - 1] == a + b[..|b| - 1];
      SumConcat(cost, a, b[..|b| - 1]);
    }
  }

  function Flatten<T>(gs: seq<seq<T>>): seq<T>
  {
    if gs == [] then [] else Flatten(gs[..|gs| - 1]) + gs[|gs| - 1]
  }

  lemma {:induction false} FlattenConcat<T>(a: seq<seq<T>>, b: seq<seq<T>>)
    ensures Flatten(a + b) == Flatten(a) + Flatten(b)
  {
    if b == [] {
      assert a + b == a;
    } else {
      assert (a + b)[..|a + b| - 1] == a + b[..|b| - 1];
      FlattenConcat(a, b[..|b| - 1]);
    }
  }

  lemma FlattenFront<T>(gs: seq<seq<T>>)
    requires gs != []
    ensures Flatten(gs) == gs[0] + Flatten(gs[1..])
  {
    assert gs == [gs[0]] + gs[1..];
    FlattenConcat([gs[0]], gs[1..]);
    assert [gs[0]][..0] == [];
  }

  // --- The rule, and the greedy split -----------------------------------------------------

  /** A group obeys the budget unless it is a single item. */
  predicate Fits<T>(cost: T -> nat, base: nat, max: nat, g: seq<T>)
  {
    |g| >= 2 ==> base + Sum(cost, g) <= max
  }

  ghost predicate ValidSplit<T>(cost: T -> nat, l: Limits, gs: seq<seq<T>>)
  {
    forall k :: 0 <= k < |gs| ==> gs[k] != [] && Fits(cost, Base(l, k), l.max, gs[k])
  }

  /** No group could have taken the item that opens the next one. */
  ghost predicate GreedySplit<T>(cost: T -> nat, l: Limits, gs: seq<seq<T>>)
  {
    && ValidSplit(cost, l, gs)
    && forall k :: 0 <= k < |gs| - 1 ==> Base(l, k) + Sum(cost, gs[k]) + cost(gs[k + 1][0]) > l.max
  }

  /** The source's rule for one more item: open a new group if the last one would overflow. */
  function Place<T>(cost: T -> nat, l: Limits, gs: seq<seq<T>>, x: T): seq<seq<T>>
  {
    if gs == [] then [[x]]
    else
      var n := |gs| - 1;
      if gs[n] != [] && Base(l, n) + Sum(cost, gs[n]) + cost(x) > l.max then gs + [[x]]
      else gs[..n] + [gs[n] + [x]]
  }

  function Pack<T>(cost: T -> nat, l: Limits, items: seq<T>): seq<seq<T>>
  {
    if items == [] then []
    else Place(cost, l, Pack(cost, l, items[..|items| - 1]), items[|items| - 1])
  }

  lemma PackOneMore<T>(cost: T -> nat, l: Limits, items: seq<T>, x: T)
    ensures Pack(cost, l, items + [x]) == Place(cost, l, Pack(cost, l, items), x)
  {
    hide Place;
    assert (items + [x])[..|items|] == items;
  }

  lemma PlaceAppends<T>(cost: T -> nat, l: Limits, gs: seq<seq<T>>, x: T)
    ensures Flatten(Place(cost, l, gs, x)) == Flatten(gs) + [x] && Place(cost, l, gs, x) != []
  {
  }

  lemma PlaceKeepsGreedy<T>(cost: T -> nat, l: Limits, gs: seq<seq<T>>, x: T)
    requires GreedySplit(cost, l, gs)
    ensures GreedySplit(cost, l, Place(cost, l, gs, x))
  {
    if gs != [] {
      var n := |gs| - 1;
      SumConcat(cost, gs[n], [x]);
      assert Sum(cost, [x]) == cost(x) by { assert [x][..0] == []; }
      hide Sum;
      var r := Place(cost, l, gs, x);
      assert forall k :: 0 <= k < n ==> r[k] == gs[k];
      assert gs[n] != [];
    }
  }

  /** Packing neither loses nor reorders items, and is greedy. */
  lemma {:induction false} PackIsGreedy<T>(cost: T -> nat, l: Limits, items: seq<T>)
    ensures GreedySplit(cost, l, Pack(cost, l, items))
    ensures Flatten(Pack(cost, l, items)) == items
    ensures Pack(cost, l, items) == [] <==> items == []
  {
    if items != [] {
      var n := |items| - 1;
      PackIsGreedy(cost, l, items[..n]);
      PackedOneMore(cost, l, items);
    }
  }

  lemma PackedOneMore<T>(cost: T -> nat, l: Limits, items: seq<T>)
    requires items != []
    requires GreedySplit(cost, l, Pack(cost, l, items[..|items| - 1]))
    requires Flatten(Pack(cost, l, items[..|items| - 1])) == items[..|items| - 1]
    ensures GreedySplit(cost, l, Pack(cost, l, items))
    ensures Flatten(Pack(cost, l, items)) == items && Pack(cost, l, items) != []
  {
    hide GreedySplit, Place, Flatten;
    var n := |items| - 1;
    PlaceKeepsGreedy(cost, l, Pack(cost, l, items[..n]), items[n]);
    PlaceAppends(cost, l, Pack(cost, l, items[..n]), items[n]);
    assert items == items[..n] + [items[n]];
  }

  // --- Minimality ----------------------------------------------------------------------------

  lemma TailSplits<T>(cost: T -> nat, l: Limits, gs: seq<seq<T>>)
    requires gs != []
    ensures ValidSplit(cost, l, gs) ==> ValidSplit(cost, Limits(l.rest, l.rest, l.max), gs[1..])
    ensures GreedySplit(cost, l, gs) ==> GreedySplit(cost, Limits(l.rest, l.rest, l.max), gs[1..])
  {
  }

  lemma LongFirstPart<T>(first: seq<T>, after: seq<T>, lead: seq<T>, g: seq<T>, next: T, tail: seq<T>)
    requires first + after == lead + (g + ([next] + tail))
    requires |first| > |lead| + |g|
    ensures first == lead + (g + [next]) + first[|lead| + |g| + 1..]
  {
    var k := |lead| + |g|;
    assert (first + after)[..k + 1] == first[..k + 1];
    assert (lead + (g + ([next] + tail)))[..k + 1] == lead + (g + [next]);
  }

  lemma LongerCostsMore<T>(cost: T -> nat, lead: seq<T>, g: seq<T>, next: T, y: seq<T>)
    ensures Sum(cost, lead + (g + [next]) + y) >= Sum(cost, g) + cost(next)
  {
    SumConcat(cost, lead + (g + [next]), y);
    SumConcat(cost, lead, g + [next]);
    assert (g + [next])[..|g|] == g;
  }

  /** If the other split starts no later, its first group cannot end later than the greedy one. */
  lemma FirstGroupReaches<T>(cost: T -> nat, l: Limits, gs: seq<seq<T>>, other: seq<seq<T>>, lead: seq<T>)
    requires GreedySplit(cost, l, gs) && |gs| >= 2
    requires ValidSplit(cost, l, other) && other != []
    requires Flatten(other) == lead + Flatten(gs)
    ensures |other[0]| <= |lead| + |gs[0]|
  {
    hide GreedySplit, ValidSplit, Flatten, Sum;
    FirstGroupFacts(cost, l, gs, other);
    var next := gs[1][0];
    var rest := Flatten(gs[1..][1..]);
    SecondGroup(gs);
    FlattenFront(other);
    if |other[0]| > |lead| + |gs[0]| {
      LongFirstPart(other[0], Flatten(other[1..]), lead, gs[0], next, gs[1][1..] + rest);
      LongerCostsMore(cost, lead, gs[0], next, other[0][|lead| + |gs[0]| + 1..]);
    }
  }

  lemma FirstGroupFacts<T>(cost: T -> nat, l: Limits, gs: seq<seq<T>>, other: seq<seq<T>>)
    requires GreedySplit(cost, l, gs) && |gs| >= 2
    requires ValidSplit(cost, l, other) && other != []
    ensures gs[0] != [] && gs[1] != [] && other[0] != []
    ensures l.first + Sum(cost, gs[0]) + cost(gs[1][0]) > l.max
    ensures Fits(cost, l.first, l.max, other[0])
  {
  }

  lemma SecondGroup<T>(gs: seq<seq<T>>)
    requires |gs| >= 2 && gs[1] != []
    ensures Flatten(gs) == gs[0] + ([gs[1][0]] + (gs[1][1..] + Flatten(gs[1..][1..])))
  {
    hide Flatten;
    FlattenFront(gs);
    FlattenFront(gs[1..]);
    OpenFirst(gs[0], gs[1], Flatten(gs[1..][1..]));
  }

  lemma OpenFirst<T>(a: seq<T>, b: seq<T>, c: seq<T>)
    requires b != []
    ensures a + (b + c) == a + ([b[0]] + (b[1..] + c))
  {
  }

  lemma {:induction false} GreedyStaysAhead<T>(cost: T -> nat, l: Limits, gs: seq<seq<T>>, other: seq<seq<T>>,
                                               lead: seq<T>)
    requires GreedySplit(cost, l, gs) && ValidSplit(cost, l, other)
    requires Flatten(other) == lead + Flatten(gs)
    ensures |gs| <= |other|
    decreases |gs|
  {
    if gs != [] {
      FlattenFront(gs);
      assert gs[0] != [] && other != [];
      FlattenFront(other);
      if |gs| >= 2 {
        FirstGroupReaches(cost, l, gs, other, lead);
        TailSplits(cost, l, gs);
        TailSplits(cost, l, other);
        var rest := (lead + gs[0])[|other[0]|..];
        assert lead + Flatten(gs) == lead + gs[0] + Flatten(gs[1..]);
        assert Flatten(other[1..]) == Flatten(other)[|other[0]|..];
        assert Flatten(other[1..]) == rest + Flatten(gs[1..]);
        GreedyStaysAhead(cost, Limits(l.rest, l.rest, l.max), gs[1..], other[1..], rest);
      }
    }
  }

  /** No order-preserving split that obeys the rule has fewer groups than the packer's. */
  lemma PackIsMinimal<T>(cost: T -> nat, l: Limits, items: seq<T>, other: seq<seq<T>>)
    requires ValidSplit(cost, l, other) && Flatten(other) == items
    ensures |Pack(cost, l, items)| <= |other|
  {
    hide *;
    var gs := Pack(cost, l, items);
    PackIsGreedy(cost, l, items);
    assert Flatten(other) == [] + Flatten(gs);
    GreedyStaysAhead(cost, l, gs, other, []);
  }

  /** Items keep their order through the groups. */
  lemma GroupsInOrder<T>(gs: seq<seq<T>>, k: nat, j: nat, a: nat, b: nat) returns (p: nat, q: nat)
    requires k < j < |gs| && a < |gs[k]| && b < |gs[j]|
    ensures p < q < |Flatten(gs)| && Flatten(gs)[p] == gs[k][a] && Flatten(gs)[q] == gs[j][b]
  {
    var front, mid, back := gs[..k], gs[k..j], gs[j..];
    assert gs == front + (mid + back);
    FlattenConcat(front, mid + back);
    FlattenConcat(mid, back);
    FlattenFront(mid);
    FlattenFront(back);
    hide Flatten;
    p, q := |Flatten(front)| + a, |Flatten(front)| + |Flatten(mid)| + b;
  }
}
