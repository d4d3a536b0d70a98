/**
 Demand added up over all open orders, part by part.
 */
module DemandView {
  import opened Sequences
  import opened MrpModel
  import opened HandoffModel

  datatype Demand = Demand(part: nat, sku: string, total: int, available: int)

  /** A short requirement that stock alone does not cover. */
  predicate Demanded(l: Requirement) {
    l.short && Asked(l) > 0
  }

  function DemandOf(ls: seq<Requirement>, part: nat): int {
    if ls == [] then 0
    else
      var l := ls[|ls| - 1];
      DemandOf(ls[..|ls| - 1], part) + (if Demanded(l) && l.part == part then Asked(l) else 0)
  }

  /** The parts in demand, each once, in order of first appearance, with its first requirement. */
  function FirstDemands(ls: seq<Requirement>): seq<Requirement> {
    if ls == [] then []
    else
      var before, l := FirstDemands(ls[..|ls| - 1]), ls[|ls| - 1];
      if Demanded(l) && !Lists(before, l.part) then before + [l] else before
  }

  predicate Lists(ls: seq<Requirement>, part: nat) {
    exists i :: 0 <= i < |ls| && ls[i].part == part
  }

  function TotalDemand(ls: seq<Requirement>): int {
    if ls == [] then 0
    else TotalDemand(ls[..|ls| - 1]) + (if Demanded(ls[|ls| - 1]) then Asked(ls[|ls| - 1]) else 0)
  }

  /** The quantities shown for the listed parts. */
  function Shown(firsts: seq<Requirement>, ls: seq<Requirement>): int {
    if firsts == [] then 0 else Shown(firsts[..|firsts| - 1], ls) + DemandOf(ls, firsts[|firsts| - 1].part)
  }

  /** One requirement asks, if it is short, for what stock lacks, and for nothing if stock has enough. */
  lemma DemandOfOne(l: Requirement)
    ensures DemandOf([], l.part) == 0 && FirstDemands([]) == []
    ensures DemandOf([l], l.part) == if l.short && l.available < l.required then l.required - l.available else 0
    ensures FirstDemands([l]) == if l.short && l.available < l.required then [l] else []
  {
    assert [l][..0] == [];
  }

  lemma {:induction false} NotListedNotDemanded(ls: seq<Requirement>, part: nat)
    ensures Lists(FirstDemands(ls), part) <==> DemandOf(ls, part) > 0
    ensures DemandOf(ls, part) >= 0
  {
    if ls != [] {
      var before, l := FirstDemands(ls[..|ls| - 1]), ls[|ls| - 1];
      NotListedNotDemanded(ls[..|ls| - 1], part);
      NotListedNotDemanded(ls[..|ls| - 1], l.part);
      if Lists(before, part) {
        var i :| 0 <= i < |before| && before[i].part == part;
        assert FirstDemands(ls)[i].part == part;
      } else if Demanded(l) && l.part == part {
        assert FirstDemands(ls)[|before|].part == part;
      }
    }
  }

  lemma {:induction false} FirstDemandsAreDistinct(ls: seq<Requirement>)
    ensures forall i, j :: 0 <= i < j < |FirstDemands(ls)| ==> FirstDemands(ls)[i].part != FirstDemands(ls)[j].part
    ensures forall l :: l in FirstDemands(ls) ==> l in ls && Demanded(l)
  {
    if ls != [] {
      FirstDemandsAreDistinct(ls[..|ls| - 1]);
      assert ls == ls[..|ls| - 1] + [ls[|ls| - 1]];
    }
  }

  /** The listed requirement is the first in demand of its part, and the parts come in the order in which they first
      are. */
  lemma {:induction false} DemandsInOrder(ls: seq<Requirement>, i: nat, j: nat)
    requires i <= j < |FirstDemands(ls)|
    ensures exists a :: 0 <= a < |ls| && ls[a] == FirstDemands(ls)[i] && Demanded(ls[a])
                        && (forall b :: 0 <= b < a && Demanded(ls[b]) ==> ls[b].part != ls[a].part)
                        && (forall b :: 0 <= b < a && Demanded(ls[b]) ==> ls[b].part != FirstDemands(ls)[j].part)
  {
    var before, l := ls[..|ls| - 1], ls[|ls| - 1];
    var firsts := FirstDemands(before);
    assert forall b :: 0 <= b < |before| ==> ls[b] == before[b];
    if j < |firsts| {
      DemandsInOrder(before, i, j);
      var a :| 0 <= a < |before| && before[a] == firsts[i] && Demanded(before[a])
               && (forall b :: 0 <= b < a && Demanded(before[b]) ==> before[b].part != before[a].part)
               && (forall b :: 0 <= b < a && Demanded(before[b]) ==> before[b].part != firsts[j].part);
      assert ls[a] == before[a];
    } else {
      NotInDemandBefore(before, l.part);
      if i < j {
        DemandsInOrder(before, i, i);
        var a :| 0 <= a < |before| && before[a] == firsts[i] && Demanded(before[a])
                 && (forall b :: 0 <= b < a && Demanded(before[b]) ==> before[b].part != before[a].part);
        assert ls[a] == before[a];
      }
    }
  }

  lemma {:induction false} NotInDemandBefore(ls: seq<Requirement>, part: nat)
    ensures !Lists(FirstDemands(ls), part) ==>
              forall b :: 0 <= b < |ls| && Demanded(ls[b]) ==> ls[b].part != part
  {
    if ls != [] {
      var before, l := ls[..|ls| - 1], ls[|ls| - 1];
      NotInDemandBefore(before, part);
      assert forall b :: 0 <= b < |before| ==> ls[b] == before[b];
      var firsts := FirstDemands(before);
      if Lists(firsts, part) {
        var k :| 0 <= k < |firsts| && firsts[k].part == part;
        assert FirstDemands(ls)[k] == firsts[k];
      } else if Demanded(l) && l.part == part {
        assert FirstDemands(ls)[|firsts|].part == part;
      }
    }
  }

  /** One more requirement moves the quantity of its own part only. */
  lemma {:induction false} ShownGrows(firsts: seq<Requirement>, before: seq<Requirement>, l: Requirement)
    requires forall i, j :: 0 <= i < j < |firsts| ==> firsts[i].part != firsts[j].part
    ensures Shown(firsts, before + [l]) == Shown(firsts, before)
            + (if Demanded(l) && Lists(firsts, l.part) then Asked(l) else 0)
  {
    assert (before + [l])[..|before|] == before;
    if firsts != [] {
      var rest, last := firsts[..|firsts| - 1], firsts[|firsts| - 1];
      ShownGrows(rest, before, l);
      if Lists(rest, l.part) {
        var i :| 0 <= i < |rest| && rest[i].part == l.part;
        assert firsts[i].part == l.part;
      } else if last.part == l.part {
        assert firsts[|firsts| - 1].part == l.part;
      }
    }
  }

  /** Nothing is lost or counted twice: the shown quantities add up to everything in demand. */
  lemma {:induction false} ShownIsEverything(ls: seq<Requirement>)
    ensures Shown(FirstDemands(ls), ls) == TotalDemand(ls)
  {
    if ls != [] {
      var before, l := ls[..|ls| - 1], ls[|ls| - 1];
      var firsts := FirstDemands(before);
      assert ls == before + [l];
      ShownIsEverything(before);
      FirstDemandsAreDistinct(before);
      ShownGrows(firsts, before, l);
      if Demanded(l) && !Lists(firsts, l.part) {
        NotListedNotDemanded(before, l.part);
        assert (firsts + [l])[..|firsts|] == firsts;
      }
    }
  }

  /** aggregated holds, for each part met so far, its demand; parts lists them in order. */
  ghost predicate Adds(aggregated: map<nat, Demand>, parts: seq<nat>, ls: seq<Requirement>) {
    var firsts := FirstDemands(ls);
    && |parts| == |firsts|
    && (forall i :: 0 <= i < |parts| ==> parts[i] == firsts[i].part)
    && (forall part :: part in aggregated <==> Lists(firsts, part))
    && forall i :: 0 <= i < |parts| ==>
         aggregated[parts[i]] == Demand(parts[i], firsts[i].sku, DemandOf(ls, parts[i]), firsts[i].available)
  }

  lemma OneMoreDemand(ls: seq<Requirement>, l: Requirement, part: nat)
    ensures FirstDemands(ls + [l]) ==
            FirstDemands(ls) + (if Demanded(l) && !Lists(FirstDemands(ls), l.part) then [l] else [])
    ensures DemandOf(ls + [l], part) == DemandOf(ls, part) + (if Demanded(l) && l.part == part then Asked(l) else 0)
  {
    assert (ls + [l])[..|ls|] == ls;
  }

  /** A part met before gets the quantity on top of its own. */
  lemma AddsMore(aggregated: map<nat, Demand>, parts: seq<nat>, ls: seq<Requirement>, l: Requirement)
    requires Adds(aggregated, parts, ls)
    requires Demanded(l) ==> Lists(FirstDemands(ls), l.part)
    ensures Adds(if !Demanded(l) then aggregated
                 else aggregated[l.part := aggregated[l.part].(total := aggregated[l.part].total + Asked(l))],
                 parts, ls + [l])
  {
    var firsts := FirstDemands(ls);
    OneMoreDemand(ls, l, l.part);
    forall i | 0 <= i < |parts|
      ensures DemandOf(ls + [l], parts[i])
           == DemandOf(ls, parts[i]) + (if Demanded(l) && l.part == parts[i] then Asked(l) else 0)
    {
      OneMoreDemand(ls, l, parts[i]);
    }
  }

  /** A part met for the first time is listed last. */
  lemma AddsFirst(aggregated: map<nat, Demand>, parts: seq<nat>, ls: seq<Requirement>, l: Requirement)
    requires Adds(aggregated, parts, ls)
    requires Demanded(l) && !Lists(FirstDemands(ls), l.part)
    ensures Adds(aggregated[l.part := Demand(l.part, l.sku, Asked(l), l.available)], parts + [l.part], ls + [l])
  {
    var firsts, all := FirstDemands(ls), FirstDemands(ls + [l]);
    NotListedNotDemanded(ls, l.part);
    OneMoreDemand(ls, l, l.part);
    forall i | 0 <= i < |parts|
      ensures firsts[i].part == parts[i] != l.part && DemandOf(ls + [l], parts[i]) == DemandOf(ls, parts[i])
    {
      OneMoreDemand(ls, l, parts[i]);
    }
    assert all == firsts + [l];
    forall part
      ensures Lists(all, part) <==> Lists(firsts, part) || part == l.part
    {
      if Lists(firsts, part) {
        var i :| 0 <= i < |firsts| && firsts[i].part == part;
        assert all[i].part == part;
      } else if part == l.part {
        assert all[|firsts|].part == part;
      }
    }
  }

  method AddDemand(aggregated: map<nat, Demand>, parts: seq<nat>, ghost ls: seq<Requirement>, l: Requirement)
    returns (aggregated': map<nat, Demand>, parts': seq<nat>)
    requires Adds(aggregated, parts, ls)
    ensures Adds(aggregated', parts', ls + [l])
  {
    aggregated', parts' := aggregated, parts;
    var qty := l.required - l.available;
    if !l.short || qty <= 0 {
      AddsMore(aggregated, parts, ls, l);
    } else if l.part in aggregated {
      AddsMore(aggregated, parts, ls, l);
      var known := aggregated[l.part];
      aggregated' := aggregated[l.part := known.(total := known.total + qty)];
    } else {
      AddsFirst(aggregated, parts, ls, l);
      parts' := parts + [l.part];
      aggregated' := aggregated[l.part := Demand(l.part, l.sku, qty, l.available)];
    }
  }

  function Joined(orders: seq<seq<Requirement>>): seq<Requirement> {
    if orders == [] then [] else Joined(orders[..|orders| - 1]) + orders[|orders| - 1]
  }

  /** Over the explosions of the open orders: each part in demand once, with its first requirement's SKU and stock
      and everything asked of it. */
  method GetAggregatedDemand(orders: seq<seq<Requirement>>) returns (r: seq<Demand>)
    ensures |r| == |FirstDemands(Joined(orders))|
    ensures forall i :: 0 <= i < |r| ==>
              var first := FirstDemands(Joined(orders))[i];
              r[i] == Demand(first.part, first.sku, DemandOf(Joined(orders), first.part), first.available)
  {
    var aggregated: map<nat, Demand>, parts: seq<nat> := map[], [];
    ghost var met: seq<Requirement> := [];
    for i := 0 to |orders|
      invariant met == Joined(orders[..i])
      invariant Adds(aggregated, parts, met)
    {
      ghost var before := met;
      for j := 0 to |orders[i]|
        invariant met == before + orders[i][..j]
        invariant Adds(aggregated, parts, met)
      {
        aggregated, parts := AddDemand(aggregated, parts, met, orders[i][j]);
        met := met + [orders[i][j]];
      }
      assert orders[..i + 1][..i] == orders[..i] && orders[i][..|orders[i]|] == orders[i];
    }
    WholePrefix(orders);
    r := [];
    for i := 0 to |parts|
      invariant |r| == i
      invariant forall j :: 0 <= j < i ==> r[j] == aggregated[parts[j]]
    {
      assert FirstDemands(met)[i].part == parts[i];
      r := r + [aggregated[parts[i]]];
    }
  }
}
