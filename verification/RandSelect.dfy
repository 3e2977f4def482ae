/** Weighted random selection: an 8-ary tree of partial sums that grows by levels and behaves like
    a flat row of weighted slots. */
module RandSelects {
  import opened Slots
  import opened Types

  const WRS_BRANCHES: nat := 8

  /** What a branch of a node holds. */
  datatype Branch = Empty | Leaf(item: Item) | Sub(node: WrsNode)

  /** The slots below one branch of a node on this level. */
  function Room(level: nat): (r: nat)
    ensures r > 0
  {
    if level == 0 then 1 else WRS_BRANCHES * Room(level - 1)
  }

  lemma RoomGrows(level: nat)
    ensures Room(0) == 1 && Room(level + 1) == 8 * Room(level)
  {
  }

  /** The index of slot `j` below branch `i`, `b` being the slots below each branch. */
  function At(b: nat, i: nat, j: nat): nat {
    b * i + j
  }

  /** A slot with a new weight; without weight the item is gone. */
  function Reweighed(s: Slot, weight: nat): Slot
    requires s.Filled?
  {
    if weight == 0 then Vacant else Filled(s.item, weight)
  }

  class WrsNode {
    var items: seq<Branch>
    var weights: seq<nat>
    var sumWeight: nat
    var level: nat
    var itemCnt: nat
    var maxItems: nat

    /** The slots below each branch, and the nodes the tree is made of. */
    ghost var parts: seq<seq<Slot>>
    ghost var Repr: set<object>

    /** The tree as a row of slots. */
    ghost function Flat(): seq<Slot>
      reads this
    {
      Concat(parts)
    }

    /** The counters of this node agree with its slots. */
    ghost predicate Counted()
      reads this
    {
      && |items| == |weights| == |parts| == WRS_BRANCHES
      && maxItems == WRS_BRANCHES * Room(level) && Even(parts, Room(level))
      && (forall i {:trigger weights[i]} | 0 <= i < WRS_BRANCHES :: weights[i] == Total(parts[i]))
      && sumWeight == Total(Flat()) && itemCnt == Held(Flat())
    }

    /** At the bottom a branch holds the item of its one slot. */
    ghost predicate Bottom()
      requires Counted() && level == 0
      reads this
    {
      forall i {:trigger items[i]} | 0 <= i < WRS_BRANCHES ::
        items[i] == if parts[i][0].Vacant? then Empty else Leaf(parts[i][0].item)
    }

    /** Above the bottom each branch is empty or holds a valid node one level down, apart from the others. */
    ghost predicate Valid()
      reads this, Repr
      decreases level, 2
    {
      && this in Repr && Counted()
      && (level == 0 ==> Bottom())
      && (level > 0 ==> Built(parts))
    }

    /** The branches hold these slots. */
    ghost predicate Built(slots: seq<seq<Slot>>)
      requires level > 0 && |items| == |slots| == WRS_BRANCHES
      reads this, Repr
      decreases level, 1
    {
      && (forall i {:trigger items[i]} | 0 <= i < WRS_BRANCHES ::
            && !items[i].Leaf?
            && (items[i].Sub? ==> var c := items[i].node;
                 c in Repr && c in c.Repr && c.Repr <= Repr && this !in c.Repr && c.level + 1 == level)
            && Below(items[i], level - 1, slots[i]))
      && (forall i, j {:trigger items[i], items[j]} | 0 <= i < j < WRS_BRANCHES ::
            items[i].Sub? && items[j].Sub? ==> items[i].node.Repr !! items[j].node.Repr)
    }

    /** What is below a branch: a valid node on this level for these slots, or nothing. */
    static ghost predicate Below(br: Branch, level: nat, part: seq<Slot>)
      reads if br.Sub? then {br.node} + br.node.Repr else {}
      decreases level, 3
    {
      match br
      case Empty => part == Vacancies(WRS_BRANCHES * Room(level))
      case Leaf(_) => true
      case Sub(c) => c.level == level && c.Valid() && c.Flat() == part
    }

    /** A node without items. */
    constructor (maxItems': nat, level': nat)
      requires maxItems' == WRS_BRANCHES * Room(level')
      ensures Valid() && fresh(Repr)
      ensures level == level' && Flat() == Vacancies(maxItems)
    {
      items, weights := seq(WRS_BRANCHES, _ => Empty), seq(WRS_BRANCHES, _ => 0);
      sumWeight, itemCnt, level, maxItems := 0, 0, level', maxItems';
      parts := seq(WRS_BRANCHES, _ => Vacancies(Room(level')));
      Repr := {this};
      new;
      VacanciesEmpty(Room(level'));
      VacanciesEmpty(maxItems);
      EmptyParts(parts, Room(level'));
    }

    /** A new level above a full tree, which becomes its first branch. */
    constructor Above(full: WrsNode)
      requires full.Valid()
      ensures Valid() && fresh(Repr - full.Repr) && full.Repr <= Repr && this !in full.Repr
      ensures level == full.level + 1 && itemCnt == full.itemCnt
      ensures Flat() == full.Flat() + Vacancies((WRS_BRANCHES - 1) * full.maxItems)
    {
      items := [Sub(full)] + seq(WRS_BRANCHES - 1, _ => Empty);
      weights := [full.sumWeight] + seq(WRS_BRANCHES - 1, _ => 0);
      sumWeight, itemCnt, level, maxItems := full.sumWeight, full.itemCnt, full.level + 1, full.maxItems * WRS_BRANCHES;
      ghost var vacant := Vacancies(full.maxItems);
      parts := [full.Flat()] + seq(WRS_BRANCHES - 1, _ => vacant);
      Repr := {this} + full.Repr;
      new;
      VacanciesEmpty(full.maxItems);
      VacanciesEmpty((WRS_BRANCHES - 1) * full.maxItems);
      EmptyParts(parts[1..], full.maxItems);
      TotalConcat(full.Flat(), Vacancies((WRS_BRANCHES - 1) * full.maxItems));
      ConcatLength(full.parts, Room(full.level));
    }

    /** The item and weight of the slot that `val` falls into. */
    method Choose(val: nat) returns (item: Item, weight: nat)
      requires Valid() && val < sumWeight
      ensures Flat()[Pick(Flat(), val)] == Filled(item, weight)
      decreases level
    {
      hide Total, Held, Concat, Pick, Even;
      NoParts(parts);
      PartsEven(parts, Room(level));
      var v: nat := val;
      var i: nat := 0;
      while v >= weights[i]
        invariant 0 <= i < WRS_BRANCHES && v + Total(Concat(parts[..i])) == val
        decreases WRS_BRANCHES - i
      {
        PartsMore(parts, i);
        v := v - weights[i];
        i := i + 1;
      }
      ConcatPick(parts, Room(level), i, v);
      ConcatUpdate(parts, Room(level), i, Pick(parts[i], v), Vacant);
      PickFilled(parts[i], v);
      if level == 0 {
        OneSlot(parts[i], v);
        return items[i].item, weights[i];
      }
      CountBelow(i);
      assert Below(items[i], level - 1, parts[i]);
      item, weight := items[i].node.Choose(v);
    }

    /** The first branch with a vacancy; there is one while the node is not full. */
    method FindBranch() returns (branch: nat)
      requires Valid() && itemCnt < maxItems
      ensures branch < WRS_BRANCHES && Held(parts[branch]) < Room(level)
      ensures forall i {:trigger parts[i]} | 0 <= i < branch :: Held(parts[i]) == Room(level)
      ensures level == 0 ==> items[branch].Empty?
      ensures items[branch].Sub? ==> items[branch].node.itemCnt < items[branch].node.maxItems
    {
      branch := 0;
      while items[branch] != Empty && (level == 0 || items[branch].node.itemCnt == items[branch].node.maxItems)
        invariant branch < WRS_BRANCHES
        invariant forall i {:trigger parts[i]} | 0 <= i < branch :: Held(parts[i]) == Room(level)
        decreases WRS_BRANCHES - branch
      {
        CountBelow(branch);
        branch := branch + 1;
        if branch == WRS_BRANCHES {
          FullParts(parts, Room(level));
          assert false;
        }
      }
      CountBelow(branch);
    }

    lemma Capacity()
      requires Valid()
      ensures itemCnt <= maxItems == |Flat()|
      ensures forall i :: 0 <= i < |Flat()| && Flat()[i].Vacant? ==> itemCnt < maxItems
    {
      HeldBound(Flat());
      ConcatLength(parts, Room(level));
    }

    /** What the node below a branch counts is what its part holds. */
    lemma CountBelow(i: nat)
      requires Valid() && i < WRS_BRANCHES
      ensures Held(parts[i]) <= Room(level) == |parts[i]|
      ensures level == 0 && items[i] != Empty ==> Held(parts[i]) == Room(level)
      ensures items[i].Empty? ==> Held(parts[i]) == Total(parts[i]) == 0
      ensures level > 0 && items[i].Sub? ==> var c := items[i].node;
        c.Valid() && c.itemCnt == Held(parts[i]) && c.maxItems == Room(level) && c.sumWeight == Total(parts[i])
    {
      HeldBound(parts[i]);
      VacanciesEmpty(Room(level));
      if level > 0 {
        assert Below(items[i], level - 1, parts[i]);
        if items[i].Sub? { assert items[i].node.Valid(); }
      } else {
        assert parts[i][1..] == [];
      }
    }

    /** The node below a branch, created if need be. */
    method SubNode(branch: nat) returns (subNode: WrsNode)
      requires Valid() && level > 0 && branch < WRS_BRANCHES
      modifies this
      ensures Valid() && fresh(Repr - old(Repr)) && items[branch] == Sub(subNode)
      ensures level == old(level) && maxItems == old(maxItems) && parts == old(parts)
      ensures subNode in old(Repr) || fresh(subNode.Repr)
      ensures itemCnt == old(itemCnt) && sumWeight == old(sumWeight) && weights == old(weights)
    {
      hide Total, Held, Concat;
      if items[branch].Empty? {
        subNode := new WrsNode(maxItems / WRS_BRANCHES, level - 1);
        assert Below(Sub(subNode), level - 1, parts[branch]) by {
          assert Below(items[branch], level - 1, parts[branch]);
        }
        assert forall i {:trigger items[i]} | 0 <= i < WRS_BRANCHES :: Below(items[i], level - 1, parts[i]);
        hide Below, Room;
        items := items[branch := Sub(subNode)];
        Repr := Repr + subNode.Repr;
      } else {
        subNode := items[branch].node;
      }
    }

    /** Puts an item into the first vacant slot. */
    method Insert(item: Item, weight: nat) returns (idx: nat)
      requires Valid() && itemCnt < maxItems
      modifies Repr
      ensures Valid() && fresh(Repr - old(Repr)) && level == old(level) && maxItems == old(maxItems)
      ensures idx < |old(Flat())| && old(Flat())[idx] == Vacant
      ensures forall j :: 0 <= j < idx ==> old(Flat())[j].Filled?
      ensures Flat() == old(Flat())[idx := Filled(item, weight)]
      decreases level, 1
    {
      var branch := FindBranch();
      CountBelow(branch);
      HeldBound(parts[branch]);
      if level == 0 {
        idx := InsertItem(branch, item, weight);
      } else {
        var subNode := SubNode(branch);
        CountBelow(branch);
        idx := InsertBelow(branch, subNode, item, weight);
      }
    }

    method InsertItem(branch: nat, item: Item, weight: nat) returns (idx: nat)
      requires Valid() && level == 0 && branch < WRS_BRANCHES && parts[branch][0] == Vacant
      requires forall i {:trigger parts[i]} | 0 <= i < branch :: Held(parts[i]) == Room(level)
      modifies this
      ensures Valid() && Repr == old(Repr) && level == old(level) && maxItems == old(maxItems)
      ensures idx < |old(Flat())| && old(Flat())[idx] == Vacant
      ensures forall j :: 0 <= j < idx ==> old(Flat())[j].Filled?
      ensures Flat() == old(Flat())[idx := Filled(item, weight)]
    {
      hide Total, Held, Concat;
      BottomFilled(parts, branch, Filled(item, weight));
      items := items[branch := Leaf(item)];
      parts := parts[branch := parts[branch][0 := Filled(item, weight)]];
      itemCnt := itemCnt + 1;
      sumWeight := sumWeight + weight;
      weights := weights[branch := weights[branch] + weight];
      return branch;
    }

    method InsertBelow(branch: nat, subNode: WrsNode, item: Item, weight: nat) returns (idx: nat)
      requires Valid() && level > 0 && branch < WRS_BRANCHES && items[branch] == Sub(subNode)
      requires subNode.itemCnt < subNode.maxItems
      requires forall i {:trigger parts[i]} | 0 <= i < branch :: Held(parts[i]) == Room(level)
      modifies Repr
      ensures Valid() && fresh(Repr - old(Repr)) && level == old(level) && maxItems == old(maxItems)
      ensures idx < |old(Flat())| && old(Flat())[idx] == Vacant
      ensures forall j :: 0 <= j < idx ==> old(Flat())[j].Filled?
      ensures Flat() == old(Flat())[idx := Filled(item, weight)]
      decreases level, 0
    {
      hide Total, Held, Concat, Room, At;
      CountBelow(branch);
      ghost var part := parts[branch];
      assert part == subNode.Flat() by { assert Below(items[branch], level - 1, part); }
      var subIdx := subNode.Insert(item, weight);
      ghost var filled := part[subIdx := Filled(item, weight)];
      SlotFilled(parts, Room(level), branch, subIdx, Filled(item, weight));
      SlotIndex(level, branch, subIdx);
      assert Below(Sub(subNode), level - 1, filled);
      assert forall i {:trigger items[i]} | 0 <= i < WRS_BRANCHES && i != branch ::
        Below(items[i], level - 1, parts[i]);
      hide Below;
      Repr := Repr + subNode.Repr;
      Adopt(branch, filled, weight, 1);
      idx := At(subNode.maxItems, branch, subIdx);
    }

    /** Brings the counters up to date after the slots below a branch have changed. */
    method Adopt(branch: nat, ghost part: seq<Slot>, diff: int, count: int)
      requires this in Repr && level > 0 && Counted() && branch < WRS_BRANCHES && |part| == Room(level)
      requires Built(parts[branch := part])
      requires weights[branch] + diff == Total(part)
      requires sumWeight + diff == Total(Concat(parts[branch := part]))
      requires itemCnt + count == Held(Concat(parts[branch := part]))
      modifies this`weights, this`sumWeight, this`itemCnt, this`parts
      ensures Valid() && parts == old(parts)[branch := part]
    {
      hide Total, Held, Concat, Room, Below;
      weights := weights[branch := weights[branch] + diff];
      sumWeight := sumWeight + diff;
      itemCnt := itemCnt + count;
      parts := parts[branch := part];
    }

    /** Changes the weight of the item at `idx`, vacating the slot if it is zero. */
    method SetWeight(idx: nat, weight: nat) returns (diff: int)
      requires Valid() && idx < |Flat()| && Flat()[idx].Filled?
      modifies Repr
      ensures Valid() && Repr == old(Repr) && level == old(level) && maxItems == old(maxItems)
      ensures Flat() == old(Flat())[idx := Reweighed(old(Flat())[idx], weight)]
      ensures diff == weight - Weight(old(Flat())[idx])
      decreases level, 1
    {
      if level == 0 {
        diff := SetItem(idx, weight);
      } else {
        var branchItems := maxItems / WRS_BRANCHES;
        var branch := idx / branchItems;
        SlotBelow(parts, Room(level), idx);
        diff := SetBelow(branch, idx - branch * branchItems, weight);
      }
    }

    method SetItem(idx: nat, weight: nat) returns (diff: int)
      requires Valid() && level == 0 && idx < |Flat()| && Flat()[idx].Filled?
      modifies this
      ensures Valid() && Repr == old(Repr) && level == old(level) && maxItems == old(maxItems)
      ensures Flat() == old(Flat())[idx := Reweighed(old(Flat())[idx], weight)]
      ensures diff == weight - Weight(old(Flat())[idx])
    {
      SlotBelow(parts, 1, idx);
      ghost var now := Reweighed(parts[idx][0], weight);
      SlotReset(parts, 1, idx, 0, now);
      assert parts[idx] == [parts[idx][0]] && parts[idx][0 := now] == [now];
      var oldWeight := weights[idx];
      weights := weights[idx := weight];
      diff := weight - oldWeight;
      sumWeight := sumWeight + diff;
      if weight == 0 {
        items := items[idx := Empty];
        itemCnt := itemCnt - 1;
      }
      parts := parts[idx := parts[idx][0 := now]];
    }

    method SetBelow(branch: nat, subIdx: nat, weight: nat) returns (diff: int)
      requires Valid() && level > 0 && branch < WRS_BRANCHES
      requires subIdx < |parts[branch]| && parts[branch][subIdx].Filled?
      modifies Repr
      ensures Valid() && Repr == old(Repr) && level == old(level) && maxItems == old(maxItems)
      ensures At(Room(level), branch, subIdx) < |old(Flat())|
      ensures old(Flat())[At(Room(level), branch, subIdx)] == old(parts[branch][subIdx])
      ensures Flat() == old(Flat())[At(Room(level), branch, subIdx) := Reweighed(old(parts[branch][subIdx]), weight)]
      ensures diff == weight - Weight(old(parts[branch][subIdx]))
      decreases level, 0
    {
      hide Total, Held, Concat, Room, At;
      CountBelow(branch);
      ghost var part := parts[branch];
      ghost var now := Reweighed(part[subIdx], weight);
      assert items[branch].Sub? && part == items[branch].node.Flat() by {
        assert Below(items[branch], level - 1, part);
      }
      var subNode := items[branch].node;
      diff := subNode.SetWeight(subIdx, weight);
      SlotReset(parts, Room(level), branch, subIdx, now);
      assert Below(Sub(subNode), level - 1, part[subIdx := now]);
      assert forall i {:trigger items[i]} | 0 <= i < WRS_BRANCHES && i != branch ::
        Below(items[i], level - 1, parts[i]);
      hide Below;
      Adopt(branch, part[subIdx := now], diff, if weight == 0 then -1 else 0);
    }
  }

  /** The set of items a row of slots stands for. */
  ghost predicate Indexes(idx: map<Item, nat>, slots: seq<Slot>) {
    && (forall x :: x in idx ==> idx[x] < |slots| && slots[idx[x]].Filled?)
    && (forall x :: x in idx ==> slots[idx[x]].item == x && slots[idx[x]].weight > 0)
    && forall i :: 0 <= i < |slots| && slots[i].Filled? ==> slots[i].item in idx && idx[slots[i].item] == i
  }

  ghost function WeightsOf(idx: map<Item, nat>, slots: seq<Slot>): map<Item, nat>
    requires Indexes(idx, slots)
  {
    map x | x in idx :: slots[idx[x]].weight
  }

  /** Every stored weight is as before or brought up to date, and no item is added. */
  ghost predicate Refreshed(before: map<Item, nat>, after: map<Item, nat>, weightOf: Item -> nat) {
    forall x :: x in after ==> x in before && (after[x] == before[x] || after[x] == weightOf(x))
  }

  lemma ReindexedInsert(idx: map<Item, nat>, slots: seq<Slot>, x: Item, i: nat, weight: nat)
    requires Indexes(idx, slots) && x !in idx && i < |slots| && slots[i] == Vacant && weight > 0
    ensures Indexes(idx[x := i], slots[i := Filled(x, weight)])
    ensures WeightsOf(idx[x := i], slots[i := Filled(x, weight)]) == WeightsOf(idx, slots)[x := weight]
  {
  }

  lemma ReindexedSet(idx: map<Item, nat>, slots: seq<Slot>, x: Item, weight: nat)
    requires Indexes(idx, slots) && x in idx
    ensures var now := slots[idx[x] := Reweighed(slots[idx[x]], weight)];
      if weight == 0 then Indexes(idx - {x}, now) && WeightsOf(idx - {x}, now) == WeightsOf(idx, slots) - {x}
      else Indexes(idx, now) && WeightsOf(idx, now) == WeightsOf(idx, slots)[x := weight]
  {
  }

  class WeightedRandomSelect {
    var root: WrsNode
    var idx: map<Item, nat>

    ghost predicate Valid()
      reads this, root, root.Repr
    {
      this !in root.Repr && root.Valid() && Indexes(idx, root.Flat())
    }

    /** The weighted set: what the tree means. */
    ghost function Weights(): map<Item, nat>
      requires Valid()
      reads this, root, root.Repr
    {
      WeightsOf(idx, root.Flat())
    }

    constructor ()
      ensures Valid() && fresh(root.Repr) && Weights() == map[]
    {
      root := new WrsNode(WRS_BRANCHES, 0);
      idx := map[];
    }

    /** A full tree becomes the first branch of a new root; every index stays the same. */
    method AddLevel()
      requires Valid()
      modifies this
      ensures Valid() && fresh(root.Repr - old(root.Repr)) && Weights() == old(Weights()) && idx == old(idx)
      ensures root.itemCnt < root.maxItems
    {
      root.Capacity();
      if root.itemCnt == root.maxItems {
        var newRoot := new WrsNode.Above(root);
        newRoot.Capacity();
        root := newRoot;
      }
    }

    /** Sets an item's weight, adding or removing the item as need be. */
    method SetWeight(item: Item, weight: nat)
      requires Valid()
      modifies this, root.Repr
      ensures Valid() && fresh(root.Repr - old(root.Repr))
      ensures Weights() == if weight == 0 then old(Weights()) - {item} else old(Weights())[item := weight]
      ensures item in old(idx) ==>
        root.Flat() == old(root.Flat())[old(idx)[item] := Reweighed(old(root.Flat()[idx[item]]), weight)]
    {
      if item in idx {
        var i := idx[item];
        ghost var slots := root.Flat();
        var diff := root.SetWeight(i, weight);
        ReindexedSet(idx, slots, item, weight);
        if weight == 0 {
          idx := idx - {item};
        }
      } else if weight != 0 {
        AddLevel();
        ghost var slots := root.Flat();
        var i := root.Insert(item, weight);
        ReindexedInsert(idx, slots, item, i, weight);
        idx := idx[item := i];
      }
    }

    /** Picks by stored weight. An item that got lighter since is kept only in proportion, and
        brought up to date in any case; the set is empty when nothing is picked. */
    method Choose(weightOf: Item -> nat) returns (r: Option<Item>, ghost tries: seq<Try>)
      requires Valid()
      modifies this, root.Repr
      ensures Valid() && fresh(root.Repr - old(root.Repr))
      ensures Tried(old(Weights()), tries, weightOf, r, Weights())
      ensures r.None? ==> Weights() == map[]
    {
      tries := [];
      assert Tried(Weights(), tries, weightOf, None, Weights());
      hide Tried, Kept;
      while root.sumWeight != 0
        invariant Valid() && fresh(root.Repr - old(root.Repr))
        invariant Tried(old(Weights()), tries, weightOf, None, Weights())
        decreases root.sumWeight
      {
        ghost var before := Weights();
        var t, kept := TryOne(weightOf);
        TriedMore(old(Weights()), tries, weightOf, before, t);
        tries := tries + [t];
        if kept {
          return Some(t.item), tries;
        }
      }
      forall x | x in idx ensures false { NoWeight(root.Flat(), idx[x]); }
      return None, tries;
    }

    /** Picks once by stored weight, and brings the weight of the item up to date. */
    method TryOne(weightOf: Item -> nat) returns (t: Try, kept: bool)
      requires Valid() && root.sumWeight != 0
      modifies this, root.Repr
      ensures Valid() && fresh(root.Repr - old(root.Repr))
      ensures t.Possible(old(Weights())) && Weights() == Updated(old(Weights()), t.item, weightOf(t.item))
      ensures kept == Kept(t, old(Weights()), weightOf)
      ensures !kept ==> root.sumWeight < old(root.sumWeight)
    {
      ghost var slots := root.Flat();
      var val :| 0 <= val < root.sumWeight;
      var choice, lastWeight := root.Choose(val);
      PickFilled(slots, val);
      var luck :| 0 <= luck < lastWeight;
      t := Try(choice, luck);
      var weight := weightOf(choice);
      if weight != lastWeight {
        TotalUpdate(slots, idx[choice], Reweighed(slots[idx[choice]], weight));
        SetWeight(choice, weight);
      }
      kept := weight >= lastWeight || luck < weight;
    }
  }

  /** An item picked, and the number drawn to decide whether to keep it should it have got lighter. */
  datatype Try = Try(item: Item, luck: nat) {
    /** The number is drawn below the stored weight. */
    predicate Possible(stored: map<Item, nat>) {
      item in stored && luck < stored[item]
    }
  }

  /** An item is kept if it has not got lighter, or else for as many numbers as it weighs now. */
  predicate Kept(t: Try, stored: map<Item, nat>, weightOf: Item -> nat)
    requires t.Possible(stored)
  {
    stored[t.item] <= weightOf(t.item) || t.luck < weightOf(t.item)
  }

  function Updated(stored: map<Item, nat>, x: Item, weight: nat): map<Item, nat> {
    if weight == 0 then stored - {x} else stored[x := weight]
  }

  /** What a run of tries comes to: each one is possible in the weighted set that those before it left and
      brings the weight of its item up to date. Only the last one may be kept, and then it is the outcome. */
  ghost predicate Tried(stored: map<Item, nat>, tries: seq<Try>, weightOf: Item -> nat, r: Option<Item>,
                        after: map<Item, nat>) {
    if tries == [] then after == stored && r.None?
    else
      var t := tries[0];
      && t.Possible(stored)
      && if Kept(t, stored, weightOf) then
           |tries| == 1 && r == Some(t.item) && after == Updated(stored, t.item, weightOf(t.item))
         else
           Tried(Updated(stored, t.item, weightOf(t.item)), tries[1..], weightOf, r, after)
  }

  lemma {:induction false} TriedMore(stored: map<Item, nat>, tries: seq<Try>, weightOf: Item -> nat,
                                     before: map<Item, nat>, t: Try)
    requires Tried(stored, tries, weightOf, None, before) && t.Possible(before)
    ensures Tried(stored, tries + [t], weightOf, if Kept(t, before, weightOf) then Some(t.item) else None,
      Updated(before, t.item, weightOf(t.item)))
  {
    if tries != [] {
      TriedMore(Updated(stored, tries[0].item, weightOf(tries[0].item)), tries[1..], weightOf, before, t);
      assert (tries + [t])[1..] == tries[1..] + [t];
    }
  }

  /** Whatever is drawn, no item is added, every weight is as it was or brought up to date, and an outcome
      is an item of the set with its present weight. */
  lemma {:induction false} TriedRefreshes(stored: map<Item, nat>, tries: seq<Try>, weightOf: Item -> nat,
                                          r: Option<Item>, after: map<Item, nat>)
    requires Tried(stored, tries, weightOf, r, after)
    ensures Refreshed(stored, after, weightOf)
    ensures r.Some? ==> r.value in stored && weightOf(r.value) > 0
    ensures r.Some? ==> r.value in after && after[r.value] == weightOf(r.value)
  {
    if tries != [] && !Kept(tries[0], stored, weightOf) {
      TriedRefreshes(Updated(stored, tries[0].item, weightOf(tries[0].item)), tries[1..], weightOf, r, after);
    }
  }

  /** Whatever is drawn, an item tried is brought up to date or, if it weighs nothing now, removed, and all other
      items are as they were. */
  lemma {:induction false} TriedSettles(stored: map<Item, nat>, tries: seq<Try>, weightOf: Item -> nat,
                                        r: Option<Item>, after: map<Item, nat>, x: Item)
    requires Tried(stored, tries, weightOf, r, after)
    ensures if exists t :: t in tries && t.item == x
      then (x in after <==> weightOf(x) > 0) && (x in after ==> after[x] == weightOf(x))
      else (x in after <==> x in stored) && (x in after ==> after[x] == stored[x])
  {
    if tries != [] {
      var t := tries[0];
      if !Kept(t, stored, weightOf) {
        TriedSettles(Updated(stored, t.item, weightOf(t.item)), tries[1..], weightOf, r, after, x);
        assert forall u :: u in tries <==> u == t || u in tries[1..];
      }
    }
  }

  /** What weight an item is tried with: its present one if it was tried before, else the one stored. */
  ghost predicate TriedWith(stored: map<Item, nat>, tries: seq<Try>, weightOf: Item -> nat, i: nat, last: nat)
    requires i < |tries|
  {
    if exists j :: 0 <= j < i && tries[j].item == tries[i].item then last == weightOf(tries[i].item)
    else tries[i].item in stored && last == stored[tries[i].item]
  }

  /** Exactly the last try may be kept; it is if the item weighs no less than it was tried with, or else if the
      number drawn is below what it weighs now. */
  lemma {:induction false} TriedEach(stored: map<Item, nat>, tries: seq<Try>, weightOf: Item -> nat,
                                     r: Option<Item>, after: map<Item, nat>, i: nat) returns (last: nat)
    requires Tried(stored, tries, weightOf, r, after) && i < |tries|
    ensures tries[i].item in stored && TriedWith(stored, tries, weightOf, i, last) && tries[i].luck < last
    ensures last <= weightOf(tries[i].item) || tries[i].luck < weightOf(tries[i].item) <==>
      i == |tries| - 1 && r.Some?
    ensures i == |tries| - 1 && r.Some? ==> r.value == tries[i].item
  {
    var t := tries[0];
    if i == 0 {
      last := stored[t.item];
    } else {
      var next := Updated(stored, t.item, weightOf(t.item));
      last := TriedEach(next, tries[1..], weightOf, r, after, i - 1);
      assert forall j :: 0 < j < |tries| ==> tries[j] == tries[1..][j - 1];
      if exists j :: 0 <= j < i - 1 && tries[1..][j].item == tries[i].item {
        var j :| 0 <= j < i - 1 && tries[1..][j].item == tries[i].item;
        assert tries[j + 1].item == tries[i].item;
      }
    }
  }

  /** An item of which `last` was stored is kept for exactly as many of the `last` numbers as it weighs now,
      unless it weighs no less. */
  lemma {:induction false} KeptInProportion(x: Item, stored: map<Item, nat>, weightOf: Item -> nat, last: nat)
    requires x in stored && last <= stored[x]
    ensures |set luck: nat | luck < last && Kept(Try(x, luck), stored, weightOf)| ==
      if stored[x] <= weightOf(x) || last <= weightOf(x) then last else weightOf(x)
  {
    var these := set luck: nat | luck < last && Kept(Try(x, luck), stored, weightOf);
    if last > 0 {
      KeptInProportion(x, stored, weightOf, last - 1);
      var fewer := set luck: nat | luck < last - 1 && Kept(Try(x, luck), stored, weightOf);
      assert these == if Kept(Try(x, last - 1), stored, weightOf) then fewer + {last - 1} else fewer;
    } else {
      assert these == {};
    }
  }

  /** For a tree that stands for a weighted set: every value below the total chooses an item of the
      set, and exactly as many values choose an item as it weighs. */
  lemma Proportional(idx: map<Item, nat>, slots: seq<Slot>)
    requires Indexes(idx, slots)
    ensures forall val: nat :: val < Total(slots) ==>
      slots[Pick(slots, val)].Filled? && slots[Pick(slots, val)].item in WeightsOf(idx, slots)
    ensures forall x :: x in WeightsOf(idx, slots) ==>
      |set val: nat | val < Total(slots) && Chooses(slots, val, x)| == WeightsOf(idx, slots)[x]
  {
    forall val: nat | val < Total(slots) ensures slots[Pick(slots, val)].Filled? { PickFilled(slots, val); }
    forall x | x in WeightsOf(idx, slots)
      ensures |set val: nat | val < Total(slots) && Chooses(slots, val, x)| == WeightsOf(idx, slots)[x]
    {
      ChosenByWeight(slots, idx[x]);
    }
  }

  /** A row without weight stands for the empty set. */
  lemma {:induction false} NoWeight(slots: seq<Slot>, i: nat)
    requires i < |slots| && slots[i].Filled? && slots[i].weight > 0
    ensures Total(slots) > 0
  {
    if i > 0 { NoWeight(slots[1..], i - 1); }
  }

  /** The index of a slot below branch `i`, as the node computes it. */
  lemma SlotIndex(level: nat, i: nat, j: nat)
    requires level > 0
    ensures WRS_BRANCHES * Room(level - 1) == Room(level)
    ensures At(WRS_BRANCHES * Room(level - 1), i, j) == At(Room(level), i, j)
  {
  }

  /** Filling a vacant slot of one part, the parts before it being full. */
  lemma SlotFilled(parts: seq<seq<Slot>>, b: nat, i: nat, j: nat, s: Slot)
    requires Even(parts, b) && i < |parts| && j < b && parts[i][j] == Vacant && s.Filled?
    requires forall k {:trigger parts[k]} | 0 <= k < i :: Held(parts[k]) == b
    requires forall k :: 0 <= k < j ==> parts[i][k].Filled?
    ensures var flat := Concat(parts);
      && At(b, i, j) < |flat| == |parts| * b && flat[At(b, i, j)] == Vacant
      && (forall k :: 0 <= k < At(b, i, j) ==> flat[k].Filled?)
      && Concat(parts[i := parts[i][j := s]]) == flat[At(b, i, j) := s]
      && Total(flat[At(b, i, j) := s]) == Total(flat) + s.weight
      && Held(flat[At(b, i, j) := s]) == Held(flat) + 1
    ensures Total(parts[i][j := s]) == Total(parts[i]) + s.weight
  {
    ConcatUpdate(parts, b, i, j, s);
    TotalUpdate(Concat(parts), At(b, i, j), s);
    TotalUpdate(parts[i], j, s);
    FilledBefore(parts, b, i, j);
  }

  /** The same where each part is one slot. */
  lemma BottomFilled(parts: seq<seq<Slot>>, i: nat, s: Slot)
    requires Even(parts, 1) && i < |parts| && parts[i][0] == Vacant && s.Filled?
    requires forall k {:trigger parts[k]} | 0 <= k < i :: Held(parts[k]) == 1
    ensures var flat := Concat(parts);
      && i < |flat| && flat[i] == Vacant && (forall k :: 0 <= k < i ==> flat[k].Filled?)
      && Concat(parts[i := parts[i][0 := s]]) == flat[i := s]
      && Total(flat[i := s]) == Total(flat) + s.weight && Held(flat[i := s]) == Held(flat) + 1
    ensures Total(parts[i][0 := s]) == Total(parts[i]) + s.weight
  {
    hide Total, Held, Concat;
    SlotFilled(parts, 1, i, 0, s);
    assert At(1, i, 0) == i;
  }

  /** One more part of the same size. */
  lemma PartMore(n: nat, b: nat)
    requires n > 0
    ensures n * b == b + (n - 1) * b
  {
  }

  lemma VacanciesMore(b: nat, more: nat)
    ensures Vacancies(b) + Vacancies(more) == Vacancies(b + more)
  {
  }

  lemma Division(idx: nat, b: nat, n: nat)
    requires b > 0 && idx < n * b
    ensures idx / b < n && 0 <= idx - idx / b * b < b
    ensures At(b, idx / b, idx - idx / b * b) == idx
    ensures idx / b * b + (idx - idx / b * b) == idx
  {
    var q := idx / b;
    assert q * b <= idx < (q + 1) * b;
    ProductOrder(n, q, b);
  }

  lemma ProductOrder(m: nat, n: nat, b: nat)
    ensures m <= n ==> m * b <= n * b
  {
  }

  /** Slot `idx` of the row is in part `idx / b`. */
  lemma SlotBelow(parts: seq<seq<Slot>>, b: nat, idx: nat)
    requires Even(parts, b) && b > 0 && idx < |Concat(parts)|
    ensures idx / b < |parts| && 0 <= idx - idx / b * b < b
    ensures At(b, idx / b, idx - idx / b * b) == idx
    ensures Concat(parts)[idx] == parts[idx / b][idx - idx / b * b]
  {
    ConcatLength(parts, b);
    Division(idx, b, |parts|);
    hide At;
    ConcatUpdate(parts, b, idx / b, idx - idx / b * b, Vacant);
  }

  /** Changing the weight of a filled slot of one part. */
  lemma SlotReset(parts: seq<seq<Slot>>, b: nat, i: nat, j: nat, s: Slot)
    requires Even(parts, b) && i < |parts| && j < b && parts[i][j].Filled?
    ensures var flat := Concat(parts);
      && At(b, i, j) < |flat| && flat[At(b, i, j)] == parts[i][j]
      && Concat(parts[i := parts[i][j := s]]) == flat[At(b, i, j) := s]
      && Total(Concat(parts[i := parts[i][j := s]])) == Total(flat) - parts[i][j].weight + Weight(s)
      && Held(Concat(parts[i := parts[i][j := s]])) == Held(flat) - if s.Vacant? then 1 else 0
    ensures Total(parts[i][j := s]) == Total(parts[i]) - parts[i][j].weight + Weight(s)
  {
    ConcatUpdate(parts, b, i, j, s);
    TotalUpdate(Concat(parts), At(b, i, j), s);
    TotalUpdate(parts[i], j, s);
  }

  lemma FilledBefore(parts: seq<seq<Slot>>, b: nat, i: nat, j: nat)
    requires Even(parts, b) && i < |parts| && j < b
    requires forall k {:trigger parts[k]} | 0 <= k < i :: Held(parts[k]) == b
    requires forall k :: 0 <= k < j ==> parts[i][k].Filled?
    ensures i * b + j < |Concat(parts)|
    ensures forall k :: 0 <= k < i * b + j ==> Concat(parts)[k].Filled?
  {
    var before := Concat(parts[..i]);
    ConcatSplit(parts, i);
    ConcatLength(parts[..i], b);
    FullParts(parts[..i], b);
    HeldBound(before);
    assert Concat(parts) == before + parts[i] + Concat(parts[i + 1..]);
  }

  lemma {:induction false} EmptyParts(parts: seq<seq<Slot>>, b: nat)
    requires forall i :: 0 <= i < |parts| ==> parts[i] == Vacancies(b)
    ensures Concat(parts) == Vacancies(|parts| * b)
  {
    if parts != [] {
      EmptyParts(parts[1..], b);
      PartMore(|parts|, b);
      VacanciesMore(b, (|parts| - 1) * b);
    }
  }

  lemma OneSlot(slots: seq<Slot>, val: nat)
    requires |slots| == 1 && val < Total(slots)
    ensures Total(slots) == Weight(slots[0]) && Pick(slots, val) == 0
  {
  }

  lemma NoParts(parts: seq<seq<Slot>>)
    ensures Total(Concat(parts[..0])) == 0
  {
  }

  lemma PartsEven(parts: seq<seq<Slot>>, b: nat)
    requires Even(parts, b)
    ensures forall i {:trigger parts[i]} | 0 <= i < |parts| :: |parts[i]| == b
  {
  }

  /** The total of the first parts grows by one part and stays within the total. */
  lemma PartsMore(parts: seq<seq<Slot>>, i: nat)
    requires i < |parts|
    ensures Total(Concat(parts[..i + 1])) == Total(Concat(parts[..i])) + Total(parts[i]) <= Total(Concat(parts))
    ensures i + 1 == |parts| ==> Total(Concat(parts[..i])) + Total(parts[i]) == Total(Concat(parts))
  {
    var most := parts[..i + 1];
    ConcatSplit(parts, i);
    ConcatSplit(most, i);
    assert most[..i] == parts[..i] && most[i + 1..] == [];
    hide Total, Held;
    TotalConcat(Concat(parts[..i]), parts[i]);
    TotalConcat(Concat(parts[..i]) + parts[i], Concat(parts[i + 1..]));
    assert Concat(parts[..i]) + parts[i] + [] == Concat(parts[..i]) + parts[i];
    assert i + 1 == |parts| ==> most == parts;
  }

  lemma {:induction false} FullParts(parts: seq<seq<Slot>>, b: nat)
    requires Even(parts, b)
    requires forall i {:trigger parts[i]} | 0 <= i < |parts| :: Held(parts[i]) == b
    ensures Held(Concat(parts)) == |parts| * b
  {
    if parts != [] {
      FullParts(parts[1..], b);
      TotalConcat(parts[0], Concat(parts[1..]));
      PartMore(|parts|, b);
    }
  }
}
