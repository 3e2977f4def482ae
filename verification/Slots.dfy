/** The flat meaning of the weighted selection tree: a row of slots, some vacant, some holding an
    item with a weight. */
module Slots {

  datatype Item = Item(id: nat)

  datatype Slot = Vacant | Filled(item: Item, weight: nat)

  function Weight(s: Slot): nat {
    if s.Vacant? then 0 else s.weight
  }

  function Total(slots: seq<Slot>): nat {
    if slots == [] then 0 else Weight(slots[0]) + Total(slots[1..])
  }

  function Held(slots: seq<Slot>): nat {
    if slots == [] then 0 else (if slots[0].Vacant? then 0 else 1) + Held(slots[1..])
  }

  /** The slot that the value `val` falls into, each slot taking up as many values as it weighs. */
  function Pick(slots: seq<Slot>, val: nat): (i: nat)
    requires val < Total(slots)
    ensures i < |slots|
  {
    if val < Weight(slots[0]) then 0 else 1 + Pick(slots[1..], val - Weight(slots[0]))
  }

  lemma {:induction false} TotalConcat(a: seq<Slot>, b: seq<Slot>)
    ensures Total(a + b) == Total(a) + Total(b)
    ensures Held(a + b) == Held(a) + Held(b)
  {
    if a == [] {
      assert a + b == b;
    } else {
      assert (a + b)[1..] == a[1..] + b;
      TotalConcat(a[1..], b);
    }
  }

  lemma {:induction false} TotalUpdate(slots: seq<Slot>, i: nat, s: Slot)
    requires i < |slots|
    ensures Total(slots[i := s]) == Total(slots) - Weight(slots[i]) + Weight(s)
    ensures Held(slots[i := s]) == Held(slots) - (if slots[i].Vacant? then 0 else 1) + (if s.Vacant? then 0 else 1)
  {
    TotalConcat(slots[..i], slots[i..]);
    TotalConcat(slots[..i], [s] + slots[i + 1..]);
    assert slots == slots[..i] + slots[i..];
    assert slots[i := s] == slots[..i] + ([s] + slots[i + 1..]);
    assert slots[i..][1..] == ([s] + slots[i + 1..])[1..];
  }

  lemma {:induction false} HeldBound(slots: seq<Slot>)
    ensures Held(slots) <= |slots|
    ensures Held(slots) == |slots| <==> forall i :: 0 <= i < |slots| ==> slots[i].Filled?
  {
    if slots != [] {
      HeldBound(slots[1..]);
      if forall i :: 0 <= i < |slots| ==> slots[i].Filled? {
        assert forall i :: 0 <= i < |slots[1..]| ==> slots[1..][i] == slots[i + 1];
      } else {
        var i :| 0 <= i < |slots| && slots[i].Vacant?;
        assert i > 0 ==> slots[1..][i - 1].Vacant?;
      }
    }
  }

  lemma {:induction false} PickConcat(a: seq<Slot>, b: seq<Slot>, val: nat)
    requires val < Total(a) + Total(b)
    ensures Total(a + b) == Total(a) + Total(b)
    ensures Pick(a + b, val) == if val < Total(a) then Pick(a, val) else |a| + Pick(b, val - Total(a))
  {
    TotalConcat(a, b);
    if a == [] {
      assert a + b == b;
    } else {
      assert (a + b)[1..] == a[1..] + b;
      if val >= Weight(a[0]) { PickConcat(a[1..], b, val - Weight(a[0])); }
    }
  }

  /** The values that fall into slot `i` are an interval as long as its weight. */
  lemma {:induction false} PickInterval(slots: seq<Slot>, val: nat, i: nat)
    requires val < Total(slots) && i < |slots|
    ensures Pick(slots, val) == i <==> Total(slots[..i]) <= val < Total(slots[..i]) + Weight(slots[i])
  {
    if i > 0 {
      assert slots[..i][1..] == slots[1..][..i - 1];
      if val >= Weight(slots[0]) { PickInterval(slots[1..], val - Weight(slots[0]), i - 1); }
    }
  }

  ghost function Range(lo: nat, len: nat): set<nat> {
    if len == 0 then {} else Range(lo, len - 1) + {lo + len - 1}
  }

  lemma {:induction false} RangeSize(lo: nat, len: nat)
    ensures forall v :: v in Range(lo, len) <==> lo <= v < lo + len
    ensures |Range(lo, len)| == len
  {
    if len > 0 { RangeSize(lo, len - 1); }
  }

  ghost predicate Chooses(slots: seq<Slot>, val: nat, x: Item) {
    val < Total(slots) && slots[Pick(slots, val)].Filled? && slots[Pick(slots, val)].item == x
  }

  /** Each item stands in one slot at most. */
  ghost predicate Distinct(slots: seq<Slot>) {
    forall i, j | 0 <= i < |slots| && 0 <= j < |slots| && slots[i].Filled? && slots[j].Filled? ::
      slots[i].item == slots[j].item ==> i == j
  }

  /** Of the values below the total, exactly as many choose an item as it weighs. */
  lemma ChosenByWeight(slots: seq<Slot>, i: nat)
    requires Distinct(slots) && i < |slots| && slots[i].Filled?
    ensures |set val: nat | val < Total(slots) && Chooses(slots, val, slots[i].item)| == slots[i].weight
  {
    var x := slots[i].item;
    var lo := Total(slots[..i]);
    assert Total(slots) == lo + Weight(slots[i]) + Total(slots[i + 1..]) by {
      TotalConcat(slots[..i], slots[i..]);
      assert slots == slots[..i] + slots[i..] && slots[i..][1..] == slots[i + 1..];
    }
    RangeSize(lo, slots[i].weight);
    forall val: nat | val < Total(slots) ensures Chooses(slots, val, x) <==> val in Range(lo, slots[i].weight) {
      PickInterval(slots, val, i);
    }
    assert (set val: nat | val < Total(slots) && Chooses(slots, val, x)) == Range(lo, slots[i].weight);
  }

  /** A chosen slot always holds something. */
  lemma {:induction false} PickFilled(slots: seq<Slot>, val: nat)
    requires val < Total(slots)
    ensures var s := slots[Pick(slots, val)]; s.Filled? && s.weight > 0
  {
    if val >= Weight(slots[0]) { PickFilled(slots[1..], val - Weight(slots[0])); }
  }

  function Vacancies(n: nat): (slots: seq<Slot>)
    ensures |slots| == n && forall i :: 0 <= i < n ==> slots[i] == Vacant
  {
    if n == 0 then [] else [Vacant] + Vacancies(n - 1)
  }

  lemma {:induction false} VacanciesEmpty(n: nat)
    ensures Total(Vacancies(n)) == 0 && Held(Vacancies(n)) == 0
  {
    if n > 0 {
      assert Vacancies(n)[1..] == Vacancies(n - 1);
      VacanciesEmpty(n - 1);
    }
  }

  /** Rows of slots laid end to end. */
  function Concat(parts: seq<seq<Slot>>): seq<Slot> {
    if parts == [] then [] else parts[0] + Concat(parts[1..])
  }

  ghost predicate Even(parts: seq<seq<Slot>>, b: nat) {
    forall i {:trigger parts[i]} | 0 <= i < |parts| :: |parts[i]| == b
  }

  lemma {:induction false} ConcatAppend(a: seq<seq<Slot>>, b: seq<seq<Slot>>)
    ensures Concat(a + b) == Concat(a) + Concat(b)
  {
    if a == [] {
      assert a + b == b;
    } else {
      assert (a + b)[1..] == a[1..] + b;
      ConcatAppend(a[1..], b);
    }
  }

  lemma {:induction false} ConcatLength(parts: seq<seq<Slot>>, b: nat)
    requires Even(parts, b)
    ensures |Concat(parts)| == |parts| * b
  {
    if parts != [] {
      ConcatLength(parts[1..], b);
      assert |parts| * b == b + (|parts| - 1) * b;
    }
  }

  /** Slot `j` of part `i`, and the row with that slot replaced. */
  lemma ConcatUpdate(parts: seq<seq<Slot>>, b: nat, i: nat, j: nat, s: Slot)
    requires Even(parts, b) && i < |parts| && j < b
    ensures i * b + j < |Concat(parts)| == |parts| * b
    ensures Concat(parts)[i * b + j] == parts[i][j]
    ensures Concat(parts[i := parts[i][j := s]]) == Concat(parts)[i * b + j := s]
  {
    var now := parts[i][j := s];
    ConcatSplit(parts, i);
    ConcatSplit(parts[i := now], i);
    assert parts[i := now][..i] == parts[..i] && parts[i := now][i + 1..] == parts[i + 1..];
    ConcatLength(parts[..i], b);
    ConcatLength(parts, b);
    hide Even, Concat;
    Splice(Concat(parts[..i]), parts[i], Concat(parts[i + 1..]), j, s);
  }

  lemma Splice(before: seq<Slot>, part: seq<Slot>, after: seq<Slot>, j: nat, s: Slot)
    requires j < |part|
    ensures |before| + j < |before + part + after|
    ensures (before + part + after)[|before| + j] == part[j]
    ensures before + part[j := s] + after == (before + part + after)[|before| + j := s]
  {
  }

  lemma ConcatSplit(parts: seq<seq<Slot>>, i: nat)
    requires i < |parts|
    ensures Concat(parts) == Concat(parts[..i]) + parts[i] + Concat(parts[i + 1..])
  {
    assert parts == parts[..i] + parts[i..];
    ConcatAppend(parts[..i], parts[i..]);
    assert parts[i..][1..] == parts[i + 1..];
  }

  /** A value beyond the first `i` parts that is within the weight of part `i` picks a slot of it. */
  lemma ConcatPick(parts: seq<seq<Slot>>, b: nat, i: nat, val: nat)
    requires Even(parts, b) && i < |parts| && val < Total(parts[i])
    ensures var before := Total(Concat(parts[..i]));
      before + val < Total(Concat(parts)) && Pick(Concat(parts), before + val) == i * b + Pick(parts[i], val)
  {
    ConcatSplit(parts, i);
    ConcatLength(parts[..i], b);
    var before, rest := Concat(parts[..i]), parts[i] + Concat(parts[i + 1..]);
    assert Concat(parts) == before + rest;
    TotalConcat(parts[i], Concat(parts[i + 1..]));
    TotalConcat(before, rest);
    PickConcat(before, rest, Total(before) + val);
    PickConcat(parts[i], Concat(parts[i + 1..]), val);
  }
}
