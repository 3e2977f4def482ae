/** How many pending transactions each account may keep when the pool is over its limit. */
module FairShares {
  import opened Types
  import opened NonceMap
  import opened PoolViews
  import opened Heap
  import opened Sums

  ghost function SizesOf(lists: Accounts): Amounts {
    map a | a in lists :: |lists[a]|
  }

  ghost function Total(lists: Accounts): nat {
    Sum(SizesOf(lists))
  }

  lemma SizesUpdate(lists: Accounts, a: Address, items: Items)
    ensures SizesOf(lists[a := items]) == SizesOf(lists)[a := |items|]
  {
    var l := lists[a := items];
    assert forall b :: b in l && b != a ==> l[b] == lists[b];
  }

  lemma TotalUpdate(lists: Accounts, a: Address, items: Items)
    requires a in lists
    ensures Total(lists[a := items]) == Total(lists) - |lists[a]| + |items|
  {
    hide Sum;
    SumUpdate(SizesOf(lists), a, |items|);
    SizesUpdate(lists, a, items);
  }

  /** Only remote accounts above the guaranteed allowance may be cut. */
  ghost predicate MayCut(lists: Accounts, a: Address, local: set<Address>, slots: nat) {
    a in lists && a !in local && slots < |lists[a]|
  }

  /** Cutting every account that may be cut down to one level. */
  ghost function Levelled(lists: Accounts, local: set<Address>, slots: nat, level: nat): Amounts {
    map a | a in lists :: if MayCut(lists, a, local, slots) && level < |lists[a]| then level else |lists[a]|
  }

  /** What is left of the lists is their lowest nonces, as many as the level admits. */
  ghost predicate CutTo(was: Accounts, now: Accounts, local: set<Address>, slots: nat, level: nat) {
    && now.Keys == was.Keys
    && SizesOf(now) == Levelled(was, local, slots, level)
    && (forall a :: a in was ==> Prefix(now[a], was[a]))
    && (forall a :: a in was && !MayCut(was, a, local, slots) ==> now[a] == was[a])
  }

  /** One transaction less for each of the offenders, nothing else. */
  ghost predicate Lowered(v: Accounts, w: Accounts, offenders: seq<Address>) {
    && w.Keys == v.Keys
    && (forall a :: a in v && a !in offenders ==> w[a] == v[a])
    && (forall a :: a in v && a in offenders ==> Prefix(w[a], v[a]) && |w[a]| == |v[a]| - 1)
  }

  lemma PrefixSame(items: Items)
    ensures Prefix(items, items)
  {
  }

  /** At a level no account exceeds, nothing is cut. */
  lemma CutNothing(lists: Accounts, local: set<Address>, slots: nat, level: nat)
    requires forall a :: MayCut(lists, a, local, slots) ==> |lists[a]| <= level
    ensures CutTo(lists, lists, local, slots, level)
  {
    forall a | a in lists
      ensures Prefix(lists[a], lists[a])
    {
      PrefixSame(lists[a]);
    }
  }

  /** A round that takes one transaction from every account at the level lowers the level by one. */
  lemma LevelDown(was: Accounts, v: Accounts, w: Accounts, offenders: seq<Address>, local: set<Address>,
    slots: nat, level: nat)
    requires CutTo(was, v, local, slots, level) && Lowered(v, w, offenders) && 0 < level
    requires forall a :: a in offenders ==> MayCut(was, a, local, slots) && |v[a]| == level
    requires forall a :: MayCut(was, a, local, slots) && a !in offenders ==> |was[a]| < level
    ensures CutTo(was, w, local, slots, level - 1)
  {
    forall a | a in was
      ensures |w[a]| == Levelled(was, local, slots, level - 1)[a] && Prefix(w[a], was[a])
      ensures !MayCut(was, a, local, slots) ==> w[a] == was[a]
    {
      LevelDownAt(was, v, w, offenders, local, slots, level, a);
    }
  }

  lemma LevelDownAt(was: Accounts, v: Accounts, w: Accounts, offenders: seq<Address>, local: set<Address>,
    slots: nat, level: nat, a: Address)
    requires CutTo(was, v, local, slots, level) && Lowered(v, w, offenders) && 0 < level && a in was
    requires a in offenders ==> MayCut(was, a, local, slots) && |v[a]| == level
    requires MayCut(was, a, local, slots) && a !in offenders ==> |was[a]| < level
    ensures |w[a]| == Levelled(was, local, slots, level - 1)[a] && Prefix(w[a], was[a])
    ensures !MayCut(was, a, local, slots) ==> w[a] == was[a]
  {
    hide Prefix;
    assert SizesOf(v)[a] == Levelled(was, local, slots, level)[a];
    if a in offenders {
      PrefixTransitive(w[a], v[a], was[a]);
    }
  }

  /** A higher level keeps at least as much. */
  lemma LevelMonotone(lists: Accounts, local: set<Address>, slots: nat, low: nat, high: nat)
    requires low <= high
    ensures Sum(Levelled(lists, local, slots, low)) <= Sum(Levelled(lists, local, slots, high))
  {
    SumMonotone(Levelled(lists, local, slots, low), Levelled(lists, local, slots, high));
  }

  // ---------- the equalisation ----------

  /** An account in the order of punishment, the larger list first. */
  datatype Spammer = Spammer(addr: Address, size: nat)

  predicate SpamOrder(x: Spammer, y: Spammer) {
    x.size > y.size
  }

  /** The accounts that may be cut, with the sizes of their lists. */
  ghost function Spammers(lists: Accounts, local: set<Address>, slots: nat): set<Spammer> {
    set a | a in lists && MayCut(lists, a, local, slots) :: Spammer(a, |lists[a]|)
  }

  /** The priority queue holds exactly the given spammers. */
  ghost predicate Queues(heap: seq<Spammer>, rest: set<Spammer>) {
    IsHeap(SpamOrder, heap) && multiset(heap) == multiset(rest)
  }

  method PushSpammer(heap: seq<Spammer>, ghost rest: set<Spammer>, s: Spammer) returns (r: seq<Spammer>)
    requires Queues(heap, rest) && s !in rest
    ensures Queues(r, rest + {s})
  {
    r := Push(SpamOrder, heap, s);
    assert multiset(rest + {s}) == multiset(rest) + multiset{s};
  }

  method PopSpammer(heap: seq<Spammer>, ghost rest: set<Spammer>) returns (r: seq<Spammer>, s: Spammer)
    requires Queues(heap, rest) && heap != []
    ensures s in rest && Queues(r, rest - {s}) && |r| < |heap|
    ensures forall t :: t in rest ==> t.size <= s.size
  {
    r, s := Pop(SpamOrder, heap);
    assert s in multiset(heap);
    assert multiset(rest) == multiset(rest - {s}) + multiset{s};
    assert multiset(r) == multiset(heap) - multiset{s};
    assert |multiset(heap)| == |multiset(r)| + 1;
    assert forall t :: t in rest <==> t in multiset(heap);
    assert forall t :: t in heap <==> t in multiset(heap);
  }

  /** Nothing was cut in vain: one level higher the limit would be exceeded. */
  ghost predicate Tight(was: Accounts, now: Accounts, local: set<Address>, slots: nat, level: nat, limit: nat) {
    now == was || limit < Sum(Levelled(was, local, slots, level + 1))
  }

  ghost predicate DistinctAddresses(s: seq<Address>) {
    forall i, j :: 0 <= i < j < |s| ==> s[i] != s[j]
  }

  /** Who may be cut is either an offender already or still queued as a spammer. */
  ghost predicate Sorted(was: Accounts, offenders: seq<Address>, rest: set<Spammer>, local: set<Address>, slots: nat) {
    && DistinctAddresses(offenders)
    && (forall a :: a in offenders ==> MayCut(was, a, local, slots))
    && (forall s :: s in rest ==> s in Spammers(was, local, slots) && s.addr !in offenders)
    && (forall s :: s in Spammers(was, local, slots) ==> s.addr in offenders || s in rest)
  }

  /** Offenders have been cut down to the level, spammers still queued do not reach above it. */
  ghost predicate Equalising(was: Accounts, now: Accounts, offenders: seq<Address>, rest: set<Spammer>,
                             local: set<Address>, slots: nat, level: nat, limit: nat) {
    && CutTo(was, now, local, slots, level) && Tight(was, now, local, slots, level, limit) && slots <= level
    && Sorted(was, offenders, rest, local, slots)
    && (forall s :: s in rest ==> s.size <= level)
  }

  ghost predicate AllAbove(was: Accounts, offenders: seq<Address>, level: nat) {
    forall a :: a in offenders ==> a in was && level <= |was[a]|
  }

  lemma AtLevel(was: Accounts, now: Accounts, a: Address, local: set<Address>, slots: nat, level: nat)
    requires CutTo(was, now, local, slots, level) && MayCut(was, a, local, slots)
    ensures a in now && |now[a]| == if level < |was[a]| then level else |was[a]|
  {
    assert SizesOf(now)[a] == Levelled(was, local, slots, level)[a];
  }

  /** The spammer just popped joins the offenders. */
  lemma NextOffender(was: Accounts, now: Accounts, offenders: seq<Address>, rest: set<Spammer>, s: Spammer,
                     local: set<Address>, slots: nat, level: nat, limit: nat)
    requires Equalising(was, now, offenders, rest, local, slots, level, limit)
    requires s in rest && forall t :: t in rest ==> t.size <= s.size
    ensures Equalising(was, now, offenders + [s.addr], rest - {s}, local, slots, level, limit)
    ensures s.addr in now && s.addr in was && |now[s.addr]| == s.size == |was[s.addr]| && slots < s.size <= level
    ensures forall t :: t in rest - {s} ==> t.size <= s.size
  {
    AtLevel(was, now, s.addr, local, slots, level);
    hide CutTo, Tight, Levelled;
    var next := offenders + [s.addr];
    forall t | t in rest - {s}
      ensures t.addr !in next
    {
      assert t == Spammer(t.addr, |was[t.addr]|) && s == Spammer(s.addr, |was[s.addr]|);
    }
    forall t | t in Spammers(was, local, slots)
      ensures t.addr in next || t in rest - {s}
    {
      assert next[|offenders|] == s.addr;
      assert t.addr in offenders ==> t.addr in next;
    }
  }

  /** The level before anything is cut is the size of the largest spammer. */
  lemma FirstOffender(was: Accounts, rest: set<Spammer>, s: Spammer, local: set<Address>, slots: nat, level: nat,
    limit: nat)
    requires Equalising(was, was, [], rest, local, slots, level, limit)
    requires s in rest && forall t :: t in rest ==> t.size <= s.size
    ensures Equalising(was, was, [], rest, local, slots, s.size, limit) && AllAbove(was, [], s.size)
  {
    forall a | MayCut(was, a, local, slots)
      ensures |was[a]| <= s.size
    {
      assert Spammer(a, |was[a]|) in Spammers(was, local, slots);
    }
    CutNothing(was, local, slots, s.size);
  }

  /** A round of cuts among offenders that all sit at the level. */
  lemma RoundDown(was: Accounts, v: Accounts, w: Accounts, offenders: seq<Address>, cut: seq<Address>,
                  rest: set<Spammer>, local: set<Address>, slots: nat, level: nat, limit: nat)
    requires Equalising(was, v, offenders, rest, local, slots, level, limit) && limit < Total(v)
    requires Lowered(v, w, cut) && slots < level
    requires (forall a :: a in cut ==> a in offenders) && Even(v, cut, level)
    requires forall a :: a in offenders && a !in cut ==> a in was && |was[a]| < level
    requires forall s :: s in rest ==> s.size < level
    ensures Equalising(was, w, offenders, rest, local, slots, level - 1, limit)
  {
    forall a | MayCut(was, a, local, slots) && a !in cut
      ensures |was[a]| < level
    {
      assert Spammer(a, |was[a]|) in Spammers(was, local, slots);
    }
    LevelDown(was, v, w, cut, local, slots, level);
  }

  /** Everything is below the grand total. */
  lemma StartsEqual(was: Accounts, local: set<Address>, slots: nat, limit: nat)
    ensures Equalising(was, was, [], Spammers(was, local, slots), local, slots, Total(was) + slots, limit)
    ensures AllAbove(was, [], Total(was) + slots)
  {
    forall a | a in was
      ensures |was[a]| <= Total(was) + slots
    {
      SumWithout(SizesOf(was), a);
    }
    CutNothing(was, local, slots, Total(was) + slots);
  }

  lemma NoSpammers()
    ensures Queues([], {})
  {
  }

  lemma QueueEmpty(heap: seq<Spammer>, rest: set<Spammer>)
    requires Queues(heap, rest)
    ensures heap == [] ==> rest == {}
  {
    assert heap == [] ==> |multiset(rest)| == 0;
  }

  lemma CountEnds(sizes: Amounts)
    ensures Sum(sizes - sizes.Keys) == 0 && Sum(sizes - {}) == Sum(sizes)
  {
    assert sizes - sizes.Keys == map[];
    assert sizes - {} == sizes;
  }

  lemma CountNext(sizes: Amounts, todo: set<Address>, a: Address)
    requires a in todo && todo <= sizes.Keys
    ensures Sum(sizes - (todo - {a})) == Sum(sizes - todo) + sizes[a]
  {
    SumWithout(sizes - (todo - {a}), a);
    assert sizes - (todo - {a}) - {a} == sizes - todo;
  }

  /** Accounts with lists of one and the same length. */
  ghost predicate Even(now: Accounts, s: seq<Address>, level: nat) {
    DistinctAddresses(s) && forall a :: a in s ==> a in now && |now[a]| == level
  }

  lemma LastEven(now: Accounts, s: seq<Address>, level: nat)
    requires Even(now, s, level) && s != []
    ensures s[|s| - 1] in now && |now[s[|s| - 1]]| == level
    ensures DistinctAddresses(s) && (0 < level ==> forall a :: a in s ==> a in now && now[a] != map[])
  {
  }

  lemma EvenOffenders(was: Accounts, now: Accounts, offenders: seq<Address>, rest: set<Spammer>,
                      local: set<Address>, slots: nat, level: nat, limit: nat)
    requires Equalising(was, now, offenders, rest, local, slots, level, limit) && AllAbove(was, offenders, level)
    ensures Even(now, offenders, level)
  {
    hide CutTo;
    forall a | a in offenders
      ensures a in now && |now[a]| == level
    {
      AtLevel(was, now, a, local, slots, level);
    }
  }

  /** The earlier offenders all sit at the level, on their way down to the size of the last one. */
  ghost predicate Levelling(was: Accounts, now: Accounts, earlier: seq<Address>, last: Spammer, rest: set<Spammer>,
                            local: set<Address>, slots: nat, level: nat, limit: nat) {
    && Equalising(was, now, earlier + [last.addr], rest, local, slots, level, limit)
    && AllAbove(was, earlier, level) && Even(now, earlier, level)
    && last.addr in was && slots < last.size == |was[last.addr]| <= level
    && (forall t :: t in rest ==> t.size <= last.size)
  }

  lemma StartLevelling(was: Accounts, now: Accounts, earlier: seq<Address>, rest: set<Spammer>, last: Spammer,
                       local: set<Address>, slots: nat, level: nat, limit: nat)
    requires Equalising(was, now, earlier, rest, local, slots, level, limit) && AllAbove(was, earlier, level)
    requires last in rest && forall t :: t in rest ==> t.size <= last.size
    ensures Levelling(was, now, earlier, last, rest - {last}, local, slots, level, limit)
  {
    EvenOffenders(was, now, earlier, rest, local, slots, level, limit);
    NextOffender(was, now, earlier, rest, last, local, slots, level, limit);
  }

  lemma EndLevelling(was: Accounts, now: Accounts, earlier: seq<Address>, last: Spammer, rest: set<Spammer>,
                     local: set<Address>, slots: nat, level: nat, limit: nat)
    requires Levelling(was, now, earlier, last, rest, local, slots, level, limit)
    ensures Equalising(was, now, earlier + [last.addr], rest, local, slots, level, limit)
    ensures level <= last.size ==> AllAbove(was, earlier + [last.addr], level)
  {
    hide Equalising, Even;
  }

  lemma LastUncut(was: Accounts, now: Accounts, earlier: seq<Address>, last: Spammer, rest: set<Spammer>,
                  local: set<Address>, slots: nat, level: nat, limit: nat)
    requires Levelling(was, now, earlier, last, rest, local, slots, level, limit)
    ensures last.addr in now && |now[last.addr]| == last.size <= level
  {
    var offenders := earlier + [last.addr];
    assert offenders[|earlier|] == last.addr;
    AtLevel(was, now, last.addr, local, slots, level);
  }

  lemma EarlierAtLevel(was: Accounts, now: Accounts, earlier: seq<Address>, last: Spammer, rest: set<Spammer>,
                       local: set<Address>, slots: nat, level: nat, limit: nat)
    requires Levelling(was, now, earlier, last, rest, local, slots, level, limit) && earlier != []
    ensures earlier[|earlier| - 1] in now && |now[earlier[|earlier| - 1]]| == level && last.size <= level
    ensures DistinctAddresses(earlier) && (0 < level ==> forall a :: a in earlier ==> a in now && now[a] != map[])
  {
    hide Equalising;
    LastEven(now, earlier, level);
  }

  lemma LevellingRound(was: Accounts, v: Accounts, w: Accounts, earlier: seq<Address>, last: Spammer,
                       rest: set<Spammer>, local: set<Address>, slots: nat, level: nat, limit: nat)
    requires Levelling(was, v, earlier, last, rest, local, slots, level, limit) && limit < Total(v)
    requires Lowered(v, w, earlier) && last.size < level
    ensures Levelling(was, w, earlier, last, rest, local, slots, level - 1, limit)
  {
    hide Equalising, Lowered;
    EvenRound(v, w, earlier, level);
    assert forall a :: a in earlier ==> a in earlier + [last.addr];
    RoundDown(was, v, w, earlier + [last.addr], earlier, rest, local, slots, level, limit);
  }

  lemma EvenRound(v: Accounts, w: Accounts, s: seq<Address>, level: nat)
    requires Lowered(v, w, s) && Even(v, s, level) && 0 < level
    ensures Even(w, s, level - 1)
  {
  }

  lemma AllowanceRound(was: Accounts, v: Accounts, w: Accounts, offenders: seq<Address>,
                       local: set<Address>, slots: nat, level: nat, limit: nat)
    requires Equalising(was, v, offenders, {}, local, slots, level, limit) && limit < Total(v)
    requires Lowered(v, w, offenders) && Even(v, offenders, level) && AllAbove(was, offenders, level)
    requires slots < level
    ensures Equalising(was, w, offenders, {}, local, slots, level - 1, limit)
    ensures Even(w, offenders, level - 1) && AllAbove(was, offenders, level - 1)
  {
    RoundDown(was, v, w, offenders, offenders, {}, local, slots, level, limit);
  }

  lemma NotBelowSlots(was: Accounts, now: Accounts, offenders: seq<Address>, rest: set<Spammer>,
                      local: set<Address>, slots: nat, level: nat, limit: nat)
    requires Equalising(was, now, offenders, rest, local, slots, level, limit)
    ensures slots <= level
  {
  }

  /** The outcome of the equalisation: the remote accounts above their allowance are all cut down to
      one level, the greatest one that respects the limit, but never below the allowance. */
  ghost predicate FairCut(was: Accounts, now: Accounts, local: set<Address>, slots: nat, level: nat, limit: nat) {
    && CutTo(was, now, local, slots, level) && slots <= level
    && (Total(now) <= limit || level == slots)
    && (now == was || limit < Sum(Levelled(was, local, slots, level + 1)))
  }

  /** The level is the greatest one: any higher one exceeds the limit, unless nothing is cut at all. */
  lemma FairIsGreatest(was: Accounts, now: Accounts, local: set<Address>, slots: nat, level: nat, limit: nat,
                       higher: nat)
    requires FairCut(was, now, local, slots, level, limit) && level < higher
    ensures now != was ==> limit < Sum(Levelled(was, local, slots, higher))
  {
    LevelMonotone(was, local, slots, level + 1, higher);
  }

  /** Cutting to the sizes there were is not cutting. */
  lemma UncutBySizes(was: Accounts, now: Accounts, local: set<Address>, slots: nat, level: nat)
    requires CutTo(was, now, local, slots, level) && Levelled(was, local, slots, level) == SizesOf(was)
    ensures now == was
  {
    forall a | a in was
      ensures now[a] == was[a]
    {
      assert SizesOf(now)[a] == SizesOf(was)[a];
      PrefixSame(was[a]);
      PrefixDetermined(now[a], was[a], was[a]);
    }
  }

  /** There is only one outcome at each level. */
  lemma CutDetermined(was: Accounts, now: Accounts, other: Accounts, local: set<Address>, slots: nat, level: nat)
    requires CutTo(was, now, local, slots, level) && CutTo(was, other, local, slots, level)
    ensures now == other
  {
    forall a | a in was
      ensures now[a] == other[a]
    {
      assert SizesOf(now)[a] == SizesOf(other)[a];
      PrefixDetermined(now[a], other[a], was[a]);
    }
  }

  /** What a fair cut leaves is determined by the lists, the local accounts and the limits: it does not
      depend on the order in which the offenders are punished. */
  lemma FairIsUnique(was: Accounts, now: Accounts, other: Accounts, local: set<Address>, slots: nat, level: nat,
                     level': nat, limit: nat)
    requires FairCut(was, now, local, slots, level, limit) && FairCut(was, other, local, slots, level', limit)
    ensures now == other
  {
    hide FairCut;
    if level < level' {
      FairBelow(was, now, other, local, slots, level, level', limit);
    } else if level' < level {
      FairBelow(was, other, now, local, slots, level', level, limit);
    } else {
      FairAlike(was, now, other, local, slots, level, limit);
    }
  }

  lemma FairAlike(was: Accounts, now: Accounts, other: Accounts, local: set<Address>, slots: nat, level: nat,
                  limit: nat)
    requires FairCut(was, now, local, slots, level, limit) && FairCut(was, other, local, slots, level, limit)
    ensures now == other
  {
    CutDetermined(was, now, other, local, slots, level);
  }

  lemma FairBelow(was: Accounts, now: Accounts, other: Accounts, local: set<Address>, slots: nat, level: nat,
                  level': nat, limit: nat)
    requires FairCut(was, now, local, slots, level, limit) && FairCut(was, other, local, slots, level', limit)
    requires level < level'
    ensures now == was == other
  {
    FairIsGreatest(was, now, local, slots, level, limit, level');
    hide Levelled, Sum, SizesOf, MayCut, Prefix;
    assert Total(other) == Sum(Levelled(was, local, slots, level'));
    assert now == was;
    HigherUncut(was, local, slots, level, level');
    UncutBySizes(was, other, local, slots, level');
  }

  lemma HigherUncut(was: Accounts, local: set<Address>, slots: nat, level: nat, higher: nat)
    requires Levelled(was, local, slots, level) == SizesOf(was) && level <= higher
    ensures Levelled(was, local, slots, higher) == SizesOf(was)
  {
    forall a | a in was
      ensures Levelled(was, local, slots, higher)[a] == |was[a]|
    {
      assert Levelled(was, local, slots, level)[a] == SizesOf(was)[a];
    }
  }

  lemma Fair(was: Accounts, now: Accounts, offenders: seq<Address>, rest: set<Spammer>,
             local: set<Address>, slots: nat, level: nat, limit: nat)
    requires Equalising(was, now, offenders, rest, local, slots, level, limit)
    requires Total(now) <= limit || level == slots
    ensures FairCut(was, now, local, slots, level, limit)
  {
  }

  /** Where nobody may be cut, everything stays even at the level of the allowance. */
  lemma NoOffenders(was: Accounts, now: Accounts, local: set<Address>, slots: nat, level: nat, limit: nat)
    requires Equalising(was, now, [], {}, local, slots, level, limit)
    ensures Equalising(was, now, [], {}, local, slots, slots, limit)
  {
    forall a
      ensures !MayCut(was, a, local, slots)
    {
      assert MayCut(was, a, local, slots) ==> Spammer(a, |was[a]|) in Spammers(was, local, slots);
    }
    assert now == was;
    CutNothing(was, local, slots, slots);
  }
}
