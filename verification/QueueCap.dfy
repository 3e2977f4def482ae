/** Which queued transactions go when there are too many of them. */
module QueueCaps {
  import opened Types
  import opened NonceMap
  import opened PoolViews
  import opened FairShares
  import opened Sums
  import Sorting
  import Heap

  datatype AddressByHeartbeat = AddressByHeartbeat(address: Address, heartbeat: int)

  predicate BeatLess(x: AddressByHeartbeat, y: AddressByHeartbeat) {
    x.heartbeat < y.heartbeat
  }

  /** When the pool last heard from an account; one it never heard from comes before all others. */
  function Beat(beats: map<Address, nat>, a: Address): int {
    if a in beats then beats[a] else -1
  }

  /** The remote accounts that have something queued. */
  ghost function Remotes(lists: Accounts, local: set<Address>, beats: map<Address, nat>): set<AddressByHeartbeat> {
    set a | a in lists && a !in local :: AddressByHeartbeat(a, Beat(beats, a))
  }

  ghost predicate Ordered(s: seq<AddressByHeartbeat>) {
    forall i, j :: 0 <= i < j < |s| ==> s[i].heartbeat <= s[j].heartbeat && s[i].address != s[j].address
  }

  /** Sorting the remote accounts by heartbeat, the most recent ones last. */
  method SortByHeartbeat(s: seq<AddressByHeartbeat>, ghost remotes: set<AddressByHeartbeat>)
    returns (r: seq<AddressByHeartbeat>)
    requires multiset(s) == multiset(remotes)
    requires forall x, y :: x in remotes && y in remotes && x.address == y.address ==> x == y
    ensures Ordered(r) && forall x :: x in r <==> x in remotes
  {
    r := Sorting.Sort(BeatLess, s);
    assert forall x :: x in r <==> x in multiset(r);
    forall i, j | 0 <= i < j < |r|
      ensures r[i].heartbeat <= r[j].heartbeat && r[i].address != r[j].address
    {
      if r[i].address == r[j].address {
        assert r[i] in multiset(r) && r[j] in multiset(r);
        Sorting.TwiceCounted(r, i, j);
      }
    }
  }

  /** Half-way through: what is still to be looked at is untouched, the other remote accounts
      have lost everything, and `drop` more transactions have to go. */
  ghost predicate Cutting(was: Accounts, now: Accounts, left: seq<AddressByHeartbeat>, local: set<Address>,
                          beats: map<Address, nat>, limit: nat, drop: nat) {
    && Ordered(left) && Total(now) == limit + drop
    && (forall x :: x in left ==> x in Remotes(was, local, beats))
    && (forall x :: x in Remotes(was, local, beats) && x !in left ==>
         x.address !in now && forall y :: y in left ==> y.heartbeat <= x.heartbeat)
    && (forall a :: a in now ==> a in was && now[a] == was[a])
    && (forall a :: a in was && a in local ==> a in now)
    && (forall x :: x in left ==> x.address in now)
  }

  /** Local accounts lose nothing, the others at most their highest nonces. */
  ghost predicate OnlyTails(was: Accounts, now: Accounts, local: set<Address>) {
    forall a :: Prefix(Of(now, a), Of(was, a)) && (a in local ==> Of(now, a) == Of(was, a))
  }

  /** Nobody loses anything before every remote account more recently active has lost everything. */
  ghost predicate LatestFirst(was: Accounts, now: Accounts, local: set<Address>, beats: map<Address, nat>) {
    forall a, b :: Of(now, a) != Of(was, a) && b !in local && Beat(beats, a) < Beat(beats, b) ==> Of(now, b) == map[]
  }

  /** The outcome of capping: no more is dropped than has to be. */
  ghost predicate QueueCapped(was: Accounts, now: Accounts, local: set<Address>, beats: map<Address, nat>, limit: nat) {
    && OnlyTails(was, now, local) && LatestFirst(was, now, local, beats)
    && (if Total(was) <= limit then now == was
        else Total(now) == limit || (limit < Total(now) && forall a :: a in now ==> a in local))
  }

  lemma KeepTotal(lists: Accounts, a: Address, kept: Items)
    requires a in lists
    ensures Total(Keep(lists, a, kept)) == Total(lists) - |lists[a]| + |kept|
  {
    if kept == map[] {
      SumWithout(SizesOf(lists), a);
      assert SizesOf(lists - {a}) == SizesOf(lists) - {a};
    } else {
      TotalUpdate(lists, a, kept);
    }
  }

  lemma CuttingStarts(was: Accounts, left: seq<AddressByHeartbeat>, local: set<Address>, beats: map<Address, nat>,
    limit: nat)
    requires Ordered(left) && limit <= Total(was) && forall x :: x in left <==> x in Remotes(was, local, beats)
    ensures Cutting(was, was, left, local, beats, limit, Total(was) - limit)
  {
  }

  /** The account whose turn it is. */
  lemma CuttingNext(was: Accounts, now: Accounts, left: seq<AddressByHeartbeat>, local: set<Address>,
                    beats: map<Address, nat>, limit: nat, drop: nat)
    requires Cutting(was, now, left, local, beats, limit, drop) && left != []
    ensures var a := left[|left| - 1].address;
      a in was && a in now && now[a] == was[a] && a !in local && left[|left| - 1].heartbeat == Beat(beats, a)
  {
    assert left[|left| - 1] in left;
  }

  /** Dropping everything the account has. */
  lemma CuttingAll(was: Accounts, now: Accounts, left: seq<AddressByHeartbeat>, local: set<Address>,
                   beats: map<Address, nat>, limit: nat, drop: nat)
    requires Cutting(was, now, left, local, beats, limit, drop) && left != []
    requires var a := left[|left| - 1].address; a in now && |now[a]| <= drop
    ensures var a := left[|left| - 1].address;
      Cutting(was, now - {a}, left[..|left| - 1], local, beats, limit, drop - |now[a]|)
  {
    var last, rest := left[|left| - 1], left[..|left| - 1];
    KeepTotal(now, last.address, map[]);
    CuttingNext(was, now, left, local, beats, limit, drop);
    hide Total, Remotes;
    LastApart(left);
    forall y | y in rest
      ensures y.heartbeat <= last.heartbeat
    {
      LastIsLatest(left, y);
    }
  }

  lemma LastApart(left: seq<AddressByHeartbeat>)
    requires Ordered(left) && left != []
    ensures var last, rest := left[|left| - 1], left[..|left| - 1];
      && Ordered(rest)
      && (forall x :: x in left <==> x in rest || x == last)
      && (forall x :: x in rest ==> x.address != last.address)
  {
    assert left == left[..|left| - 1] + [left[|left| - 1]];
  }

  lemma CappedAll(was: Accounts, now: Accounts, left: seq<AddressByHeartbeat>, local: set<Address>,
                  beats: map<Address, nat>, limit: nat, drop: nat)
    requires Cutting(was, now, left, local, beats, limit, drop) && limit < Total(was)
    ensures drop == 0 || left == [] ==> QueueCapped(was, now, local, beats, limit)
  {
    forall a
      ensures Prefix(Of(now, a), Of(was, a)) && (a in local ==> Of(now, a) == Of(was, a))
    {
    }
    forall a, b | Of(now, a) != Of(was, a) && b !in local && Beat(beats, a) < Beat(beats, b)
      ensures Of(now, b) == map[]
    {
      Untouched(was, now, left, local, beats, limit, drop, a, b);
    }
    if drop != 0 && left == [] {
      forall a | a in now
        ensures a in local
      {
        assert a !in local ==> AddressByHeartbeat(a, Beat(beats, a)) in Remotes(was, local, beats);
      }
    }
  }

  lemma Untouched(was: Accounts, now: Accounts, left: seq<AddressByHeartbeat>, local: set<Address>,
                  beats: map<Address, nat>, limit: nat, drop: nat, a: Address, b: Address)
    requires Cutting(was, now, left, local, beats, limit, drop)
    requires Of(now, a) != Of(was, a) && b !in local && Beat(beats, a) < Beat(beats, b)
    ensures b !in now
  {
    var x, y := AddressByHeartbeat(a, Beat(beats, a)), AddressByHeartbeat(b, Beat(beats, b));
    assert a in was && a !in now && x in Remotes(was, local, beats);
    assert b in now ==> b in was && y in Remotes(was, local, beats);
  }

  /** Dropping only the last few of the account whose turn it is. */
  lemma CappedPart(was: Accounts, now: Accounts, w: Accounts, left: seq<AddressByHeartbeat>, local: set<Address>,
                   beats: map<Address, nat>, limit: nat, drop: nat, kept: Items)
    requires Cutting(was, now, left, local, beats, limit, drop) && left != [] && limit < Total(was)
    requires var a := left[|left| - 1].address;
      a in now && |kept| + drop == |now[a]| && Prefix(kept, now[a]) && w == Keep(now, a, kept)
    ensures QueueCapped(was, w, local, beats, limit)
  {
    var a := left[|left| - 1].address;
    CuttingNext(was, now, left, local, beats, limit, drop);
    KeepTotal(now, a, kept);
    CuttingTotal(was, now, left, local, beats, limit, drop);
    PartTails(was, now, left, local, beats, limit, drop, kept);
    hide Cutting, Total, OnlyTails;
    KeepOf(now, a, kept);
    forall b, c | Of(w, b) != Of(was, b) && c !in local && Beat(beats, b) < Beat(beats, c)
      ensures Of(w, c) == map[]
    {
      PartOrder(was, now, left, local, beats, limit, drop, b, c);
    }
  }

  lemma PartTails(was: Accounts, now: Accounts, left: seq<AddressByHeartbeat>, local: set<Address>,
                  beats: map<Address, nat>, limit: nat, drop: nat, kept: Items)
    requires Cutting(was, now, left, local, beats, limit, drop) && left != []
    requires var a := left[|left| - 1].address; a in now && Prefix(kept, now[a])
    ensures OnlyTails(was, Keep(now, left[|left| - 1].address, kept), local)
  {
    CuttingNext(was, now, left, local, beats, limit, drop);
    KeepOf(now, left[|left| - 1].address, kept);
  }

  lemma KeepOf(lists: Accounts, a: Address, kept: Items)
    ensures forall b :: Of(Keep(lists, a, kept), b) == if b == a then kept else Of(lists, b)
  {
  }

  lemma PartOrder(was: Accounts, now: Accounts, left: seq<AddressByHeartbeat>, local: set<Address>,
                  beats: map<Address, nat>, limit: nat, drop: nat, b: Address, c: Address)
    requires Cutting(was, now, left, local, beats, limit, drop) && left != [] && c !in local
    requires b == left[|left| - 1].address || Of(now, b) != Of(was, b)
    requires Beat(beats, b) < Beat(beats, c)
    ensures Of(now, c) == map[] && c != left[|left| - 1].address
  {
    CuttingNext(was, now, left, local, beats, limit, drop);
    hide Cutting;
    if b == left[|left| - 1].address {
      LaterGone(was, now, left, local, beats, limit, drop, c);
    } else {
      Untouched(was, now, left, local, beats, limit, drop, b, c);
    }
  }

  lemma CuttingTotal(was: Accounts, now: Accounts, left: seq<AddressByHeartbeat>, local: set<Address>,
                     beats: map<Address, nat>, limit: nat, drop: nat)
    requires Cutting(was, now, left, local, beats, limit, drop)
    ensures Total(now) == limit + drop
  {
  }

  lemma LastIsLatest(left: seq<AddressByHeartbeat>, y: AddressByHeartbeat)
    requires Ordered(left)
    ensures y in left ==> y.heartbeat <= left[|left| - 1].heartbeat
  {
  }

  lemma LaterGone(was: Accounts, now: Accounts, left: seq<AddressByHeartbeat>, local: set<Address>,
                  beats: map<Address, nat>, limit: nat, drop: nat, c: Address)
    requires Cutting(was, now, left, local, beats, limit, drop) && left != [] && c !in local
    requires Beat(beats, left[|left| - 1].address) < Beat(beats, c)
    ensures c !in now
  {
    CuttingNext(was, now, left, local, beats, limit, drop);
    var y := AddressByHeartbeat(c, Beat(beats, c));
    LastIsLatest(left, y);
    assert c in now ==> c in was && y in Remotes(was, local, beats);
  }

  // ---------- one transaction at a time ----------

  lemma LastIsGreatest(s: seq<Tx>, items: Items)
    requires Lists(s, items) && s != []
    ensures forall n :: n in items ==> n <= s[|s| - 1].nonce
  {
    forall n | n in items
      ensures n <= s[|s| - 1].nonce
    {
      assert items[n] in s;
    }
  }

  lemma BelowLast(s: seq<Tx>, items: Items)
    requires Lists(s, items) && s != [] && s[|s| - 1].nonce in items
    ensures Below(items, s[|s| - 1].nonce) == items - {s[|s| - 1].nonce}
  {
    LastIsGreatest(s, items);
    hide Lists;
  }

  lemma DropLast(s: seq<Tx>, items: Items)
    requires Lists(s, items) && s != []
    ensures Lists(s[..|s| - 1], items - {s[|s| - 1].nonce}) && Prefix(items - {s[|s| - 1].nonce}, items)
  {
    hide Lists, Below, Prefix;
    var last := s[|s| - 1].nonce;
    LastListedIn(s, items);
    BelowLast(s, items);
    LastIsGreatest(s, items);
    WithoutGreatest(items, last);
  }

  lemma LastListedIn(s: seq<Tx>, items: Items)
    requires Lists(s, items) && s != []
    ensures var last := s[|s| - 1].nonce; last in items && Lists(s[..|s| - 1], Below(items, last))
  {
    assert s[|s| - 1] in s;
    ListsBelow(s, items, |s| - 1, s[|s| - 1].nonce);
  }

  lemma WithoutGreatest(items: Items, last: uint64)
    requires forall n :: n in items ==> n <= last
    ensures Prefix(items - {last}, items)
  {
  }

  lemma KeepAgain(lists: Accounts, a: Address, kept: Items, less: Items)
    requires kept != map[]
    ensures Keep(Keep(lists, a, kept), a, less) == Keep(lists, a, less)
    ensures Of(Keep(lists, a, kept), a) == kept
  {
  }
}
