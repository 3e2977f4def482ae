/** The header chain: a tree of headers, their total difficulties, and the number -> hash index
    that must always describe the ancestry of the head. */
module HeaderChains {
  import opened Types
  import opened Ancestry

  /** What the database and the head marker hold. */
  datatype Chain = Chain(genesis: Hash, headers: map<Hash, Header>, td: map<Hash, int>,
                         canon: map<nat, Hash>, head: Hash)

  /** `h` is stored under its own hash, with its parent and the sum of its ancestry's difficulties. */
  ghost predicate Placed(g: Hash, headers: map<Hash, Header>, td: map<Hash, int>, h: Hash) {
    && h in headers && h == HashOf(headers[h])
    && Rooted(h, g)
    && (h != g ==> h.header.parentHash in headers)
    && h in td && td[h] == TotalDifficulty(h)
  }

  ghost predicate Tree(g: Hash, headers: map<Hash, Header>, td: map<Hash, int>) {
    && IsGenesis(g) && g in headers && td.Keys == headers.Keys
    && forall h {:trigger Placed(g, headers, td, h)} :: h in headers ==> Placed(g, headers, td, h)
  }

  /** The index holds the ancestry of `head` and nothing else. */
  ghost predicate Describes(canon: map<nat, Hash>, head: Hash) {
    && (forall i: nat :: i in canon <==> i < |Line(head)|)
    && forall i: nat :: i in canon ==> canon[i] == Line(head)[i]
  }

  ghost predicate Heaviest(c: Chain)
    requires c.head in c.td
  {
    forall h :: h in c.td ==> c.td[h] <= c.td[c.head]
  }

  ghost predicate Indexed(c: Chain) {
    && Tree(c.genesis, c.headers, c.td) && c.td.Keys == c.headers.Keys
    && c.head in c.headers && Describes(c.canon, c.head)
  }

  ghost predicate Sound(c: Chain) {
    Indexed(c) && Heaviest(c)
  }

  ghost function Index(line: seq<Hash>): map<nat, Hash> {
    map i: nat | i < |line| :: line[i]
  }

  ghost predicate Numbered(c: Chain, header: Header) {
    header.parentHash in c.headers ==> header.number == c.headers[header.parentHash].number + 1
  }

  ghost predicate Overtakes(c: Chain, header: Header, coin: bool)
    requires header.parentHash in c.td && c.head in c.td
  {
    var td := c.td[header.parentHash] + header.difficulty;
    td > c.td[c.head] || (td == c.td[c.head] && coin)
  }

  /** A header joins the tree, and becomes the head if it is heavier, or as heavy and lucky. */
  ghost function Written(c: Chain, header: Header, coin: bool): Chain
    requires c.head in c.td
  {
    if header.parentHash !in c.td then c else
    var hash := HashOf(header);
    var grown := c.(headers := c.headers[hash := header],
                    td := c.td[hash := c.td[header.parentHash] + header.difficulty]);
    if Overtakes(c, header, coin) then grown.(canon := Index(Line(hash)), head := hash) else grown
  }

  lemma WrittenKeepsTree(c: Chain, header: Header, coin: bool)
    requires Tree(c.genesis, c.headers, c.td) && c.head in c.headers && Numbered(c, header)
    ensures var d := Written(c, header, coin); Tree(d.genesis, d.headers, d.td)
  {
    var d := Written(c, header, coin);
    if header.parentHash in c.td {
      assert Placed(c.genesis, c.headers, c.td, header.parentHash);
      forall h | h in d.headers ensures Placed(d.genesis, d.headers, d.td, h) {
        if h in c.headers { assert Placed(c.genesis, c.headers, c.td, h); }
      }
    }
  }

  lemma WrittenKeepsSound(c: Chain, header: Header, coin: bool)
    requires Sound(c) && Numbered(c, header)
    ensures Sound(Written(c, header, coin))
    ensures c.td[c.head] <= Written(c, header, coin).td[Written(c, header, coin).head]
  {
    WrittenKeepsTree(c, header, coin);
    var h := HashOf(header);
    if header.parentHash in c.td {
      assert Placed(c.genesis, c.headers, c.td, header.parentHash);
      if h in c.td {
        assert Placed(c.genesis, c.headers, c.td, h);
        assert c.td[h] == TotalDifficulty(header.parentHash) + header.difficulty;
      }
      assert h in c.td || h != c.head;
    }
  }

  datatype Arrival = Arrival(header: Header, coin: bool)

  ghost function Run(c: Chain, arrivals: seq<Arrival>): Chain
    requires c.head in c.td
    decreases |arrivals|
  {
    if arrivals == [] then c
    else
      var d := Written(c, arrivals[0].header, arrivals[0].coin);
      if d.head in d.td then Run(d, arrivals[1..]) else d
  }

  /** Each header of the run counts one more than its parent, where the parent is known. */
  ghost predicate WellNumbered(arrivals: seq<Arrival>) {
    forall i | 0 <= i < |arrivals| ::
      var p := arrivals[i].header.parentHash;
      p.HashOf? ==> arrivals[i].header.number == p.header.number + 1
  }

  /** Over every run: the index is the ancestry of the head, the head is as heavy as any header
      ever written, and neither a header nor the weight of the head is ever lost. */
  lemma {:induction false} RunKeepsSound(c: Chain, arrivals: seq<Arrival>)
    requires Sound(c) && WellNumbered(arrivals)
    ensures Sound(Run(c, arrivals))
    ensures c.headers.Keys <= Run(c, arrivals).headers.Keys
    ensures c.td[c.head] <= Run(c, arrivals).td[Run(c, arrivals).head]
    decreases |arrivals|
  {
    if arrivals != [] {
      var a := arrivals[0];
      if a.header.parentHash in c.headers { assert Placed(c.genesis, c.headers, c.td, a.header.parentHash); }
      WrittenKeepsSound(c, a.header, a.coin);
      RunKeepsSound(Written(c, a.header, a.coin), arrivals[1..]);
    }
  }

  ghost function Born(genesis: Header): Chain {
    var g := HashOf(genesis);
    Chain(g, map[g := genesis], map[g := genesis.difficulty], map[0 := g], g)
  }

  lemma BornSound(genesis: Header)
    requires IsGenesis(HashOf(genesis))
    ensures Sound(Born(genesis))
  {
    var c := Born(genesis);
    assert Line(c.genesis) == Line(Zero) + [c.genesis];
    assert TotalDifficulty(c.genesis) == genesis.difficulty + TotalDifficulty(Zero);
    assert Placed(c.genesis, c.headers, c.td, c.genesis);
  }

  /** What every run from a genesis block ends in, spelled out. */
  lemma RunFromGenesis(genesis: Header, arrivals: seq<Arrival>)
    requires IsGenesis(HashOf(genesis)) && WellNumbered(arrivals)
    ensures var c := Run(Born(genesis), arrivals);
      && c.head.HashOf?
      && (forall n: nat :: n in c.canon <==> n <= c.head.header.number)
      && (forall n: nat :: n in c.canon ==> n < |Line(c.head)| && c.canon[n] == Line(c.head)[n])
      && (forall h :: h in c.headers ==> h in c.td && TotalDifficulty(h) <= TotalDifficulty(c.head))
  {
    BornSound(genesis);
    RunKeepsSound(Born(genesis), arrivals);
    var c := Run(Born(genesis), arrivals);
    assert Placed(c.genesis, c.headers, c.td, c.head);
    LineLength(c.head, c.genesis);
    forall h | h in c.headers ensures TotalDifficulty(h) <= TotalDifficulty(c.head) {
      assert Placed(c.genesis, c.headers, c.td, h);
    }
  }

  /** What the index says of a block. */
  ghost predicate Canonical(c: Chain, h: Hash) {
    h.HashOf? && h.header.number in c.canon && c.canon[h.header.number] == h
  }

  /** How many steps up the ancestry of `h` the first canonical block is. */
  ghost function Detour(c: Chain, h: Hash): nat
    decreases h
  {
    if h.Zero? || Canonical(c, h) then 0
    else 1 + Detour(c, h.header.parentHash)
  }

  lemma {:induction false} DetourEnds(c: Chain, h: Hash)
    requires IsGenesis(c.genesis) && Rooted(h, c.genesis) && Rooted(c.head, c.genesis) && Describes(c.canon, c.head)
    ensures Detour(c, h) <= h.header.number
  {
    LineLength(c.head, c.genesis);
    LineStep(c.head, c.genesis, 0);
    if h != c.genesis { DetourEnds(c, h.header.parentHash); }
  }

  lemma Stored(c: Chain, h: Hash)
    requires Indexed(c) && h in c.headers
    ensures h.HashOf? && h == HashOf(c.headers[h]) && Rooted(h, c.genesis)
    ensures |Line(h)| == h.header.number + 1
    ensures Rooted(c.head, c.genesis) && |Line(c.head)| == c.head.header.number + 1
  {
    assert Placed(c.genesis, c.headers, c.td, h);
    assert Placed(c.genesis, c.headers, c.td, c.head);
    LineLength(h, c.genesis);
    LineLength(c.head, c.genesis);
  }

  lemma {:induction false} LineStored(c: Chain, h: Hash, i: nat)
    requires Indexed(c) && h in c.headers && i < |Line(h)|
    ensures Line(h)[i] in c.headers
    decreases h
  {
    Stored(c, h);
    assert Placed(c.genesis, c.headers, c.td, h);
    if i < h.header.number { LineStored(c, h.header.parentHash, i); }
  }

  /** What stands `number - n` steps above a stored block. */
  lemma Climb(c: Chain, h: Hash, n: nat)
    requires Indexed(c) && h in c.headers && n <= c.headers[h].number
    ensures h.HashOf? && h.header == c.headers[h] && |Line(h)| == h.header.number + 1
    ensures Line(h)[h.header.number] == h
    ensures Rooted(h, c.genesis) && Rooted(c.head, c.genesis) && |Line(c.head)| == c.head.header.number + 1
    ensures Line(h)[n] in c.headers && Line(h)[n] == HashOf(c.headers[Line(h)[n]])
    ensures Line(h)[n].header.number == n && Line(Line(h)[n]) == Line(h)[..n + 1]
    ensures n > 0 ==> Line(h)[n].header.parentHash == Line(h)[n - 1]
    ensures n == 0 ==> Line(h)[n] == c.genesis
    ensures n in c.canon && c.canon[n] == Line(h)[n] <==> Detour(c, Line(h)[n]) == 0
    ensures Detour(c, Line(h)[n]) ==
      if h.header.number - n <= Detour(c, h) then Detour(c, h) - (h.header.number - n) else 0
  {
    Stored(c, h);
    LineLength(h, c.genesis);
    LineStored(c, h, n);
    LineAt(h, c.genesis, n);
    Stored(c, Line(h)[n]);
    LineStep(h, c.genesis, n);
    DetourShortens(c, h, h.header.number - n);
  }

  /** Below the end of its detour the ancestry of `h` is canonical. */
  lemma {:induction false} DetourMeets(c: Chain, h: Hash, i: nat)
    requires Indexed(c) && Rooted(h, c.genesis) && Rooted(c.head, c.genesis)
    requires i + Detour(c, h) <= h.header.number
    ensures |Line(h)| == h.header.number + 1
    ensures i in c.canon && c.canon[i] == Line(h)[i]
  {
    LineLength(h, c.genesis);
    LineLength(c.head, c.genesis);
    if Detour(c, h) == 0 {
      LinesMeet(h, c.head, c.genesis, h.header.number);
      assert Line(h)[..h.header.number + 1][i] == Line(c.head)[..h.header.number + 1][i];
    } else {
      DetourEnds(c, h);
      DetourMeets(c, h.header.parentHash, i);
    }
  }

  /** Climbing `k` steps shortens the detour by `k`. */
  lemma {:induction false} DetourShortens(c: Chain, h: Hash, k: nat)
    requires Indexed(c) && Rooted(h, c.genesis) && Rooted(c.head, c.genesis) && k <= h.header.number
    ensures |Line(h)| == h.header.number + 1
    ensures Detour(c, Line(h)[h.header.number - k]) == if k <= Detour(c, h) then Detour(c, h) - k else 0
  {
    LineLength(h, c.genesis);
    if k > 0 {
      var i := h.header.number - k;
      LineAt(h, c.genesis, i);
      if Detour(c, h) == 0 {
        DetourMeets(c, h, i);
      } else {
        DetourShortens(c, h.header.parentHash, k - 1);
      }
    }
  }

  /** Whether `GetAncestor` reaches the block `ancestor` steps above `h` with a budget of `budget`
      steps off the canonical line; one step needs no budget, and none is spent on the line. */
  ghost predicate Reaches(c: Chain, h: Hash, ancestor: nat, budget: nat)
    requires h.HashOf?
  {
    ancestor <= h.header.number && (ancestor == 1 || Detour(c, h) <= budget || ancestor <= budget)
  }

  /** What is reached: with a budget of at least so many steps everything, with less what lies above a block no
      more steps up than the budget that the index knows, and the parent in any case. */
  lemma ReachesBy(c: Chain, h: Hash, ancestor: nat, budget: nat)
    requires Indexed(c) && h in c.headers
    ensures h.HashOf? && |Line(h)| == h.header.number + 1
    ensures Reaches(c, h, ancestor, budget) <==> (
      ancestor <= h.header.number && (
        || ancestor == 1 || ancestor <= budget
        || exists n: nat :: n <= h.header.number <= n + budget && n in c.canon && c.canon[n] == Line(h)[n]))
  {
    Stored(c, h);
    hide Indexed, Line, Rooted, Canonical;
    var number: nat := h.header.number;
    forall n: nat | n <= number
      ensures n in c.canon && c.canon[n] == Line(h)[n] <==> Detour(c, h) <= number - n
    {
      Climb(c, h, n);
    }
    if Detour(c, h) <= budget && ancestor <= number {
      Climb(c, h, 0);
      DetourWithin(c, h);
      hide Detour;
      assert number - Detour(c, h) in c.canon;
    }
  }

  lemma DetourWithin(c: Chain, h: Hash)
    requires Indexed(c) && h in c.headers
    ensures h.HashOf? && Detour(c, h) <= h.header.number
  {
    Stored(c, h);
    DetourEnds(c, h);
  }

  /** What is spent of the budget: one for every step from a block the index does not know. */
  lemma BudgetSpent(c: Chain, h: Hash, ancestor: nat, budget: nat)
    requires Indexed(c) && h in c.headers
    ensures h.HashOf? && |Line(h)| == h.header.number + 1
    ensures var number, spent := h.header.number, budget - BudgetLeft(c, h, ancestor, budget);
      if ancestor > number || ancestor == 1 then spent == 0 else
        && 0 <= spent <= ancestor && spent <= budget
        && (forall n :: number - spent < n <= number ==> !(n in c.canon && c.canon[n] == Line(h)[n]))
        && (spent < ancestor && spent < budget ==>
              number - spent in c.canon && c.canon[number - spent] == Line(h)[number - spent])
  {
    Stored(c, h);
    hide Indexed, Line, Rooted, Canonical;
    forall n: nat | n <= h.header.number
      ensures n in c.canon && c.canon[n] == Line(h)[n] <==> Detour(c, h) <= h.header.number - n
    {
      Climb(c, h, n);
    }
    hide Detour;
  }

  ghost function BudgetLeft(c: Chain, h: Hash, ancestor: nat, budget: nat): nat
    requires h.HashOf?
  {
    var spent := if ancestor <= Detour(c, h) then ancestor else Detour(c, h);
    if ancestor > h.header.number || ancestor == 1 then budget
    else if spent <= budget then budget - spent else 0
  }

  lemma CanonicalStored(c: Chain, n: nat)
    requires Indexed(c) && n in c.canon
    ensures c.canon[n] in c.headers && c.canon[n] == HashOf(c.headers[c.canon[n]])
    ensures c.headers[c.canon[n]].number == n <= c.headers[c.head].number
    ensures n < |Line(c.head)| && c.canon[n] == Line(c.head)[n]
  {
    Climb(c, c.head, 0);
    Climb(c, c.head, n);
  }

  /** The chain with its head moved down to number `n`: the blocks it descends through, and only
      those, are removed. */
  ghost function Rewound(c: Chain, n: nat): Chain
    requires Indexed(c)
  {
    Climb(c, c.head, 0);
    if c.head.header.number <= n then c else
    var gone := set i {:trigger Line(c.head)[i]} | n < i <= c.head.header.number :: Line(c.head)[i];
    Chain(c.genesis, c.headers - gone, c.td - gone, map i | i in c.canon && i <= n :: c.canon[i], Line(c.head)[n])
  }

  /** What the loops of a rewind leave. */
  lemma RewoundIs(c: Chain, n: nat, canon: map<nat, Hash>, gone: set<Hash>, head: Hash)
    requires Indexed(c) && c.head.HashOf? && |Line(c.head)| == c.head.header.number + 1
    requires c.head.header.number <= n ==> head == c.head && gone == {}
    requires c.head.header.number > n ==> head == Line(c.head)[n]
    requires c.head.header.number > n ==>
      gone == set i {:trigger Line(c.head)[i]} | n < i <= c.head.header.number :: Line(c.head)[i]
    requires canon == map i | i in c.canon && !(n < i <= c.head.header.number) :: c.canon[i]
    ensures Rewound(c, n) == Chain(c.genesis, c.headers - gone, c.td - gone, canon, head)
  {
    assert forall i: nat :: i in c.canon <==> i <= c.head.header.number;
  }

  /** After a rewind the index still holds the ancestry of the head. */
  lemma RewoundDescribes(c: Chain, n: nat)
    requires Indexed(c)
    ensures c.head.HashOf? && |Line(c.head)| == c.head.header.number + 1
    ensures var d := Rewound(c, n); d.head in d.headers && Describes(d.canon, d.head)
    ensures var d := Rewound(c, n);
      && d.head.HashOf? && d.head.header.number == (if n < c.head.header.number then n else c.head.header.number)
      && d.head.header.number in c.canon && c.canon[d.head.header.number] == d.head
      && forall h :: h in d.td ==> h in c.td && d.td[h] == c.td[h]
  {
    Climb(c, c.head, 0);
    if n < c.head.header.number {
      Climb(c, c.head, n);
      forall i: nat | n < i <= c.head.header.number ensures Line(c.head)[i] != Line(c.head)[n] {
        Climb(c, c.head, i);
      }
    }
  }

  /** A stored side block whose parent is canonical and above number `n`. */
  ghost predicate ForksOff(c: Chain, n: nat, h: Hash) {
    && h in c.headers && h.HashOf? && !Canonical(c, h)
    && Canonical(c, h.header.parentHash) && h.header.parentHash.header.number > n
  }

  /** A rewind to `n` removes exactly the canonical blocks above `n`. */
  lemma RewoundRemoves(c: Chain, n: nat, h: Hash)
    requires Indexed(c)
    ensures h in Rewound(c, n).headers <==> h in c.headers && !(Canonical(c, h) && h.header.number > n)
    ensures h in Rewound(c, n).headers ==> Rewound(c, n).headers[h] == c.headers[h]
  {
    Climb(c, c.head, 0);
    if h in c.headers {
      Stored(c, h);
      var i := h.header.number;
      forall k: nat | n < k <= c.head.header.number && Line(c.head)[k] == h ensures k == i { Climb(c, c.head, k); }
    }
  }

  /** A rewind leaves a closed tree exactly when no side branch forks off the line it removes, which
      the index tells before the rewind. */
  lemma RewoundTree(c: Chain, n: nat)
    requires Indexed(c)
    ensures var d := Rewound(c, n);
      Tree(d.genesis, d.headers, d.td) <==> !exists h :: ForksOff(c, n, h)
  {
    var d := Rewound(c, n);
    if exists h :: ForksOff(c, n, h) {
      var h :| ForksOff(c, n, h);
      RewoundRemoves(c, n, h);
      RewoundRemoves(c, n, h.header.parentHash);
      Climb(c, c.head, 0);
      assert h != c.genesis;
      assert !Placed(d.genesis, d.headers, d.td, h);
    } else {
      RewoundRemoves(c, n, c.genesis);
      forall h | h in d.headers ensures Placed(d.genesis, d.headers, d.td, h) {
        KeptPlaced(c, n, h);
      }
    }
  }

  /** Where nothing forks off the removed line, the parent of a block that stays stays. */
  lemma KeptPlaced(c: Chain, n: nat, h: Hash)
    requires Indexed(c) && h in Rewound(c, n).headers && !ForksOff(c, n, h)
    ensures var d := Rewound(c, n); Placed(d.genesis, d.headers, d.td, h)
  {
    RewoundRemoves(c, n, h);
    assert Placed(c.genesis, c.headers, c.td, h);
    if h != c.genesis {
      RewoundRemoves(c, n, h.header.parentHash);
    }
  }

  /** The input that shows it: a side block on a block that a rewind to genesis removes. */
  lemma RewindOrphans() returns (genesis: Header, arrivals: seq<Arrival>, h: Hash)
    ensures IsGenesis(HashOf(genesis)) && WellNumbered(arrivals)
    ensures var c := Run(Born(genesis), arrivals);
      Sound(c) && ForksOff(c, 0, h) && h in Rewound(c, 0).headers && h.header.parentHash !in Rewound(c, 0).headers
  {
    genesis := Header(Zero, 0, 1, [], 0);
    var g := HashOf(genesis);
    var a := Header(g, 1, 1, [], 0);
    var x := Header(HashOf(a), 2, 2, [], 0);
    var y := Header(HashOf(a), 2, 1, [], 1);
    arrivals := [Arrival(a, false), Arrival(x, false), Arrival(y, false)];
    h := HashOf(y);
    BornSound(genesis);
    RunKeepsSound(Born(genesis), arrivals);
    var c := Run(Born(genesis), arrivals);
    var c1 := Written(Born(genesis), a, false);
    var c2 := Written(c1, x, false);
    assert c1.td[HashOf(a)] == 2 && c1.head == HashOf(a);
    assert c2.td[HashOf(x)] == 4 && c2.head == HashOf(x);
    assert c == Written(c2, y, false) && c.head == HashOf(x) by {
      assert arrivals[1..] == [Arrival(x, false), Arrival(y, false)] && arrivals[1..][1..] == [Arrival(y, false)];
      assert Run(c2, [Arrival(y, false)]) == Run(Written(c2, y, false), []) by {
        assert [Arrival(y, false)][1..] == [];
      }
    }
    Climb(c, c.head, 2);
    Climb(c, c.head, 1);
    RewoundRemoves(c, 0, h);
    RewoundRemoves(c, 0, HashOf(a));
  }

  datatype WriteStatus = NonStatTy | CanonStatTy | SideStatTy

  lemma IndexExtended(canon: map<nat, Hash>, line: seq<Hash>, h: Hash)
    requires forall i: nat :: i in canon ==> i <= |line|
    requires forall i: nat :: i < |line| ==> i in canon && canon[i] == line[i]
    ensures canon[|line| := h] == Index(line + [h])
  {
  }

  /** The index agrees with a line from above `low` up to `high`. */
  ghost predicate Routed(canon: map<nat, Hash>, line: seq<Hash>, low: nat, high: nat) {
    high < |line| && forall i: nat :: low < i <= high ==> i in canon && canon[i] == line[i]
  }

  lemma RoutedNone(canon: map<nat, Hash>, line: seq<Hash>, high: nat)
    requires high < |line|
    ensures Routed(canon, line, high, high)
  {
  }

  lemma RoutedMore(canon: map<nat, Hash>, line: seq<Hash>, low: nat, high: nat)
    requires Routed(canon, line, low, high) && 0 < low <= high
    ensures Routed(canon[low := line[low]], line, low - 1, high)
  {
  }

  lemma RoutedAt(canon: map<nat, Hash>, line: seq<Hash>, low: nat, high: nat)
    requires Routed(canon, line, low, high)
    ensures forall i: nat :: low < i <= high ==> i in canon && canon[i] == line[i]
  {
  }

  class HeaderChain {
    const genesis: Hash
    var headers: map<Hash, Header>
    var td: map<Hash, int>
    var canon: map<nat, Hash>
    var current: Hash

    ghost function State(): Chain
      reads this
    {
      Chain(genesis, headers, td, canon, current)
    }

    constructor (genesisHeader: Header)
      requires IsGenesis(HashOf(genesisHeader))
      ensures State() == Born(genesisHeader) && Sound(State())
    {
      genesis := HashOf(genesisHeader);
      headers := map[HashOf(genesisHeader) := genesisHeader];
      td := map[HashOf(genesisHeader) := genesisHeader.difficulty];
      canon := map[0 := HashOf(genesisHeader)];
      current := HashOf(genesisHeader);
      new;
      BornSound(genesisHeader);
    }

    function GetHeader(hash: Hash): Option<Header>
      reads this
    {
      if hash in headers then Some(headers[hash]) else None
    }

    /** Reading a number without an assignment gives the empty hash. */
    function ReadCanonicalHash(number: nat): Hash
      reads this
    {
      if number in canon then canon[number] else Zero
    }

    /** Deletes the assignments above the new head; they end at the first gap. */
    method DeleteAbove(number: nat)
      requires IsGenesis(genesis) && Rooted(current, genesis) && Describes(canon, current)
      modifies `canon
      ensures canon.Keys == set i | i in old(canon) && i <= number
      ensures forall i :: i in canon ==> canon[i] == old(canon)[i]
    {
      var batch: set<nat> := {};
      var i := number + 1;
      LineLength(current, genesis);
      while ReadCanonicalHash(i) != Zero
        invariant i > number
        invariant batch == set j: nat {:trigger j in batch} | number < j < i
        invariant forall j: nat | number < j < i :: j in canon
        decreases |Line(current)| - i
      {
        batch := batch + {i};
        i := i + 1;
      }
      assert i !in canon by {
        if i in canon { LineStep(current, genesis, i); }
      }
      canon := map j | j in canon && j !in batch :: canon[j];
    }

    /** Overwrites stale assignments from `parent` downwards until the old canonical line is met. */
    method Reroute(parent: Hash)
      requires Tree(genesis, headers, td) && parent in headers && current in headers
      requires forall i :: i in canon ==> i < |Line(current)| && canon[i] == Line(current)[i]
      requires parent.HashOf? && forall i: nat :: i <= parent.header.number && i < |Line(current)| ==> i in canon
      modifies `canon
      ensures forall i: nat :: i <= parent.header.number ==>
        i < |Line(parent)| && i in canon && canon[i] == Line(parent)[i]
      ensures forall i :: i in canon && i > parent.header.number ==> i in old(canon)
    {
      ghost var g := genesis;
      assert Placed(genesis, headers, td, parent) && Placed(genesis, headers, td, current);
      LineLength(parent, g);
      LineLength(current, g);
      LineStep(parent, g, 0);
      LineStep(current, g, 0);
      hide Routed, Line, Describes;
      ghost var before := canon;
      RoutedNone(canon, Line(parent), parent.header.number);
      var headHash := parent;
      var headNumber: nat := parent.header.number;
      var headHeader := GetHeader(headHash);
      while ReadCanonicalHash(headNumber) != headHash
        invariant headNumber <= parent.header.number
        invariant headHash == Line(parent)[headNumber] && headHash in headers && headHeader == GetHeader(headHash)
        invariant Routed(canon, Line(parent), headNumber, parent.header.number)
        invariant forall i: nat :: i <= headNumber ==> (i in canon <==> i in before)
        invariant forall i: nat :: i <= headNumber && i in canon ==> canon[i] == before[i]
        invariant forall i: nat :: i > parent.header.number ==> (i in canon <==> i in before)
        decreases headNumber
      {
        assert Placed(genesis, headers, td, headHash);
        LineStep(parent, g, headNumber);
        LineAt(parent, g, headNumber);
        RoutedMore(canon, Line(parent), headNumber, parent.header.number);
        canon := canon[headNumber := headHash];
        headHash := headHeader.value.parentHash;
        headNumber := headNumber - 1;
        headHeader := GetHeader(headHash);
      }
      LineAt(parent, g, headNumber);
      RoutedAt(canon, Line(parent), headNumber, parent.header.number);
      LinesMeet(parent, current, g, headNumber);
      forall i: nat | i <= headNumber ensures i in canon && canon[i] == Line(parent)[i] {
        assert Line(parent)[..headNumber + 1][i] == Line(current)[..headNumber + 1][i];
      }
    }

    /** Routes the index to a stored header and makes it the head. */
    method TakeHead(header: Header)
      requires Tree(genesis, headers, td) && header.parentHash in headers && HashOf(header) in headers
      requires current in headers && Describes(canon, current)
      modifies `canon, `current
      ensures current == HashOf(header) && canon == Index(Line(current))
    {
      ghost var h := HashOf(header);
      assert Rooted(h, genesis) && Rooted(current, genesis) && header.parentHash.HashOf? by {
        assert Placed(genesis, headers, td, header.parentHash);
        assert Placed(genesis, headers, td, h);
        assert Placed(genesis, headers, td, current);
      }
      LineLength(current, genesis);
      LineLength(h, genesis);
      LineLength(header.parentHash, genesis);
      assert h != genesis;
      DeleteAbove(header.number);
      Reroute(header.parentHash);
      assert Line(h) == Line(header.parentHash) + [h];
      hide Line, Rooted, Tree, Describes, Index;
      IndexExtended(canon, Line(header.parentHash), h);
      canon := canon[header.number := HashOf(header)];
      current := HashOf(header);
    }

    /** The loops leave exactly what `Written` says: the header is stored with its total
        difficulty, and the index is re-routed to its ancestry if it takes the head. */
    method WriteHeader(header: Header, coin: bool) returns (status: WriteStatus, known: bool)
      requires Sound(State()) && Numbered(State(), header)
      modifies this
      ensures known <==> header.parentHash in old(headers)
      ensures State() == Written(old(State()), header, coin)
      ensures Sound(State())
      ensures known ==> headers == old(headers)[HashOf(header) := header]
      ensures known ==> td == old(td)[HashOf(header) := old(td)[header.parentHash] + header.difficulty]
      ensures if known && old(td)[old(current)] < td[HashOf(header)] then current == HashOf(header)
        else if known && old(td)[old(current)] == td[HashOf(header)] && coin then current == HashOf(header)
        else current == old(current) && canon == old(canon)
      ensures !known ==> State() == old(State())
      ensures status == if !known then NonStatTy
        else if old(td)[old(current)] < td[HashOf(header)] then CanonStatTy
        else if old(td)[old(current)] == td[HashOf(header)] && coin then CanonStatTy
        else SideStatTy
    {
      ghost var was := State();
      WrittenKeepsSound(was, header, coin);
      WrittenKeepsTree(was, header, false);
      hide Tree, Describes, Heaviest, Index;
      if header.parentHash !in td {
        return NonStatTy, false;
      }
      var localTd := td[current];
      var externTd := header.difficulty + td[header.parentHash];
      td := td[HashOf(header) := externTd];
      headers := headers[HashOf(header) := header];
      if externTd > localTd || (externTd == localTd && coin) {
        TakeHead(header);
        status := CanonStatTy;
      } else {
        status := SideStatTy;
      }
      known := true;
    }

    /** Follows parents until the canonical line, then jumps. */
    method GetAncestor(hash: Hash, number: uint64, ancestor: uint64, maxNonCanonical: nat)
      returns (found: Hash, at: uint64, left: nat)
      requires Indexed(State())
      requires hash in headers ==> number == headers[hash].number
      ensures hash in headers ==> hash.HashOf? && hash.header.number == number && |Line(hash)| == number + 1
      ensures hash in headers && Reaches(State(), hash, ancestor, maxNonCanonical) ==>
                found == Line(hash)[number - ancestor] && at == number - ancestor && found in headers
      ensures hash in headers && !Reaches(State(), hash, ancestor, maxNonCanonical) ==> found == Zero && at == 0
      ensures hash in headers ==> left == BudgetLeft(State(), hash, ancestor, maxNonCanonical)
      ensures hash.HashOf? && hash !in headers && ancestor > 0 ==> found == Zero && at == 0
    {
      ghost var c := State();
      hide Indexed, Detour, Line, Rooted;
      left := maxNonCanonical;
      if hash in headers { Climb(c, hash, number); }
      if ancestor > number {
        return Zero, 0, left;
      }
      if ancestor == 1 {
        var header := GetHeader(hash);
        if header.Some? {
          Climb(c, hash, number - 1);
          return header.value.parentHash, number - 1, left;
        }
        return Zero, 0, left;
      }
      var h := hash;
      var n: nat, a: nat := number, ancestor;
      while a != 0
        invariant a <= n <= number && number - n == ancestor - a == maxNonCanonical - left
        invariant hash in headers ==> h == Line(hash)[n] && number - n <= Detour(c, hash)
        invariant hash !in headers ==> h == hash && n == number
        decreases a
      {
        if hash in headers { Climb(c, hash, n); }
        if ReadCanonicalHash(n) == h {
          if hash in headers {
            DetourMeets(c, hash, n - a);
            Climb(c, hash, n - a);
          } else if h.HashOf? {
            CanonicalStored(c, n);
          }
          return ReadCanonicalHash(n - a), n - a, left;
        }
        if left == 0 {
          return Zero, 0, left;
        }
        left := left - 1;
        a := a - 1;
        var header := GetHeader(h);
        if header.None? {
          return Zero, 0, left;
        }
        h := header.value.parentHash;
        n := n - 1;
      }
      if hash in headers { Climb(c, hash, n); }
      return h, n, left;
    }

    /** Rolls back the numbering from `height` down to `head`. */
    method Unnumber(height: nat, head: nat)
      modifies `canon
      ensures canon == map i | i in old(canon) && !(head < i <= height) :: old(canon)[i]
    {
      var i := height;
      var numbers: set<nat> := {};
      while i > head
        invariant i >= head || i == height
        invariant numbers == set j: nat {:trigger j in numbers} | i < j <= height
      {
        numbers := numbers + {i};
        i := i - 1;
      }
      canon := canon - numbers;
    }

    /** Steps the head down its ancestry to number `head`, collecting the blocks left behind. */
    method Descend(head: uint64) returns (batch: set<Hash>)
      requires Indexed(State())
      modifies `current
      ensures old(current).HashOf?
      ensures old(current.header.number) <= head ==> current == old(current) && batch == {}
      ensures old(current.header.number) > head ==>
        && head < |Line(old(current))| == old(current).header.number + 1 && current == Line(old(current))[head]
        && batch == (set i {:trigger Line(old(current))[i]} | head < i <= old(current).header.number ::
                       Line(old(current))[i])
    {
      ghost var c := State();
      var n: nat := headers[current].number;
      Climb(c, c.head, n);
      batch := {};
      hide Indexed, Detour, Line, Rooted, State;
      while headers[current].number > head
        invariant n <= c.head.header.number && current in headers && headers[current].number == n
        invariant current == Line(c.head)[n]
        invariant n >= if c.head.header.number > head then head else c.head.header.number
        invariant batch == set i {:trigger Line(c.head)[i]} | n < i <= c.head.header.number :: Line(c.head)[i]
        decreases n
      {
        Climb(c, c.head, n);
        Climb(c, c.head, n - 1);
        batch := batch + {current};
        current := headers[current].parentHash;
        n := n - 1;
      }
    }

    /** Rewinds the head along its own ancestry; only that line is removed. */
    method SetHead(head: uint64)
      requires Indexed(State())
      modifies this
      ensures State() == Rewound(old(State()), head)
      ensures current in headers && Describes(canon, current)
    {
      ghost var c := State();
      Climb(c, current, 0);
      RewoundDescribes(c, head);
      hide Indexed, Rewound, Line, Describes;
      var height := headers[current].number;
      var batch := Descend(head);
      Unnumber(height, head);
      RewoundIs(c, head, canon, batch, current);
      headers := headers - batch;
      td := td - batch;
    }
  }
}
