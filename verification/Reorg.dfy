/** Full blocks: fork choice, reorganisation of the canonical chain, and the table that finds a
    transaction's block by its hash. */
module Reorgs {
  import opened Types
  import opened Ancestry
  import opened HeaderChains

  /** Where a transaction stands: in the block with this hash, at this index. */
  datatype Entry = Entry(block: Hash, index: nat)

  ghost predicate Keyed(blocks: map<Hash, Header>) {
    forall h :: h in blocks ==> h == HashOf(blocks[h])
  }

  /** `f` is the number of the highest block the two ancestries share. */
  ghost predicate ForksAt(a: Hash, b: Hash, f: nat)
    requires a.HashOf? && b.HashOf?
  {
    && f < |Line(a)| && f < |Line(b)| && Line(a)[f] == Line(b)[f]
    && (f + 1 < |Line(a)| && f + 1 < |Line(b)| ==> Line(a)[f + 1] != Line(b)[f + 1])
  }

  /** The blocks of the ancestry of `h` from number `f` on are all stored. */
  ghost predicate Held(blocks: map<Hash, Header>, h: Hash, f: nat) {
    forall i {:trigger Line(h)[i]} | f <= i < |Line(h)| :: Line(h)[i] in blocks
  }

  /** `chain` is the ancestry of `h` above number `f`, newest first. */
  ghost predicate Segment(chain: seq<Hash>, h: Hash, f: nat) {
    && |chain| + f + 1 == |Line(h)|
    && forall k {:trigger chain[k]} | 0 <= k < |chain| :: chain[k] == Line(h)[|Line(h)| - 1 - k]
  }

  /** `tx` is the transaction at `index` of the block `b`. */
  ghost predicate Holds(b: Hash, index: nat, tx: Tx) {
    b.HashOf? && index < |b.header.txs| && b.header.txs[index] == tx
  }

  /** `tx` is in one of the blocks. */
  ghost predicate Carries(chain: seq<Hash>, tx: Tx) {
    exists b, i :: b in chain && Holds(b, i, tx)
  }

  ghost predicate AllOf(txs: seq<Tx>, chain: seq<Hash>) {
    forall tx :: tx in txs <==> Carries(chain, tx)
  }

  lemma AllOfMore(txs: seq<Tx>, chain: seq<Hash>, b: Hash, txs': seq<Tx>, chain': seq<Hash>)
    requires AllOf(txs, chain) && b.HashOf?
    requires txs' == txs + b.header.txs && (chain' == chain + [b] || chain' == [b] + chain)
    ensures AllOf(txs', chain')
  {
    assert forall x :: x in chain' <==> x in chain || x == b;
    forall tx ensures tx in txs' <==> Carries(chain', tx) {
      if tx in txs' {
        if tx in txs {
          var x, i :| x in chain && Holds(x, i, tx);
          assert x in chain' && Holds(x, i, tx);
        } else {
          var i :| 0 <= i < |b.header.txs| && b.header.txs[i] == tx;
          assert b in chain' && Holds(b, i, tx);
        }
      }
      if Carries(chain', tx) {
        var x, i :| x in chain' && Holds(x, i, tx);
        if x != b { assert Carries(chain, tx); }
      }
    }
  }

  /** The table finds transactions on the ancestry of `h` only, where they are, and finds them all. */
  ghost predicate LookupExact(lookup: map<TxHash, Entry>, h: Hash) {
    && (forall k {:trigger k in lookup} | k in lookup ::
          OnLine(lookup[k].block, h) && Holds(lookup[k].block, lookup[k].index, k.content))
    && (forall b, i, tx {:trigger Holds(b, i, tx), OnLine(b, h)} | OnLine(b, h) && Holds(b, i, tx) ::
          tx.Hash() in lookup)
  }

  /** No transaction occurs twice on the ancestry of `h`. */
  ghost predicate Unique(h: Hash) {
    forall b, i, b', i', tx {:trigger OnLine(b, h), OnLine(b', h), Holds(b, i, tx), Holds(b', i', tx)}
      | OnLine(b, h) && OnLine(b', h) && Holds(b, i, tx) && Holds(b', i', tx) :: b == b' && i == i'
  }

  /** The highest common number at or below `i`. */
  ghost function ForkBelow(a: Hash, b: Hash, i: nat): nat
    requires i < |Line(a)| && i < |Line(b)|
  {
    if i == 0 || Line(a)[i] == Line(b)[i] then i else ForkBelow(a, b, i - 1)
  }

  ghost function Fork(a: Hash, b: Hash): nat
    requires a.HashOf? && b.HashOf?
  {
    ForkBelow(a, b, if |Line(a)| < |Line(b)| then |Line(a)| - 1 else |Line(b)| - 1)
  }

  lemma {:induction false} ForkBelowForks(a: Hash, b: Hash, g: Hash, i: nat)
    requires IsGenesis(g) && Rooted(a, g) && Rooted(b, g) && i < |Line(a)| && i < |Line(b)|
    requires i + 1 < |Line(a)| && i + 1 < |Line(b)| ==> Line(a)[i + 1] != Line(b)[i + 1]
    ensures ForksAt(a, b, ForkBelow(a, b, i))
  {
    LineLength(a, g);
    LineLength(b, g);
    if i == 0 {
      LineStep(a, g, 0);
      LineStep(b, g, 0);
    } else if Line(a)[i] != Line(b)[i] {
      ForkBelowForks(a, b, g, i - 1);
    }
  }

  lemma AgreeBelow(a: Hash, b: Hash, g: Hash, i: nat, j: nat)
    requires IsGenesis(g) && Rooted(a, g) && Rooted(b, g)
    requires j <= i < |Line(a)| && i < |Line(b)| && Line(a)[i] == Line(b)[i]
    ensures Line(a)[j] == Line(b)[j]
  {
    LineLength(a, g);
    LineLength(b, g);
    LinesMeet(a, b, g, i);
    assert Line(a)[..i + 1][j] == Line(b)[..i + 1][j];
  }

  /** The ancestries agree up to the fork and nowhere above it. */
  lemma ForkSplits(a: Hash, b: Hash, g: Hash, i: nat)
    requires IsGenesis(g) && Rooted(a, g) && Rooted(b, g)
    ensures |Line(a)| == a.header.number + 1 && |Line(b)| == b.header.number + 1
    ensures ForksAt(a, b, Fork(a, b))
    ensures i < |Line(a)| && i < |Line(b)| ==> (Line(a)[i] == Line(b)[i] <==> i <= Fork(a, b))
  {
    LineLength(a, g);
    LineLength(b, g);
    ForkBelowForks(a, b, g, if |Line(a)| < |Line(b)| then |Line(a)| - 1 else |Line(b)| - 1);
    var h := Fork(a, b);
    if i < |Line(a)| && i < |Line(b)| {
      if i <= h {
        AgreeBelow(a, b, g, h, i);
      } else if Line(a)[i] == Line(b)[i] {
        AgreeBelow(a, b, g, i, h + 1);
      }
    }
  }

  /** Two blocks of one tree fork at exactly one number. */
  lemma ForkUnique(a: Hash, b: Hash, g: Hash, f: nat)
    requires IsGenesis(g) && Rooted(a, g) && Rooted(b, g)
    ensures ForksAt(a, b, f) <==> f == Fork(a, b)
  {
    ForkSplits(a, b, g, f);
    ForkSplits(a, b, g, f + 1);
  }

  /** One side of the search for the fork: at number `p` of the ancestry of `h`, with the blocks
      above it collected. */
  ghost predicate Side(blocks: map<Hash, Header>, h: Hash, p: nat, block: Hash, chain: seq<Hash>) {
    && p < |Line(h)| && block == Line(h)[p] && block in blocks && block == HashOf(blocks[block])
    && Held(blocks, h, p) && Segment(chain, h, p)
  }

  lemma SideDown(blocks: map<Hash, Header>, g: Hash, h: Hash, p: nat, block: Hash, chain: seq<Hash>)
    requires IsGenesis(g) && Rooted(h, g) && Keyed(blocks) && p > 0 && Side(blocks, h, p, block, chain)
    ensures var parent := blocks[block].parentHash;
      if parent in blocks then Side(blocks, h, p - 1, parent, chain + [block])
      else forall q :: 0 <= q < p ==> !Held(blocks, h, q)
  {
    LineLength(h, g);
    LineStep(h, g, p);
    assert block == Line(h)[p];
    assert Line(h)[p - 1] == blocks[block].parentHash;
  }

  /** Both sides stand on one block just when they have come down to the fork. */
  lemma SidesMeet(blocks: map<Hash, Header>, g: Hash, a: Hash, b: Hash, p: nat, x: Hash, y: Hash,
                  left: seq<Hash>, right: seq<Hash>)
    requires IsGenesis(g) && Rooted(a, g) && Rooted(b, g)
    requires Side(blocks, a, p, x, left) && Side(blocks, b, p, y, right)
    ensures x == y <==> p <= Fork(a, b)
    ensures Held(blocks, a, p) && Segment(left, a, p) && Held(blocks, b, p) && Segment(right, b, p)
    ensures x in blocks && x == HashOf(blocks[x]) && y in blocks && y == HashOf(blocks[y])
  {
    ForkSplits(a, b, g, p);
  }

  /** The index with the blocks of a chain, newest first, written over it. */
  ghost function Renumbered(canon: map<nat, Hash>, chain: seq<Hash>): map<nat, Hash> {
    if chain == [] then canon
    else if chain[0].Zero? then Renumbered(canon, chain[1..])
    else Renumbered(canon, chain[1..])[chain[0].header.number := chain[0]]
  }

  ghost predicate At(canon: map<nat, Hash>, h: Hash)
    requires h.HashOf?
  {
    h.header.number in canon && canon[h.header.number] == h
  }

  /** Different blocks of a line have different numbers. */
  ghost predicate Numbers(chain: seq<Hash>) {
    && (forall k {:trigger chain[k]} | 0 <= k < |chain| :: chain[k].HashOf?)
    && forall j, k {:trigger chain[j], chain[k]} | 0 <= j < k < |chain| ::
      chain[j].header.number != chain[k].header.number
  }

  /** Inserting a chain moves the header and fast heads to the newest of its blocks that was not canonical. */
  ghost function HeadAfter(canon: map<nat, Hash>, chain: seq<Hash>, head: Hash): Hash
    requires Numbers(chain)
  {
    if chain == [] then head
    else if At(canon, chain[0]) then HeadAfter(canon, chain[1..], head)
    else chain[0]
  }

  lemma {:induction false} RenumberedElsewhere(canon: map<nat, Hash>, chain: seq<Hash>, h: Hash)
    requires h.HashOf? && Numbers(chain)
    requires forall k {:trigger chain[k]} | 0 <= k < |chain| :: chain[k].header.number != h.header.number
    ensures At(Renumbered(canon, chain), h) <==> At(canon, h)
  {
    if chain != [] {
      RenumberedElsewhere(canon, chain[1..], h);
    }
  }

  /** The table with an entry into one of `chain` for each transaction the chain carries. */
  ghost predicate Entered(before: map<TxHash, Entry>, after: map<TxHash, Entry>, chain: seq<Hash>) {
    && (forall k :: k in after <==> k in before || Carries(chain, k.content))
    && (forall k {:trigger after[k]} | k in after ::
          if Carries(chain, k.content) then after[k].block in chain && Holds(after[k].block, after[k].index, k.content)
          else after[k] == before[k])
  }

  lemma BlockCarries(b: Hash)
    requires b.HashOf?
    ensures forall tx :: Carries([b], tx) <==> tx in b.header.txs
  {
    forall tx ensures Carries([b], tx) <==> tx in b.header.txs {
      if tx in b.header.txs {
        var i :| 0 <= i < |b.header.txs| && b.header.txs[i] == tx;
        assert b in [b] && Holds(b, i, tx);
      }
    }
  }

  lemma EnteredMore(a: map<TxHash, Entry>, m: map<TxHash, Entry>, z: map<TxHash, Entry>, b: Hash, chain: seq<Hash>)
    requires Entered(a, m, chain) && Entered(m, z, [b])
    ensures Entered(a, z, [b] + chain)
  {
    var all := [b] + chain;
    forall tx ensures Carries(all, tx) <==> Carries([b], tx) || Carries(chain, tx) {
      if Carries(chain, tx) {
        var x, i :| x in chain && Holds(x, i, tx);
        assert x in all && Holds(x, i, tx);
      }
      if Carries([b], tx) {
        var x, i :| x in [b] && Holds(x, i, tx);
        assert x in all && Holds(x, i, tx);
      }
      if Carries(all, tx) {
        var x, i :| x in all && Holds(x, i, tx);
        assert x in [b] || x in chain;
      }
    }
    forall k | k in z
      ensures if Carries(all, k.content) then z[k].block in all && Holds(z[k].block, z[k].index, k.content)
        else z[k] == a[k]
    {
      if !Carries([b], k.content) { assert z[k] == m[k]; }
    }
  }

  lemma {:induction false} SegmentParent(chain: seq<Hash>, h: Hash, g: Hash, f: nat)
    requires IsGenesis(g) && Rooted(h, g) && Segment(chain, h, f) && chain != []
    ensures chain[0] == h && h.header.number == f + |chain| && h.header.parentHash.HashOf?
    ensures Rooted(h.header.parentHash, g) && Segment(chain[1..], h.header.parentHash, f)
    ensures Line(h) == Line(h.header.parentHash) + [h]
  {
    LineLength(h, g);
    assert chain[0] == Line(h)[|Line(h)| - 1];
    LineStep(h, g, h.header.number);
    LineLength(h.header.parentHash, g);
  }

  /** Writing the new chain over the index makes it the ancestry of the new head above the fork and
      changes nothing else. */
  lemma {:induction false} RenumberedAt(canon: map<nat, Hash>, chain: seq<Hash>, h: Hash, g: Hash, f: nat, n: nat)
    requires IsGenesis(g) && Rooted(h, g) && Segment(chain, h, f)
    ensures |Line(h)| == h.header.number + 1 == f + |chain| + 1
    ensures var c := Renumbered(canon, chain);
      if f < n <= h.header.number then n in c && c[n] == Line(h)[n]
      else (n in c <==> n in canon) && (n in c ==> c[n] == canon[n])
    decreases |chain|
  {
    LineLength(h, g);
    if chain != [] {
      SegmentParent(chain, h, g, f);
      RenumberedAt(canon, chain[1..], h.header.parentHash, g, f, n);
    }
  }

  /** The index describes the ancestry of `h` up to `h`. */
  ghost predicate IndexedUpTo(canon: map<nat, Hash>, h: Hash) {
    forall n: nat :: n < |Line(h)| ==> n in canon && canon[n] == Line(h)[n]
  }

  lemma ReorgIndexes(canon: map<nat, Hash>, a: Hash, b: Hash, g: Hash, chain: seq<Hash>)
    requires IsGenesis(g) && Rooted(a, g) && Rooted(b, g)
    requires IndexedUpTo(canon, a) && Segment(chain, b, Fork(a, b))
    ensures IndexedUpTo(Renumbered(canon, chain), b)
    ensures forall n: nat :: n > b.header.number ==>
      (n in Renumbered(canon, chain) <==> n in canon) && (n in canon ==> Renumbered(canon, chain)[n] == canon[n])
  {
    var c := Renumbered(canon, chain);
    LineLength(b, g);
    ForkSplits(a, b, g, 0);
    forall n: nat | n < |Line(b)| ensures n in c && c[n] == Line(b)[n] {
      RenumberedAt(canon, chain, b, g, Fork(a, b), n);
      ForkSplits(a, b, g, n);
    }
    forall n: nat | n > b.header.number ensures (n in c <==> n in canon) && (n in canon ==> c[n] == canon[n]) {
      RenumberedAt(canon, chain, b, g, Fork(a, b), n);
    }
  }

  /** What stands on the ancestry of `h` stands in the segment above `f` or at or below `f`. */
  lemma SegmentHas(chain: seq<Hash>, h: Hash, g: Hash, f: nat, x: Hash)
    requires IsGenesis(g) && Rooted(h, g) && Segment(chain, h, f)
    ensures x in chain <==> OnLine(x, h) && x.header.number > f
  {
    LineLength(h, g);
    if x in chain {
      var k :| 0 <= k < |chain| && chain[k] == x;
      LineAt(h, g, |Line(h)| - 1 - k);
    }
    if OnLine(x, h) && x.header.number > f {
      var k := |Line(h)| - 1 - x.header.number;
      assert chain[k] == x;
    }
  }

  lemma SharedBelow(a: Hash, b: Hash, g: Hash, x: Hash)
    requires IsGenesis(g) && Rooted(a, g) && Rooted(b, g) && x.HashOf? && x.header.number <= Fork(a, b)
    ensures OnLine(x, a) <==> OnLine(x, b)
  {
    ForkSplits(a, b, g, x.header.number);
  }

  /** No transaction that only the old chain carries is also on the ancestry of the new head. */
  ghost predicate DropsOnlyStale(oldChain: seq<Hash>, newChain: seq<Hash>, b: Hash) {
    forall x, i, tx {:trigger Holds(x, i, tx), OnLine(x, b)} | OnLine(x, b) && Holds(x, i, tx) ::
      Carries(oldChain, tx) ==> Carries(newChain, tx)
  }

  /** If the old chain carries no transaction twice, nothing but stale transactions is dropped. */
  lemma UniqueDropsOnlyStale(a: Hash, b: Hash, g: Hash, oldChain: seq<Hash>, newChain: seq<Hash>)
    requires IsGenesis(g) && Rooted(a, g) && Rooted(b, g) && Unique(a)
    requires Segment(oldChain, a, Fork(a, b)) && Segment(newChain, b, Fork(a, b))
    ensures DropsOnlyStale(oldChain, newChain, b)
  {
    forall x, i, tx | OnLine(x, b) && Holds(x, i, tx) && Carries(oldChain, tx) ensures Carries(newChain, tx) {
      SegmentHas(newChain, b, g, Fork(a, b), x);
      if x !in newChain {
        SharedBelow(a, b, g, x);
        var y, j :| y in oldChain && Holds(y, j, tx);
        SegmentHas(oldChain, a, g, Fork(a, b), y);
      }
    }
  }

  /** The table after the new chain is entered and the transactions only the old chain carries are
      deleted. */
  ghost predicate Relinked(l0: map<TxHash, Entry>, l1: map<TxHash, Entry>, l2: map<TxHash, Entry>,
                           oldChain: seq<Hash>, newChain: seq<Hash>) {
    && Entered(l0, l1, newChain)
    && (forall k :: k in l2 <==> k in l1 && (Carries(oldChain, k.content) ==> Carries(newChain, k.content)))
    && forall k {:trigger l2[k]} | k in l2 :: l2[k] == l1[k]
  }

  /** A reorganisation leaves the table exact for the new head just when the transactions it deletes
      are not on the new chain through a block both chains share. */
  lemma ReorgRelinks(l0: map<TxHash, Entry>, l1: map<TxHash, Entry>, l2: map<TxHash, Entry>,
                     a: Hash, b: Hash, g: Hash, oldChain: seq<Hash>, newChain: seq<Hash>)
    requires IsGenesis(g) && Rooted(a, g) && Rooted(b, g) && LookupExact(l0, a)
    requires Segment(oldChain, a, Fork(a, b)) && Segment(newChain, b, Fork(a, b))
    requires Relinked(l0, l1, l2, oldChain, newChain)
    ensures LookupExact(l2, b) <==> DropsOnlyStale(oldChain, newChain, b)
  {
    if DropsOnlyStale(oldChain, newChain, b) {
      forall k | k in l2 ensures OnLine(l2[k].block, b) && Holds(l2[k].block, l2[k].index, k.content) {
        EntryStays(l0, l1, l2, a, b, g, oldChain, newChain, k);
      }
      forall x, i, tx | OnLine(x, b) && Holds(x, i, tx) ensures tx.Hash() in l2 {
        EntryFound(l0, l1, l2, a, b, g, oldChain, newChain, x, i, tx);
      }
    } else {
      var x, i, tx :| OnLine(x, b) && Holds(x, i, tx) && Carries(oldChain, tx) && !Carries(newChain, tx);
      assert tx.Hash().content == tx && tx.Hash() !in l2;
    }
  }

  lemma EntryStays(l0: map<TxHash, Entry>, l1: map<TxHash, Entry>, l2: map<TxHash, Entry>,
                   a: Hash, b: Hash, g: Hash, oldChain: seq<Hash>, newChain: seq<Hash>, k: TxHash)
    requires IsGenesis(g) && Rooted(a, g) && Rooted(b, g) && LookupExact(l0, a)
    requires Segment(oldChain, a, Fork(a, b)) && Segment(newChain, b, Fork(a, b))
    requires Relinked(l0, l1, l2, oldChain, newChain) && k in l2
    ensures OnLine(l2[k].block, b) && Holds(l2[k].block, l2[k].index, k.content)
  {
    var e := l2[k];
    assert e == l1[k];
    if Carries(newChain, k.content) {
      SegmentHas(newChain, b, g, Fork(a, b), e.block);
    } else {
      assert e == l0[k];
      SegmentHas(oldChain, a, g, Fork(a, b), e.block);
      SharedBelow(a, b, g, if e.block.header.number <= Fork(a, b) then e.block else g);
    }
  }

  lemma EntryFound(l0: map<TxHash, Entry>, l1: map<TxHash, Entry>, l2: map<TxHash, Entry>,
                   a: Hash, b: Hash, g: Hash, oldChain: seq<Hash>, newChain: seq<Hash>, x: Hash, i: nat, tx: Tx)
    requires IsGenesis(g) && Rooted(a, g) && Rooted(b, g) && LookupExact(l0, a)
    requires Segment(oldChain, a, Fork(a, b)) && Segment(newChain, b, Fork(a, b))
    requires Relinked(l0, l1, l2, oldChain, newChain) && DropsOnlyStale(oldChain, newChain, b)
    requires OnLine(x, b) && Holds(x, i, tx)
    ensures tx.Hash() in l2
  {
    assert tx.Hash().content == tx;
    SegmentHas(newChain, b, g, Fork(a, b), x);
    if x in newChain {
      assert Carries(newChain, tx);
    } else {
      SharedBelow(a, b, g, x);
    }
  }

  lemma SegmentHashes(chain: seq<Hash>, h: Hash, g: Hash, f: nat)
    requires IsGenesis(g) && Rooted(h, g) && Segment(chain, h, f)
    ensures Numbers(chain)
    ensures chain != [] ==> chain[0] == h
  {
    LineLength(h, g);
    forall k | 0 <= k < |chain| ensures chain[k].HashOf? && chain[k].header.number == |Line(h)| - 1 - k {
      LineAt(h, g, |Line(h)| - 1 - k);
    }
  }

  /** The new chain is empty just when the new head is on the ancestry of the old one. */
  lemma NothingNew(a: Hash, b: Hash, g: Hash, newChain: seq<Hash>)
    requires IsGenesis(g) && Rooted(a, g) && Rooted(b, g) && Segment(newChain, b, Fork(a, b))
    ensures newChain == [] <==> OnLine(b, a)
  {
    LineLength(b, g);
    ForkSplits(a, b, g, b.header.number);
  }

  /** Everything a reorganisation promises, from its three steps on the index and the table. */
  lemma ReorgDone(canon: map<nat, Hash>, l0: map<TxHash, Entry>, l1: map<TxHash, Entry>, l2: map<TxHash, Entry>,
                  a: Hash, b: Hash, g: Hash, oldChain: seq<Hash>, newChain: seq<Hash>)
    requires IsGenesis(g) && Rooted(a, g) && Rooted(b, g)
    requires Segment(oldChain, a, Fork(a, b)) && Segment(newChain, b, Fork(a, b))
    requires Relinked(l0, l1, l2, oldChain, newChain)
    ensures IndexedUpTo(canon, a) ==> IndexedUpTo(Renumbered(canon, newChain), b)
    ensures LookupExact(l0, a) && Unique(a) ==> LookupExact(l2, b)
    ensures newChain == [] <==> OnLine(b, a)
    ensures newChain != [] ==> newChain[0] == b
  {
    if IndexedUpTo(canon, a) { ReorgIndexes(canon, a, b, g, newChain); }
    if LookupExact(l0, a) && Unique(a) {
      UniqueDropsOnlyStale(a, b, g, oldChain, newChain);
      ReorgRelinks(l0, l1, l2, a, b, g, oldChain, newChain);
    }
    NothingNew(a, b, g, newChain);
    SegmentHashes(newChain, b, g, Fork(a, b));
  }

  lemma {:induction false} TreeHolds(g: Hash, blocks: map<Hash, Header>, td: map<Hash, int>, h: Hash)
    requires Tree(g, blocks, td) && h in blocks
    ensures Keyed(blocks) && Rooted(h, g) && Held(blocks, h, 0)
    decreases h
  {
    forall x | x in blocks ensures x == HashOf(blocks[x]) { assert Placed(g, blocks, td, x); }
    assert Placed(g, blocks, td, h);
    if h == g {
      assert Line(g) == Line(Zero) + [g];
    } else {
      TreeHolds(g, blocks, td, h.header.parentHash);
    }
  }

  /** Everything that holds between two calls. */
  ghost predicate Consistent(g: Hash, blocks: map<Hash, Header>, td: map<Hash, int>, canon: map<nat, Hash>,
                             lookup: map<TxHash, Entry>, current: Hash) {
    && Tree(g, blocks, td) && td.Keys == blocks.Keys && current in blocks
    && IndexedUpTo(canon, current) && LookupExact(lookup, current)
    && (forall h :: h in td ==> td[h] <= td[current])
    && (forall h :: h in blocks ==> Unique(h))
  }

  /** Entering a block's transactions keeps the table exact for that block, whether the table was
      exact for it or for its parent. */
  lemma EnteringExact(l0: map<TxHash, Entry>, l1: map<TxHash, Entry>, a: Hash, b: Hash, g: Hash)
    requires IsGenesis(g) && Rooted(b, g) && (a == b || (b != g && a == b.header.parentHash))
    requires LookupExact(l0, a) && Entered(l0, l1, [b])
    ensures LookupExact(l1, b)
  {
    LineLength(b, g);
    if a != b {
      LineLength(a, g);
      assert Line(b) == Line(a) + [b];
    }
    forall x ensures OnLine(x, b) <==> OnLine(x, a) || x == b {
      if OnLine(x, b) { LineAt(b, g, x.header.number); }
    }
    forall k | k in l1 ensures OnLine(l1[k].block, b) && Holds(l1[k].block, l1[k].index, k.content) {
      if !Carries([b], k.content) { assert l1[k] == l0[k]; }
    }
    forall x, i, tx | OnLine(x, b) && Holds(x, i, tx) ensures tx.Hash() in l1 {
      assert tx.Hash().content == tx;
      if x == b { assert x in [b]; }
    }
  }

  /** Putting `b` on top of an index that describes `b` or its parent describes `b`. */
  lemma IndexedMore(canon: map<nat, Hash>, a: Hash, b: Hash, g: Hash)
    requires IsGenesis(g) && Rooted(b, g) && (a == b || (b != g && a == b.header.parentHash))
    requires IndexedUpTo(canon, a)
    ensures IndexedUpTo(canon[b.header.number := b], b)
  {
    LineLength(b, g);
    if a != b {
      LineLength(a, g);
      assert Line(b) == Line(a) + [b];
    }
  }

  /** What is in `a` and not in `b`, in the order of `a` and as often. */
  ghost function Difference(a: seq<Tx>, b: seq<Tx>): (keep: seq<Tx>)
    ensures forall tx :: tx in keep <==> tx in a && tx !in b
  {
    if a == [] then [] else
      var before := Difference(a[..|a| - 1], b);
      assert a == a[..|a| - 1] + [a[|a| - 1]];
      if a[|a| - 1] in b then before else before + [a[|a| - 1]]
  }

  /** The order is kept: what is left of two lists joined is what is left of the first, then of the second. */
  lemma {:induction false} DifferenceJoins(a: seq<Tx>, c: seq<Tx>, b: seq<Tx>)
    ensures Difference(a + c, b) == Difference(a, b) + Difference(c, b)
  {
    hide Difference;
    if c == [] {
      DifferenceNone(b);
      assert a + c == a;
    } else {
      var n := |c| - 1;
      var some := c[..n];
      DifferenceJoins(a, some, b);
      assert a + c == (a + some) + [c[n]] && c == some + [c[n]];
      DifferenceNext(a + some, c[n], b);
      DifferenceNext(some, c[n], b);
    }
  }

  lemma DifferenceNone(b: seq<Tx>)
    ensures Difference([], b) == []
  {
  }

  lemma DifferenceNext(a: seq<Tx>, tx: Tx, b: seq<Tx>)
    ensures Difference(a + [tx], b) == if tx in b then Difference(a, b) else Difference(a, b) + [tx]
  {
    assert (a + [tx])[..|a|] == a;
  }

  /** Nothing that is kept is lost or repeated. */
  lemma {:induction false} DifferenceCounts(a: seq<Tx>, b: seq<Tx>, tx: Tx)
    ensures multiset(Difference(a, b))[tx] == if tx in b then 0 else multiset(a)[tx]
  {
    if a != [] {
      DifferenceCounts(a[..|a| - 1], b, tx);
      assert a == a[..|a| - 1] + [a[|a| - 1]];
    }
  }

  /** The transactions of `a` whose hash is not in `b`. */
  method TxDifference(a: seq<Tx>, b: seq<Tx>) returns (keep: seq<Tx>)
    ensures keep == Difference(a, b)
    ensures forall tx :: tx in keep <==> tx in a && tx !in b
  {
    keep := [];
    var remove: set<TxHash> := {};
    for i := 0 to |b|
      invariant forall tx: Tx :: tx.Hash() in remove <==> tx in b[..i]
    {
      remove := remove + {b[i].Hash()};
    }
    assert b[..|b|] == b;
    for i := 0 to |a|
      invariant keep == Difference(a[..i], b)
    {
      assert a[..i + 1][..i] == a[..i];
      if a[i].Hash() !in remove {
        keep := keep + [a[i]];
      }
    }
    assert a[..|a|] == a;
  }

  class BlockChain {
    const genesis: Hash
    var blocks: map<Hash, Header>
    var td: map<Hash, int>
    var canon: map<nat, Hash>
    var lookup: map<TxHash, Entry>
    var current: Hash
    var header: Hash
    var fast: Hash

    function GetBlock(hash: Hash): Option<Hash>
      reads this
    {
      if hash in blocks then Some(hash) else None
    }

    /** Steps down from `h` to number `target`, collecting the blocks left behind. */
    method Reduce(h: Hash, target: nat) returns (block: Option<Hash>, chain: seq<Hash>, txs: seq<Tx>)
      requires IsGenesis(genesis) && Rooted(h, genesis) && Keyed(blocks) && h in blocks && target <= h.header.number
      ensures block.Some? ==> |Line(h)| == h.header.number + 1 && block.value == Line(h)[target] && Segment(chain,
        h, target)
      ensures block.Some? <==> Held(blocks, h, target)
      ensures AllOf(txs, chain)
    {
      LineLength(h, genesis);
      ghost var top, p: nat := h.header.number, h.header.number;
      block, chain, txs := Some(h), [], [];
      while block.Some? && blocks[block.value].number != target
        invariant target <= p <= top && |chain| == top - p
        invariant forall k {:trigger chain[k]} | 0 <= k < |chain| :: chain[k] == Line(h)[top - k]
        invariant if block.Some? then block.value == Line(h)[p] && block.value in blocks else Line(h)[p] !in blocks
        invariant forall i {:trigger Line(h)[i]} | p < i <= top :: Line(h)[i] in blocks
        invariant AllOf(txs, chain)
        decreases p
      {
        LineAt(h, genesis, p);
        LineStep(h, genesis, p);
        var b := block.value;
        AllOfMore(txs, chain, b, txs + blocks[b].txs, chain + [b]);
        chain := chain + [b];
        txs := txs + blocks[b].txs;
        block := GetBlock(blocks[b].parentHash);
        p := p - 1;
      }
      if block.Some? { LineAt(h, genesis, p); }
    }

    /** Walks both chains down to their highest common block; fails just when a block above or at
        the fork is missing. */
    method FindFork(oldBlock: Hash, newBlock: Hash)
      returns (ok: bool, oldChain: seq<Hash>, newChain: seq<Hash>, deletedTxs: seq<Tx>)
      requires IsGenesis(genesis) && Rooted(oldBlock, genesis) && Rooted(newBlock, genesis)
      requires Keyed(blocks) && oldBlock in blocks && newBlock in blocks
      ensures ok <==>
        Held(blocks, oldBlock, Fork(oldBlock, newBlock)) && Held(blocks, newBlock, Fork(oldBlock, newBlock))
      ensures ok ==> Segment(oldChain, oldBlock, Fork(oldBlock, newBlock)) && AllOf(deletedTxs, oldChain)
      ensures ok ==> Segment(newChain, newBlock, Fork(oldBlock, newBlock))
    {
      ghost var f := Fork(oldBlock, newBlock);
      ForkSplits(oldBlock, newBlock, genesis, f);
      var a, b := Some(oldBlock), Some(newBlock);
      oldChain, newChain, deletedTxs := [], [], [];
      ghost var p: nat;
      if oldBlock.header.number > newBlock.header.number {
        p := newBlock.header.number;
        a, oldChain, deletedTxs := Reduce(oldBlock, newBlock.header.number);
      } else {
        p := oldBlock.header.number;
        var ignored;
        b, newChain, ignored := Reduce(newBlock, oldBlock.header.number);
      }
      assert a.Some? <==> Held(blocks, oldBlock, p);
      assert b.Some? <==> Held(blocks, newBlock, p);
      if a.None? || b.None? {
        return false, oldChain, newChain, deletedTxs;
      }
      var x, y := a.value, b.value;
      assert Side(blocks, oldBlock, p, x, oldChain);
      assert Side(blocks, newBlock, p, y, newChain);
      hide Side, Held, Segment, Line, Rooted, Fork, AllOf;
      while x != y
        invariant f <= p
        invariant Side(blocks, oldBlock, p, x, oldChain) && Side(blocks, newBlock, p, y, newChain)
        invariant AllOf(deletedTxs, oldChain)
        decreases p
      {
        SidesMeet(blocks, genesis, oldBlock, newBlock, p, x, y, oldChain, newChain);
        SideDown(blocks, genesis, oldBlock, p, x, oldChain);
        SideDown(blocks, genesis, newBlock, p, y, newChain);
        AllOfMore(deletedTxs, oldChain, x, deletedTxs + blocks[x].txs, oldChain + [x]);
        oldChain, newChain := oldChain + [x], newChain + [y];
        deletedTxs := deletedTxs + blocks[x].txs;
        p := p - 1;
        a, b := GetBlock(blocks[x].parentHash), GetBlock(blocks[y].parentHash);
        if a.None? || b.None? {
          return false, oldChain, newChain, deletedTxs;
        }
        x, y := a.value, b.value;
      }
      SidesMeet(blocks, genesis, oldBlock, newBlock, p, x, y, oldChain, newChain);
      ok := true;
    }

    /** Makes a block canonical and the head; the header and fast heads follow if it was not canonical. */
    method Insert(block: Hash)
      requires block.HashOf?
      modifies `canon, `current, `header, `fast
      ensures canon == old(canon)[block.header.number := block] && current == block
      ensures var updateHeads := !(block.header.number in old(canon) && old(canon)[block.header.number] == block);
        header == (if updateHeads then block else old(header)) && fast == (if updateHeads then block else old(fast))
    {
      var updateHeads := !(block.header.number in canon && canon[block.header.number] == block);
      canon := canon[block.header.number := block];
      current := block;
      if updateHeads {
        header := block;
        fast := block;
      }
    }

    /** Records where each transaction of the block stands. */
    method WriteTxLookupEntries(block: Hash)
      requires block.HashOf?
      modifies `lookup
      ensures Entered(old(lookup), lookup, [block])
    {
      var txs := block.header.txs;
      for i := 0 to |txs|
        invariant forall k :: k in lookup <==> k in old(lookup) || k.content in txs[..i]
        invariant forall k {:trigger lookup[k]} | k in lookup ::
          if k.content in txs[..i] then lookup[k].block == block && Holds(block, lookup[k].index, k.content)
          else lookup[k] == old(lookup)[k]
      {
        lookup := lookup[txs[i].Hash() := Entry(block, i)];
        assert txs[..i + 1] == txs[..i] + [txs[i]];
      }
      assert txs[..|txs|] == txs;
      BlockCarries(block);
    }

    /** Inserts the new chain oldest block first. */
    method InsertChain(newChain: seq<Hash>) returns (addedTxs: seq<Tx>)
      requires Numbers(newChain)
      modifies `canon, `current, `header, `fast, `lookup
      ensures canon == Renumbered(old(canon), newChain)
      ensures current == if newChain == [] then old(current) else newChain[0]
      ensures header == HeadAfter(old(canon), newChain, old(header))
      ensures fast == HeadAfter(old(canon), newChain, old(fast))
      ensures Entered(old(lookup), lookup, newChain)
      ensures AllOf(addedTxs, newChain)
    {
      addedTxs := [];
      var i: nat := |newChain|;
      while i > 0
        invariant i <= |newChain|
        invariant canon == Renumbered(old(canon), newChain[i..])
        invariant current == if i == |newChain| then old(current) else newChain[i]
        invariant header == HeadAfter(old(canon), newChain[i..], old(header))
        invariant fast == HeadAfter(old(canon), newChain[i..], old(fast))
        invariant Entered(old(lookup), lookup, newChain[i..])
        invariant AllOf(addedTxs, newChain[i..])
      {
        i := i - 1;
        var b := newChain[i];
        ghost var done, was := newChain[i + 1..], lookup;
        assert newChain[i..] == [b] + done;
        RenumberedElsewhere(old(canon), done, b);
        Insert(b);
        WriteTxLookupEntries(b);
        EnteredMore(old(lookup), was, lookup, b, done);
        AllOfMore(addedTxs, done, b, addedTxs + b.header.txs, [b] + done);
        addedTxs := addedTxs + b.header.txs;
      }
      assert newChain[0..] == newChain;
    }

    method DeleteTxLookupEntries(diff: seq<Tx>)
      modifies `lookup
      ensures forall k :: k in lookup <==> k in old(lookup) && k.content !in diff
      ensures forall k {:trigger lookup[k]} | k in lookup :: lookup[k] == old(lookup)[k]
    {
      var batch: set<TxHash> := {};
      for i := 0 to |diff|
        invariant forall k :: k in batch <==> k.content in diff[..i]
      {
        batch := batch + {diff[i].Hash()};
        assert diff[..i + 1] == diff[..i] + [diff[i]];
      }
      assert diff[..|diff|] == diff;
      lookup := lookup - batch;
    }

    /** Makes the ancestry of `newBlock` canonical instead of that of `oldBlock`. */
    method Reorg(oldBlock: Hash, newBlock: Hash) returns (ok: bool, ghost inserted: seq<Hash>)
      requires IsGenesis(genesis) && Rooted(oldBlock, genesis) && Rooted(newBlock, genesis)
      requires Keyed(blocks) && oldBlock in blocks && newBlock in blocks
      modifies `canon, `current, `header, `fast, `lookup
      ensures ok <==>
        Held(blocks, oldBlock, Fork(oldBlock, newBlock)) && Held(blocks, newBlock, Fork(oldBlock, newBlock))
      ensures !ok ==> canon == old(canon) && lookup == old(lookup) && current == old(current)
      ensures !ok ==> header == old(header) && fast == old(fast)
      ensures ok ==> Segment(inserted, newBlock, Fork(oldBlock, newBlock)) && Numbers(inserted)
      ensures ok ==> header == HeadAfter(old(canon), inserted, old(header))
      ensures ok ==> fast == HeadAfter(old(canon), inserted, old(fast))
      ensures ok && IndexedUpTo(old(canon), oldBlock) ==> IndexedUpTo(canon, newBlock)
      ensures ok && LookupExact(old(lookup), oldBlock) && Unique(oldBlock) ==> LookupExact(lookup, newBlock)
      ensures ok ==> current == if OnLine(newBlock, oldBlock) then old(current) else newBlock
    {
      var oldChain, newChain, deletedTxs;
      ok, oldChain, newChain, deletedTxs := FindFork(oldBlock, newBlock);
      inserted := newChain;
      if !ok {
        return;
      }
      SegmentHashes(newChain, newBlock, genesis, Fork(oldBlock, newBlock));
      ghost var canonBefore, lookupBefore := canon, lookup;
      var addedTxs := InsertChain(newChain);
      ghost var entered := lookup;
      var diff := TxDifference(deletedTxs, addedTxs);
      DeleteTxLookupEntries(diff);
      ReorgDone(canonBefore, lookupBefore, entered, lookup, oldBlock, newBlock, genesis, oldChain, newChain);
    }

    ghost predicate Valid()
      reads this
    {
      Consistent(genesis, blocks, td, canon, lookup, current)
    }

    constructor (genesisBlock: Header)
      requires IsGenesis(HashOf(genesisBlock)) && genesisBlock.txs == []
      ensures Valid() && current == genesis == HashOf(genesisBlock)
    {
      var g := HashOf(genesisBlock);
      genesis, blocks, td := g, map[g := genesisBlock], map[g := genesisBlock.difficulty];
      canon, lookup := map[0 := g], map[];
      current, header, fast := g, g, g;
      new;
      BornSound(genesisBlock);
      assert Line(g) == Line(Zero) + [g];
    }

    /** Whether the block replaces the head: a heavier block does; between equals the lower number
        does, and on the same number the one to be preserved, or else luck. */
    ghost predicate Wins(block: Header, currentPreserve: bool, blockPreserve: bool, coin: bool)
      requires block.parentHash in td && current in td && current.HashOf?
      reads this
    {
      var externTd := td[block.parentHash] + block.difficulty;
      || externTd > td[current]
      || (externTd == td[current]
          && (|| block.number < current.header.number
              || (block.number == current.header.number && !currentPreserve && (blockPreserve || coin))))
    }

    /** The canonical switch: reorganise unless the block extends the head, then make it the head. */
    method TakeHead(block: Header) returns (ok: bool)
      requires Tree(genesis, blocks, td) && current in blocks && HashOf(block) in blocks
      requires IndexedUpTo(canon, current) && LookupExact(lookup, current) && Unique(current)
      modifies `canon, `current, `header, `fast, `lookup
      ensures ok && current == HashOf(block) && IndexedUpTo(canon, current) && LookupExact(lookup, current)
    {
      ghost var was := current;
      var hash := HashOf(block);
      TreeHolds(genesis, blocks, td, current);
      TreeHolds(genesis, blocks, td, hash);
      ghost var a := current;
      ok := true;
      if block.parentHash != current {
        ghost var inserted;
        ok, inserted := Reorg(current, hash);
        if !ok {
          return;
        }
        a := hash;
      }
      ghost var l0, c0 := lookup, canon;
      WriteTxLookupEntries(hash);
      EnteringExact(l0, lookup, a, hash, genesis);
      IndexedMore(c0, a, hash, genesis);
      Insert(hash);
    }

    /** Stores a block whose parent is known, and makes it the head if it wins. */
    method WriteBlock(block: Header, currentPreserve: bool, blockPreserve: bool, coin: bool)
      returns (status: WriteStatus, known: bool)
      requires Valid() && Unique(HashOf(block))
      requires block.parentHash in blocks ==> block.number == blocks[block.parentHash].number + 1
      modifies this
      ensures Valid()
      ensures known <==> block.parentHash in old(blocks)
      ensures !known ==> status == NonStatTy && blocks == old(blocks) && td == old(td)
      ensures known ==> blocks == old(blocks)[HashOf(block) := block]
      ensures known ==> td == old(td)[HashOf(block) := old(td)[block.parentHash] + block.difficulty]
      ensures old(current).HashOf?
      ensures known ==>
        status == if old(Wins(block, currentPreserve, blockPreserve, coin)) then CanonStatTy else SideStatTy
      ensures known ==> old(td)[old(current)] < td[HashOf(block)] ==>
        status == CanonStatTy && current == HashOf(block)
      ensures known ==> td[HashOf(block)] < old(td)[old(current)] ==> status == SideStatTy && current == old(current)
      ensures known && td[HashOf(block)] == old(td)[old(current)] ==> (
        var number := old(current.header.number);
        && (block.number < number ==> status == CanonStatTy && current == HashOf(block))
        && (number < block.number ==> status == SideStatTy && current == old(current))
        && (block.number == number && !currentPreserve && (blockPreserve || coin) ==>
              status == CanonStatTy && current == HashOf(block))
        && (block.number == number && (currentPreserve || !(blockPreserve || coin)) ==>
              status == SideStatTy && current == old(current)))
      ensures status == CanonStatTy ==> current == HashOf(block)
      ensures status != CanonStatTy ==> current == old(current) && canon == old(canon) && lookup == old(lookup)
    {
      TreeHolds(genesis, blocks, td, current);
      hide Unique, Tree, IndexedUpTo, LookupExact;
      if block.parentHash !in td {
        return NonStatTy, false;
      }
      var currentBlock := current;
      var localTd := td[currentBlock];
      var externTd := Store(block);
      var reorg := externTd > localTd;
      if !reorg && externTd == localTd {
        if block.number < currentBlock.header.number {
          reorg := true;
        } else if block.number == currentBlock.header.number {
          reorg := !currentPreserve && (blockPreserve || coin);
        }
      }
      known := true;
      if reorg {
        var ok := TakeHead(block);
        status := CanonStatTy;
      } else {
        status := SideStatTy;
      }
    }

    /** Stores a block whose parent is known, with its total difficulty. */
    method Store(block: Header) returns (externTd: int)
      requires Valid() && Unique(HashOf(block)) && block.parentHash in blocks && current in td
      requires block.number == blocks[block.parentHash].number + 1
      modifies `blocks, `td
      ensures block.parentHash in old(td) && externTd == block.difficulty + old(td)[block.parentHash]
      ensures blocks == old(blocks)[HashOf(block) := block] && td == old(td)[HashOf(block) := externTd]
      ensures Tree(genesis, blocks, td) && current in td && td[current] == old(td[current])
      ensures (forall h :: h in blocks ==> Unique(h)) && forall h :: h in td ==> td[h] <= Max(externTd, td[current])
    {
      ghost var c := Chain(genesis, blocks, td, canon, current);
      WrittenKeepsTree(c, block, false);
      assert HashOf(block) in td ==> td[HashOf(block)] == td[block.parentHash] + block.difficulty by {
        assert Placed(genesis, blocks, td, block.parentHash);
        if HashOf(block) in td { assert Placed(genesis, blocks, td, HashOf(block)); }
      }
      externTd := block.difficulty + td[block.parentHash];
      td := td[HashOf(block) := externTd];
      blocks := blocks[HashOf(block) := block];
    }
  }
}
