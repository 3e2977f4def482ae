/** Block headers, their hashes and the lines of ancestry they form. */
module Ancestry {
  import opened Types

  /** A header hash is an injective identifier; `Zero` is the empty hash, which no header has. */
  datatype Hash = Zero | HashOf(header: Header)

  /** `txs` is the list the transaction root commits to; `extra` stands for every other field. */
  datatype Header = Header(parentHash: Hash, number: uint64, difficulty: int, txs: seq<Tx>, extra: nat)

  ghost predicate IsGenesis(g: Hash) {
    g.HashOf? && g.header.number == 0 && g.header.parentHash == Zero
  }

  /** `h` descends from `g`, every header counting one more than its parent. */
  ghost predicate Rooted(h: Hash, g: Hash) {
    && h.HashOf?
    && (|| h == g
        || (&& h.header.parentHash.HashOf?
            && h.header.number == h.header.parentHash.header.number + 1
            && Rooted(h.header.parentHash, g)))
  }

  /** The ancestry of `h`, oldest first and ending with `h` itself. */
  ghost function Line(h: Hash): seq<Hash> {
    if h.Zero? then [] else Line(h.header.parentHash) + [h]
  }

  /** The sum of the difficulties along the ancestry of `h`. */
  ghost function TotalDifficulty(h: Hash): int {
    if h.Zero? then 0 else h.header.difficulty + TotalDifficulty(h.header.parentHash)
  }

  lemma {:induction false} LineLength(h: Hash, g: Hash)
    requires IsGenesis(g) && Rooted(h, g)
    ensures |Line(h)| == h.header.number + 1
    ensures Line(h)[h.header.number] == h
  {
    if h == g {
      assert Line(g) == Line(Zero) + [g];
    } else {
      LineLength(h.header.parentHash, g);
    }
  }

  /** Every entry of a line is rooted, stands at its own number, and has the line below as its own. */
  lemma {:induction false} LineAt(h: Hash, g: Hash, i: nat)
    requires IsGenesis(g) && Rooted(h, g) && i <= h.header.number
    ensures |Line(h)| == h.header.number + 1
    ensures Rooted(Line(h)[i], g) && Line(h)[i].header.number == i
    ensures Line(Line(h)[i]) == Line(h)[..i + 1]
  {
    LineLength(h, g);
    if i < h.header.number {
      var p := h.header.parentHash;
      LineAt(p, g, i);
      assert Line(h)[..i + 1] == Line(p)[..i + 1];
    }
  }

  /** The parent of an entry is the entry before it, and the first entry is the root. */
  lemma LineStep(h: Hash, g: Hash, i: nat)
    requires IsGenesis(g) && Rooted(h, g) && i <= h.header.number
    ensures |Line(h)| == h.header.number + 1
    ensures Line(h)[i].HashOf?
    ensures i > 0 ==> Line(h)[i].header.parentHash == Line(h)[i - 1]
    ensures i == 0 ==> Line(h)[i] == g
  {
    LineAt(h, g, i);
    var e := Line(h)[i];
    if i > 0 {
      LineLength(e.header.parentHash, g);
      var l := Line(e.header.parentHash);
      assert Line(e) == l + [e];
      assert (l + [e])[i - 1] == l[i - 1] == e.header.parentHash;
      assert Line(h)[..i + 1][i - 1] == Line(h)[i - 1];
    }
  }

  /** Two lines through one block are the same up to it. */
  lemma LinesMeet(a: Hash, b: Hash, g: Hash, i: nat)
    requires IsGenesis(g) && Rooted(a, g) && Rooted(b, g)
    requires i <= a.header.number && i <= b.header.number
    requires |Line(a)| > i && |Line(b)| > i && Line(a)[i] == Line(b)[i]
    ensures Line(a)[..i + 1] == Line(b)[..i + 1]
  {
    LineAt(a, g, i);
    LineAt(b, g, i);
  }

  /** Being on the line of. */
  ghost predicate OnLine(a: Hash, b: Hash) {
    a.HashOf? && a.header.number < |Line(b)| && Line(b)[a.header.number] == a
  }

  lemma OnLineTransitive(a: Hash, b: Hash, c: Hash, g: Hash)
    requires IsGenesis(g) && Rooted(c, g)
    requires OnLine(a, b) && OnLine(b, c)
    ensures Rooted(b, g)
    ensures OnLine(a, c)
  {
    LineLength(c, g);
    LineAt(c, g, b.header.number);
    assert Line(b) == Line(c)[..b.header.number + 1];
    assert Line(b)[a.header.number] == Line(c)[a.header.number];
  }
}
