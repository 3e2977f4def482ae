/** How long a reply to a header query is and which headers it holds, told by the numbers alone. */
module HeaderReplies {
  import opened Types
  import opened Ancestry
  import opened HeaderChains
  import opened HeaderQueries

  /** Somewhere on the last `budget` steps up its ancestry a block is met that the index knows, or the root is
      that near. */
  ghost predicate Near(c: Chain, h: Hash, budget: nat)
    requires h.HashOf? && |Line(h)| == h.header.number + 1
  {
    || h.header.number < budget
    || exists n: nat :: n <= h.header.number <= n + budget && n in c.canon && c.canon[n] == Line(h)[n]
  }

  /** So many headers, `step` blocks apart, as long as they are within reach and there is room. */
  predicate Fills(length: int, most: nat, step: int, reach: int) {
    && 0 <= length <= most
    && (length > 0 ==> (length - 1) * step <= reach)
    && (length < most ==> reach < length * step)
  }

  lemma MostAre(amount: uint64)
    ensures Limit(amount) == if 0x8000_0000_0000_0000 <= amount then 0 else if amount < 192 then amount else 192
  {
  }

  lemma FullFills(limit: nat, step: nat, reach: nat, length: int)
    requires step > 0
    ensures length == FullLength(limit, step, reach) <==> Fills(length, limit, step, reach)
  {
    var full := FullLength(limit, step, reach);
    Quotient(full, step, reach);
    if full > 0 { Quotient(full - 1, step, reach); }
    if 0 <= length {
      Quotient(length, step, reach);
      if length > 0 { Quotient(length - 1, step, reach); }
    }
  }

  /** How long a reply by hash is. */
  lemma HashReplyLength(c: Chain, q: Query, length: int)
    requires Indexed(c) && q.hash in c.headers
    ensures c.head.HashOf? && q.hash.HashOf? && |Line(q.hash)| == q.hash.header.number + 1
    ensures length == FullLength(Limit(q.amount), q.skip + 1, Reach(c, q.hash, q.skip + 1, q.reverse)) <==> (
      var most := if 0x8000_0000_0000_0000 <= q.amount then 0 else if q.amount < 192 then q.amount else 192;
      var number := q.hash.header.number;
      if q.reverse then
        Fills(length, most, q.skip + 1, if q.skip == 0 || Near(c, q.hash, 100) then number else 100)
      else if number in c.canon && c.canon[number] == q.hash then
        Fills(length, most, q.skip + 1, c.head.header.number - number)
      else length == if most == 0 then 0 else 1)
  {
    BeginsUnderway(c, q);
    Stored(c, q.hash);
    MostAre(q.amount);
    var reach := Reach(c, q.hash, q.skip + 1, q.reverse);
    FullFills(Limit(q.amount), q.skip + 1, reach, length);
    NearIs(c, q.hash);
    Climb(c, q.hash, q.hash.header.number);
    hide Indexed, Line, Rooted, Detour, Near, FullLength, Limit;
  }

  /** Which headers a reply by hash holds: `skip + 1` apart, those of the origin's ancestry, or those the index
      has from the origin on. */
  lemma HashReplySteps(c: Chain, q: Query, headers: seq<Header>, i: nat)
    requires Indexed(c) && q.hash in c.headers && i < |headers| && headers[0] == c.headers[q.hash]
    requires Spaced(headers, q.skip + 1, q.reverse) && forall h :: h in headers ==> HashOf(h) in c.headers
    requires !q.reverse && |headers| > 1 ==> forall h :: h in headers ==> Canonical(c, HashOf(h))
    ensures q.hash.HashOf? && |Line(q.hash)| == q.hash.header.number + 1
    ensures var number, there := q.hash.header.number, i * (q.skip + 1);
      if q.reverse then there <= number && HashOf(headers[i]) == Line(q.hash)[number - there]
      else if i == 0 then HashOf(headers[i]) == q.hash
      else number + there in c.canon && c.canon[number + there] == HashOf(headers[i])
  {
    Stored(c, q.hash);
    forall k | 0 <= k < |headers|
      ensures Rooted(HashOf(headers[k]), c.genesis)
    {
      assert headers[k] in headers;
      Stored(c, HashOf(headers[k]));
    }
    OneMore(0, q.skip + 1);
    if i == 0 {
      Climb(c, q.hash, q.hash.header.number);
    } else {
      SpacedLine(headers, q.skip + 1, q.reverse, c.genesis, 0, i);
    }
  }

  lemma NearIs(c: Chain, h: Hash)
    requires Indexed(c) && h in c.headers
    ensures h.HashOf? && |Line(h)| == h.header.number + 1
    ensures Near(c, h, 100) <==> Detour(c, h) <= 100 || h.header.number < 100
  {
    ReachesBy(c, h, 0, 100);
    Stored(c, h);
    hide Indexed, Line, Rooted, Canonical;
    var number: nat := h.header.number;
    forall n: nat | n <= number
      ensures n in c.canon && c.canon[n] == Line(h)[n] <==> Detour(c, h) <= number - n
    {
      Climb(c, h, n);
    }
    DetourWithin(c, h);
    hide Detour;
    if Detour(c, h) <= 100 {
      var n: nat := number - Detour(c, h);
      assert n in c.canon && c.canon[n] == Line(h)[n];
    }
  }

  /** Which headers a reply by number holds: those the index has for the numbers `skip + 1` apart, in the
      machine's arithmetic, as long as there is room, until there is none or zero would be passed. */
  lemma NumberReplySteps(c: Chain, q: Query, headers: seq<Header>, i: nat)
    requires NumberReply(c, q, headers) && i < |headers|
    ensures headers[i].number in c.canon && c.canon[headers[i].number] == HashOf(headers[i])
    ensures var step := if q.skip == 0xffff_ffff_ffff_ffff then 0 else q.skip + 1;
      var most := if 0x8000_0000_0000_0000 <= q.amount then 0 else if q.amount < 192 then q.amount else 192;
      var number := headers[i].number;
      var next: int := if q.reverse then number - step else
        if number + step < 0x1_0000_0000_0000_0000 then number + step else number + step - 0x1_0000_0000_0000_0000;
      && |headers| <= most && headers[0].number == q.number
      && (i + 1 < |headers| ==> headers[i + 1].number == next)
      && (i + 1 == |headers| && |headers| < most ==> next < 0 || next !in c.canon)
  {
    MostAre(q.amount);
    hide Limit;
    assert Canonical(c, HashOf(headers[i]));
    if i + 1 < |headers| { assert Follows(headers[i], headers[i + 1], q); }
  }

  lemma NumberReplyNone(c: Chain, q: Query)
    ensures NumberReply(c, q, []) <==> q.number !in c.canon || q.amount == 0 || 0x8000_0000_0000_0000 <= q.amount
  {
    MostAre(q.amount);
  }
}
