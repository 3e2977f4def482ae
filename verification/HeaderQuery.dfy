/** Answering a peer's query for block headers: forwards or backwards, by hash or by number,
    leaving out `skip` headers between any two. */
module HeaderQueries {
  import opened Types
  import opened Ancestry
  import opened HeaderChains

  const SOFT_RESPONSE_LIMIT := 2 * 1024 * 1024
  const EST_HEADER_RLP_SIZE := 500
  const MAX_HEADER_FETCH := 192
  const MAX_NON_CANONICAL := 100

  datatype Query = Query(hash: Hash, number: uint64, amount: uint64, skip: uint64, reverse: bool)

  /** How many headers a reply may hold: the amount read as a signed integer, and at most 192. */
  function Limit(amount: uint64): nat {
    if ToInt64(amount) < 0 then 0 else if amount < MAX_HEADER_FETCH then amount else MAX_HEADER_FETCH
  }

  function Room(amount: uint64, held: nat): bool {
    held < ToInt64(amount) && held * EST_HEADER_RLP_SIZE < SOFT_RESPONSE_LIMIT && held < MAX_HEADER_FETCH
  }

  /** The size estimate never ends a reply: the header count does so first. */
  lemma RoomIsLimit(amount: uint64, held: nat)
    ensures Room(amount, held) <==> held < Limit(amount)
  {
    if held < MAX_HEADER_FETCH {
      assert held * EST_HEADER_RLP_SIZE < SOFT_RESPONSE_LIMIT;
    }
  }

  /** `b` is exactly `step` blocks from `a` on one line of ancestry. */
  ghost predicate Adjacent(a: Header, b: Header, step: int, reverse: bool) {
    var (older, newer) := if reverse then (b, a) else (a, b);
    newer.number == older.number + step && OnLine(HashOf(older), HashOf(newer))
  }

  ghost predicate Spaced(headers: seq<Header>, step: nat, reverse: bool) {
    forall i, j {:trigger headers[i], headers[j]} | 0 <= i < j < |headers| && j == i + 1 ::
      Adjacent(headers[i], headers[j], step, reverse)
  }

  /** How far a reply by hash can get. Backwards: to the root, unless the origin lies further off
      the canonical line than the budget and more than one step at a time is asked for. Forwards:
      to the head if the origin is canonical. */
  ghost function Reach(c: Chain, h: Hash, step: nat, reverse: bool): int
    requires h.HashOf? && c.head.HashOf?
  {
    if reverse then
      if step == 1 || Detour(c, h) <= MAX_NON_CANONICAL || h.header.number < MAX_NON_CANONICAL
      then h.header.number else MAX_NON_CANONICAL
    else if Detour(c, h) == 0 then c.head.header.number - h.header.number else 0
  }

  lemma AdjacentTransitive(a: Header, b: Header, d: Header, m: int, n: int, reverse: bool, g: Hash)
    requires IsGenesis(g) && Rooted(HashOf(a), g) && Rooted(HashOf(d), g)
    requires Adjacent(a, b, m, reverse) && Adjacent(b, d, n, reverse)
    ensures Adjacent(a, d, m + n, reverse)
  {
    if reverse {
      OnLineTransitive(HashOf(d), HashOf(b), HashOf(a), g);
    } else {
      OnLineTransitive(HashOf(a), HashOf(b), HashOf(d), g);
    }
  }

  /** The origin and one header every `step` blocks within reach, up to the limit. */
  function FullLength(limit: nat, step: nat, reach: int): int
    requires step > 0
  {
    Min(limit, reach / step + 1)
  }

  /** A spaced reply is one line of ancestry: any two of its headers are whole steps apart on it. */
  lemma {:induction false} SpacedLine(headers: seq<Header>, step: nat, reverse: bool, g: Hash, i: nat, n: nat)
    requires IsGenesis(g) && Spaced(headers, step, reverse)
    requires forall k {:trigger headers[k]} | 0 <= k < |headers| :: Rooted(HashOf(headers[k]), g)
    requires 0 < n && i + n < |headers|
    ensures Adjacent(headers[i], headers[i + n], n * step, reverse)
    decreases n
  {
    var m := n - 1;
    assert Adjacent(headers[i + m], headers[i + n], step, reverse);
    OneMore(m, step);
    if m > 0 {
      hide Adjacent, Rooted, IsGenesis;
      SpacedLine(headers, step, reverse, g, i, m);
      AdjacentTransitive(headers[i], headers[i + m], headers[i + n], m * step, step, reverse, g);
    }
  }

  lemma OneMore(m: nat, step: nat)
    ensures (m + 1) * step == m * step + step
    ensures 0 * step == 0
  {
  }

  lemma Scales(a: nat, b: nat, step: nat)
    requires a <= b
    ensures a * step <= b * step
  {
  }

  lemma Quotient(k: nat, step: nat, reach: nat)
    requires step > 0
    ensures k * step <= reach <==> k <= reach / step
  {
    var q := reach / step;
    assert q * step <= reach < (q + 1) * step;
    if k <= q { Scales(k, q, step); } else { Scales(q + 1, k, step); }
  }

  ghost predicate Reads(hc: HeaderChain)
    reads hc
  {
    Indexed(hc.State())
  }

  lemma CanonicalNumbers(c: Chain)
    requires Indexed(c)
    ensures c.head.HashOf?
    ensures forall i: nat :: i in c.canon <==> i <= c.head.header.number
  {
    Climb(c, c.head, 0);
  }

  /** The canonical block at a higher number descends from `h` just when `h` is canonical. */
  lemma CanonicalAbove(c: Chain, h: Hash, n: nat)
    requires Indexed(c) && n in c.canon && h in c.headers && c.headers[h].number < n
    ensures h.HashOf? && h == HashOf(c.headers[h])
    ensures var w := c.canon[n];
      && w in c.headers && w == HashOf(c.headers[w]) && w.header.number == n && |Line(w)| == n + 1
      && Detour(c, w) == 0
      && (Line(w)[h.header.number] == h <==> Detour(c, h) == 0)
  {
    CanonicalStored(c, n);
    CanonicalNumbers(c);
    var w, i := c.canon[n], c.headers[h].number;
    Climb(c, h, i);
    hide Indexed, Detour, Line, Rooted;
    Climb(c, c.head, 0);
    Climb(c, c.head, n);
    Climb(c, w, i);
    Climb(c, c.head, i);
    assert Line(w)[i] == Line(c.head)[..n + 1][i] == c.canon[i];
  }

  /** What one step of a query by hash does. Backwards it climbs `skip + 1` blocks, as far as the
      budget and the root allow; forwards it moves along the canonical line, which it may not leave. */
  ghost predicate Advanced(c: Chain, q: Query, budget: nat, next: Query, left: nat, unknown: bool) {
    var step := q.skip + 1;
    && q.hash in c.headers && q.hash.HashOf? && q.hash.header == c.headers[q.hash]
    && q.number == q.hash.header.number && |Line(q.hash)| == q.number + 1
    && next.skip == q.skip && next.amount == q.amount && next.reverse == q.reverse
    && (!unknown ==> next.hash in c.headers && next.hash == HashOf(c.headers[next.hash]))
    && (!unknown ==> next.hash.header.number == next.number)
    && if q.reverse then
         && (!unknown <==> Reaches(c, q.hash, step, budget))
         && (!unknown ==> next.number == q.number - step && next.hash == Line(q.hash)[next.number])
         && left == BudgetLeft(c, q.hash, step, budget)
       else
         && (!unknown <==> Detour(c, q.hash) == 0 && q.number + step in c.canon)
         && (!unknown ==> next.number == q.number + step && next.hash == c.canon[next.number]
                          && Detour(c, next.hash) == 0
                          && next.number < |Line(next.hash)| && Line(next.hash)[q.number] == q.hash)
  }

  /** A query from `h0` that has covered `covered` blocks. */
  ghost predicate Underway(c: Chain, h0: Hash, covered: nat, q: Query, left: int)
    requires h0.HashOf? && c.head.HashOf?
  {
    var step := q.skip + 1;
    && q.hash in c.headers && q.hash == HashOf(c.headers[q.hash]) && q.number == q.hash.header.number
    && covered <= Reach(c, h0, step, q.reverse)
    && if q.reverse then
         && covered + q.number == h0.header.number < |Line(h0)| && q.hash == Line(h0)[q.number]
         && left == (if step == 1 then MAX_NON_CANONICAL else MAX_NON_CANONICAL - Min(covered, Detour(c, h0)))
       else
         && q.number == h0.header.number + covered
         && Detour(c, q.hash) == Detour(c, h0)
  }

  lemma StaysReverse(c: Chain, h0: Hash, covered: nat, q: Query, budget: nat, next: Query, left: nat, unknown: bool)
    requires Indexed(c) && h0 in c.headers && h0.HashOf? && c.head.HashOf? && q.reverse
    requires Underway(c, h0, covered, q, budget) && Advanced(c, q, budget, next, left, unknown)
    ensures unknown ==> covered + q.skip + 1 > Reach(c, h0, q.skip + 1, true)
    ensures !unknown ==> Underway(c, h0, covered + q.skip + 1, next, left)
    ensures !unknown ==> Adjacent(q.hash.header, next.hash.header, q.skip + 1, true)
  {
    Stored(c, h0);
    DetourEnds(c, h0);
    Climb(c, h0, q.number);
    if !unknown {
      Climb(c, q.hash, next.number);
      hide Indexed, Detour, Line, Rooted;
      assert Line(q.hash)[next.number] == Line(h0)[..q.number + 1][next.number];
    }
  }

  lemma StaysForward(c: Chain, h0: Hash, covered: nat, q: Query, budget: nat, next: Query, left: nat, unknown: bool)
    requires Indexed(c) && h0 in c.headers && h0.HashOf? && c.head.HashOf? && !q.reverse
    requires Underway(c, h0, covered, q, budget) && Advanced(c, q, budget, next, left, unknown)
    ensures unknown ==> covered + q.skip + 1 > Reach(c, h0, q.skip + 1, false)
    ensures !unknown ==> Underway(c, h0, covered + q.skip + 1, next, left)
    ensures !unknown ==> Adjacent(q.hash.header, next.hash.header, q.skip + 1, false)
  {
    CanonicalNumbers(c);
    hide Indexed, Detour, Line, Rooted;
  }

  lemma Stays(c: Chain, h0: Hash, covered: nat, q: Query, budget: nat, next: Query, left: nat, unknown: bool)
    requires Indexed(c) && h0 in c.headers && h0.HashOf? && c.head.HashOf?
    requires Underway(c, h0, covered, q, budget) && Advanced(c, q, budget, next, left, unknown)
    ensures covered <= Reach(c, h0, q.skip + 1, q.reverse)
    ensures unknown ==> covered + q.skip + 1 > Reach(c, h0, q.skip + 1, q.reverse)
    ensures !unknown ==> next.hash in c.headers && next.hash == HashOf(c.headers[next.hash])
    ensures !unknown ==> next.hash.header.number == next.number
    ensures !unknown ==> Underway(c, h0, covered + q.skip + 1, next, left)
    ensures !unknown ==> Adjacent(q.hash.header, next.hash.header, q.skip + 1, q.reverse)
    ensures next.skip == q.skip && next.amount == q.amount && next.reverse == q.reverse
  {
    if q.reverse {
      StaysReverse(c, h0, covered, q, budget, next, left, unknown);
    } else {
      StaysForward(c, h0, covered, q, budget, next, left, unknown);
    }
  }

  lemma BeginsUnderway(c: Chain, q: Query)
    requires Indexed(c) && q.hash in c.headers
    ensures q.hash.HashOf? && c.head.HashOf? && q.hash.header == c.headers[q.hash]
    ensures Reach(c, q.hash, q.skip + 1, q.reverse) >= 0
    ensures Underway(c, q.hash, 0, q.(number := q.hash.header.number), MAX_NON_CANONICAL)
  {
    Climb(c, q.hash, c.headers[q.hash].number);
    CanonicalNumbers(c);
  }

  /** Hash based traversal towards the root. */
  method AdvanceReverse(hc: HeaderChain, q: Query, budget: nat) returns (next: Query, left: nat, unknown: bool)
    requires Reads(hc) && q.reverse && q.hash in hc.headers && hc.headers[q.hash].number == q.number
    ensures Advanced(hc.State(), q, budget, next, left, unknown)
  {
    ghost var c := hc.State();
    Climb(c, q.hash, q.number);
    hide Indexed, Detour, Line, Rooted;
    var ancestor := AddWrap(q.skip, 1);
    if ancestor == 0 {
      return q, budget, true;
    }
    var found, at;
    found, at, left := hc.GetAncestor(q.hash, q.number, ancestor, budget);
    next := q.(hash := found, number := at);
    unknown := found == Zero;
    if Reaches(c, q.hash, ancestor, budget) { Climb(c, q.hash, at); }
  }

  /** Hash based traversal towards the head. */
  method AdvanceForward(hc: HeaderChain, q: Query, budget: nat) returns (next: Query, left: nat, unknown: bool)
    requires Reads(hc) && !q.reverse && q.hash in hc.headers && hc.headers[q.hash].number == q.number
    ensures Advanced(hc.State(), q, budget, next, left, unknown)
  {
    ghost var c := hc.State();
    Climb(c, q.hash, q.number);
    CanonicalNumbers(c);
    hide Indexed, Detour, Line, Rooted;
    var current := q.number;
    var wanted := AddWrap(AddWrap(current, q.skip), 1);
    if wanted <= current || wanted !in hc.canon {
      return q, budget, true;
    }
    var nextHash := hc.canon[wanted];
    CanonicalAbove(c, q.hash, wanted);
    var found, at;
    found, at, left := hc.GetAncestor(nextHash, wanted, AddWrap(q.skip, 1), budget);
    if found == q.hash {
      next, unknown := q.(hash := nextHash, number := wanted), false;
    } else {
      next, unknown := q, true;
    }
  }

  /** One step of a query by hash. */
  method AdvanceByHash(hc: HeaderChain, q: Query, budget: nat) returns (next: Query, left: nat, unknown: bool)
    requires Reads(hc) && q.hash in hc.headers && hc.headers[q.hash].number == q.number
    ensures Advanced(hc.State(), q, budget, next, left, unknown)
  {
    if q.reverse {
      next, left, unknown := AdvanceReverse(hc, q, budget);
    } else {
      next, left, unknown := AdvanceForward(hc, q, budget);
    }
  }

  /** `k` headers into the reply, `covered` blocks have been left behind. */
  ghost predicate Covers(k: nat, step: nat, covered: int) {
    covered == k * step
  }

  lemma CoversNone(step: nat)
    ensures Covers(0, step, 0)
    ensures forall reverse :: Spaced([], step, reverse)
  {
  }

  lemma CoversMore(k: nat, step: nat, covered: int)
    requires Covers(k, step, covered)
    ensures Covers(k + 1, step, covered + step)
  {
    OneMore(k, step);
  }

  lemma SpacedMore(headers: seq<Header>, next: Header, step: nat, reverse: bool)
    requires Spaced(headers, step, reverse)
    requires headers != [] ==> Adjacent(headers[|headers| - 1], next, step, reverse)
    ensures Spaced(headers + [next], step, reverse)
  {
  }

  lemma ReplyLength(k: nat, step: nat, covered: int, reach: int, limit: nat, unknown: bool)
    requires step > 0 && reach >= 0 && k <= limit && Covers(k, step, covered)
    requires k > 0 ==> covered - step <= reach
    requires if unknown then k > 0 && covered > reach else k == limit
    ensures k == FullLength(limit, step, reach)
  {
    Quotient(k, step, reach);
    if k > 0 {
      OneMore(k - 1, step);
      Quotient(k - 1, step, reach);
    }
  }

  /** The headers lie off the canonical line as far as `h` does. */
  ghost predicate SameSide(c: Chain, h: Hash, headers: seq<Header>) {
    forall x :: x in headers ==> Detour(c, HashOf(x)) == Detour(c, h)
  }

  lemma SameSideMore(c: Chain, h: Hash, headers: seq<Header>, next: Hash)
    requires SameSide(c, h, headers) && next.HashOf? && Detour(c, next) == Detour(c, h)
    ensures SameSide(c, h, headers + [next.header])
  {
    hide Detour;
  }

  /** A reply to `query` in the making: `headers` so far, `q` the rest of the query. */
  ghost predicate Answering(c: Chain, query: Query, headers: seq<Header>, covered: nat, q: Query, left: int,
                            unknown: bool)
    requires c.head.HashOf? && query.hash.HashOf?
  {
    var step, reach := query.skip + 1, Reach(c, query.hash, query.skip + 1, query.reverse);
    && q.skip == query.skip && q.amount == query.amount && q.reverse == query.reverse
    && Covers(|headers|, step, covered) && Spaced(headers, step, query.reverse)
    && (forall h :: h in headers ==> HashOf(h) in c.headers)
    && (headers != [] ==> covered - step <= reach && headers[0] == query.hash.header)
    && (headers == [] ==> q.hash == query.hash)
    && (!query.reverse ==> SameSide(c, query.hash, headers))
    && if unknown then headers != [] && covered > reach else
         && q.hash in c.headers && q.hash == HashOf(c.headers[q.hash]) && q.number == q.hash.header.number
         && Underway(c, query.hash, covered, q, left)
         && (headers != [] ==> Adjacent(headers[|headers| - 1], q.hash.header, step, query.reverse))
  }

  lemma AnsweringMore(c: Chain, query: Query, headers: seq<Header>, covered: nat, q: Query, left: nat,
                      next: Query, left': nat, unknown: bool)
    requires Indexed(c) && query.hash in c.headers && query.hash.HashOf? && c.head.HashOf?
    requires Answering(c, query, headers, covered, q, left, false) && Advanced(c, q, left, next, left', unknown)
    ensures Answering(c, query, headers + [c.headers[q.hash]], covered + query.skip + 1, next, left', unknown)
  {
    assert !query.reverse ==> Detour(c, q.hash) == Detour(c, query.hash);
    if !query.reverse { SameSideMore(c, query.hash, headers, q.hash); }
    hide Spaced, Covers, Underway, Advanced, Reach, Adjacent, Indexed, Detour, SameSide;
    Stays(c, query.hash, covered, q, left, next, left', unknown);
    CoversMore(|headers|, query.skip + 1, covered);
    SpacedMore(headers, q.hash.header, query.skip + 1, query.reverse);
  }

  lemma AnsweringBegins(c: Chain, query: Query)
    requires Indexed(c) && query.hash in c.headers
    ensures c.head.HashOf? && query.hash.HashOf? && query.hash.header == c.headers[query.hash]
    ensures Answering(c, query, [], 0, query.(number := query.hash.header.number), MAX_NON_CANONICAL, false)
  {
    BeginsUnderway(c, query);
    CoversNone(query.skip + 1);
  }

  /** What is to be read next. */
  lemma AnsweringNext(c: Chain, query: Query, headers: seq<Header>, covered: nat, q: Query, left: int)
    requires c.head.HashOf? && query.hash.HashOf? && Answering(c, query, headers, covered, q, left, false)
    ensures q.hash in c.headers && q.hash == HashOf(c.headers[q.hash]) && q.number == c.headers[q.hash].number
    ensures headers == [] ==> q.hash == query.hash
  {
  }

  /** What has been read. */
  lemma AnsweringSoFar(c: Chain, query: Query, headers: seq<Header>, covered: nat, q: Query, left: int, unknown: bool)
    requires c.head.HashOf? && query.hash.HashOf? && Answering(c, query, headers, covered, q, left, unknown)
    ensures Covers(|headers|, query.skip + 1, covered) && Spaced(headers, query.skip + 1, query.reverse)
    ensures forall h :: h in headers ==> HashOf(h) in c.headers
    ensures !query.reverse ==> SameSide(c, query.hash, headers)
    ensures headers != [] ==> headers[0] == query.hash.header
    ensures headers != [] ==> covered - query.skip - 1 <= Reach(c, query.hash, query.skip + 1, query.reverse)
    ensures unknown ==> headers != [] && covered > Reach(c, query.hash, query.skip + 1, query.reverse)
  {
    hide Spaced, Covers, Reach, SameSide;
  }

  /** Answers by hash: one line of ancestry, evenly spaced, and as long as the limits, the ends of
      the line and the budget allow. */
  method AnswerByHash(hc: HeaderChain, query: Query) returns (headers: seq<Header>)
    requires Reads(hc)
    ensures hc.State().head.HashOf? && (query.hash in hc.headers ==> query.hash.HashOf?)
    ensures |headers| == if query.hash !in hc.headers then 0 else
      FullLength(Limit(query.amount), query.skip + 1, Reach(hc.State(), query.hash, query.skip + 1, query.reverse))
    ensures headers != [] ==> headers[0] == hc.headers[query.hash]
    ensures Spaced(headers, query.skip + 1, query.reverse)
    ensures forall h :: h in headers ==> HashOf(h) in hc.headers
    ensures !query.reverse && |headers| > 1 ==> forall h :: h in headers ==> Canonical(hc.State(), HashOf(h))
  {
    ghost var c := hc.State();
    CanonicalNumbers(c);
    headers := [];
    var q, unknown, first := query, false, true;
    var left: nat := MAX_NON_CANONICAL;
    ghost var covered: nat := 0;
    if query.hash in hc.headers { AnsweringBegins(c, query); }
    hide Indexed, Limit, Room, FullLength, Reach, Advanced, Answering, Spaced, Covers, SameSide, Detour, Canonical;
    while !unknown && Room(query.amount, |headers|)
      invariant query.hash !in hc.headers ==> headers == [] && !unknown && q == query
      invariant |headers| <= Limit(query.amount)
      invariant first <==> headers == []
      invariant query.hash in hc.headers ==>
        Answering(c, query, headers, covered, if first then q.(number := query.hash.header.number) else q, left,
          unknown)
      decreases Limit(query.amount) - |headers|
    {
      RoomIsLimit(query.amount, |headers|);
      if query.hash in hc.headers {
        AnsweringNext(c, query, headers, covered, if first then q.(number := query.hash.header.number) else q, left);
      }
      if q.hash !in hc.headers {
        break;
      }
      var origin := hc.headers[q.hash];
      if first {
        first := false;
        q := q.(number := origin.number);
      }
      ghost var held, was, budget := headers, q, left;
      headers := headers + [origin];
      q, left, unknown := AdvanceByHash(hc, q, left);
      AnsweringMore(c, query, held, covered, was, budget, q, left, unknown);
      covered := covered + query.skip + 1;
    }
    RoomIsLimit(query.amount, |headers|);
    if query.hash in hc.headers {
      AnswerEnds(c, query, headers, covered, if first then q.(number := query.hash.header.number) else q, left,
        unknown);
    } else {
      CoversNone(query.skip + 1);
    }
  }

  lemma AnswerEnds(c: Chain, query: Query, headers: seq<Header>, covered: nat, q: Query, left: nat, unknown: bool)
    requires Indexed(c) && query.hash in c.headers && c.head.HashOf? && query.hash.HashOf?
    requires Answering(c, query, headers, covered, q, left, unknown)
    requires |headers| <= Limit(query.amount) && (!unknown ==> |headers| == Limit(query.amount))
    ensures |headers| ==
      FullLength(Limit(query.amount), query.skip + 1, Reach(c, query.hash, query.skip + 1, query.reverse))
    ensures headers != [] ==> headers[0] == c.headers[query.hash]
    ensures Spaced(headers, query.skip + 1, query.reverse) && forall h :: h in headers ==> HashOf(h) in c.headers
    ensures !query.reverse && |headers| > 1 ==> forall h :: h in headers ==> Canonical(c, HashOf(h))
  {
    BeginsUnderway(c, query);
    hide Indexed, Limit, FullLength, Reach, Answering, Spaced, Covers, SameSide, Detour, Canonical;
    AnsweringSoFar(c, query, headers, covered, q, left, unknown);
    ReplyLength(|headers|, query.skip + 1, covered, Reach(c, query.hash, query.skip + 1, query.reverse),
                Limit(query.amount), unknown);
    if |headers| > 1 && !query.reverse { OnCanonical(c, query, headers, covered); }
  }

  /** A forward reply that gets beyond its origin stays on the canonical line. */
  lemma OnCanonical(c: Chain, query: Query, headers: seq<Header>, covered: nat)
    requires query.hash.HashOf? && c.head.HashOf? && |headers| > 1 && !query.reverse
    requires Covers(|headers|, query.skip + 1, covered)
    requires covered - query.skip - 1 <= Reach(c, query.hash, query.skip + 1, false)
    requires SameSide(c, query.hash, headers)
    ensures forall h :: h in headers ==> Canonical(c, HashOf(h))
  {
    OneMore(|headers| - 1, query.skip + 1);
    Scales(1, |headers| - 1, query.skip + 1);
  }

  /** The next number a query by number asks for. */
  function NextNumber(number: uint64, skip: uint64, reverse: bool): Option<uint64> {
    var step := AddWrap(skip, 1);
    if !reverse then Some(AddWrap(number, step))
    else if number >= step then Some(number - step)
    else None
  }

  ghost predicate Follows(a: Header, b: Header, q: Query) {
    NextNumber(a.number, q.skip, q.reverse) == Some(b.number)
  }

  /** Canonical headers at the numbers the query runs through, until the limit is reached, the
      numbers run out or nothing canonical has the next number. */
  ghost predicate NumberReply(c: Chain, q: Query, headers: seq<Header>) {
    && |headers| <= Limit(q.amount)
    && (forall h :: h in headers ==> Canonical(c, HashOf(h)))
    && (headers != [] ==> headers[0].number == q.number)
    && (forall i, j {:trigger headers[i], headers[j]} | 0 <= i < j < |headers| && j == i + 1 :: Follows(headers[i],
      headers[j], q))
    && (|headers| < Limit(q.amount) ==>
          if headers == [] then q.number !in c.canon
          else var next := NextNumber(headers[|headers| - 1].number, q.skip, q.reverse);
            next.None? || next.value !in c.canon)
  }

  method AnswerByNumber(hc: HeaderChain, query: Query) returns (headers: seq<Header>)
    requires Reads(hc)
    ensures NumberReply(hc.State(), query, headers)
  {
    ghost var c := hc.State();
    headers := [];
    var number: uint64, unknown := query.number, false;
    hide Indexed, Limit, Room;
    while !unknown && Room(query.amount, |headers|)
      invariant |headers| <= Limit(query.amount)
      invariant forall h :: h in headers ==> Canonical(c, HashOf(h))
      invariant headers == [] ==> number == query.number && !unknown
      invariant headers != [] ==> headers[0].number == query.number
      invariant headers != [] ==>
        NextNumber(headers[|headers| - 1].number, query.skip, query.reverse) == if unknown then None else Some(number)
      invariant forall i, j {:trigger headers[i], headers[j]} | 0 <= i < j < |headers| && j == i + 1 ::
        Follows(headers[i], headers[j], query)
      decreases Limit(query.amount) - |headers|
    {
      RoomIsLimit(query.amount, |headers|);
      if number !in hc.canon {
        break;
      }
      CanonicalStored(c, number);
      var origin := hc.headers[hc.canon[number]];
      headers := headers + [origin];
      if query.reverse {
        if number >= AddWrap(query.skip, 1) {
          number := number - AddWrap(query.skip, 1);
        } else {
          unknown := true;
        }
      } else {
        number := AddWrap(number, AddWrap(query.skip, 1));
      }
    }
    RoomIsLimit(query.amount, |headers|);
  }

  /** The reply to a query: by hash unless the hash is empty. */
  method Answer(hc: HeaderChain, query: Query) returns (headers: seq<Header>)
    requires Reads(hc)
    ensures query.hash == Zero ==> NumberReply(hc.State(), query, headers)
    ensures query.hash != Zero ==> Spaced(headers, query.skip + 1, query.reverse)
    ensures hc.State().head.HashOf? && (query.hash in hc.headers ==> query.hash.HashOf?)
    ensures query.hash != Zero ==> |headers| == if query.hash !in hc.headers then 0 else
      FullLength(Limit(query.amount), query.skip + 1, Reach(hc.State(), query.hash, query.skip + 1, query.reverse))
    ensures query.hash != Zero && headers != [] ==> headers[0] == hc.headers[query.hash]
    ensures |headers| <= Limit(query.amount)
    ensures forall h :: h in headers ==> HashOf(h) in hc.headers
    ensures query.hash != Zero && !query.reverse && |headers| > 1 ==>
      forall h :: h in headers ==> Canonical(hc.State(), HashOf(h))
  {
    CanonicalNumbers(hc.State());
    if query.hash in hc.headers { BeginsUnderway(hc.State(), query); }
    if query.hash != Zero {
      headers := AnswerByHash(hc, query);
    } else {
      headers := AnswerByNumber(hc, query);
      forall h | h in headers ensures HashOf(h) in hc.headers {
        CanonicalStored(hc.State(), h.number);
      }
    }
  }

  /** Canonical headers lie on one line. */
  lemma CanonicalAdjacent(c: Chain, a: Header, b: Header)
    requires Indexed(c) && Canonical(c, HashOf(a)) && Canonical(c, HashOf(b)) && a.number <= b.number
    ensures Adjacent(a, b, b.number - a.number, false)
    ensures Adjacent(b, a, b.number - a.number, true)
    ensures a.number == b.number ==> a == b
  {
    CanonicalStored(c, a.number);
    CanonicalStored(c, b.number);
    Climb(c, c.head, b.number);
    assert Line(HashOf(b))[a.number] == Line(c.head)[..b.number + 1][a.number];
  }

  /** A query by number towards the root is evenly spaced exactly when the step does not wrap to
      nothing; with the largest skip the same header is repeated to the limit. */
  lemma NumberReverseSpaced(c: Chain, q: Query, headers: seq<Header>)
    requires Indexed(c) && NumberReply(c, q, headers) && q.reverse
    ensures Spaced(headers, q.skip + 1, true) <==>
      q.skip < MAX_UINT64 || Limit(q.amount) <= 1 || q.number !in c.canon
    ensures q.skip == MAX_UINT64 ==> forall h :: h in headers ==> h == headers[0]
    ensures q.skip == MAX_UINT64 && q.number in c.canon ==> |headers| == Limit(q.amount)
  {
    if q.skip < MAX_UINT64 {
      forall i, j | 0 <= i < j < |headers| && j == i + 1 ensures Adjacent(headers[i], headers[j], q.skip + 1, true) {
        assert Follows(headers[i], headers[j], q);
        assert Canonical(c, HashOf(headers[i])) && Canonical(c, HashOf(headers[j]));
        CanonicalAdjacent(c, headers[j], headers[i]);
      }
    } else {
      forall i | 0 <= i < |headers| ensures headers[i] == headers[0] { NumberRepeats(c, q, headers, i); }
      if |headers| > 1 {
        assert headers[0] == headers[1] && Canonical(c, HashOf(headers[0]));
        assert !Adjacent(headers[0], headers[1], q.skip + 1, true);
      } else if headers != [] {
        assert NextNumber(headers[0].number, q.skip, true) == Some(q.number);
      }
    }
  }

  lemma {:induction false} NumberRepeats(c: Chain, q: Query, headers: seq<Header>, i: nat)
    requires Indexed(c) && NumberReply(c, q, headers) && q.reverse && q.skip == MAX_UINT64 && i < |headers|
    ensures headers[i] == headers[0] && headers[0].number in c.canon
  {
    assert Canonical(c, HashOf(headers[i]));
    if i > 0 {
      NumberRepeats(c, q, headers, i - 1);
      assert Follows(headers[i - 1], headers[i], q);
      CanonicalAdjacent(c, headers[i - 1], headers[i]);
    }
  }

  /** The number after `k` steps, without wrapping. */
  function NumberAfter(q: Query, k: nat): int {
    q.number + k * (q.skip + 1)
  }

  function WholeSteps(d: nat, step: nat): nat
    requires step > 0
  {
    d / step
  }

  lemma WholeStepsFit(d: nat, q: Query)
    ensures var whole := WholeSteps(d, q.skip + 1);
      NumberAfter(q, whole) <= q.number + d < NumberAfter(q, whole + 1)
  {
    var step := q.skip + 1;
    assert (d / step) * step <= d < (d / step + 1) * step;
  }

  /** Whether the number of a forward query runs past 2^64 while the reply still has room: the step
      after the last one that stays below the head. */
  ghost predicate Wraps(c: Chain, q: Query)
    requires c.head.HashOf?
  {
    q.number in c.canon && q.number <= c.head.header.number
    && var whole := WholeSteps(c.head.header.number - q.number, q.skip + 1);
      whole + 1 < Limit(q.amount) && NumberAfter(q, whole + 1) >= TWO_64
  }

  /** Numbers do wrap: with only the genesis block to be had, the query for two headers from 0 on, leaving
      out 2^64 - 1 between them, is answered with the genesis block twice. */
  lemma WrapHappens(genesis: Header) returns (q: Query, headers: seq<Header>)
    requires IsGenesis(HashOf(genesis))
    ensures var c := Born(genesis);
      && Indexed(c) && c.head.HashOf? && !q.reverse && Wraps(c, q) && NumberReply(c, q, headers)
      && headers == [genesis, genesis]
  {
    BornSound(genesis);
    q := Query(HashOf(genesis), 0, 2, MAX_UINT64, false);
    headers := [genesis, genesis];
    assert Canonical(Born(genesis), HashOf(genesis));
    assert WholeSteps(0, q.skip + 1) == 0;
    assert Follows(genesis, genesis, q);
  }

  /** Up to the head the numbers of a forward reply are exact. */
  lemma {:induction false} NumberAt(c: Chain, q: Query, headers: seq<Header>, i: nat, whole: nat)
    requires Indexed(c) && NumberReply(c, q, headers) && !q.reverse && c.head.HashOf?
    requires i < |headers| && i <= whole && NumberAfter(q, whole) <= c.head.header.number
    ensures headers[i].number == NumberAfter(q, i)
  {
    Scales(i, whole, q.skip + 1);
    if i > 0 {
      NumberAt(c, q, headers, i - 1, whole);
      OneMore(i - 1, q.skip + 1);
      assert Follows(headers[i - 1], headers[i], q);
    }
  }

  /** A reply that ends at or below the head with room to spare did not meet a wrapping number. */
  lemma NumberStops(c: Chain, q: Query, headers: seq<Header>, whole: nat)
    requires Indexed(c) && NumberReply(c, q, headers) && !q.reverse && c.head.HashOf?
    requires 0 < |headers| <= whole + 1 && whole + 1 < Limit(q.amount)
    requires NumberAfter(q, whole) <= c.head.header.number
    requires headers[|headers| - 1].number == NumberAfter(q, |headers| - 1)
    ensures NumberAfter(q, whole + 1) < TWO_64
  {
    CanonicalNumbers(c);
    var k, step := |headers| - 1, q.skip + 1;
    OneMore(whole, step);
    OneMore(k, step);
    if k < whole {
      Scales(k + 1, whole, step);
    }
  }

  lemma NumbersExact(c: Chain, q: Query, headers: seq<Header>, whole: nat)
    requires Indexed(c) && NumberReply(c, q, headers) && !q.reverse && c.head.HashOf?
    requires |headers| <= whole + 1 && NumberAfter(q, whole) <= c.head.header.number
    ensures Spaced(headers, q.skip + 1, false)
  {
    forall i, j | 0 <= i < j < |headers| && j == i + 1 ensures Adjacent(headers[i], headers[j], q.skip + 1, false) {
      NumberAt(c, q, headers, i, whole);
      NumberAt(c, q, headers, j, whole);
      OneMore(i, q.skip + 1);
      assert Canonical(c, HashOf(headers[i])) && Canonical(c, HashOf(headers[j]));
      CanonicalAdjacent(c, headers[i], headers[j]);
    }
  }

  /** A header beyond the last whole step can only come from a wrapped number. */
  lemma NumberPassesHead(c: Chain, q: Query, headers: seq<Header>, whole: nat)
    requires Indexed(c) && NumberReply(c, q, headers) && !q.reverse && c.head.HashOf?
    requires whole + 1 < |headers| && headers[whole].number == NumberAfter(q, whole)
    requires c.head.header.number < NumberAfter(q, whole + 1)
    ensures NumberAfter(q, whole + 1) >= TWO_64
    ensures !Spaced(headers, q.skip + 1, false)
  {
    CanonicalNumbers(c);
    OneMore(whole, q.skip + 1);
    var a, b := headers[whole], headers[whole + 1];
    assert Follows(a, b, q) && Canonical(c, HashOf(b));
    assert !Adjacent(a, b, q.skip + 1, false);
  }

  /** A query by number towards the head is evenly spaced exactly when its number does not wrap. */
  lemma NumberForwardSpaced(c: Chain, q: Query, headers: seq<Header>)
    requires Indexed(c) && NumberReply(c, q, headers) && !q.reverse
    ensures c.head.HashOf?
    ensures Spaced(headers, q.skip + 1, false) <==> !Wraps(c, q)
  {
    CanonicalNumbers(c);
    if headers != [] {
      assert Canonical(c, HashOf(headers[0]));
      CanonicalStored(c, q.number);
      var whole := WholeSteps(c.head.header.number - q.number, q.skip + 1);
      WholeStepsFit(c.head.header.number - q.number, q);
      hide WholeSteps, NumberAfter, Indexed, NumberReply, Spaced, Limit;
      assert headers[0].number == q.number && |headers| <= Limit(q.amount);
      if |headers| <= whole + 1 {
        NumbersExact(c, q, headers, whole);
        NumberAt(c, q, headers, |headers| - 1, whole);
        if whole + 1 < Limit(q.amount) { NumberStops(c, q, headers, whole); }
      } else {
        NumberAt(c, q, headers, whole, whole);
        NumberPassesHead(c, q, headers, whole);
      }
    }
  }
}
