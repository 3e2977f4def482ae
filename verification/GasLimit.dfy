/** The gas limit a miner proposes for the next block. */
module GasLimits {
  import opened Types

  const GAS_LIMIT_BOUND_DIVISOR: nat := 1024
  const MIN_GAS_LIMIT: nat := 5000

  /** Subtraction of two uint64 values as the machine performs it. */
  function SubWrap(x: uint64, y: uint64): uint64 {
    if x >= y then x - y else x - y + TWO_64
  }

  /** The computation in machine arithmetic, wrap-around included. */
  function CalcGasLimit(gasUsed: uint64, gasLimit: uint64, gasFloor: uint64, gasCeil: uint64): uint64 {
    var contrib := AddWrap(gasUsed, gasUsed / 2) / GAS_LIMIT_BOUND_DIVISOR;
    var decay := SubWrap(gasLimit / GAS_LIMIT_BOUND_DIVISOR, 1);
    var limit := AddWrap(SubWrap(gasLimit, decay), contrib);
    var atLeast := if limit < MIN_GAS_LIMIT then MIN_GAS_LIMIT else limit;
    if atLeast < gasFloor then
      var up := AddWrap(gasLimit, decay);
      if up > gasFloor then gasFloor else up
    else if atLeast > gasCeil then
      var down := SubWrap(gasLimit, decay);
      if down < gasCeil then gasCeil else down
    else atLeast
  }

  /** Limits for which the steps are not empty and nothing wraps around. */
  predicate Workable(gasLimit: int, gasFloor: int, gasCeil: int) {
    2 * GAS_LIMIT_BOUND_DIVISOR <= gasLimit < TWO_64 / 2
    && 0 <= gasFloor <= gasCeil < TWO_64 / 2 && 2 * GAS_LIMIT_BOUND_DIVISOR <= gasCeil
  }

  /** How far a limit is outside the range asked for. */
  function Distance(gasLimit: int, gasFloor: int, gasCeil: int): int {
    if gasLimit < gasFloor then gasFloor - gasLimit
    else if gasLimit > gasCeil then gasLimit - gasCeil
    else 0
  }

  /** The same on unbounded numbers. */
  function ExactGasLimit(gasUsed: int, gasLimit: int, gasFloor: int, gasCeil: int): int {
    var contrib := (gasUsed + gasUsed / 2) / GAS_LIMIT_BOUND_DIVISOR;
    var decay := gasLimit / GAS_LIMIT_BOUND_DIVISOR - 1;
    var limit := Max(gasLimit - decay + contrib, MIN_GAS_LIMIT);
    if limit < gasFloor then Min(gasLimit + decay, gasFloor)
    else if limit > gasCeil then Max(gasLimit - decay, gasCeil)
    else limit
  }

  /** What every verifier demands of a header's gas limit, given its parent's. */
  predicate Acceptable(parent: int, gasLimit: int) {
    && MIN_GAS_LIMIT <= gasLimit < TWO_64 / 2
    && -(parent / GAS_LIMIT_BOUND_DIVISOR) < gasLimit - parent < parent / GAS_LIMIT_BOUND_DIVISOR
  }

  /** A parent with a small limit that is nearly used up, where the range asked for lets the limit rise
      by as much as it may at most. */
  predicate Overshoots(gasUsed: int, gasLimit: int, gasFloor: int, gasCeil: int) {
    gasLimit < 5 * GAS_LIMIT_BOUND_DIVISOR && 7 * GAS_LIMIT_BOUND_DIVISOR <= gasUsed + gasUsed / 2
    && gasFloor <= gasLimit + 4 <= gasCeil
  }

  /** A parent at the least limit there is, where the range asked for lies below it. */
  predicate Undershoots(gasLimit: int, gasCeil: int) {
    gasLimit < MIN_GAS_LIMIT + 3 && gasCeil < MIN_GAS_LIMIT
  }

  /** The limit proposed is acceptable to verifiers, except in two cases at the lower end of all limits. */
  lemma ProposalAcceptable(gasUsed: uint64, gasLimit: uint64, gasFloor: uint64, gasCeil: uint64)
    requires Workable(gasLimit, gasFloor, gasCeil) && gasUsed <= gasLimit && MIN_GAS_LIMIT <= gasLimit
    ensures Acceptable(gasLimit, CalcGasLimit(gasUsed, gasLimit, gasFloor, gasCeil)) <==>
      !Overshoots(gasUsed, gasLimit, gasFloor, gasCeil) && !Undershoots(gasLimit, gasCeil)
  {
    StepApproaches(gasUsed, gasLimit, gasFloor, gasCeil);
    hide CalcGasLimit;
    var q, contrib := gasLimit / GAS_LIMIT_BOUND_DIVISOR, (gasUsed + gasUsed / 2) / GAS_LIMIT_BOUND_DIVISOR;
    assert 4 <= q && q * GAS_LIMIT_BOUND_DIVISOR <= gasLimit < (q + 1) * GAS_LIMIT_BOUND_DIVISOR;
    assert 2 * contrib * GAS_LIMIT_BOUND_DIVISOR <= 3 * gasLimit;
    assert 5 <= q ==> contrib <= 2 * q - 2;
  }

  /** Two proposals verifiers reject. */
  lemma ProposalsRejected()
    ensures !Acceptable(5119, CalcGasLimit(5119, 5119, 0, 8_000_000))
    ensures !Acceptable(5000, CalcGasLimit(0, 5000, 0, 4000))
  {
  }

  /** Nothing wraps around, and the limit gets nearer to the range or stays inside it. */
  lemma StepApproaches(gasUsed: uint64, gasLimit: uint64, gasFloor: uint64, gasCeil: uint64)
    requires Workable(gasLimit, gasFloor, gasCeil) && gasUsed <= gasLimit
    ensures CalcGasLimit(gasUsed, gasLimit, gasFloor, gasCeil) == ExactGasLimit(gasUsed, gasLimit, gasFloor, gasCeil)
    ensures var next := CalcGasLimit(gasUsed, gasLimit, gasFloor, gasCeil);
      && Workable(next, gasFloor, gasCeil)
      && (Distance(gasLimit, gasFloor, gasCeil) == 0 ==> Distance(next, gasFloor, gasCeil) == 0)
      && (Distance(gasLimit, gasFloor, gasCeil) > 0 ==> Distance(next, gasFloor, gasCeil) < Distance(gasLimit,
        gasFloor, gasCeil))
  {
    var third := gasLimit / GAS_LIMIT_BOUND_DIVISOR;
    assert 2 <= third && third * GAS_LIMIT_BOUND_DIVISOR <= gasLimit;
  }

  /** Which way the limit goes: inside the range by what the block used, three halves of it against the limit
      itself; outside it towards the range, by a 1024th of the limit less one, but not past its end. */
  lemma StepDirection(gasUsed: uint64, gasLimit: uint64, gasFloor: uint64, gasCeil: uint64)
    requires Workable(gasLimit, gasFloor, gasCeil) && gasUsed <= gasLimit
    ensures var next := CalcGasLimit(gasUsed, gasLimit, gasFloor, gasCeil);
      var step := gasLimit / 1024 - 1;
      var demand := gasLimit - step + (3 * gasUsed / 2) / 1024;
      && (demand < gasFloor && 5000 < gasFloor ==>
            next == if gasLimit + step < gasFloor then gasLimit + step else gasFloor)
      && (demand > gasCeil && 5000 <= demand ==> next == if gasCeil < gasLimit - step then gasLimit - step else gasCeil)
      && (gasFloor <= demand <= gasCeil && 5000 <= demand ==>
            next == demand && (next >= gasLimit <==> 3 * gasUsed / 2 >= 1024 * step))
      && (demand < 5000 && gasFloor <= 5000 <= gasCeil ==> next == 5000)
  {
    StepApproaches(gasUsed, gasLimit, gasFloor, gasCeil);
    hide CalcGasLimit;
    assert 3 * gasUsed / 2 == gasUsed + gasUsed / 2;
  }

  /** The limit after a run of blocks with the given usage. */
  function Iterated(gasLimit: uint64, used: seq<uint64>, gasFloor: uint64, gasCeil: uint64): uint64
    decreases |used|
  {
    if used == [] then gasLimit
    else Iterated(CalcGasLimit(used[0], gasLimit, gasFloor, gasCeil), used[1..], gasFloor, gasCeil)
  }

  /** No block uses more than its limit. */
  predicate WithinLimits(gasLimit: uint64, used: seq<uint64>, gasFloor: uint64, gasCeil: uint64)
    decreases |used|
  {
    used != [] ==>
      && used[0] <= gasLimit
      && WithinLimits(CalcGasLimit(used[0], gasLimit, gasFloor, gasCeil), used[1..], gasFloor, gasCeil)
  }

  /** Whatever the blocks use, the limit is in the range after as many blocks as it was outside it by,
      and from then on. */
  lemma {:induction false} Converges(gasLimit: uint64, used: seq<uint64>, gasFloor: uint64, gasCeil: uint64)
    requires Workable(gasLimit, gasFloor, gasCeil) && WithinLimits(gasLimit, used, gasFloor, gasCeil)
    requires |used| >= Distance(gasLimit, gasFloor, gasCeil)
    ensures gasFloor <= Iterated(gasLimit, used, gasFloor, gasCeil) <= gasCeil
    decreases |used|
  {
    if used != [] {
      StepApproaches(used[0], gasLimit, gasFloor, gasCeil);
      Converges(CalcGasLimit(used[0], gasLimit, gasFloor, gasCeil), used[1..], gasFloor, gasCeil);
    }
  }
}
