/** Section indexing: a background loop turns confirmed stretches of the canonical chain into
    sections while notifications of new heads and reorganisations arrive in between. */
module ChainIndexers {
  import opened Types
  import opened Ancestry

  /** A section being processed outside the lock: the head it must build on, the next block number
      to read and the last header read. */
  datatype Work = Work(section: nat, oldHead: Hash, number: nat, lastHead: Hash, failed: bool)

  datatype Index = Index(stored: nat, known: nat, cascaded: int, heads: map<nat, Hash>, work: Option<Work>)

  datatype Config = Config(sectionSize: nat, confirmsReq: nat)

  /** The header reached by `k` parent steps. */
  ghost function Up(h: Hash, k: nat): Hash {
    if k == 0 || h.Zero? then h else Up(h.header.parentHash, k - 1)
  }

  /** A section head not in the database reads as the empty hash. */
  function SectionHead(heads: map<nat, Hash>, section: int): Hash {
    if section >= 0 && section in heads then heads[section] else Zero
  }

  /** Heads for exactly the stored sections, each `size` headers above the one before it. */
  ghost predicate Linked(heads: map<nat, Hash>, stored: nat, size: nat) {
    && (forall i: nat :: i in heads <==> i < stored)
    && forall i: nat {:trigger LinkedAt(heads, i, size)} | i < stored :: LinkedAt(heads, i, size)
  }

  ghost predicate LinkedAt(heads: map<nat, Hash>, i: nat, size: nat) {
    && i in heads && heads[i].HashOf? && heads[i].header.number + 1 == (i + 1) * size
    && Up(heads[i], size) == SectionHead(heads, i - 1)
  }

  /** The headers read so far lead down to the head of the section before. */
  ghost predicate Reading(w: Work, size: nat) {
    && (w.section == 0 <==> w.oldHead == Zero)
    && w.section * size <= w.number <= (w.section + 1) * size
    && Up(w.lastHead, w.number - w.section * size) == w.oldHead
    && (w.number > w.section * size ==> w.lastHead.HashOf? && w.lastHead.header.number + 1 == w.number)
  }

  ghost predicate Valid(ix: Index, cfg: Config) {
    && cfg.sectionSize > 0
    && Linked(ix.heads, ix.stored, cfg.sectionSize)
    && (ix.work.Some? ==> Reading(ix.work.value, cfg.sectionSize) && ix.stored <= ix.work.value.section)
  }

  /** The number of sections is set to `n`, and the heads of the stored ones from there on are removed. */
  function Truncated(ix: Index, n: nat): Index {
    ix.(stored := n, heads := map i | i in ix.heads && !(n <= i < ix.stored) :: ix.heads[i])
  }

  /** A notification: a reorganisation invalidates everything above the common ancestor `head`, a new
      head makes sections known once they have enough confirmations. */
  function Notified(ix: Index, cfg: Config, head: nat, reorg: bool): Index
    requires cfg.sectionSize > 0
  {
    if reorg then
      var known := head / cfg.sectionSize;
      var cut := if known < ix.stored then Truncated(ix, known) else ix;
      cut.(known := Min(known, ix.known), cascaded := Min(known * cfg.sectionSize, ix.cascaded))
    else if head >= cfg.confirmsReq then
      var sections := (head + 1 - cfg.confirmsReq) / cfg.sectionSize;
      ix.(known := if sections > ix.known then sections else ix.known)
    else ix
  }

  /** The update loop takes up the next section. */
  function Begun(ix: Index, cfg: Config): Index {
    var oldHead := SectionHead(ix.heads, ix.stored - 1);
    ix.(work := Some(Work(ix.stored, oldHead, ix.stored * cfg.sectionSize, oldHead, false)))
  }

  /** One header is read from the chain as it is now; a missing header, or one that does not continue
      the last one, ends the processing. */
  function Read(w: Work, canonical: Hash): Work {
    if canonical.Zero? || canonical.header.number != w.number || canonical.header.parentHash != w.lastHead
    then w.(failed := true)
    else w.(number := w.number + 1, lastHead := canonical)
  }

  /** The end of processing, under the lock again: the section counts unless something failed or the
      section below it is no longer the one built on. */
  function Ended(ix: Index, cfg: Config): Index
    requires ix.work.Some?
  {
    var w := ix.work.value;
    if !w.failed && w.oldHead == SectionHead(ix.heads, w.section - 1) then
      Truncated(ix.(heads := ix.heads[w.section := w.lastHead]), w.section + 1)
        .(work := None, cascaded := (w.section + 1) * cfg.sectionSize - 1)
    else ix.(work := None, known := ix.stored)
  }

  /** What can happen, one locked or atomic step at a time. `canonical` is whatever the chain holds at
      the number asked for at that moment. The clearing of all sections after a failed reset, which takes no
      lock, is one step here, as it is as long as no reorganisation cuts sections meanwhile. */
  datatype Action =
    | NewHead(head: nat, reorg: bool)
    | Begin
    | ResetError
    | ReadNext(canonical: Hash)
    | BackendError
    | Finish

  predicate Enabled(ix: Index, cfg: Config, a: Action) {
    match a
    case NewHead(_, _) => true
    case Begin => ix.work.None? && ix.known > ix.stored
    case ResetError => ix.work.Some? && !ix.work.value.failed && AtStart(ix.work.value, cfg.sectionSize)
    case ReadNext(_) => ix.work.Some? && !ix.work.value.failed && !AtEnd(ix.work.value, cfg.sectionSize)
    case BackendError => ix.work.Some?
    case Finish => ix.work.Some? && (ix.work.value.failed || AtEnd(ix.work.value, cfg.sectionSize))
  }

  predicate AtStart(w: Work, size: nat) {
    w.number == w.section * size
  }

  predicate AtEnd(w: Work, size: nat) {
    w.number >= (w.section + 1) * size
  }

  function Next(ix: Index, cfg: Config, a: Action): Index
    requires cfg.sectionSize > 0 && Enabled(ix, cfg, a)
  {
    match a
    case NewHead(head, reorg) => Notified(ix, cfg, head, reorg)
    case Begin => Begun(ix, cfg)
    case ResetError => Truncated(ix, 0).(work := Some(ix.work.value.(failed := true)))
    case ReadNext(canonical) => ix.(work := Some(Read(ix.work.value, canonical)))
    case BackendError => ix.(work := Some(ix.work.value.(failed := true)))
    case Finish => Ended(ix, cfg)
  }

  function Initial(): Index {
    Index(0, 0, 0, map[], None)
  }

  lemma TruncatedLinked(ix: Index, n: nat, size: nat)
    requires Linked(ix.heads, ix.stored, size) && n <= ix.stored
    ensures Linked(Truncated(ix, n).heads, n, size)
  {
    var heads := Truncated(ix, n).heads;
    forall i: nat | i < n ensures LinkedAt(heads, i, size) {
      assert heads[i] == ix.heads[i] && LinkedAt(ix.heads, i, size);
    }
  }

  /** Reading one more header keeps the way back to the section below. */
  lemma ReadKeeps(w: Work, size: nat, canonical: Hash)
    requires size > 0 && Reading(w, size) && w.number < (w.section + 1) * size
    ensures Reading(Read(w, canonical), size)
  {
  }

  lemma LinkedMore(heads: map<nat, Hash>, stored: nat, size: nat, h: Hash)
    requires Linked(heads, stored, size)
    requires h.HashOf? && h.header.number + 1 == (stored + 1) * size && Up(h, size) == SectionHead(heads, stored - 1)
    ensures Linked(heads[stored := h], stored + 1, size)
  {
    var now := heads[stored := h];
    forall i: nat | i < stored + 1 ensures LinkedAt(now, i, size) {
      if i < stored { assert now[i] == heads[i] && LinkedAt(heads, i, size); }
    }
  }

  /** When a section completes, the heads stored are linked up to and including it. */
  lemma EndedKeeps(ix: Index, cfg: Config)
    requires Valid(ix, cfg) && Enabled(ix, cfg, Finish)
    ensures Valid(Ended(ix, cfg), cfg)
  {
    var w, size := ix.work.value, cfg.sectionSize;
    if !w.failed && w.oldHead == SectionHead(ix.heads, w.section - 1) {
      assert ix.stored == w.section;
      SectionEnd(w.section, size);
      assert (w.section + 1) * size > w.section * size;
      LinkedMore(ix.heads, w.section, size, w.lastHead);
      assert Ended(ix, cfg).heads == ix.heads[w.section := w.lastHead];
    }
  }

  /** A section that may complete is the next one, and has been read to its end. */
  lemma CompletedAtEnd(ix: Index, cfg: Config)
    requires Valid(ix, cfg) && Enabled(ix, cfg, Finish) && !ix.work.value.failed
    requires ix.work.value.oldHead == SectionHead(ix.heads, ix.work.value.section - 1)
    ensures var w, d := ix.work.value, Ended(ix, cfg);
      && ix.stored == w.section && w.number == (w.section + 1) * cfg.sectionSize > w.section * cfg.sectionSize
      && w.lastHead.HashOf?
      && d.stored == w.section + 1 && d.heads == ix.heads[w.section := w.lastHead]
  {
    var w := ix.work.value;
    SectionEnd(w.section, cfg.sectionSize);
    assert ix.stored == w.section;
    assert Ended(ix, cfg).heads == ix.heads[w.section := w.lastHead];
  }

  lemma SectionEnd(section: nat, size: nat)
    ensures (section + 1) * size - section * size == size
  {
  }

  lemma BegunKeeps(ix: Index, cfg: Config)
    requires Valid(ix, cfg)
    ensures Valid(Begun(ix, cfg), cfg)
  {
    var w := Begun(ix, cfg).work.value;
    SectionEnd(w.section, cfg.sectionSize);
    if w.section > 0 {
      assert LinkedAt(ix.heads, w.section - 1, cfg.sectionSize) by { assert ix.heads[w.section - 1] == w.oldHead; }
    }
  }

  lemma NotifiedKeeps(ix: Index, cfg: Config, head: nat, reorg: bool)
    requires Valid(ix, cfg)
    ensures Valid(Notified(ix, cfg, head, reorg), cfg)
  {
    var known := head / cfg.sectionSize;
    if reorg && known < ix.stored { TruncatedLinked(ix, known, cfg.sectionSize); }
  }

  lemma NextKeepsValid(ix: Index, cfg: Config, a: Action)
    requires Valid(ix, cfg) && Enabled(ix, cfg, a)
    ensures Valid(Next(ix, cfg, a), cfg)
  {
    match a
    case NewHead(head, reorg) => NotifiedKeeps(ix, cfg, head, reorg);
    case Begin => BegunKeeps(ix, cfg);
    case ResetError => TruncatedLinked(ix, 0, cfg.sectionSize);
    case ReadNext(canonical) => ReadKeeps(ix.work.value, cfg.sectionSize, canonical);
    case BackendError =>
    case Finish => EndedKeeps(ix, cfg);
  }

  ghost predicate IsRun(run: seq<Index>, actions: seq<Action>, cfg: Config)
    requires cfg.sectionSize > 0
  {
    && |run| == |actions| + 1 && run[0] == Initial()
    && forall i {:trigger actions[i]} | 0 <= i < |actions| ::
         Enabled(run[i], cfg, actions[i]) && run[i + 1] == Next(run[i], cfg, actions[i])
  }

  /** In every interleaving of these steps the section heads exist for exactly the stored sections and each
      descends from the one before by exactly one section. */
  lemma {:induction false} RunKeepsValid(run: seq<Index>, actions: seq<Action>, cfg: Config, i: nat)
    requires cfg.sectionSize > 0 && IsRun(run, actions, cfg) && i < |run|
    ensures Valid(run[i], cfg)
  {
    if i > 0 {
      RunKeepsValid(run, actions, cfg, i - 1);
      assert run[i] == Next(run[i - 1], cfg, actions[i - 1]);
      NextKeepsValid(run[i - 1], cfg, actions[i - 1]);
    }
  }

  /** A reorganisation keeps exactly the sections that end below the common ancestor. */
  lemma ReorgCuts(ix: Index, cfg: Config, head: nat, i: nat)
    requires Valid(ix, cfg) && i < ix.stored
    ensures i in ix.heads && ix.heads[i].HashOf?
    ensures i in Notified(ix, cfg, head, true).heads <==> ix.heads[i].header.number < head
    ensures i in Notified(ix, cfg, head, true).heads ==> Notified(ix, cfg, head, true).heads[i] == ix.heads[i]
  {
    assert LinkedAt(ix.heads, i, cfg.sectionSize);
    WholeSections(head, cfg.sectionSize, i);
  }

  lemma WholeSections(head: nat, size: nat, i: nat)
    requires size > 0
    ensures i < head / size <==> (i + 1) * size <= head
  {
    var q := head / size;
    assert q * size <= head < (q + 1) * size;
    if i < q { Scaled(i + 1, q, size); } else { Scaled(q + 1, i + 1, size); }
  }

  lemma Scaled(m: nat, n: nat, size: nat)
    requires m <= n
    ensures m * size <= n * size
  {
  }

  /** Which sections are known after a notification, section `k` ending with block (k + 1) * size - 1: after a new
      head those known before and those with the confirmations asked for; after a reorganisation only those
      that end below the common ancestor. */
  lemma NotifiedKnown(ix: Index, cfg: Config, head: nat, reorg: bool, k: nat)
    requires cfg.sectionSize > 0
    ensures var d, end := Notified(ix, cfg, head, reorg), (k + 1) * cfg.sectionSize - 1;
      if reorg then
        && (k < d.known <==> k < ix.known && end < head) && (k < d.stored <==> k < ix.stored && end < head)
        && d.work == ix.work
      else
        (k < d.known <==> k < ix.known || end + cfg.confirmsReq <= head) && d == ix.(known := d.known)
  {
    WholeSections(head, cfg.sectionSize, k);
    assert (k + 1) * cfg.sectionSize >= cfg.sectionSize by { Scaled(1, k + 1, cfg.sectionSize); }
    if head >= cfg.confirmsReq { WholeSections(head + 1 - cfg.confirmsReq, cfg.sectionSize, k); }
  }

  /** How far the indexes built on this one are rolled back: to the section the ancestor is in, if they are beyond. */
  lemma NotifiedCascades(ix: Index, cfg: Config, head: nat)
    requires cfg.sectionSize > 0
    ensures exists k: nat :: (
      && k * cfg.sectionSize <= head < (k + 1) * cfg.sectionSize
      && Notified(ix, cfg, head, true).cascaded ==
           if ix.cascaded <= k * cfg.sectionSize then ix.cascaded else k * cfg.sectionSize)
  {
    var k := head / cfg.sectionSize;
    assert k * cfg.sectionSize <= head < (k + 1) * cfg.sectionSize;
  }

  /** A section is taken up where the stored ones end. */
  lemma BegunTakes(ix: Index, cfg: Config)
    ensures var d := Begun(ix, cfg); d == ix.(work := d.work)
    ensures var w := Begun(ix, cfg).work;
      && w.Some? && w.value.section == ix.stored && w.value.number == ix.stored * cfg.sectionSize && !w.value.failed
      && w.value.oldHead == w.value.lastHead
      && w.value.oldHead == if ix.stored > 0 && ix.stored - 1 in ix.heads then ix.heads[ix.stored - 1] else Zero
  {
  }

  /** A header is taken exactly if it has the number asked for and the last header as its parent. */
  lemma ReadTakes(w: Work, canonical: Hash)
    requires !w.failed
    ensures var d := Read(w, canonical);
      && d.section == w.section && d.oldHead == w.oldHead
      && if canonical.HashOf? && canonical.header.number == w.number && canonical.header.parentHash == w.lastHead
         then !d.failed && d.number == w.number + 1 && d.lastHead == canonical
         else d.failed && d.number == w.number && d.lastHead == w.lastHead
  {
  }

  /** What the end of processing comes to: a section read in full on the head below it is stored, and what is
      built on it hears of its last block; anything else leaves the sections stored as the known ones. */
  lemma EndedStores(ix: Index, cfg: Config)
    requires Valid(ix, cfg) && Enabled(ix, cfg, Finish)
    ensures var w, d := ix.work.value, Ended(ix, cfg);
      var below := if w.section > 0 && w.section - 1 in ix.heads then ix.heads[w.section - 1] else Zero;
      && d.work == None
      && if w.failed || w.oldHead != below then
           d.stored == ix.stored && d.heads == ix.heads && d.known == ix.stored && d.cascaded == ix.cascaded
         else
           && w.section == ix.stored && d.stored == ix.stored + 1 && d.known == ix.known
           && d.heads == ix.heads[ix.stored := w.lastHead]
           && w.lastHead.HashOf? && d.cascaded == w.lastHead.header.number == (ix.stored + 1) * cfg.sectionSize - 1
  {
    var w := ix.work.value;
    if !w.failed && w.oldHead == SectionHead(ix.heads, w.section - 1) { CompletedAtEnd(ix, cfg); }
  }

  /** Parent steps along an ancestry. */
  lemma {:induction false} UpOnLine(h: Hash, g: Hash, k: nat)
    requires IsGenesis(g) && Rooted(h, g) && k <= h.header.number
    ensures |Line(h)| == h.header.number + 1 && Up(h, k) == Line(h)[h.header.number - k]
  {
    LineLength(h, g);
    if k > 0 { UpOnLine(h.header.parentHash, g, k - 1); }
  }

  ghost predicate AllCanonical(heads: map<nat, Hash>, stored: nat, chain: Hash) {
    forall i: nat | i < stored :: i in heads && OnLine(heads[i], chain)
  }

  /** The stored section heads are all canonical exactly when the last one is. */
  lemma CanonicalByLast(heads: map<nat, Hash>, stored: nat, size: nat, chain: Hash, g: Hash)
    requires Linked(heads, stored, size) && size > 0 && stored > 0
    requires IsGenesis(g) && Rooted(chain, g)
    ensures AllCanonical(heads, stored, chain) <==> OnLine(heads[stored - 1], chain)
  {
    if OnLine(heads[stored - 1], chain) {
      forall i: nat | i < stored ensures OnLine(heads[i], chain) { CanonicalBelow(heads, stored, size, chain, g, i); }
    }
  }

  lemma {:induction false} CanonicalBelow(heads: map<nat, Hash>, stored: nat, size: nat, chain: Hash, g: Hash, i: nat)
    requires Linked(heads, stored, size) && size > 0 && i < stored
    requires IsGenesis(g) && Rooted(chain, g) && OnLine(heads[stored - 1], chain)
    ensures OnLine(heads[i], chain)
    decreases stored - i
  {
    if i + 1 < stored {
      CanonicalBelow(heads, stored, size, chain, g, i + 1);
      assert LinkedAt(heads, i, size) && LinkedAt(heads, i + 1, size);
      var h, n := heads[i + 1], heads[i + 1].header.number;
      LineLength(chain, g);
      LineAt(chain, g, n);
      SectionEnd(i + 1, size);
      UpOnLine(h, g, size);
      assert Line(h)[n - size] == Line(chain)[n - size];
    }
  }

  /** The indexer as the program keeps it. */
  class ChainIndexer {
    const cfg: Config
    var storedSections: nat
    var knownSections: nat
    var cascadedHead: int
    var heads: map<nat, Hash>
    var work: Option<Work>

    ghost function State(): Index
      reads this
    {
      Index(storedSections, knownSections, cascadedHead, heads, work)
    }

    constructor (cfg': Config)
      requires cfg'.sectionSize > 0
      ensures cfg == cfg' && State() == Initial() && Valid(State(), cfg)
    {
      cfg := cfg';
      storedSections, knownSections, cascadedHead, heads, work := 0, 0, 0, map[], None;
    }

    /** Removes reorganised sections one by one, or raises the number of valid ones. */
    method SetValidSections(sections: nat)
      modifies `storedSections, `heads
      ensures State() == Truncated(old(State()), sections)
    {
      ghost var before := heads;
      while storedSections > sections
        invariant storedSections >= sections || storedSections == old(storedSections)
        invariant storedSections <= old(storedSections)
        invariant forall i: nat :: i in heads <==>
          i in before && !(sections <= i < old(storedSections) && storedSections <= i)
        invariant forall i :: i in heads ==> heads[i] == before[i]
      {
        storedSections := storedSections - 1;
        heads := heads - {storedSections};
      }
      storedSections := sections;
    }

    method NotifyHead(head: nat, reorg: bool)
      requires Valid(State(), cfg)
      modifies this
      ensures State() == Notified(old(State()), cfg, head, reorg) && Valid(State(), cfg)
    {
      NotifiedKeeps(State(), cfg, head, reorg);
      if reorg {
        var known := head / cfg.sectionSize;
        if known < knownSections {
          knownSections := known;
        }
        if known < storedSections {
          SetValidSections(known);
        }
        var floor := known * cfg.sectionSize;
        if floor < cascadedHead {
          cascadedHead := floor;
        }
      } else if head >= cfg.confirmsReq {
        var sections := (head + 1 - cfg.confirmsReq) / cfg.sectionSize;
        if sections > knownSections {
          knownSections := sections;
        }
      }
    }

    /** Takes up the next section; the lock is released after this. */
    method BeginSection()
      requires Valid(State(), cfg) && Enabled(State(), cfg, Begin)
      modifies this
      ensures State() == Begun(old(State()), cfg) && Valid(State(), cfg)
    {
      BegunKeeps(State(), cfg);
      var section := storedSections;
      var oldHead := if section > 0 then SectionHead(heads, section - 1) else Zero;
      work := Some(Work(section, oldHead, section * cfg.sectionSize, oldHead, false));
    }

    /** Reads and checks one header of the section, with no lock held. */
    method ReadHeader(canonical: Hash)
      requires Valid(State(), cfg) && Enabled(State(), cfg, ReadNext(canonical))
      modifies this
      ensures State() == Next(old(State()), cfg, ReadNext(canonical)) && Valid(State(), cfg)
    {
      NextKeepsValid(State(), cfg, ReadNext(canonical));
      work := Some(Read(work.value, canonical));
    }

    /** Ends the processing, under the lock. */
    method EndSection()
      requires Valid(State(), cfg) && Enabled(State(), cfg, Finish)
      modifies this
      ensures State() == Ended(old(State()), cfg) && Valid(State(), cfg)
    {
      EndedKeeps(State(), cfg);
      var w := work.value;
      if !w.failed && w.oldHead == SectionHead(heads, w.section - 1) {
        heads := heads[w.section := w.lastHead];
        SetValidSections(w.section + 1);
        cascadedHead := storedSections * cfg.sectionSize - 1;
      } else {
        knownSections := storedSections;
      }
      work := None;
    }
  }
}
