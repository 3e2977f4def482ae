/** The indexer and the chain it follows: the chain moves on, with or without a notification, those given
    wait to be handled, and sections are read from whatever the chain is at that moment. */
module ChainEvents {
  import opened Types
  import opened Ancestry
  import opened Reorgs
  import opened ChainIndexers

  /** A notification still to be handled: the number passed to the indexer, and whether it announces a
      reorganisation. */
  datatype Note = Note(head: nat, reorg: bool)

  /** `chain` is the head of the chain as it is now. */
  datatype World = World(ix: Index, chain: Hash, notes: seq<Note>)

  /** A notification about the chain moving from `a` to `b`: a reorganisation names the highest common
      ancestor, anything else the head, which is the old one or a child of it. */
  ghost predicate Announces(a: Hash, n: Note, b: Hash, g: Hash)
    requires a.HashOf?
  {
    && Rooted(b, g)
    && if n.reorg then n.head == Fork(a, b)
       else n.head == b.header.number && (b == a || (b != g && b.header.parentHash == a))
  }

  /** The chain moves and the move is announced, or it moves unannounced, as when no common ancestor is
      found; a notification is handled; or the indexer does something on its own. */
  datatype Event = Moved(note: Note, chain: Hash) | Slipped(chain: Hash) | Told | Indexed(action: Action)

  /** The canonical block at a number, or the empty hash. */
  ghost function At(chain: Hash, number: nat): Hash {
    if number < |Line(chain)| then Line(chain)[number] else Zero
  }

  ghost predicate Possible(w: World, cfg: Config, g: Hash, e: Event)
    requires w.chain.HashOf?
  {
    match e
    case Moved(n, b) => Announces(w.chain, n, b, g)
    case Slipped(b) => Rooted(b, g)
    case Told => w.notes != []
    case Indexed(a) =>
      && Enabled(w.ix, cfg, a) && !a.NewHead?
      && (a.ReadNext? ==> a.canonical == At(w.chain, w.ix.work.value.number))
  }

  function After(w: World, cfg: Config, e: Event): World
    requires cfg.sectionSize > 0
    requires e.Told? ==> w.notes != []
    requires e.Indexed? ==> Enabled(w.ix, cfg, e.action)
  {
    match e
    case Moved(n, b) => w.(chain := b, notes := w.notes + [n])
    case Slipped(b) => w.(chain := b)
    case Told => w.(ix := Notified(w.ix, cfg, w.notes[0].head, w.notes[0].reorg), notes := w.notes[1..])
    case Indexed(a) => w.(ix := Next(w.ix, cfg, a))
  }

  ghost predicate Sound(w: World, cfg: Config, g: Hash) {
    Valid(w.ix, cfg) && IsGenesis(g) && Rooted(w.chain, g)
  }

  /** A reorganisation still to be handled will drop a section that ends at this number. */
  ghost predicate CutBy(notes: seq<Note>, number: nat) {
    exists i :: 0 <= i < |notes| && notes[i].reorg && notes[i].head <= number
  }

  /** A section head is canonical, or it will be dropped. */
  ghost predicate Kept(w: World, h: Hash) {
    h.HashOf? && (CutBy(w.notes, h.header.number) || OnLine(h, w.chain))
  }

  ghost predicate Safe(w: World) {
    forall i: nat | i < w.ix.stored :: i in w.ix.heads && Kept(w, w.ix.heads[i])
  }

  /** Once everything is handled, being safe is being canonical. */
  lemma QuietIsCanonical(w: World)
    requires w.notes == []
    ensures Safe(w) <==> AllCanonical(w.ix.heads, w.ix.stored, w.chain)
  {
    if Safe(w) {
      forall i: nat | i < w.ix.stored ensures i in w.ix.heads && OnLine(w.ix.heads[i], w.chain) {
        assert i in w.ix.heads && Kept(w, w.ix.heads[i]);
      }
    }
  }

  /** A section completes. */
  ghost predicate Completes(w: World, e: Event) {
    && e == Indexed(Finish) && w.ix.work.Some? && !w.ix.work.value.failed
    && w.ix.work.value.oldHead == SectionHead(w.ix.heads, w.ix.work.value.section - 1)
  }

  lemma MovedKeeps(w: World, n: Note, b: Hash, g: Hash, h: Hash)
    requires IsGenesis(g) && Rooted(w.chain, g) && Announces(w.chain, n, b, g) && Kept(w, h)
    ensures Kept(w.(chain := b, notes := w.notes + [n]), h)
  {
    var a, v := w.chain, w.(chain := b, notes := w.notes + [n]);
    if CutBy(w.notes, h.header.number) {
      var i :| 0 <= i < |w.notes| && w.notes[i].reorg && w.notes[i].head <= h.header.number;
      assert v.notes[i] == w.notes[i];
    } else if n.reorg {
      if n.head <= h.header.number {
        assert v.notes[|w.notes|] == n;
      } else {
        SharedBelow(a, b, g, h);
      }
    } else if b != a {
      LineLength(a, g);
      assert Line(b) == Line(a) + [b];
    }
  }

  /** Handling a notification takes nothing from what it does not drop. */
  lemma ToldKeeps(w: World, cfg: Config, h: Hash)
    requires cfg.sectionSize > 0 && w.notes != [] && Kept(w, h)
    requires w.notes[0].reorg ==> h.header.number < w.notes[0].head
    ensures Kept(After(w, cfg, Told), h)
  {
    var v := After(w, cfg, Told);
    if CutBy(w.notes, h.header.number) {
      var i :| 0 <= i < |w.notes| && w.notes[i].reorg && w.notes[i].head <= h.header.number;
      assert v.notes[i - 1] == w.notes[i];
    }
  }

  lemma AfterSound(w: World, cfg: Config, g: Hash, e: Event)
    requires Sound(w, cfg, g) && Possible(w, cfg, g, e)
    ensures Sound(After(w, cfg, e), cfg, g)
  {
    match e
    case Moved(_, _) =>
    case Slipped(_) =>
    case Told => NotifiedKeeps(w.ix, cfg, w.notes[0].head, w.notes[0].reorg);
    case Indexed(a) => NextKeepsValid(w.ix, cfg, a);
  }

  /** How many sections will be left once the notifications have been handled. */
  function Remaining(stored: nat, notes: seq<Note>, size: nat): nat
    requires size > 0
  {
    if notes == [] then stored
    else
      var left := Remaining(stored, notes[1..], size);
      if notes[0].reorg && notes[0].head / size < left then notes[0].head / size else left
  }

  /** They are those no notification drops. */
  lemma {:induction false} RemainingUncut(stored: nat, notes: seq<Note>, size: nat, i: nat, number: nat)
    requires size > 0 && i < stored && number + 1 == (i + 1) * size
    ensures i < Remaining(stored, notes, size) <==> !CutBy(notes, number)
  {
    if notes != [] {
      RemainingUncut(stored, notes[1..], size, i, number);
      WholeSections(notes[0].head, size, i);
      if CutBy(notes[1..], number) {
        var k :| 0 <= k < |notes[1..]| && notes[1..][k].reorg && notes[1..][k].head <= number;
        assert notes[k + 1] == notes[1..][k];
      }
      if CutBy(notes, number) && !(notes[0].reorg && notes[0].head <= number) {
        var k :| 0 <= k < |notes| && notes[k].reorg && notes[k].head <= number;
        assert notes[1..][k - 1] == notes[k];
      }
    }
  }

  /** The last section head that will be left is on the line of `b`. */
  ghost predicate LastStays(w: World, cfg: Config, b: Hash)
    requires cfg.sectionSize > 0
  {
    var left := Remaining(w.ix.stored, w.notes, cfg.sectionSize);
    left > 0 ==> left - 1 in w.ix.heads && OnLine(w.ix.heads[left - 1], b)
  }

  lemma {:induction false} RemainingFewer(stored: nat, notes: seq<Note>, size: nat)
    requires size > 0
    ensures Remaining(stored, notes, size) <= stored
  {
    if notes != [] { RemainingFewer(stored, notes[1..], size); }
  }

  /** An unannounced move leaves everything canonical or due to be dropped exactly if the last section head
      that will be left is on the new line. */
  lemma SlippedSafe(w: World, cfg: Config, g: Hash, b: Hash)
    requires Sound(w, cfg, g) && Rooted(b, g)
    ensures Safe(w.(chain := b)) <==> LastStays(w, cfg, b)
  {
    var v, size := w.(chain := b), cfg.sectionSize;
    var left := Remaining(w.ix.stored, w.notes, size);
    RemainingFewer(w.ix.stored, w.notes, size);
    forall i: nat | i < w.ix.stored
      ensures i in w.ix.heads && (Kept(v, w.ix.heads[i]) <==> i >= left || OnLine(w.ix.heads[i], b))
    {
      assert LinkedAt(w.ix.heads, i, size);
      RemainingUncut(w.ix.stored, w.notes, size, i, w.ix.heads[i].header.number);
    }
    if left > 0 && OnLine(w.ix.heads[left - 1], b) {
      var kept := Truncated(w.ix, left);
      TruncatedLinked(w.ix, left, size);
      CanonicalByLast(kept.heads, left, size, b, g);
      forall i: nat | i < left
        ensures OnLine(w.ix.heads[i], b)
      {
        assert i in kept.heads && kept.heads[i] == w.ix.heads[i];
      }
    }
  }

  /** A step that completes a section completes it with a last header that is canonical or due to be dropped,
      and an unannounced move stays on the line of the last section head. */
  ghost predicate GoodStep(w: World, cfg: Config, e: Event)
    requires cfg.sectionSize > 0
  {
    && (Completes(w, e) ==> Kept(w, w.ix.work.value.lastHead))
    && (e.Slipped? ==> LastStays(w, cfg, e.chain))
  }

  /** One step keeps every section head canonical or due to be dropped exactly if it is a good one. */
  lemma StepSafe(w: World, cfg: Config, g: Hash, e: Event)
    requires Sound(w, cfg, g) && Possible(w, cfg, g, e) && Safe(w)
    ensures Safe(After(w, cfg, e)) <==> GoodStep(w, cfg, e)
  {
    var v := After(w, cfg, e);
    AfterSound(w, cfg, g, e);
    match e
    case Moved(n, b) =>
      forall i: nat | i < v.ix.stored ensures i in v.ix.heads && Kept(v, v.ix.heads[i]) {
        MovedKeeps(w, n, b, g, w.ix.heads[i]);
      }
    case Slipped(b) => SlippedSafe(w, cfg, g, b);
    case Told => ToldSafe(w, cfg, g);
    case Indexed(a) => IndexedSafe(w, cfg, g, a);
  }

  lemma ToldSafe(w: World, cfg: Config, g: Hash)
    requires Sound(w, cfg, g) && w.notes != [] && Safe(w)
    ensures Safe(After(w, cfg, Told))
  {
    var v, n := After(w, cfg, Told), w.notes[0];
    AfterSound(w, cfg, g, Told);
    forall i: nat | i < v.ix.stored ensures i in v.ix.heads && Kept(v, v.ix.heads[i]) {
      assert LinkedAt(v.ix.heads, i, cfg.sectionSize);
      assert i < w.ix.stored;
      if n.reorg { ReorgCuts(w.ix, cfg, n.head, i); }
      ToldKeeps(w, cfg, w.ix.heads[i]);
    }
  }

  lemma IndexedSafe(w: World, cfg: Config, g: Hash, a: Action)
    requires Sound(w, cfg, g) && Safe(w) && Enabled(w.ix, cfg, a) && !a.NewHead?
    ensures Safe(After(w, cfg, Indexed(a))) <==> (Completes(w, Indexed(a)) ==> Kept(w, w.ix.work.value.lastHead))
  {
    var v := After(w, cfg, Indexed(a));
    forall h ensures Kept(v, h) <==> Kept(w, h) {
    }
    if Completes(w, Indexed(a)) {
      var k := w.ix.work.value;
      CompletedAtEnd(w.ix, cfg);
      assert v.ix.heads == w.ix.heads[k.section := k.lastHead] && v.ix.stored == k.section + 1;
      if Kept(w, k.lastHead) {
        forall i: nat | i < v.ix.stored ensures i in v.ix.heads && Kept(v, v.ix.heads[i]) {
          if i < w.ix.stored { assert v.ix.heads[i] == w.ix.heads[i]; }
        }
      } else {
        assert !Kept(v, v.ix.heads[k.section]);
      }
    } else {
      forall i: nat | i < v.ix.stored ensures i in v.ix.heads && Kept(v, v.ix.heads[i]) {
        assert i in w.ix.heads && v.ix.heads[i] == w.ix.heads[i];
      }
    }
  }

  ghost predicate IsHistory(run: seq<World>, events: seq<Event>, cfg: Config, g: Hash)
    requires cfg.sectionSize > 0
  {
    && Successive(run, events, cfg, g) && run[0] == World(Initial(), run[0].chain, [])
    && IsGenesis(g) && Rooted(run[0].chain, g)
  }

  ghost predicate Successive(run: seq<World>, events: seq<Event>, cfg: Config, g: Hash)
    requires cfg.sectionSize > 0
  {
    && |run| == |events| + 1
    && forall i {:trigger events[i]} | 0 <= i < |events| :: Follows(run[i], events[i], run[i + 1], cfg, g)
  }

  ghost predicate Follows(w: World, e: Event, v: World, cfg: Config, g: Hash)
    requires cfg.sectionSize > 0
  {
    w.chain.HashOf? && Possible(w, cfg, g, e) && v == After(w, cfg, e)
  }

  lemma {:induction false} HistorySound(run: seq<World>, events: seq<Event>, cfg: Config, g: Hash, i: nat)
    requires cfg.sectionSize > 0 && IsHistory(run, events, cfg, g) && i < |run|
    ensures Sound(run[i], cfg, g)
  {
    if i > 0 {
      HistorySound(run, events, cfg, g, i - 1);
      assert Follows(run[i - 1], events[i - 1], run[i], cfg, g);
      AfterSound(run[i - 1], cfg, g, events[i - 1]);
    }
  }

  /** Over every history: the stored heads are canonical or due to be dropped all along exactly when
      every step is a good one. */
  lemma HistorySafe(run: seq<World>, events: seq<Event>, cfg: Config, g: Hash)
    requires cfg.sectionSize > 0 && IsHistory(run, events, cfg, g)
    ensures (forall i :: 0 <= i < |run| ==> Safe(run[i])) <==>
      forall i :: 0 <= i < |events| ==> GoodStep(run[i], cfg, events[i])
  {
    if forall i :: 0 <= i < |events| ==> GoodStep(run[i], cfg, events[i]) {
      forall i | 0 <= i < |run| ensures Safe(run[i]) { SafeUpTo(run, events, cfg, g, i); }
    } else {
      var i :| 0 <= i < |events| && !GoodStep(run[i], cfg, events[i]);
      HistorySound(run, events, cfg, g, i);
      assert Follows(run[i], events[i], run[i + 1], cfg, g);
      if Safe(run[i]) { StepSafe(run[i], cfg, g, events[i]); }
    }
  }

  lemma {:induction false} SafeUpTo(run: seq<World>, events: seq<Event>, cfg: Config, g: Hash, i: nat)
    requires cfg.sectionSize > 0 && IsHistory(run, events, cfg, g) && i < |run|
    requires forall j :: 0 <= j < i ==> GoodStep(run[j], cfg, events[j])
    ensures Safe(run[i])
  {
    if i > 0 {
      SafeUpTo(run, events, cfg, g, i - 1);
      HistorySound(run, events, cfg, g, i - 1);
      assert Follows(run[i - 1], events[i - 1], run[i], cfg, g);
      StepSafe(run[i - 1], cfg, g, events[i - 1]);
    }
  }

  /** The notification about to be handled is of a reorganisation that lands in the part of a section
      that has been read while it is being processed. */
  ghost predicate Lands(w: World, cfg: Config) {
    && w.notes != [] && w.notes[0].reorg && w.ix.work.Some?
    && w.ix.work.value.section * cfg.sectionSize <= w.notes[0].head < w.ix.work.value.number
  }

  /** What has been read of a section that may yet complete is canonical or due to be dropped. */
  ghost predicate Fresh(w: World, cfg: Config) {
    w.ix.work.Some? ==>
      var k := w.ix.work.value;
      !k.failed && k.number > k.section * cfg.sectionSize && w.ix.stored == k.section ==> Kept(w, k.lastHead)
  }

  /** No reorganisation lands inside the section being processed, and an unannounced move abandons neither
      the last section head that will be left nor the last header read. */
  ghost predicate Unnoticed(w: World, cfg: Config, e: Event)
    requires cfg.sectionSize > 0
  {
    && (e.Told? ==> !Lands(w, cfg))
    && (e.Slipped? ==> LastStays(w, cfg, e.chain) && Fresh(w.(chain := e.chain), cfg))
  }

  lemma StepFresh(w: World, cfg: Config, g: Hash, e: Event)
    requires Sound(w, cfg, g) && Possible(w, cfg, g, e) && Fresh(w, cfg)
    requires Unnoticed(w, cfg, e)
    ensures Fresh(After(w, cfg, e), cfg)
  {
    match e
    case Moved(n, b) =>
      if w.ix.work.Some? && Kept(w, w.ix.work.value.lastHead) { MovedKeeps(w, n, b, g, w.ix.work.value.lastHead); }
    case Slipped(_) =>
    case Told => ToldFresh(w, cfg, g);
    case Indexed(a) => IndexedFresh(w, cfg, g, a);
  }

  lemma ToldFresh(w: World, cfg: Config, g: Hash)
    requires Sound(w, cfg, g) && w.notes != [] && Fresh(w, cfg) && !Lands(w, cfg)
    ensures Fresh(After(w, cfg, Told), cfg)
  {
    var v, n := After(w, cfg, Told), w.notes[0];
    if v.ix.work.Some? {
      var k := v.ix.work.value;
      if !k.failed && k.number > k.section * cfg.sectionSize && v.ix.stored == k.section {
        if n.reorg { SectionStart(n.head, cfg.sectionSize, k.section); }
        ToldKeeps(w, cfg, k.lastHead);
      }
    }
  }

  lemma SectionStart(head: nat, size: nat, section: nat)
    requires size > 0 && section <= head / size
    ensures section * size <= head
  {
    Scaled(section, head / size, size);
  }

  lemma IndexedFresh(w: World, cfg: Config, g: Hash, a: Action)
    requires Sound(w, cfg, g) && Possible(w, cfg, g, Indexed(a)) && Fresh(w, cfg)
    ensures Fresh(After(w, cfg, Indexed(a)), cfg)
  {
    var v := After(w, cfg, Indexed(a));
    forall h ensures Kept(v, h) <==> Kept(w, h) {
    }
    if a.ReadNext? {
      var number := w.ix.work.value.number;
      if number < |Line(w.chain)| {
        LineLength(w.chain, g);
        LineAt(w.chain, g, number);
        assert OnLine(a.canonical, w.chain);
      }
    }
  }

  /** If no reorganisation lands in the part of a section that has been read while it is being processed,
      and no unannounced move abandons the last section head or the last header read, then whenever every
      notification has been handled every stored head is canonical. */
  lemma {:induction false} CanonicalUnlessLanded(run: seq<World>, events: seq<Event>, cfg: Config, g: Hash, i: nat)
    requires cfg.sectionSize > 0 && IsHistory(run, events, cfg, g) && i < |run|
    requires forall j :: 0 <= j < |events| ==> Unnoticed(run[j], cfg, events[j])
    ensures Safe(run[i]) && Fresh(run[i], cfg)
    ensures run[i].notes == [] ==> AllCanonical(run[i].ix.heads, run[i].ix.stored, run[i].chain)
  {
    if i > 0 {
      CanonicalUnlessLanded(run, events, cfg, g, i - 1);
      HistorySound(run, events, cfg, g, i - 1);
      assert Follows(run[i - 1], events[i - 1], run[i], cfg, g);
      hide Possible, After, Sound, Safe, Fresh, Unnoticed;
      StepUnlessLanded(run[i - 1], cfg, g, events[i - 1]);
    }
    if run[i].notes == [] { QuietIsCanonical(run[i]); }
  }

  lemma StepUnlessLanded(w: World, cfg: Config, g: Hash, e: Event)
    requires Sound(w, cfg, g) && Possible(w, cfg, g, e)
    requires Safe(w) && Fresh(w, cfg) && Unnoticed(w, cfg, e)
    ensures Safe(After(w, cfg, e)) && Fresh(After(w, cfg, e), cfg)
  {
    StepFresh(w, cfg, g, e);
    StepSafe(w, cfg, g, e);
    if Completes(w, e) {
      CompletedAtEnd(w.ix, cfg);
      hide Safe, After, Sound;
      assert Kept(w, w.ix.work.value.lastHead);
    }
  }

  lemma Joined(run: seq<World>, events: seq<Event>, cfg: Config, g: Hash, more: seq<World>, next: seq<Event>)
    requires cfg.sectionSize > 0 && Successive(run, events, cfg, g) && Successive(more, next, cfg, g)
    requires run[|events|] == more[0]
    ensures |run| == |events| + 1 && |more| == |next| + 1 && Successive(run + more[1..], events + next, cfg, g)
    ensures (run + more[1..])[|events| + |next|] == more[|next|] && (run + more[1..])[0] == run[0]
  {
    var all := run + more[1..];
    forall i | 0 <= i < |events + next|
      ensures Follows(all[i], (events + next)[i], all[i + 1], cfg, g)
    {
      if i < |events| {
        assert Follows(run[i], events[i], run[i + 1], cfg, g);
      } else {
        var k := i - |events|;
        assert Follows(more[k], next[k], more[k + 1], cfg, g);
      }
    }
  }

  /** No reorganisation handled lands inside the section being processed. */
  ghost predicate NeverLands(run: seq<World>, events: seq<Event>, cfg: Config) {
    |run| == |events| + 1 && forall i :: 0 <= i < |events| && events[i].Told? ==> !Lands(run[i], cfg)
  }

  lemma JoinedNeverLands(run: seq<World>, events: seq<Event>, cfg: Config, more: seq<World>, next: seq<Event>)
    requires NeverLands(run, events, cfg) && NeverLands(more, next, cfg) && run[|events|] == more[0]
    ensures NeverLands(run + more[1..], events + next, cfg)
  {
    var all := run + more[1..];
    forall i | 0 <= i < |events + next| && (events + next)[i].Told?
      ensures !Lands(all[i], cfg)
    {
      if i < |events| {
        assert all[i] == run[i] && events[i].Told?;
      } else {
        assert all[i] == more[i - |events|] && next[i - |events|].Told?;
      }
    }
  }

  // ---------- two histories ----------

  /** Two blocks a section, and no confirmations asked for. */
  const TWO_BLOCKS: Config := Config(2, 0)

  function Root(): Hash {
    HashOf(Header(Zero, 0, 1, [], 0))
  }

  /** Two blocks on the same parent. */
  function Branch(extra: nat): Hash {
    HashOf(Header(Root(), 1, 1, [], extra))
  }

  /** The section has been read to its end. */
  function ReadThrough(): Index {
    Index(0, 1, 0, map[], Some(Work(0, Zero, 2, Branch(0), false)))
  }

  function OneIndexed(): Index {
    Index(1, 1, 1, map[0 := Branch(0)], None)
  }

  lemma OneCompletes()
    ensures Ended(ReadThrough(), TWO_BLOCKS) == OneIndexed()
  {
    assert Ended(ReadThrough(), TWO_BLOCKS).heads == map[0 := Branch(0)];
  }

  lemma ReadsThrough() returns (run: seq<World>, events: seq<Event>)
    ensures IsHistory(run, events, TWO_BLOCKS, Root()) && run[|events|] == World(ReadThrough(), Branch(0), [])
    ensures NeverLands(run, events, TWO_BLOCKS) && forall i :: 0 <= i < |events| ==> !events[i].Slipped?
  {
    var g, a := Root(), Branch(0);
    OneBlockApart(g, a, Branch(1));
    var known := Initial().(known := 1);
    events := [Moved(Note(1, false), a), Told, Indexed(Begin), Indexed(ReadNext(g)), Indexed(ReadNext(a))];
    run := [World(Initial(), g, []),
            World(Initial(), a, [Note(1, false)]),
            World(known, a, []),
            World(known.(work := Some(Work(0, Zero, 0, Zero, false))), a, []),
            World(known.(work := Some(Work(0, Zero, 1, g, false))), a, []),
            World(ReadThrough(), a, [])];
    hide Fork, Rooted, Line, OnLine;
    assert Follows(run[0], events[0], run[1], TWO_BLOCKS, g);
    assert Follows(run[1], events[1], run[2], TWO_BLOCKS, g);
    assert Follows(run[2], events[2], run[3], TWO_BLOCKS, g);
    assert Follows(run[3], events[3], run[4], TWO_BLOCKS, g);
    assert Follows(run[4], events[4], run[5], TWO_BLOCKS, g);
  }

  lemma LandsAndCompletes() returns (run: seq<World>, events: seq<Event>)
    ensures Successive(run, events, TWO_BLOCKS, Root()) && run[0] == World(ReadThrough(), Branch(0), [])
    ensures run[|events|] == World(OneIndexed(), Branch(1), []) && forall i :: 0 <= i < |events| ==> !events[i].Slipped?
  {
    var g, a, b := Root(), Branch(0), Branch(1);
    OneBlockApart(g, a, b);
    OneCompletes();
    var back, onto := Note(0, true), Note(1, false);
    var known := ReadThrough();
    events := [Moved(back, b), Moved(onto, b), Told, Told, Indexed(Finish)];
    run := [World(known, a, []),
            World(known, b, [back]),
            World(known, b, [back, onto]),
            World(known.(known := 0), b, [onto]),
            World(known, b, []),
            World(OneIndexed(), b, [])];
    hide Fork, Rooted, Line, OnLine, Ended;
    assert Follows(run[0], events[0], run[1], TWO_BLOCKS, g);
    assert Follows(run[1], events[1], run[2], TWO_BLOCKS, g);
    assert Follows(run[2], events[2], run[3], TWO_BLOCKS, g);
    assert Follows(run[3], events[3], run[4], TWO_BLOCKS, g);
    assert Follows(run[4], events[4], run[5], TWO_BLOCKS, g);
  }

  lemma CompletesAndSlips() returns (run: seq<World>, events: seq<Event>)
    ensures Successive(run, events, TWO_BLOCKS, Root()) && run[0] == World(ReadThrough(), Branch(0), [])
    ensures run[|events|] == World(OneIndexed(), Branch(1), [])
    ensures NeverLands(run, events, TWO_BLOCKS)
  {
    var g, a, b := Root(), Branch(0), Branch(1);
    OneBlockApart(g, a, b);
    OneCompletes();
    events := [Indexed(Finish), Slipped(b), Moved(Note(1, false), b), Told];
    run := [World(ReadThrough(), a, []),
            World(OneIndexed(), a, []),
            World(OneIndexed(), b, []),
            World(OneIndexed(), b, [Note(1, false)]),
            World(OneIndexed(), b, [])];
    hide Fork, Rooted, Line, OnLine, Ended;
    assert Follows(run[0], events[0], run[1], TWO_BLOCKS, g);
    assert Follows(run[1], events[1], run[2], TWO_BLOCKS, g);
    assert Follows(run[2], events[2], run[3], TWO_BLOCKS, g);
    assert Follows(run[3], events[3], run[4], TWO_BLOCKS, g);
  }

  /** A reorganisation that lands inside the section being processed goes unnoticed: with every
      notification handled the indexer is idle and keeps the head of an abandoned block. */
  lemma StaleSection() returns (run: seq<World>, events: seq<Event>)
    ensures IsHistory(run, events, TWO_BLOCKS, Root()) && forall i :: 0 <= i < |events| ==> !events[i].Slipped?
    ensures var w := run[|events|];
      && w.notes == [] && w.ix.work.None? && w.ix.stored == w.ix.known == 1
      && !AllCanonical(w.ix.heads, w.ix.stored, w.chain)
  {
    hide Successive;
    run, events := ReadsThrough();
    var more, next := LandsAndCompletes();
    Joined(run, events, TWO_BLOCKS, Root(), more, next);
    run, events := run + more[1..], events + next;
    OneBlockApart(Root(), Branch(0), Branch(1));
    assert 0 in OneIndexed().heads;
  }

  /** A reorganisation that is not announced leaves the head of an abandoned block as well, although it
      comes when no section is being processed. */
  lemma StaleUnannounced() returns (run: seq<World>, events: seq<Event>)
    ensures IsHistory(run, events, TWO_BLOCKS, Root()) && NeverLands(run, events, TWO_BLOCKS)
    ensures var w := run[|events|];
      && w.notes == [] && w.ix.work.None? && w.ix.stored == w.ix.known == 1
      && !AllCanonical(w.ix.heads, w.ix.stored, w.chain)
  {
    hide Successive, NeverLands;
    run, events := ReadsThrough();
    var more, next := CompletesAndSlips();
    Joined(run, events, TWO_BLOCKS, Root(), more, next);
    JoinedNeverLands(run, events, TWO_BLOCKS, more, next);
    run, events := run + more[1..], events + next;
    OneBlockApart(Root(), Branch(0), Branch(1));
    assert 0 in OneIndexed().heads;
  }

  lemma OneBlockApart(g: Hash, a: Hash, b: Hash)
    requires IsGenesis(g) && a.HashOf? && b.HashOf? && a != b && a.header.number == b.header.number == 1
    requires a.header.parentHash == b.header.parentHash == g
    ensures Rooted(g, g) && Rooted(a, g) && Rooted(b, g)
    ensures Line(g) == [g] && Line(a) == [g, a] && Line(b) == [g, b] && Fork(a, b) == 0 && !OnLine(a, b)
  {
    assert Line(g) == Line(Zero) + [g];
    assert Line(a) == Line(g) + [a] && Line(b) == Line(g) + [b];
    ForkUnique(a, b, g, 0);
  }
}
