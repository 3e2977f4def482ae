/** The indexer one statement at a time, where that matters. When the backend cannot be reset, the update
    loop clears all sections without holding the lock, and a reorganisation that cuts them can come in
    between: both run the same statements on the number of sections stored and on the section heads. */
module ChainStatements {
  import opened Types
  import opened Ancestry
  import opened ChainIndexers

  /** The statements of setting the number of valid sections: the test of the loop, the two statements of
      its body, and the assignment at the end. */
  datatype Stage = Test | Decrement | Remove | Assign

  datatype Setter = Setter(sections: nat, stage: Stage)

  /** `clearing` is the update loop's call, `cutting` that of the notification holding the lock. */
  datatype Fine = Fine(ix: Index, clearing: Option<Setter>, cutting: Option<Setter>) {
    /** Neither call is under way. */
    predicate AtRest() {
      clearing.None? && cutting.None?
    }

    predicate Overlap() {
      clearing.Some? && cutting.Some?
    }
  }

  predicate At(t: Option<Setter>, stage: Stage) {
    t.Some? && t.value.stage == stage
  }

  /** Counting down as the machine does. */
  function Decremented(n: nat): nat {
    if n == 0 then MAX_UINT64 else n - 1
  }

  function IndexAfter(ix: Index, t: Setter): Index {
    match t.stage
    case Test => ix
    case Decrement => ix.(stored := Decremented(ix.stored))
    case Remove => ix.(heads := ix.heads - {ix.stored})
    case Assign => ix.(stored := t.sections)
  }

  function StageAfter(ix: Index, t: Setter): Option<Setter> {
    match t.stage
    case Test => Some(t.(stage := if ix.stored > t.sections then Decrement else Assign))
    case Decrement => Some(t.(stage := Remove))
    case Remove => Some(t.(stage := Test))
    case Assign => None
  }

  /** What can happen: a step that is atomic, the failure of a reset, a reorganisation, or one more
      statement of a call under way. */
  datatype FineAction = Whole(action: Action) | ResetFails | ClearStep | Reorged(head: nat) | CutStep

  predicate NeedsLock(a: Action) {
    a.NewHead? || a.Begin? || a.Finish?
  }

  predicate FineEnabled(f: Fine, cfg: Config, a: FineAction) {
    match a
    case Whole(b) =>
      && Enabled(f.ix, cfg, b) && !b.ResetError? && (b.NewHead? ==> !b.reorg)
      && (NeedsLock(b) ==> f.cutting.None?) && (!b.NewHead? ==> f.clearing.None?)
    case ResetFails => f.clearing.None? && Enabled(f.ix, cfg, ResetError)
    case ClearStep => f.clearing.Some? && f.ix.work.Some?
    case Reorged(_) => f.cutting.None?
    case CutStep => f.cutting.Some?
  }

  /** The update loop takes the failed reset for the outcome of processing once the sections are cleared. */
  function Cleared(f: Fine): Fine
    requires f.clearing.Some? && f.ix.work.Some?
  {
    var ix, t := IndexAfter(f.ix, f.clearing.value), StageAfter(f.ix, f.clearing.value);
    Fine(if t.None? then ix.(work := Some(f.ix.work.value.(failed := true))) else ix, t, f.cutting)
  }

  function CutDown(f: Fine, cfg: Config): Fine
    requires f.cutting.Some?
  {
    var ix, t := IndexAfter(f.ix, f.cutting.value), StageAfter(f.ix, f.cutting.value);
    Fine(if t.None? then ix.(cascaded := Min(f.cutting.value.sections * cfg.sectionSize, f.ix.cascaded)) else ix,
         f.clearing, t)
  }

  function Reorganised(f: Fine, cfg: Config, head: nat): Fine
    requires cfg.sectionSize > 0
  {
    var known := head / cfg.sectionSize;
    var ix := f.ix.(known := Min(known, f.ix.known));
    if known < f.ix.stored then Fine(ix, f.clearing, Some(Setter(known, Test)))
    else f.(ix := ix.(cascaded := Min(known * cfg.sectionSize, f.ix.cascaded)))
  }

  function FineNext(f: Fine, cfg: Config, a: FineAction): Fine
    requires cfg.sectionSize > 0 && FineEnabled(f, cfg, a)
  {
    match a
    case Whole(b) => f.(ix := Next(f.ix, cfg, b))
    case ResetFails => f.(clearing := Some(Setter(0, Test)))
    case ClearStep => Cleared(f)
    case Reorged(head) => Reorganised(f, cfg, head)
    case CutStep => CutDown(f, cfg)
  }

  ghost predicate IsFineRun(run: seq<Fine>, actions: seq<FineAction>, cfg: Config)
    requires cfg.sectionSize > 0
  {
    Steps(run, actions, cfg) && run[0] == Fine(Initial(), None, None)
  }

  ghost predicate Steps(run: seq<Fine>, actions: seq<FineAction>, cfg: Config)
    requires cfg.sectionSize > 0
  {
    && |run| == |actions| + 1
    && forall i, j {:trigger run[i], run[j]} | 0 <= i < |actions| && j == i + 1 ::
      Leads(run[i], cfg, actions[i], run[j])
  }

  ghost predicate Leads(f: Fine, cfg: Config, a: FineAction, g: Fine)
    requires cfg.sectionSize > 0
  {
    FineEnabled(f, cfg, a) && g == FineNext(f, cfg, a)
  }

  // ---------- without an overlap ----------

  /** The state with the call under way, if there is one, carried through. */
  function Settled(f: Fine, cfg: Config): Index {
    if f.clearing.Some? && f.ix.work.Some? then
      f.ix.(stored := 0, heads := map[], work := Some(f.ix.work.value.(failed := true)))
    else if f.cutting.Some? then
      var n := f.cutting.value.sections;
      f.ix.(stored := n, heads := map i | i in f.ix.heads && i < n :: f.ix.heads[i],
            cascaded := Min(n * cfg.sectionSize, f.ix.cascaded))
    else f.ix
  }

  /** How far a call has got that nothing has disturbed. */
  ghost predicate Midway(ix: Index, t: Setter) {
    match t.stage
    case Test => t.sections <= ix.stored && forall i: nat :: i in ix.heads <==> i < ix.stored
    case Decrement => t.sections < ix.stored && forall i: nat :: i in ix.heads <==> i < ix.stored
    case Remove => t.sections <= ix.stored && forall i: nat :: i in ix.heads <==> i <= ix.stored
    case Assign => t.sections == ix.stored && forall i: nat :: i in ix.heads <==> i < ix.stored
  }

  ghost predicate Orderly(f: Fine, cfg: Config) {
    && !f.Overlap() && Valid(Settled(f, cfg), cfg)
    && (f.clearing.Some? ==> f.clearing.value.sections == 0 && Midway(f.ix, f.clearing.value))
    && (f.clearing.Some? ==> f.ix.work.Some? && !f.ix.work.value.failed && AtStart(f.ix.work.value, cfg.sectionSize))
    && (f.cutting.Some? ==> Midway(f.ix, f.cutting.value))
  }

  /** The atomic step a statement stands for, if it is the first one of its call. */
  function Atomic(a: FineAction): Option<Action> {
    match a
    case Whole(b) => Some(b)
    case ResetFails => Some(ResetError)
    case Reorged(head) => Some(NewHead(head, true))
    case _ => None
  }

  /** As long as the two calls do not overlap, the statements refine the atomic steps: the first statement
      of a call is the whole step, and the others change nothing. */
  lemma StepRefines(f: Fine, cfg: Config, a: FineAction)
    requires cfg.sectionSize > 0 && Orderly(f, cfg) && FineEnabled(f, cfg, a) && !FineNext(f, cfg, a).Overlap()
    ensures Orderly(FineNext(f, cfg, a), cfg)
    ensures Atomic(a).None? ==> Settled(FineNext(f, cfg, a), cfg) == Settled(f, cfg)
    ensures Atomic(a).Some? ==> Enabled(Settled(f, cfg), cfg, Atomic(a).value)
    ensures Atomic(a).Some? ==> Settled(FineNext(f, cfg, a), cfg) == Next(Settled(f, cfg), cfg, Atomic(a).value)
  {
    match a
    case Whole(b) => WholeRefines(f, cfg, b);
    case ResetFails => ResetRefines(f, cfg);
    case ClearStep => ClearRefines(f, cfg);
    case Reorged(head) => ReorgRefines(f, cfg, head);
    case CutStep => CutRefines(f, cfg);
  }

  lemma WholeRefines(f: Fine, cfg: Config, b: Action)
    requires cfg.sectionSize > 0 && Orderly(f, cfg) && FineEnabled(f, cfg, Whole(b))
    ensures Enabled(Settled(f, cfg), cfg, b)
    ensures Settled(FineNext(f, cfg, Whole(b)), cfg) == Next(Settled(f, cfg), cfg, b)
    ensures Orderly(FineNext(f, cfg, Whole(b)), cfg)
  {
    NextKeepsValid(Settled(f, cfg), cfg, b);
  }

  lemma ResetRefines(f: Fine, cfg: Config)
    requires cfg.sectionSize > 0 && Orderly(f, cfg) && FineEnabled(f, cfg, ResetFails) && f.cutting.None?
    ensures Enabled(Settled(f, cfg), cfg, ResetError)
    ensures Settled(FineNext(f, cfg, ResetFails), cfg) == Next(Settled(f, cfg), cfg, ResetError)
    ensures Orderly(FineNext(f, cfg, ResetFails), cfg)
  {
    NextKeepsValid(f.ix, cfg, ResetError);
    assert Truncated(f.ix, 0).heads == map[];
  }

  lemma ClearRefines(f: Fine, cfg: Config)
    requires cfg.sectionSize > 0 && Orderly(f, cfg) && FineEnabled(f, cfg, ClearStep)
    ensures Settled(Cleared(f), cfg) == Settled(f, cfg) && Orderly(Cleared(f), cfg)
  {
    if At(f.clearing, Assign) {
      assert f.ix.heads == map[];
    }
  }

  lemma ReorgRefines(f: Fine, cfg: Config, head: nat)
    requires cfg.sectionSize > 0 && Orderly(f, cfg) && f.cutting.None? && !Reorganised(f, cfg, head).Overlap()
    ensures Settled(Reorganised(f, cfg, head), cfg) == Notified(Settled(f, cfg), cfg, head, true)
    ensures Orderly(Reorganised(f, cfg, head), cfg)
  {
    NotifiedKeeps(Settled(f, cfg), cfg, head, true);
    var known := head / cfg.sectionSize;
    if f.clearing.None? && known < f.ix.stored {
      assert Truncated(f.ix, known).heads == map i | i in f.ix.heads && i < known :: f.ix.heads[i];
    }
  }

  lemma CutRefines(f: Fine, cfg: Config)
    requires cfg.sectionSize > 0 && Orderly(f, cfg) && f.cutting.Some?
    ensures Settled(CutDown(f, cfg), cfg) == Settled(f, cfg) && Orderly(CutDown(f, cfg), cfg)
  {
    var n := f.cutting.value.sections;
    assert Settled(CutDown(f, cfg), cfg).heads == Settled(f, cfg).heads;
  }

  /** In every run in which no reorganisation cuts sections while a failed reset clears them, the section
      heads exist for exactly the stored sections, each descending from the one before, whenever neither
      is under way. */
  lemma {:induction false} RunKeepsLinked(run: seq<Fine>, actions: seq<FineAction>, cfg: Config, i: nat)
    requires cfg.sectionSize > 0 && IsFineRun(run, actions, cfg) && i < |run|
    requires forall j :: 0 <= j <= i ==> !run[j].Overlap()
    ensures Orderly(run[i], cfg)
    ensures run[i].AtRest() ==> Valid(run[i].ix, cfg)
  {
    if i > 0 {
      RunKeepsLinked(run, actions, cfg, i - 1);
      assert Leads(run[i - 1], cfg, actions[i - 1], run[i]);
      StepRefines(run[i - 1], cfg, actions[i - 1]);
    }
  }

  // ---------- with an overlap ----------

  /** The head of the first section is about to be removed. */
  ghost predicate FirstGoes(f: Fine, t: Option<Setter>) {
    f.ix.stored == 0 && At(t, Remove)
  }

  /** When no section is stored, not even the head of the first one is there, or it is about to be removed;
      nor is it there to stay when a call is about to say that no section is stored. */
  ghost predicate FirstWatched(f: Fine) {
    && (f.clearing.Some? ==> f.clearing.value.sections == 0)
    && (f.ix.stored == 0 ==> 0 !in f.ix.heads || At(f.clearing, Remove) || At(f.cutting, Remove))
    && (At(f.clearing, Assign) ==> 0 !in f.ix.heads || FirstGoes(f, f.cutting))
    && (At(f.cutting, Assign) && f.cutting.value.sections == 0 ==> 0 !in f.ix.heads || FirstGoes(f, f.clearing))
  }

  lemma StepWatched(f: Fine, cfg: Config, a: FineAction)
    requires cfg.sectionSize > 0 && FirstWatched(f) && FineEnabled(f, cfg, a)
    ensures FirstWatched(FineNext(f, cfg, a))
  {
  }

  lemma {:induction false} RunWatched(run: seq<Fine>, actions: seq<FineAction>, cfg: Config, i: nat)
    requires cfg.sectionSize > 0 && IsFineRun(run, actions, cfg) && i < |run|
    ensures FirstWatched(run[i])
  {
    if i > 0 {
      RunWatched(run, actions, cfg, i - 1);
      assert Leads(run[i - 1], cfg, actions[i - 1], run[i]);
      StepWatched(run[i - 1], cfg, actions[i - 1]);
    }
  }

  /** Sections are being cleared, or the head of the first one is gone for good. */
  ghost predicate FirstLost(f: Fine) {
    f.clearing.Some? || 0 !in f.ix.heads || FirstGoes(f, f.cutting)
  }

  lemma StepLoses(f: Fine, cfg: Config, a: FineAction)
    requires cfg.sectionSize > 0 && FirstWatched(f) && FirstLost(f) && !f.AtRest() && FineEnabled(f, cfg, a)
    ensures FirstLost(FineNext(f, cfg, a))
  {
  }

  /** From some state on neither call is at rest until the end of the run is reached. */
  ghost predicate Busy(run: seq<Fine>, i: nat, j: nat) {
    i <= j < |run| && run[j].AtRest() && forall k :: i <= k < j ==> !run[k].AtRest()
  }

  lemma {:induction false} FirstStaysLost(run: seq<Fine>, actions: seq<FineAction>, cfg: Config, i: nat, k: nat)
    requires cfg.sectionSize > 0 && IsFineRun(run, actions, cfg) && i <= k < |run| && run[i].clearing.Some?
    requires forall j :: i <= j < k ==> !run[j].AtRest()
    ensures FirstLost(run[k])
  {
    if i < k {
      FirstStaysLost(run, actions, cfg, i, k - 1);
      RunWatched(run, actions, cfg, k - 1);
      assert Leads(run[k - 1], cfg, actions[k - 1], run[k]);
      StepLoses(run[k - 1], cfg, actions[k - 1]);
    }
  }

  /** However a clearing and the reorganisations that overlap it interleave, when both calls have returned
      the head of the first section is gone. So the heads fit the number stored exactly when that is zero
      and none is left over. */
  lemma ClearingEnds(run: seq<Fine>, actions: seq<FineAction>, cfg: Config, i: nat, j: nat)
    requires cfg.sectionSize > 0 && IsFineRun(run, actions, cfg) && Busy(run, i, j) && run[i].clearing.Some?
    ensures 0 !in run[j].ix.heads
    ensures Linked(run[j].ix.heads, run[j].ix.stored, cfg.sectionSize) <==>
      run[j].ix.stored == 0 && run[j].ix.heads == map[]
  {
    FirstStaysLost(run, actions, cfg, i, j);
    var heads := run[j].ix.heads;
    if heads != map[] {
      var k :| k in heads;
    }
  }

  /** One call counts down between the other's counting down and its removal of a head, which then misses
      its head. */
  predicate Disturbs(f: Fine, a: FineAction) {
    || (a.ClearStep? && At(f.clearing, Decrement) && At(f.cutting, Remove))
    || (a.CutStep? && At(f.cutting, Decrement) && At(f.clearing, Remove))
  }

  ghost predicate Within(f: Fine, n: nat, removing: Option<Setter>) {
    forall i: nat :: i in f.ix.heads ==> i < n || (i == f.ix.stored <= n && At(removing, Remove))
  }

  /** No head is missed: those there are below the number stored, but for one about to be removed. */
  ghost predicate NoneMissed(f: Fine) {
    && !(At(f.clearing, Remove) && At(f.cutting, Remove))
    && (forall i: nat :: i in f.ix.heads ==>
          i < f.ix.stored || (i == f.ix.stored && (At(f.clearing, Remove) || At(f.cutting, Remove))))
    && (At(f.clearing, Assign) ==> Within(f, f.clearing.value.sections, f.cutting))
    && (At(f.cutting, Assign) ==> Within(f, f.cutting.value.sections, f.clearing))
  }

  lemma StepMissesNone(f: Fine, cfg: Config, a: FineAction)
    requires cfg.sectionSize > 0 && NoneMissed(f) && FineEnabled(f, cfg, a) && !Disturbs(f, a)
    ensures NoneMissed(FineNext(f, cfg, a))
  {
  }

  lemma {:induction false} RunMissesNone(run: seq<Fine>, actions: seq<FineAction>, cfg: Config, i: nat)
    requires cfg.sectionSize > 0 && IsFineRun(run, actions, cfg) && i < |run|
    requires forall k :: 0 <= k < i ==> !Disturbs(run[k], actions[k])
    ensures NoneMissed(run[i])
  {
    if i > 0 {
      RunMissesNone(run, actions, cfg, i - 1);
      assert Leads(run[i - 1], cfg, actions[i - 1], run[i]);
      StepMissesNone(run[i - 1], cfg, actions[i - 1]);
    }
  }

  /** As long as no removal misses its head: when the calls have returned the heads fit the number stored
      exactly if the last assignment was that of the clearing, or the reorganisation left no section. */
  lemma OverlapOutcome(run: seq<Fine>, actions: seq<FineAction>, cfg: Config, i: nat, j: nat)
    requires cfg.sectionSize > 0 && IsFineRun(run, actions, cfg) && Busy(run, i, j) && run[i].clearing.Some?
    requires forall k :: 0 <= k < j ==> !Disturbs(run[k], actions[k])
    ensures j > 0 && (!actions[j - 1].ClearStep? ==> run[j - 1].cutting.Some?)
    ensures Linked(run[j].ix.heads, run[j].ix.stored, cfg.sectionSize) <==>
      actions[j - 1].ClearStep? || run[j - 1].cutting.value.sections == 0
  {
    assert i < j;
    ClearingEnds(run, actions, cfg, i, j);
    RunMissesNone(run, actions, cfg, j);
    RunWatched(run, actions, cfg, j - 1);
    assert Leads(run[j - 1], cfg, actions[j - 1], run[j]);
  }

  // ---------- what is left then ----------

  /** With no head to build on, no header of a chain continues the section that is taken up. */
  lemma NothingBuilds(ix: Index, cfg: Config, chain: Hash, g: Hash)
    requires cfg.sectionSize > 0 && ix.stored > 0 && ix.stored - 1 !in ix.heads
    requires IsGenesis(g) && Rooted(chain, g) && ix.stored * cfg.sectionSize < |Line(chain)|
    ensures Read(Begun(ix, cfg).work.value, Line(chain)[ix.stored * cfg.sectionSize]).failed
  {
    var n := ix.stored * cfg.sectionSize;
    LineLength(chain, g);
    LineStep(chain, g, n);
    LineAt(chain, g, n - 1);
  }

  lemma Joined(run: seq<Fine>, actions: seq<FineAction>, cfg: Config, more: seq<Fine>, next: seq<FineAction>)
    requires cfg.sectionSize > 0 && Steps(run, actions, cfg) && Steps(more, next, cfg) && run[|actions|] == more[0]
    ensures Steps(run + more[1..], actions + next, cfg)
    ensures (run + more[1..])[|actions| + |next|] == more[|next|]
  {
    var all := run + more[1..];
    forall i, j | 0 <= i < |actions + next| && j == i + 1
      ensures Leads(all[i], cfg, (actions + next)[i], all[j])
    {
      if i < |actions| {
        assert Leads(run[i], cfg, actions[i], run[j]);
      } else {
        assert Leads(more[i - |actions|], cfg, next[i - |actions|], more[j - |actions|]);
      }
    }
  }

  /** Nothing can be built on the last section stored, and nothing has been read of the one taken up. */
  ghost predicate Stuck(ix: Index, cfg: Config) {
    && ix.stored > 0 && ix.stored - 1 !in ix.heads
    && (ix.work.Some? ==>
          var w := ix.work.value;
          w.failed || (w.section == ix.stored && w.lastHead == Zero && AtStart(w, cfg.sectionSize)))
  }

  /** No header but the first lacks a parent. */
  predicate HasParent(h: Hash) {
    h.HashOf? && h.header.number > 0 ==> h.header.parentHash.HashOf?
  }

  /** There it stays, as long as no reset fails and no reorganisation cuts the sections stored. */
  lemma StaysStuck(f: Fine, cfg: Config, a: FineAction)
    requires cfg.sectionSize > 0 && f.AtRest() && Stuck(f.ix, cfg) && FineEnabled(f, cfg, a)
    requires a.Whole? || (a.Reorged? && f.ix.stored <= a.head / cfg.sectionSize)
    requires a.Whole? && a.action.ReadNext? ==> HasParent(a.action.canonical)
    ensures var g := FineNext(f, cfg, a);
      g.AtRest() && Stuck(g.ix, cfg) && g.ix.stored == f.ix.stored && g.ix.heads == f.ix.heads
  {
    if a.Whole? && a.action.ReadNext? {
      Scaled(1, f.ix.stored, cfg.sectionSize);
      assert f.ix.work.value.number > 0;
    } else if a.Whole? && a.action.Finish? {
      Scaled(f.ix.work.value.section, f.ix.work.value.section + 1, cfg.sectionSize);
      SectionEnd(f.ix.work.value.section, cfg.sectionSize);
      assert f.ix.work.value.failed;
    }
  }

  // ---------- two runs ----------

  function GenesisBlock(): Hash {
    HashOf(Header(Zero, 0, 1, [], 0))
  }

  function FirstBlock(): Hash {
    HashOf(Header(GenesisBlock(), 1, 1, [], 0))
  }

  /** One block a section, and no confirmations asked for. */
  const ONE_BLOCK: Config := Config(1, 0)

  /** Two sections are stored and a third one is taken up. */
  function TwoStored(): Fine {
    Fine(Index(2, 3, 1, map[0 := GenesisBlock(), 1 := FirstBlock()],
               Some(Work(2, FirstBlock(), 2, FirstBlock(), false))), None, None)
  }

  lemma StoresTwo() returns (run: seq<Fine>, actions: seq<FineAction>)
    ensures IsFineRun(run, actions, ONE_BLOCK) && run[|actions|] == TwoStored()
    ensures forall i :: 0 <= i < |actions| ==> actions[i].Whole?
  {
    var g, a := GenesisBlock(), FirstBlock();
    actions := [Whole(NewHead(2, false)), Whole(Begin), Whole(ReadNext(g)), Whole(Finish), Whole(Begin),
                Whole(ReadNext(a)), Whole(Finish), Whole(Begin)];
    var one := map[0 := g];
    var s1 := Index(0, 3, 0, map[], None);
    var s2 := s1.(work := Some(Work(0, Zero, 0, Zero, false)));
    var s3 := s1.(work := Some(Work(0, Zero, 1, g, false)));
    var s4 := Index(1, 3, 0, one, None);
    var s5 := s4.(work := Some(Work(1, g, 1, g, false)));
    var s6 := s4.(work := Some(Work(1, g, 2, a, false)));
    var s7 := Index(2, 3, 1, one[1 := a], None);
    assert Ended(s3, ONE_BLOCK) == s4 by { assert Ended(s3, ONE_BLOCK).heads == one; }
    assert Ended(s6, ONE_BLOCK) == s7 by { assert Ended(s6, ONE_BLOCK).heads == one[1 := a]; }
    run := [Fine(Initial(), None, None), Fine(s1, None, None), Fine(s2, None, None), Fine(s3, None, None),
            Fine(s4, None, None), Fine(s5, None, None), Fine(s6, None, None), Fine(s7, None, None), TwoStored()];
    hide Ended;
    assert Leads(run[0], ONE_BLOCK, actions[0], run[1]);
    assert Leads(run[1], ONE_BLOCK, actions[1], run[2]);
    assert Leads(run[2], ONE_BLOCK, actions[2], run[3]);
    assert Leads(run[3], ONE_BLOCK, actions[3], run[4]);
    assert Leads(run[4], ONE_BLOCK, actions[4], run[5]);
    assert Leads(run[5], ONE_BLOCK, actions[5], run[6]);
    assert Leads(run[6], ONE_BLOCK, actions[6], run[7]);
    assert Leads(run[7], ONE_BLOCK, actions[7], run[8]);
  }

  /** A reorganisation that leaves the first section is about to run its last statement. */
  function NearlyCut(): Fine {
    Fine(TwoStored().ix.(stored := 1, known := 1, heads := map[0 := GenesisBlock()]), None, Some(Setter(1, Assign)))
  }

  lemma CutsNearly() returns (run: seq<Fine>, actions: seq<FineAction>)
    ensures Steps(run, actions, ONE_BLOCK) && run[0] == TwoStored() && run[|actions|] == NearlyCut()
  {
    var two, one := TwoStored().ix.(known := 1), NearlyCut().ix;
    assert two.heads - {1} == one.heads;
    actions := [Reorged(1), CutStep, CutStep, CutStep, CutStep];
    run := [TwoStored(),
            Fine(two, None, Some(Setter(1, Test))),
            Fine(two, None, Some(Setter(1, Decrement))),
            Fine(one.(heads := two.heads), None, Some(Setter(1, Remove))),
            Fine(one, None, Some(Setter(1, Test))),
            NearlyCut()];
    assert Leads(run[0], ONE_BLOCK, actions[0], run[1]);
    assert Leads(run[1], ONE_BLOCK, actions[1], run[2]);
    assert Leads(run[2], ONE_BLOCK, actions[2], run[3]);
    assert Leads(run[3], ONE_BLOCK, actions[3], run[4]);
    assert Leads(run[4], ONE_BLOCK, actions[4], run[5]);
  }

  lemma ClearsMeanwhile() returns (run: seq<Fine>, actions: seq<FineAction>)
    ensures Steps(run, actions, ONE_BLOCK) && run[0] == NearlyCut() && run[|actions|].AtRest()
    ensures var ix := run[|actions|].ix; ix.stored == 1 && ix.heads == map[] && Stuck(ix, ONE_BLOCK)
  {
    var one, last := NearlyCut().ix, NearlyCut().cutting;
    var none := one.(stored := 0, heads := map[]);
    assert one.heads - {0} == none.heads;
    var failed := none.(work := Some(one.work.value.(failed := true)));
    actions := [ResetFails, ClearStep, ClearStep, ClearStep, ClearStep, ClearStep, CutStep];
    run := [NearlyCut(),
            Fine(one, Some(Setter(0, Test)), last),
            Fine(one, Some(Setter(0, Decrement)), last),
            Fine(one.(stored := 0), Some(Setter(0, Remove)), last),
            Fine(none, Some(Setter(0, Test)), last),
            Fine(none, Some(Setter(0, Assign)), last),
            Fine(failed, None, last),
            Fine(failed.(stored := 1), None, None)];
    assert Leads(run[0], ONE_BLOCK, actions[0], run[1]);
    assert Leads(run[1], ONE_BLOCK, actions[1], run[2]);
    assert Leads(run[2], ONE_BLOCK, actions[2], run[3]);
    assert Leads(run[3], ONE_BLOCK, actions[3], run[4]);
    assert Leads(run[4], ONE_BLOCK, actions[4], run[5]);
    assert Leads(run[5], ONE_BLOCK, actions[5], run[6]);
    assert Leads(run[6], ONE_BLOCK, actions[6], run[7]);
  }

  /** A reorganisation that leaves the first of two sections comes up to its last statement; then a failed
      reset clears the sections; then the reorganisation says that one section is stored, which has no head. */
  lemma SectionLost() returns (run: seq<Fine>, actions: seq<FineAction>)
    ensures IsFineRun(run, actions, ONE_BLOCK) && run[|actions|].AtRest()
    ensures var ix := run[|actions|].ix;
      ix.stored == 1 && ix.heads == map[] && Stuck(ix, ONE_BLOCK) && !Linked(ix.heads, ix.stored, ONE_BLOCK.sectionSize)
  {
    hide Steps, Stuck;
    run, actions := StoresTwo();
    var more, next := CutsNearly();
    Joined(run, actions, ONE_BLOCK, more, next);
    run, actions := run + more[1..], actions + next;
    more, next := ClearsMeanwhile();
    Joined(run, actions, ONE_BLOCK, more, next);
    run, actions := run + more[1..], actions + next;
  }

  function BothRemoving(): Fine {
    Fine(TwoStored().ix.(stored := 0, known := 0), Some(Setter(0, Remove)), Some(Setter(0, Remove)))
  }

  lemma BothCountDown() returns (run: seq<Fine>, actions: seq<FineAction>)
    ensures Steps(run, actions, ONE_BLOCK) && run[0] == TwoStored() && run[|actions|] == BothRemoving()
  {
    var two := TwoStored().ix.(known := 0);
    var test, down, off := Some(Setter(0, Test)), Some(Setter(0, Decrement)), Some(Setter(0, Remove));
    actions := [Reorged(0), ResetFails, CutStep, ClearStep, ClearStep, CutStep];
    run := [TwoStored(),
            Fine(two, None, test),
            Fine(two, test, test),
            Fine(two, test, down),
            Fine(two, down, down),
            Fine(two.(stored := 1), off, down),
            BothRemoving()];
    assert Leads(run[0], ONE_BLOCK, actions[0], run[1]);
    assert Leads(run[1], ONE_BLOCK, actions[1], run[2]);
    assert Leads(run[2], ONE_BLOCK, actions[2], run[3]);
    assert Leads(run[3], ONE_BLOCK, actions[3], run[4]);
    assert Leads(run[4], ONE_BLOCK, actions[4], run[5]);
    assert Leads(run[5], ONE_BLOCK, actions[5], run[6]);
  }

  lemma BothMiss() returns (run: seq<Fine>, actions: seq<FineAction>)
    ensures Steps(run, actions, ONE_BLOCK) && run[0] == BothRemoving() && run[|actions|].AtRest()
    ensures var ix := run[|actions|].ix; ix.stored == 0 && ix.heads == map[1 := FirstBlock()]
  {
    var left := BothRemoving().ix.(heads := map[1 := FirstBlock()]);
    var failed := left.(work := Some(left.work.value.(failed := true)));
    assert BothRemoving().ix.heads - {0} == left.heads && left.heads - {0} == left.heads;
    var test, off, assign := Some(Setter(0, Test)), Some(Setter(0, Remove)), Some(Setter(0, Assign));
    actions := [ClearStep, CutStep, ClearStep, CutStep, ClearStep, CutStep];
    run := [BothRemoving(),
            Fine(left, test, off),
            Fine(left, test, test),
            Fine(left, assign, test),
            Fine(left, assign, assign),
            Fine(failed, None, assign),
            Fine(failed.(cascaded := 0), None, None)];
    assert Leads(run[0], ONE_BLOCK, actions[0], run[1]);
    assert Leads(run[1], ONE_BLOCK, actions[1], run[2]);
    assert Leads(run[2], ONE_BLOCK, actions[2], run[3]);
    assert Leads(run[3], ONE_BLOCK, actions[3], run[4]);
    assert Leads(run[4], ONE_BLOCK, actions[4], run[5]);
    assert Leads(run[5], ONE_BLOCK, actions[5], run[6]);
  }

  /** Both calls count down before either removes a head: the head of the second section is left over,
      although both agree that no section is stored. */
  lemma HeadLeftOver() returns (run: seq<Fine>, actions: seq<FineAction>)
    ensures IsFineRun(run, actions, ONE_BLOCK) && run[|actions|].AtRest()
    ensures var ix := run[|actions|].ix;
      ix.stored == 0 && ix.heads == map[1 := FirstBlock()] && !Linked(ix.heads, ix.stored, ONE_BLOCK.sectionSize)
  {
    hide Steps;
    run, actions := StoresTwo();
    var more, next := BothCountDown();
    Joined(run, actions, ONE_BLOCK, more, next);
    run, actions := run + more[1..], actions + next;
    more, next := BothMiss();
    Joined(run, actions, ONE_BLOCK, more, next);
    run, actions := run + more[1..], actions + next;
    assert 1 in run[|actions|].ix.heads;
  }
}
