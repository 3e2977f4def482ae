/** Retrieving an answer from the network: workers that each try one peer report to a state machine
    over a first-in first-out channel, and three counters must track the outstanding work. */
module Retrievals {
  import opened Types

  datatype Peer = Peer(id: nat)

  /** What a worker reports. A request that could not be sent has no peer. `worker` names the worker;
      the state machine does not look at it. */
  datatype Kind = Sent | SoftTimeout | HardTimeout | DeliveredValid | DeliveredInvalid
  datatype Event = Event(kind: Kind, peer: Option<Peer>, worker: nat)

  /** Where a worker is: queued, given a peer by the distributor, sent and waiting for the soft
      timeout, waiting for the hard one, past its last report, gone. */
  datatype Phase =
    | Queued
    | Assigned(peer: Peer)
    | Waiting(peer: Peer)
    | TimedOut(peer: Peer)
    | Finishing(peer: Peer)
    | Gone

  /** The entry that accepts one delivery from a peer; `valid` is the one-place channel to its owner. */
  datatype Entry = Entry(owner: nat, delivered: bool, valid: Option<bool>)

  datatype Mode = Requesting | NoMorePeers | Stopped | Exited

  datatype Failure = NoFailure | ErrNoPeers | Cancelled

  /** A worker as its reports so far tell. */
  datatype Progress = NotSent | SentTo(peer: Peer) | Late(peer: Peer) | Finished

  const CAPACITY := 10

  function Reported(p: Phase): Progress {
    match p
    case Queued => NotSent
    case Assigned(_) => NotSent
    case Waiting(peer) => SentTo(peer)
    case TimedOut(peer) => Late(peer)
    case Finishing(_) => Finished
    case Gone => Finished
  }

  ghost function AllReported(workers: map<nat, Phase>): map<nat, Progress> {
    map w | w in workers :: Reported(workers[w])
  }

  /** The effect of a report on the known progress of the worker that made it. */
  function Advance(p: Progress, e: Event): Progress {
    match e.kind
    case Sent => if e.peer.Some? then SentTo(e.peer.value) else Finished
    case SoftTimeout => if e.peer.Some? then Late(e.peer.value) else Finished
    case _ => Finished
  }

  ghost predicate Busy(p: Progress, peer: Peer) {
    p == SentTo(peer) || p == Late(peer)
  }

  /** A report a worker can make, given the progress known before it. */
  ghost predicate Legal(known: map<nat, Progress>, e: Event) {
    && e.worker in known
    && match e.kind
       case Sent => known[e.worker] == NotSent
         && (e.peer.Some? ==> forall w :: w in known ==> !Busy(known[w], e.peer.value))
       case SoftTimeout => e.peer.Some? && known[e.worker] == SentTo(e.peer.value)
       case HardTimeout => e.peer.Some? && known[e.worker] == Late(e.peer.value)
       case _ => e.peer.Some? && Busy(known[e.worker], e.peer.value)
  }

  ghost predicate AllLegal(known: map<nat, Progress>, events: seq<Event>)
    decreases |events|
  {
    events == []
    || (Legal(known, events[0])
        && AllLegal(known[events[0].worker := Advance(known[events[0].worker], events[0])], events[1..]))
  }

  ghost function Replay(known: map<nat, Progress>, events: seq<Event>): map<nat, Progress>
    requires AllLegal(known, events)
    decreases |events|
  {
    if events == [] then known
    else Replay(known[events[0].worker := Advance(known[events[0].worker], events[0])], events[1..])
  }

  lemma {:induction false} ReplayAppend(known: map<nat, Progress>, events: seq<Event>, e: Event)
    requires AllLegal(known, events) && Legal(Replay(known, events), e)
    ensures AllLegal(known, events + [e])
    ensures var r := Replay(known, events); Replay(known, events + [e]) == r[e.worker := Advance(r[e.worker], e)]
    decreases |events|
  {
    if events == [] {
      assert events + [e] == [e];
    } else {
      assert (events + [e])[1..] == events[1..] + [e];
      ReplayAppend(known[events[0].worker := Advance(known[events[0].worker], events[0])], events[1..], e);
    }
  }

  /** A new worker does not disturb the reports on their way. */
  lemma {:induction false} ReplaySpawn(known: map<nat, Progress>, events: seq<Event>, w: nat)
    requires AllLegal(known, events) && w !in known
    ensures AllLegal(known[w := NotSent], events)
    ensures Replay(known[w := NotSent], events) == Replay(known, events)[w := NotSent]
    decreases |events|
  {
    if events != [] {
      var e := events[0];
      var next := known[e.worker := Advance(known[e.worker], e)];
      assert known[w := NotSent][e.worker := Advance(known[e.worker], e)] == next[w := NotSent];
      ReplaySpawn(next, events[1..], w);
    }
  }

  /** Reports only take a worker further. */
  lemma {:induction false} ReplayForward(known: map<nat, Progress>, events: seq<Event>, w: nat)
    requires AllLegal(known, events) && w in known
    ensures var r := Replay(known, events);
      && r.Keys == known.Keys
      && (r[w] == NotSent ==> known[w] == NotSent)
      && (r[w].SentTo? ==> known[w] == NotSent || known[w] == r[w])
      && (known[w] == Finished ==> r[w] == Finished)
    decreases |events|
  {
    if events != [] {
      var e := events[0];
      ReplayForward(known[e.worker := Advance(known[e.worker], e)], events[1..], w);
    }
  }

  /** The counters, the workers and the channel between them. Bookkeeping only: `known` is what the
      reports processed so far say about each worker, `last` the worker known to be queued or short
      of its soft timeout, `next` the number of workers started. */
  datatype Work = Work(lastReqQueued: bool, lastReqSentTo: Option<Peer>, reqSrtoCount: int,
                       sentTo: map<Peer, Entry>, events: seq<Event>,
                       workers: map<nat, Phase>, known: map<nat, Progress>, last: Option<nat>, next: nat)

  /** A request in progress. */
  datatype System = System(mode: Mode, stopped: bool, err: Failure, work: Work)

  function IsWaiting(s: Work): bool {
    s.lastReqQueued || s.lastReqSentTo.Some? || s.reqSrtoCount > 0
  }

  function Updated(s: Work, e: Event): Work {
    match e.kind
    case Sent => s.(lastReqQueued := false, lastReqSentTo := e.peer)
    case SoftTimeout => s.(lastReqSentTo := None, reqSrtoCount := s.reqSrtoCount + 1)
    case HardTimeout => s.(reqSrtoCount := s.reqSrtoCount - 1)
    case _ => if e.peer == s.lastReqSentTo then s.(lastReqSentTo := None)
              else s.(reqSrtoCount := s.reqSrtoCount - 1)
  }

  ghost function LateOnes(known: map<nat, Progress>): set<nat> {
    set w | w in known && known[w].Late?
  }

  predicate Early(p: Progress) {
    p == NotSent || p.SentTo?
  }

  ghost predicate LastCounts(s: Work) {
    match s.last
    case None => !s.lastReqQueued && s.lastReqSentTo.None?
    case Some(w) =>
      && w in s.known && Early(s.known[w])
      && (s.lastReqQueued <==> s.known[w] == NotSent)
      && s.lastReqSentTo == if s.known[w].SentTo? then Some(s.known[w].peer) else None
  }

  /** The counters say exactly what is known of the workers, of which at most one is queued or short
      of its soft timeout. */
  ghost predicate Counts(s: Work) {
    && (forall w :: w in s.known ==> (Early(s.known[w]) <==> s.last == Some(w)))
    && LastCounts(s)
    && s.reqSrtoCount == |LateOnes(s.known)|
  }

  /** No two workers are known to wait for the same peer. */
  ghost predicate PeersApart(known: map<nat, Progress>) {
    forall v, w, p {:trigger Busy(known[v], p), Busy(known[w], p)} | v in known && w in known ::
      Busy(known[v], p) && Busy(known[w], p) ==> v == w
  }

  /** What is known after a report. */
  function Learnt(s: Work, e: Event): Work
    requires e.worker in s.known
  {
    var p := Advance(s.known[e.worker], e);
    Updated(s, e).(known := s.known[e.worker := p],
                   last := if Early(p) then Some(e.worker) else if s.last == Some(e.worker) then None else s.last)
  }

  lemma LearntPeers(s: Work, e: Event)
    requires PeersApart(s.known) && Legal(s.known, e)
    ensures PeersApart(Learnt(s, e).known)
  {
    var known := Learnt(s, e).known;
    forall v, w, p | v in known && w in known && Busy(known[v], p) && Busy(known[w], p) ensures v == w {
      if v != e.worker { assert Busy(s.known[v], p); }
      if w != e.worker { assert Busy(s.known[w], p); }
      if e.kind == SoftTimeout { assert Busy(s.known[e.worker], e.peer.value); }
    }
  }

  /** A worker past its soft timeout does not wait for the peer of the last request. */
  lemma LatePeer(s: Work, w: nat)
    requires Counts(s) && PeersApart(s.known) && w in s.known && s.known[w].Late?
    ensures s.lastReqSentTo != Some(s.known[w].peer)
    ensures s.last != Some(w)
  {
    assert Busy(s.known[w], s.known[w].peer);
    if s.lastReqSentTo == Some(s.known[w].peer) {
      assert Busy(s.known[s.last.value], s.known[w].peer);
    }
  }

  lemma LearntCounts(s: Work, e: Event)
    requires Counts(s) && PeersApart(s.known) && Legal(s.known, e)
    ensures Counts(Learnt(s, e))
  {
    var t, w := Learnt(s, e), e.worker;
    assert LateOnes(t.known) == if t.known[w].Late? then LateOnes(s.known) + {w} else LateOnes(s.known) - {w};
    if s.known[w].Late? {
      LatePeer(s, w);
    } else {
      assert s.last == Some(w);
    }
  }

  /** Everything but the mode. */
  ghost predicate Sound(s: Work) {
    && Counts(s) && PeersApart(s.known)
    && AllLegal(s.known, s.events) && Replay(s.known, s.events) == AllReported(s.workers)
    && (forall w: nat :: w in s.workers <==> w < s.next)
    && Entries(s.workers, s.sentTo)
  }

  /** Each worker with a peer owns that peer's entry, and each entry has such an owner. */
  ghost predicate Entries(workers: map<nat, Phase>, sentTo: map<Peer, Entry>) {
    && (forall w :: w in workers ==> Owns(workers, sentTo, w))
    && (forall p :: p in sentTo ==> Owned(workers, sentTo, p))
  }

  ghost predicate HasPeer(p: Phase, peer: Peer) {
    p == Assigned(peer) || p == Waiting(peer) || p == TimedOut(peer) || p == Finishing(peer)
  }

  ghost predicate Owns(workers: map<nat, Phase>, sentTo: map<Peer, Entry>, w: nat)
    requires w in workers
  {
    forall p :: HasPeer(workers[w], p) ==> p in sentTo && sentTo[p].owner == w
  }

  ghost predicate Owned(workers: map<nat, Phase>, sentTo: map<Peer, Entry>, p: Peer)
    requires p in sentTo
  {
    var e := sentTo[p];
    e.owner in workers && HasPeer(workers[e.owner], p) && (!e.delivered ==> e.valid.None?)
  }

  /** While a request is out there is a worker to wait for; once the loop has ended there is none. */
  ghost predicate Inv(s: System) {
    && Sound(s.work)
    && match s.mode
       case Requesting => s.work.last.Some?
       case NoMorePeers => s.work.last.None? && IsWaiting(s.work)
       case Stopped => s.stopped
       case Exited => s.stopped && !IsWaiting(s.work)
  }

  /** Starting one more worker. */
  function Spawned(s: Work): Work {
    s.(lastReqQueued := true, workers := s.workers[s.next := Queued], known := s.known[s.next := NotSent],
       last := Some(s.next), next := s.next + 1)
  }

  function Halted(s: System, err: Failure): System {
    if s.stopped then s else s.(stopped := true, err := err)
  }

  lemma SpawnedSound(s: Work)
    requires Sound(s) && s.last.None?
    ensures Sound(Spawned(s)) && Spawned(s).last.Some?
  {
    var t := Spawned(s);
    ReplayKeys(s.known, s.events);
    ReplaySpawn(s.known, s.events, s.next);
    assert LateOnes(t.known) == LateOnes(s.known);
    assert AllReported(t.workers) == AllReported(s.workers)[s.next := NotSent];
    forall v, w, p | v in t.known && w in t.known && Busy(t.known[v], p) && Busy(t.known[w], p) ensures v == w {
      assert Busy(s.known[v], p) && Busy(s.known[w], p);
    }
    forall w | w in t.workers ensures Owns(t.workers, t.sentTo, w) {
      if w != s.next { assert Owns(s.workers, s.sentTo, w); }
    }
    forall p | p in t.sentTo ensures Owned(t.workers, t.sentTo, p) { assert Owned(s.workers, s.sentTo, p); }
  }

  lemma ReplayKeys(known: map<nat, Progress>, events: seq<Event>)
    requires AllLegal(known, events)
    ensures Replay(known, events).Keys == known.Keys
  {
    forall w | w in known ensures w in Replay(known, events) { ReplayForward(known, events, w); }
    forall w | w !in known ensures w !in Replay(known, events) { ReplaySpawn(known, events, w); }
  }

  /** Receiving the oldest report. */
  function Received(s: Work): Work
    requires s.events != [] && s.events[0].worker in s.known
  {
    Learnt(s.(events := s.events[1..]), s.events[0])
  }

  /** The reports still in the channel go on from what is known after the oldest one. */
  lemma ReceivedReplays(s: Work)
    requires s.events != [] && Counts(s) && AllLegal(s.known, s.events)
    requires Replay(s.known, s.events) == AllReported(s.workers)
    ensures s.events[0].worker in s.known && Legal(s.known, s.events[0])
    ensures Counts(s.(events := s.events[1..])) && AllLegal(Received(s).known, s.events[1..])
    ensures Replay(Received(s).known, s.events[1..]) == AllReported(s.workers)
    ensures var t := Received(s);
      t.events == s.events[1..] && t.workers == s.workers && t.sentTo == s.sentTo && t.next == s.next
  {
  }

  lemma ReceivedSound(s: Work)
    requires Sound(s) && s.events != []
    ensures Legal(s.known, s.events[0]) && Sound(Received(s))
    ensures s.events[0].kind in {Sent, SoftTimeout} ==> s.last == Some(s.events[0].worker)
  {
    hide Counts, AllLegal, Replay, PeersApart, Entries, Learnt;
    ReceivedReplays(s);
    var e, u := s.events[0], s.(events := s.events[1..]);
    LearntCounts(u, e);
    LearntPeers(u, e);
    assert e.kind in {Sent, SoftTimeout} ==> Early(s.known[e.worker]);
    EarlyIsLast(u, e.worker);
  }

  lemma EarlyIsLast(s: Work, w: nat)
    requires Counts(s) && w in s.known
    ensures Early(s.known[w]) <==> s.last == Some(w)
  {
  }

  /** The loop handles the oldest report while it has a request queued or recently sent. */
  function HandledRequesting(s: System): System
    requires s.work.events != [] && s.work.events[0].worker in s.work.known
  {
    var e, t := s.work.events[0], s.(work := Received(s.work));
    match e.kind
    case Sent =>
      if e.peer.Some? then t
      else if IsWaiting(t.work) then t.(mode := NoMorePeers)
      else Halted(t, ErrNoPeers).(mode := Exited)
    case SoftTimeout => t.(work := Spawned(t.work))
    case HardTimeout => t
    case DeliveredInvalid =>
      if !t.work.lastReqQueued && t.work.lastReqSentTo.None? then t.(work := Spawned(t.work)) else t
    case DeliveredValid => Halted(t, NoFailure).(mode := Stopped)
  }

  /** The same once no more peers were found. */
  function HandledNoMorePeers(s: System): System
    requires s.work.events != [] && s.work.events[0].worker in s.work.known
  {
    var e, t := s.work.events[0], s.(work := Received(s.work));
    if e.kind == DeliveredValid then Halted(t, NoFailure).(mode := Stopped)
    else if IsWaiting(t.work) then t
    else Halted(t, ErrNoPeers).(mode := Exited)
  }

  /** Everything that can happen, one atomic step at a time: what the loop does, what the
      distributor and the workers do, and what the outside does. */
  datatype Action =
    | Handle
    | RetryTimer
    | NoticeStop
    | Assign(worker: nat, peer: Peer)
    | Refuse(worker: nat)
    | ReportSent(worker: nat)
    | Take(worker: nat)
    | SoftExpire(worker: nat)
    | HardExpire(worker: nat)
    | Leave(worker: nat)
    | Deliver(peer: Peer, good: bool)
    | Cancel

  /** A worker's report joins the channel, which must have room. */
  function Emitted(s: Work, w: nat, phase: Phase, kind: Kind, peer: Option<Peer>): Work {
    s.(workers := s.workers[w := phase], events := s.events + [Event(kind, peer, w)])
  }

  predicate WorkEnabled(k: Work, a: Action) {
    match a
    case Assign(w, p) => w in k.workers && k.workers[w] == Queued && p !in k.sentTo
    case Refuse(w) => w in k.workers && k.workers[w] == Queued && |k.events| < CAPACITY
    case ReportSent(w) => w in k.workers && k.workers[w].Assigned? && |k.events| < CAPACITY
    case Take(w) =>
      && w in k.workers && (k.workers[w].Waiting? || k.workers[w].TimedOut?) && |k.events| < CAPACITY
      && k.workers[w].peer in k.sentTo && k.sentTo[k.workers[w].peer].valid.Some?
    case SoftExpire(w) => w in k.workers && k.workers[w].Waiting? && |k.events| < CAPACITY
    case HardExpire(w) => w in k.workers && k.workers[w].TimedOut? && |k.events| < CAPACITY
    case Leave(w) => w in k.workers && k.workers[w].Finishing?
    case Deliver(_, _) => true
    case _ => false
  }

  predicate Enabled(s: System, a: Action) {
    match a
    case Handle => s.mode != Exited && (s.work.events != [] || (s.mode == Stopped && !IsWaiting(s.work)))
    case RetryTimer => s.mode == NoMorePeers
    case NoticeStop => s.stopped && (s.mode == Requesting || s.mode == NoMorePeers)
    case Cancel => true
    case _ => WorkEnabled(s.work, a)
  }

  /** What a step of a worker or of the outside does to the work. */
  function Worked(k: Work, a: Action): Work
    requires WorkEnabled(k, a)
  {
    match a
    case Assign(w, p) => k.(workers := k.workers[w := Assigned(p)], sentTo := k.sentTo[p := Entry(w, false, None)])
    case Refuse(w) => Emitted(k, w, Gone, Sent, None)
    case ReportSent(w) => Emitted(k, w, Waiting(k.workers[w].peer), Sent, Some(k.workers[w].peer))
    case Take(w) =>
      var p := k.workers[w].peer;
      var e := k.sentTo[p];
      Emitted(k.(sentTo := k.sentTo[p := e.(valid := None)]), w, Finishing(p),
              if e.valid.value then DeliveredValid else DeliveredInvalid, Some(p))
    case SoftExpire(w) => Emitted(k, w, TimedOut(k.workers[w].peer), SoftTimeout, Some(k.workers[w].peer))
    case HardExpire(w) => Emitted(k, w, Finishing(k.workers[w].peer), HardTimeout, Some(k.workers[w].peer))
    case Leave(w) => k.(workers := k.workers[w := Gone], sentTo := k.sentTo - {k.workers[w].peer})
    case Deliver(p, good) =>
      if p in k.sentTo && !k.sentTo[p].delivered
      then k.(sentTo := k.sentTo[p := k.sentTo[p].(delivered := true, valid := Some(good))]) else k
  }

  function Next(s: System, a: Action): System
    requires Enabled(s, a) && (s.work.events != [] ==> s.work.events[0].worker in s.work.known)
  {
    match a
    case Handle =>
      if s.mode == Requesting then HandledRequesting(s)
      else if s.mode == NoMorePeers then HandledNoMorePeers(s)
      else if IsWaiting(s.work) then s.(work := Received(s.work))
      else s.(mode := Exited)
    case RetryTimer => s.(work := Spawned(s.work), mode := Requesting)
    case NoticeStop => s.(mode := Stopped)
    case Cancel => Halted(s, Cancelled)
    case _ => s.(work := Worked(s.work, a))
  }

  /** One request queued, nothing else. */
  function Initial(): System {
    System(Requesting, false, NoFailure,
           Work(true, None, 0, map[], [], map[0 := Queued], map[0 := NotSent], Some(0), 1))
  }

  lemma InitialInv()
    ensures Inv(Initial())
  {
    assert LateOnes(Initial().work.known) == {};
  }

  /** What a report does to the last request. */
  lemma ReceivedLast(s: Work)
    requires Sound(s) && s.events != []
    ensures s.events[0].worker in s.known
    ensures var e, t := s.events[0], Received(s);
      && (t.last.None? <==> !t.lastReqQueued && t.lastReqSentTo.None?)
      && (e.kind == Sent ==> s.last.Some? && (t.last.Some? <==> e.peer.Some?))
      && (e.kind == SoftTimeout ==> s.last.Some? && t.last.None?)
      && (e.kind == HardTimeout ==> t.last == s.last)
      && (s.last.None? ==> t.last.None?)
  {
    ReceivedSound(s);
    hide AllLegal, Replay, Entries, PeersApart;
  }

  lemma RequestingKeepsInv(s: System)
    requires Inv(s) && s.mode == Requesting && s.work.events != []
    ensures s.work.events[0].worker in s.work.known
    ensures Inv(HandledRequesting(s))
  {
    ReceivedSound(s.work);
    ReceivedLast(s.work);
    var t := Received(s.work);
    if t.last.None? { SpawnedSound(t); }
    hide Received, Sound, Legal, Spawned;
  }

  lemma NoMorePeersKeepsInv(s: System)
    requires Inv(s) && s.mode == NoMorePeers && s.work.events != []
    ensures s.work.events[0].worker in s.work.known
    ensures Inv(HandledNoMorePeers(s))
  {
    ReceivedSound(s.work);
    ReceivedLast(s.work);
    hide Received, Sound, Legal;
  }

  lemma HandleKeepsInv(s: System)
    requires Inv(s) && Enabled(s, Handle)
    ensures s.work.events != [] ==> s.work.events[0].worker in s.work.known
    ensures Inv(Next(s, Handle))
  {
    if s.work.events != [] {
      ReceivedSound(s.work);
      match s.mode
      case Requesting => RequestingKeepsInv(s);
      case NoMorePeers => NoMorePeersKeepsInv(s);
      case Stopped =>
    }
  }

  /** A legal report from a worker keeps everything in order. */
  lemma EmittedSound(s: Work, w: nat, phase: Phase, kind: Kind, peer: Option<Peer>)
    requires Sound(s) && w in s.workers
    requires Legal(AllReported(s.workers), Event(kind, peer, w))
    requires Advance(Reported(s.workers[w]), Event(kind, peer, w)) == Reported(phase)
    requires Entries(s.workers[w := phase], s.sentTo)
    ensures Sound(Emitted(s, w, phase, kind, peer))
  {
    var t := Emitted(s, w, phase, kind, peer);
    ReplayAppend(s.known, s.events, Event(kind, peer, w));
    assert AllReported(t.workers) == AllReported(s.workers)[w := Reported(phase)];
  }

  /** A worker that keeps its peer, or has none before and after, leaves the entries in order. */
  lemma PhaseMoves(workers: map<nat, Phase>, sentTo: map<Peer, Entry>, w: nat, phase: Phase)
    requires Entries(workers, sentTo) && w in workers
    requires forall p :: HasPeer(phase, p) <==> HasPeer(workers[w], p)
    ensures Entries(workers[w := phase], sentTo)
  {
    var now := workers[w := phase];
    forall v | v in now ensures Owns(now, sentTo, v) { assert Owns(workers, sentTo, v); }
    forall p | p in sentTo ensures Owned(now, sentTo, p) { assert Owned(workers, sentTo, p); }
  }

  /** Changing what an entry holds, but not its owner. */
  lemma EntryChanges(workers: map<nat, Phase>, sentTo: map<Peer, Entry>, p: Peer, e: Entry)
    requires Entries(workers, sentTo) && p in sentTo && e.owner == sentTo[p].owner && (!e.delivered ==> e.valid.None?)
    ensures Entries(workers, sentTo[p := e])
  {
    var now := sentTo[p := e];
    assert Owned(workers, sentTo, p);
    forall v | v in workers ensures Owns(workers, now, v) { assert Owns(workers, sentTo, v); }
    forall q | q in now ensures Owned(workers, now, q) { assert Owned(workers, sentTo, q); }
  }

  /** A step that reports nothing. */
  lemma QuietSound(k: Work, workers: map<nat, Phase>, sentTo: map<Peer, Entry>)
    requires Sound(k) && workers.Keys == k.workers.Keys
    requires forall w :: w in workers ==> Reported(workers[w]) == Reported(k.workers[w])
    requires Entries(workers, sentTo)
    ensures Sound(k.(workers := workers, sentTo := sentTo))
  {
    assert AllReported(workers) == AllReported(k.workers);
  }

  /** A report by a worker that keeps its peer or goes on without one. */
  lemma MovedSound(k: Work, w: nat, phase: Phase, kind: Kind, peer: Option<Peer>)
    requires Sound(k) && w in k.workers
    requires forall p :: HasPeer(phase, p) <==> HasPeer(k.workers[w], p)
    requires Legal(AllReported(k.workers), Event(kind, peer, w))
    requires Advance(Reported(k.workers[w]), Event(kind, peer, w)) == Reported(phase)
    ensures Sound(Emitted(k, w, phase, kind, peer))
  {
    PhaseMoves(k.workers, k.sentTo, w, phase);
    EmittedSound(k, w, phase, kind, peer);
  }

  lemma ReportSound(k: Work, a: Action)
    requires Sound(k) && WorkEnabled(k, a) && (a.Refuse? || a.ReportSent? || a.SoftExpire? || a.HardExpire?)
    ensures Sound(Worked(k, a))
  {
    var w := a.worker;
    if a.ReportSent? { NotBusy(k, w); }
    hide Sound;
    match a
    case Refuse(_) => MovedSound(k, w, Gone, Sent, None);
    case ReportSent(_) => MovedSound(k, w, Waiting(k.workers[w].peer), Sent, Some(k.workers[w].peer));
    case SoftExpire(_) => MovedSound(k, w, TimedOut(k.workers[w].peer), SoftTimeout, Some(k.workers[w].peer));
    case HardExpire(_) => MovedSound(k, w, Finishing(k.workers[w].peer), HardTimeout, Some(k.workers[w].peer));
  }

  /** Emptying the channel of an entry. */
  lemma TakenSound(k: Work, w: nat)
    requires Sound(k) && WorkEnabled(k, Take(w))
    ensures var p := k.workers[w].peer;
      && p in k.sentTo && k.sentTo[p].valid.Some?
      && var sentTo := k.sentTo[p := k.sentTo[p].(valid := None)];
        Sound(k.(sentTo := sentTo)) && Entries(k.workers[w := Finishing(p)], sentTo)
  {
    var p := k.workers[w].peer;
    var e := k.sentTo[p].(valid := None);
    EntryChanges(k.workers, k.sentTo, p, e);
    PhaseMoves(k.workers, k.sentTo[p := e], w, Finishing(p));
    QuietSound(k, k.workers, k.sentTo[p := e]);
  }

  lemma TakeSound(k: Work, w: nat)
    requires Sound(k) && WorkEnabled(k, Take(w))
    ensures Sound(Worked(k, Take(w)))
  {
    var p := k.workers[w].peer;
    var e := k.sentTo[p];
    var sentTo := k.sentTo[p := e.(valid := None)];
    TakenSound(k, w);
    hide Sound, Entries;
    EmittedSound(k.(sentTo := sentTo), w, Finishing(p), if e.valid.value then DeliveredValid
      else DeliveredInvalid, Some(p));
  }

  lemma AssignSound(k: Work, w: nat, p: Peer)
    requires Sound(k) && WorkEnabled(k, Assign(w, p))
    ensures Sound(Worked(k, Assign(w, p)))
  {
    var workers, sentTo := k.workers[w := Assigned(p)], k.sentTo[p := Entry(w, false, None)];
    forall v | v in workers ensures Owns(workers, sentTo, v) { assert Owns(k.workers, k.sentTo, v); }
    forall q | q in sentTo ensures Owned(workers, sentTo, q) {
      if q != p { assert Owned(k.workers, k.sentTo, q); }
    }
    QuietSound(k, workers, sentTo);
  }

  lemma LeaveSound(k: Work, w: nat)
    requires Sound(k) && WorkEnabled(k, Leave(w))
    ensures Sound(Worked(k, Leave(w)))
  {
    var p := k.workers[w].peer;
    var workers, sentTo := k.workers[w := Gone], k.sentTo - {p};
    assert Owns(k.workers, k.sentTo, w) && HasPeer(k.workers[w], p);
    forall v | v in workers ensures Owns(workers, sentTo, v) { assert Owns(k.workers, k.sentTo, v); }
    forall q | q in sentTo ensures Owned(workers, sentTo, q) { assert Owned(k.workers, k.sentTo, q); }
    QuietSound(k, workers, sentTo);
  }

  lemma DeliverSound(k: Work, p: Peer, good: bool)
    requires Sound(k)
    ensures Sound(Worked(k, Deliver(p, good)))
  {
    if p in k.sentTo && !k.sentTo[p].delivered {
      EntryChanges(k.workers, k.sentTo, p, k.sentTo[p].(delivered := true, valid := Some(good)));
      QuietSound(k, k.workers, Worked(k, Deliver(p, good)).sentTo);
    }
  }

  /** Every step a worker, the distributor or a peer can take keeps the work in order. */
  lemma WorkedSound(k: Work, a: Action)
    requires Sound(k) && WorkEnabled(k, a)
    ensures Sound(Worked(k, a)) && Worked(k, a).last == k.last && IsWaiting(Worked(k, a)) == IsWaiting(k)
  {
    hide Sound, Entries;
    match a
    case Refuse(_) => ReportSound(k, a);
    case ReportSent(_) => ReportSound(k, a);
    case SoftExpire(_) => ReportSound(k, a);
    case HardExpire(_) => ReportSound(k, a);
    case Take(w) => TakeSound(k, w);
    case Assign(w, p) => AssignSound(k, w, p);
    case Leave(w) => LeaveSound(k, w);
    case Deliver(p, good) => DeliverSound(k, p, good);
    case _ =>
  }

  /** The peer given to a worker is not the peer of another one still waiting. */
  lemma NotBusy(k: Work, w: nat)
    requires Sound(k) && w in k.workers && k.workers[w].Assigned?
    ensures forall v :: v in k.workers ==> !Busy(Reported(k.workers[v]), k.workers[w].peer)
  {
    assert Owns(k.workers, k.sentTo, w);
    forall v | v in k.workers ensures !Busy(Reported(k.workers[v]), k.workers[w].peer) {
      assert Owns(k.workers, k.sentTo, v);
      assert HasPeer(k.workers[w], k.workers[w].peer);
      if Busy(Reported(k.workers[v]), k.workers[w].peer) { assert HasPeer(k.workers[v], k.workers[w].peer); }
    }
  }

  lemma NextKeepsInv(s: System, a: Action)
    requires Inv(s) && Enabled(s, a)
    ensures s.work.events != [] ==> s.work.events[0].worker in s.work.known
    ensures Inv(Next(s, a))
  {
    if s.work.events != [] { ReceivedLast(s.work); }
    match a
    case Handle => HandleKeepsInv(s);
    case RetryTimer => SpawnedSound(s.work);
    case NoticeStop =>
    case Cancel =>
    case _ => WorkedSound(s.work, a);
  }

  ghost predicate IsRun(run: seq<System>, actions: seq<Action>) {
    && |run| == |actions| + 1 && run[0] == Initial()
    && forall i {:trigger actions[i]} | 0 <= i < |actions| ::
         && Enabled(run[i], actions[i])
         && (run[i].work.events != [] ==> run[i].work.events[0].worker in run[i].work.known)
         && run[i + 1] == Next(run[i], actions[i])
  }

  /** Every interleaving keeps the invariant. */
  lemma {:induction false} RunKeepsInv(run: seq<System>, actions: seq<Action>, i: nat)
    requires IsRun(run, actions) && i < |run|
    ensures Inv(run[i])
  {
    if i == 0 {
      InitialInv();
    } else {
      RunKeepsInv(run, actions, i - 1);
      assert run[i] == Next(run[i - 1], actions[i - 1]);
      NextKeepsInv(run[i - 1], actions[i - 1]);
    }
  }

  /** The workers whose last report is still to be processed. */
  ghost function Outstanding(k: Work): set<nat> {
    set w | w in k.known && k.known[w] != Finished
  }

  function Bit(b: bool): nat {
    if b then 1 else 0
  }

  /** The three counters add up to the number of workers whose last report is still to be processed. */
  lemma Accounting(k: Work)
    requires Sound(k)
    ensures Bit(k.lastReqQueued) + Bit(k.lastReqSentTo.Some?) + k.reqSrtoCount == |Outstanding(k)|
    ensures k.reqSrtoCount >= 0
    ensures IsWaiting(k) <==> Outstanding(k) != {}
  {
    match k.last
    case None => assert Outstanding(k) == LateOnes(k.known);
    case Some(w) => assert Outstanding(k) == LateOnes(k.known) + {w};
  }

  lemma HeadOutstanding(k: Work)
    requires Sound(k) && k.events != []
    ensures k.events[0].worker in Outstanding(k)
  {
  }

  /** The loop ends only when every worker has made its last report and the channel is empty. */
  lemma ExitLeavesNothing(s: System)
    requires Inv(s) && s.mode == Exited
    ensures s.work.events == []
    ensures forall w :: w in s.work.workers ==> s.work.workers[w] == Gone || s.work.workers[w].Finishing?
  {
    var k := s.work;
    if k.events != [] { HeadOutstanding(k); }
    Accounting(k);
    forall w | w in k.workers ensures k.workers[w] == Gone || k.workers[w].Finishing? {
      ReplayKeys(k.known, k.events);
      assert w in AllReported(k.workers);
      assert w !in Outstanding(k);
      ReplayForward(k.known, k.events, w);
    }
  }

  /** At most one worker at a time is queued or short of its soft timeout. */
  lemma OneEarlyWorker(k: Work, v: nat, w: nat)
    requires Sound(k) && v in k.workers && w in k.workers
    requires Early(Reported(k.workers[v])) && Early(Reported(k.workers[w]))
    ensures v == w
  {
    ReplayKeys(k.known, k.events);
    assert v in AllReported(k.workers) && w in AllReported(k.workers);
    ReplayForward(k.known, k.events, v);
    ReplayForward(k.known, k.events, w);
    assert Early(k.known[v]) && Early(k.known[w]);
  }

  /** A worker that was given a peer finds its entry, and the one-place channel to it has room for
      the one delivery it accepts. */
  lemma EntryFound(k: Work, w: nat, p: Peer)
    requires Sound(k) && w in k.workers && HasPeer(k.workers[w], p)
    ensures p in k.sentTo && k.sentTo[p].owner == w
    ensures !k.sentTo[p].delivered ==> k.sentTo[p].valid.None?
  {
    assert Owns(k.workers, k.sentTo, w);
    assert Owned(k.workers, k.sentTo, p);
  }

  /** A loop that has not ended never waits in vain: a worker can report, or a report is there. */
  lemma NeverStuck(s: System)
    requires Inv(s) && s.mode != Exited
    ensures s.work.events == [] && (s.mode == Stopped ==> IsWaiting(s.work)) ==>
      exists w :: w in s.work.workers && Reported(s.work.workers[w]) != Finished
  {
    var k := s.work;
    if k.events == [] && (s.mode == Stopped ==> IsWaiting(k)) {
      Accounting(k);
      assert IsWaiting(k) by { if s.mode == Requesting { assert LastCounts(k); } }
      var w :| w in Outstanding(k);
      assert w in AllReported(k.workers) && Reported(k.workers[w]) == k.known[w];
    }
  }

  /** The request as the program keeps it. The progress of the workers is bookkeeping. */
  class SentReq {
    var mode: Mode
    var lastReqQueued: bool
    var lastReqSentTo: Option<Peer>
    var reqSrtoCount: int
    var stopped: bool
    var err: Failure
    var sentTo: map<Peer, Entry>
    var eventsCh: seq<Event>
    var workers: map<nat, Phase>
    var next: nat
    ghost var known: map<nat, Progress>
    ghost var last: Option<nat>

    ghost function State(): System
      reads this
    {
      System(mode, stopped, err, Work(lastReqQueued, lastReqSentTo, reqSrtoCount, sentTo, eventsCh, workers, known,
        last, next))
    }

    /** A request whose first worker has been started. */
    constructor ()
      ensures State() == Initial() && Inv(State())
    {
      mode, lastReqQueued, lastReqSentTo, reqSrtoCount := Requesting, true, None, 0;
      stopped, err, sentTo, eventsCh := false, NoFailure, map[], [];
      workers, next, known, last := map[0 := Queued], 1, map[0 := NotSent], Some(0);
      new;
      InitialInv();
    }

    predicate Waiting()
      reads this
    {
      lastReqQueued || lastReqSentTo.Some? || reqSrtoCount > 0
    }

    method Spawn()
      modifies this
      ensures State() == old(State()).(work := Spawned(old(State()).work))
    {
      workers := workers[next := Queued];
      known := known[next := NotSent];
      last := Some(next);
      next := next + 1;
      lastReqQueued := true;
    }

    /** Takes the oldest report from the channel and updates the flags and the counter. */
    method Update() returns (ev: Event)
      requires eventsCh != [] && eventsCh[0].worker in known
      modifies this
      ensures ev == old(eventsCh[0])
      ensures State() == old(State()).(work := Received(old(State()).work))
    {
      ghost var after := Received(State().work);
      ev := eventsCh[0];
      eventsCh := eventsCh[1..];
      Account(ev);
      known, last := after.known, after.last;
    }

    /** Updates the flags and the counter for a report. */
    method Account(ev: Event)
      requires ev.worker in known
      modifies this`lastReqQueued, this`lastReqSentTo, this`reqSrtoCount
      ensures var after := Learnt(old(State()).work, ev);
        State() == old(State()).(work := after.(known := known, last := last))
    {
      hide Advance, Early;
      match ev.kind {
        case Sent =>
          lastReqQueued := false;
          lastReqSentTo := ev.peer;
        case SoftTimeout =>
          lastReqSentTo := None;
          reqSrtoCount := reqSrtoCount + 1;
        case HardTimeout =>
          reqSrtoCount := reqSrtoCount - 1;
        case _ =>
          if ev.peer == lastReqSentTo {
            lastReqSentTo := None;
          } else {
            reqSrtoCount := reqSrtoCount - 1;
          }
      }
    }

    /** Stops the retrieval; the first error stays. */
    method Stop(e: Failure)
      modifies this
      ensures State() == Halted(old(State()), e)
    {
      if !stopped {
        stopped := true;
        err := e;
      }
    }

    method StateRequesting()
      requires Inv(State()) && mode == Requesting && eventsCh != [] && eventsCh[0].worker in known
      modifies this
      ensures State() == HandledRequesting(old(State())) && Inv(State())
    {
      RequestingKeepsInv(State());
      var ev := Update();
      match ev.kind
      case Sent =>
        if ev.peer.None? {
          if Waiting() {
            mode := NoMorePeers;
          } else {
            Stop(ErrNoPeers);
            mode := Exited;
          }
        }
      case SoftTimeout =>
        Spawn();
      case HardTimeout =>
      case DeliveredInvalid =>
        if !lastReqQueued && lastReqSentTo.None? {
          Spawn();
        }
      case DeliveredValid =>
        Stop(NoFailure);
        mode := Stopped;
    }

    method StateNoMorePeers(retry: bool)
      requires Inv(State()) && mode == NoMorePeers && (retry || (eventsCh != [] && eventsCh[0].worker in known))
      modifies this
      ensures State() == (if retry then Next(old(State()), RetryTimer) else HandledNoMorePeers(old(State())))
      ensures Inv(State())
    {
      if retry {
        SpawnedSound(State().work);
        Spawn();
        mode := Requesting;
        return;
      }
      NoMorePeersKeepsInv(State());
      var ev := Update();
      if ev.kind == DeliveredValid {
        Stop(NoFailure);
        mode := Stopped;
      } else if !Waiting() {
        Stop(ErrNoPeers);
        mode := Exited;
      }
    }

    /** Waits for one more report, or ends when nothing is outstanding. */
    method StateStopped()
      requires Inv(State()) && mode == Stopped && (Waiting() ==> eventsCh != [] && eventsCh[0].worker in known)
      modifies this
      ensures State() == Next(old(State()), Handle) && Inv(State())
      ensures mode == Exited ==> Outstanding(State().work) == {}
    {
      if Waiting() {
        ReceivedSound(State().work);
        var ev := Update();
      } else {
        Accounting(State().work);
        mode := Exited;
      }
    }

    /** Hands a peer's reply to the worker that waits for it, once. */
    method DeliverReply(peer: Peer, valid: bool) returns (accepted: bool)
      requires Inv(State())
      modifies this
      ensures State() == Next(old(State()), Deliver(peer, valid)) && Inv(State())
      ensures accepted <==> old(peer in sentTo && !sentTo[peer].delivered)
      ensures accepted ==> old(sentTo[peer].valid.None?)
      ensures sentTo == if accepted then old(sentTo)[peer := Entry(old(sentTo[peer].owner), true, Some(valid))]
        else old(sentTo)
    {
      NextKeepsInv(State(), Deliver(peer, valid));
      if peer !in sentTo || sentTo[peer].delivered {
        return false;
      }
      assert Owned(workers, sentTo, peer);
      sentTo := sentTo[peer := sentTo[peer].(delivered := true, valid := Some(valid))];
      return true;
    }
  }
}
