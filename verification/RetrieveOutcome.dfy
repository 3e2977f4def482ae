/** How a retrieval turns out: with an answer, with no peer left to ask, or called off. */
module RetrievalOutcomes {
  import opened Types
  import opened Retrievals

  /** A worker has reports to make or reports not read yet. */
  ghost predicate Open(k: Work, w: nat) {
    && w in k.workers
    && (!(k.workers[w].Finishing? || k.workers[w].Gone?) || exists i :: 0 <= i < |k.events| && k.events[i].worker == w)
  }

  /** Nobody but the worker whose report is read next can bring an answer any more. */
  ghost predicate LastHope(k: Work) {
    k.events != [] && forall w :: Open(k, w) ==> w == k.events[0].worker
  }

  /** The step by which a retrieval not stopped before ends in a given way: an answer found valid is read; a
      worker reports that there is no peer to ask, or fails when there are none anyway, while nobody else is
      at it; or it is called off. */
  ghost predicate Ends(s: System, a: Action, err: Failure) {
    match err
    case NoFailure =>
      && a == Handle && (s.mode == Requesting || s.mode == NoMorePeers)
      && s.work.events != [] && s.work.events[0].kind == DeliveredValid
    case ErrNoPeers =>
      && a == Handle && LastHope(s.work)
      && var e := s.work.events[0];
        || (s.mode == Requesting && e.kind == Sent && e.peer == None)
        || (s.mode == NoMorePeers && e.kind != DeliveredValid)
    case Cancelled => a == Cancel
  }

  /** What is outstanding by the book is what is open. */
  lemma OutstandingOpen(k: Work, w: nat)
    requires Sound(k)
    ensures w in Outstanding(k) <==> Open(k, w)
  {
    ReplayKeys(k.known, k.events);
    assert w in k.workers <==> w in AllReported(k.workers);
    if w in k.workers {
      ReplayOpen(k.known, k.events, w);
      hide AllLegal, Replay, Counts, PeersApart, Entries;
    }
  }

  /** A worker is done by the book exactly if it has made its last report and none is left to be read. */
  lemma {:induction false} ReplayOpen(known: map<nat, Progress>, events: seq<Event>, w: nat)
    requires AllLegal(known, events) && w in known && w in Replay(known, events)
    ensures known[w] != Finished <==>
      Replay(known, events)[w] != Finished || exists i :: 0 <= i < |events| && events[i].worker == w
    decreases |events|
  {
    if events != [] {
      var e := events[0];
      var next := known[e.worker := Advance(known[e.worker], e)];
      ReplayOpen(next, events[1..], w);
      assert forall i :: 0 <= i < |events[1..]| ==> events[1..][i] == events[i + 1];
      assert (exists i :: 0 <= i < |events| && events[i].worker == w) <==>
        e.worker == w || exists i :: 0 <= i < |events[1..]| && events[1..][i].worker == w;
    }
  }

  /** After a last report somebody is still waited for unless the worker that made it was the last hope. */
  lemma WaitsOn(k: Work)
    requires Sound(k) && k.events != [] && Legal(k.known, k.events[0])
    requires Advance(k.known[k.events[0].worker], k.events[0]) == Finished
    ensures IsWaiting(Received(k)) <==> !LastHope(k)
  {
    var t, w := Received(k), k.events[0].worker;
    ReceivedSound(k);
    Accounting(t);
    HeadOutstanding(k);
    forall v ensures v in Outstanding(k) <==> Open(k, v) { OutstandingOpen(k, v); }
    hide Sound, Open, Legal, IsWaiting;
    assert Outstanding(t) == Outstanding(k) - {w};
    assert Open(k, w);
    if Outstanding(t) != {} {
      var v :| v in Outstanding(t);
      assert Open(k, v) && v != w;
    }
  }

  /** What reading the next report leaves to be waited for. */
  lemma HeadWaits(s: System)
    requires Inv(s) && s.work.events != []
    ensures s.work.events[0].worker in s.work.known
    ensures var e := s.work.events[0];
      s.mode == NoMorePeers || (e.kind == Sent && e.peer == None) ==> (
        IsWaiting(Received(s.work)) <==> !LastHope(s.work))
  {
    ReceivedSound(s.work);
    var e := s.work.events[0];
    hide Sound, LastHope, Received, IsWaiting;
    if s.mode == NoMorePeers || (e.kind == Sent && e.peer == None) { WaitsOn(s.work); }
  }

  /** One step ends a retrieval exactly as told, once. */
  lemma StepEnds(s: System, a: Action, err: Failure)
    requires Inv(s) && Enabled(s, a)
    ensures s.work.events != [] ==> s.work.events[0].worker in s.work.known
    ensures s.stopped ==> Next(s, a).stopped && Next(s, a).err == s.err
    ensures !s.stopped ==> (Next(s, a).stopped && Next(s, a).err == err <==> Ends(s, a, err))
    ensures !s.stopped && Next(s, a).stopped ==> exists f :: Ends(s, a, f)
  {
    if s.work.events != [] { HeadWaits(s); }
    hide Inv, LastHope, Received, IsWaiting, Worked, WorkEnabled;
    assert Next(s, a).stopped && !s.stopped ==> Ends(s, a, Next(s, a).err);
  }

  /** How a run turns out: it is over exactly when one step has ended it, and as that step says. */
  lemma {:induction false} RunEnds(run: seq<System>, actions: seq<Action>, i: nat, err: Failure)
    requires IsRun(run, actions) && i < |run|
    ensures run[i].stopped && run[i].err == err <==>
      exists j :: 0 <= j < i && !run[j].stopped && Ends(run[j], actions[j], err)
    ensures run[i].stopped ==> exists j, f :: 0 <= j < i && !run[j].stopped && Ends(run[j], actions[j], f)
  {
    hide Enabled, Next, Inv, Ends;
    if i > 0 {
      var n := i - 1;
      RunEnds(run, actions, n, err);
      RunKeepsInv(run, actions, n);
      assert run[i] == Next(run[n], actions[n]);
      StepEnds(run[n], actions[n], err);
      if run[i].stopped && run[i].err == err && !run[n].stopped {
        assert 0 <= n < i && !run[n].stopped && Ends(run[n], actions[n], err);
      }
      if run[i].stopped && !run[n].stopped {
        var f :| Ends(run[n], actions[n], f);
        assert 0 <= n < i && !run[n].stopped && Ends(run[n], actions[n], f);
      }
    }
  }

  // ---------- where answers come from ----------

  /** A peer asked and not heard before has sent something that was found valid. */
  ghost predicate Delivered(run: seq<System>, actions: seq<Action>, j: nat, p: Peer) {
    && j < |run| && j < |actions| && actions[j] == Deliver(p, true)
    && p in run[j].work.sentTo && !run[j].work.sentTo[p].delivered
  }

  ghost predicate Before(run: seq<System>, actions: seq<Action>, i: nat, p: Peer) {
    exists j: nat :: j < i && Delivered(run, actions, j, p)
  }

  /** Every valid answer on its way to the loop is from one of some peers. */
  ghost predicate FromOnly(k: Work, peers: iset<Peer>) {
    && (forall p :: p in k.sentTo && k.sentTo[p].valid == Some(true) ==> p in peers)
    && (forall e :: e in k.events && e.kind == DeliveredValid ==> e.peer.Some? && e.peer.value in peers)
  }

  lemma StepFrom(s: System, a: Action, peers: iset<Peer>)
    requires Enabled(s, a) && (s.work.events != [] ==> s.work.events[0].worker in s.work.known)
    requires FromOnly(s.work, peers)
    requires a.Deliver? && a.good && a.peer in s.work.sentTo && !s.work.sentTo[a.peer].delivered ==> a.peer in peers
    ensures FromOnly(Next(s, a).work, peers)
  {
    hide Worked, Received, IsWaiting, FromOnly;
    match a
    case Handle => if s.work.events != [] { ReceivedFrom(s.work, peers); }
    case RetryTimer => assert Next(s, a).work.events == s.work.events; LikeFrom(s.work, Next(s, a).work, peers);
    case NoticeStop =>
    case Cancel =>
    case _ => WorkedFrom(s.work, a, peers);
  }

  lemma LikeFrom(k: Work, t: Work, peers: iset<Peer>)
    requires FromOnly(k, peers) && t.sentTo == k.sentTo && forall e :: e in t.events ==> e in k.events
    ensures FromOnly(t, peers)
  {
  }

  lemma ReceivedFrom(k: Work, peers: iset<Peer>)
    requires FromOnly(k, peers) && k.events != [] && k.events[0].worker in k.known
    ensures FromOnly(Received(k), peers) && FromOnly(Spawned(Received(k)), peers)
  {
    ReceivedKeeps(k);
    hide Received;
    LikeFrom(k, Received(k), peers);
    LikeFrom(k, Spawned(Received(k)), peers);
  }

  lemma ReceivedKeeps(k: Work)
    requires k.events != [] && k.events[0].worker in k.known
    ensures var t := Received(k);
      t.events == k.events[1..] && t.sentTo == k.sentTo && t.workers == k.workers && t.next == k.next
  {
    hide Advance, Early;
  }

  lemma WorkedFrom(k: Work, a: Action, peers: iset<Peer>)
    requires WorkEnabled(k, a) && FromOnly(k, peers)
    requires a.Deliver? && a.good && a.peer in k.sentTo && !k.sentTo[a.peer].delivered ==> a.peer in peers
    ensures FromOnly(Worked(k, a), peers)
  {
  }

  /** Whatever is on its way to the loop as a valid answer was delivered. */
  lemma {:induction false} ValidDelivered(run: seq<System>, actions: seq<Action>, i: nat)
    requires IsRun(run, actions) && i < |run|
    ensures FromOnly(run[i].work, iset p | Before(run, actions, i, p))
  {
    hide Next, Enabled;
    if i > 0 {
      var n := i - 1;
      ValidDelivered(run, actions, n);
      var earlier, peers := iset p | Before(run, actions, n, p), iset p | Before(run, actions, i, p);
      assert earlier <= peers;
      var s, a := run[n], actions[n];
      assert run[i] == Next(s, a);
      if a.Deliver? && a.good && a.peer in s.work.sentTo && !s.work.sentTo[a.peer].delivered {
        assert Delivered(run, actions, n, a.peer);
      }
      StepFrom(s, a, peers);
    }
  }

  /** A retrieval that succeeds does so by an answer delivered by a peer that was asked. */
  lemma SuccessDelivered(run: seq<System>, actions: seq<Action>, i: nat)
    requires IsRun(run, actions) && i < |run| && run[i].stopped && run[i].err == NoFailure
    ensures exists j: nat, p :: j < i && Delivered(run, actions, j, p)
  {
    RunEnds(run, actions, i, NoFailure);
    hide IsRun, Delivered;
    var n :| 0 <= n < i && !run[n].stopped && Ends(run[n], actions[n], NoFailure);
    ValidDelivered(run, actions, n);
    assert run[n].work.events[0] in run[n].work.events;
    var j: nat :| j < n && Delivered(run, actions, j, run[n].work.events[0].peer.value);
  }

  // ---------- the states of the loop ----------

  /** How the loop goes from state to state. */
  lemma StepMoves(s: System, a: Action)
    requires Inv(s) && Enabled(s, a)
    ensures s.work.events != [] ==> s.work.events[0].worker in s.work.known
    ensures var read := a == Handle && s.work.events != [];
      var answered := read && s.work.events[0].kind == DeliveredValid;
      var refused := read && s.work.events[0].kind == Sent && s.work.events[0].peer == None;
      Next(s, a).mode == match s.mode
        case Requesting =>
          if a == NoticeStop || answered then Stopped
          else if refused then (if LastHope(s.work) then Exited else NoMorePeers)
          else Requesting
        case NoMorePeers =>
          if a == NoticeStop || answered then Stopped
          else if a == RetryTimer then Requesting
          else if read && LastHope(s.work) then Exited
          else NoMorePeers
        case Stopped => if a == Handle && forall w :: !Open(s.work, w) then Exited else Stopped
        case Exited => Exited
  {
    if s.work.events != [] { HeadWaits(s); }
    NobodyOpen(s);
    hide Inv, LastHope, Received, Open, IsWaiting, Worked, WorkEnabled;
  }

  lemma NobodyOpen(s: System)
    requires Inv(s)
    ensures IsWaiting(s.work) <==> !forall w :: !Open(s.work, w)
    ensures s.mode == Exited ==> s.work.events == []
  {
    Accounting(s.work);
    forall w ensures w in Outstanding(s.work) <==> Open(s.work, w) { OutstandingOpen(s.work, w); }
    if s.mode == Exited { ExitLeavesNothing(s); }
    hide Sound, Open, IsWaiting;
  }

  /** When another peer is tried: on the retry timer, when the last request is overdue, or when it was answered
      badly before it was. */
  lemma StepSpawns(s: System, a: Action)
    requires Inv(s) && Enabled(s, a)
    ensures s.work.events != [] ==> s.work.events[0].worker in s.work.known
    ensures var k, t := s.work, Next(s, a).work;
      var tries := a == RetryTimer || (a == Handle && s.mode == Requesting && (
        || k.events[0].kind == SoftTimeout
        || (k.events[0].kind == DeliveredInvalid && k.known[k.events[0].worker].SentTo?)));
      && t.next == (if tries then k.next + 1 else k.next)
      && (tries ==> k.next in t.workers && t.workers[k.next] == Queued && t.lastReqQueued)
      && (forall w :: w in k.workers && (a.Handle? || a.RetryTimer? || a.NoticeStop? || a.Cancel?) ==>
            w in t.workers && t.workers[w] == k.workers[w])
  {
    if s.work.events != [] {
      ReceivedSound(s.work);
      ReceivedKeeps(s.work);
    }
    hide Received, HandledRequesting, IsWaiting, Worked, WorkEnabled;
    match a
    case Handle => if s.mode == Requesting { RequestingSpawns(s); }
    case RetryTimer =>
    case NoticeStop =>
    case Cancel =>
    case _ => WorkedNext(s.work, a);
  }

  lemma WorkedNext(k: Work, a: Action)
    requires WorkEnabled(k, a)
    ensures Worked(k, a).next == k.next
  {
  }

  lemma RequestingSpawns(s: System)
    requires Inv(s) && s.mode == Requesting && s.work.events != []
    ensures s.work.events[0].worker in s.work.known
    ensures var k, t, e := s.work, HandledRequesting(s).work, s.work.events[0];
      && t == (if e.kind == SoftTimeout || (e.kind == DeliveredInvalid && k.known[e.worker].SentTo?)
               then Spawned(Received(k)) else Received(k))
      && Received(k).next == k.next && Received(k).workers == k.workers
      && forall w :: w in k.workers ==> w < k.next
  {
    ReceivedSound(s.work);
    ReceivedLast(s.work);
    var e := s.work.events[0];
    EarlyIsLast(s.work, e.worker);
    assert Received(s.work).last == if Early(Advance(s.work.known[e.worker], e)) then Some(e.worker)
      else if s.work.last == Some(e.worker) then None else s.work.last;
    hide Sound, Received, IsWaiting, Spawned, Counts;
  }

  // ---------- the workers ----------

  /** What the workers, the distributor and the peers do: a peer's first reply reaches the worker that asked it,
      and every report tells what happened, in the order it happened. */
  lemma WorkerSteps(k: Work, a: Action)
    requires WorkEnabled(k, a)
    ensures var t := Worked(k, a);
      && (a.Deliver? && a.peer in k.sentTo && !k.sentTo[a.peer].delivered ==>
            t == k.(sentTo := k.sentTo[a.peer := Entry(k.sentTo[a.peer].owner, true, Some(a.good))]))
      && (a.Deliver? && (a.peer in k.sentTo ==> k.sentTo[a.peer].delivered) ==> t == k)
      && (a.Assign? ==> t.workers == k.workers[a.worker := Assigned(a.peer)])
      && (a.Assign? ==> t.events == k.events && t.sentTo == k.sentTo[a.peer := Entry(a.worker, false, None)])
      && (a.Refuse? ==> t.events == k.events + [Event(Sent, None, a.worker)])
      && (a.ReportSent? ==> t.events == k.events + [Event(Sent, Some(k.workers[a.worker].peer), a.worker)])
      && (a.SoftExpire? ==> t.events == k.events + [Event(SoftTimeout, Some(k.workers[a.worker].peer), a.worker)])
      && (a.HardExpire? ==> t.events == k.events + [Event(HardTimeout, Some(k.workers[a.worker].peer), a.worker)])
      && (a.Take? ==>
            var p := k.workers[a.worker].peer;
            p in k.sentTo && k.sentTo[p].valid.Some? && t.events == k.events
              + [Event(if k.sentTo[p].valid == Some(true) then DeliveredValid else DeliveredInvalid, Some(p),
                       a.worker)])
      && (a.Leave? ==> t.sentTo.Keys == k.sentTo.Keys - {k.workers[a.worker].peer} && t.events == k.events)
  {
  }

  /** Never more reports are waiting than the channel has room for. */
  lemma {:induction false} ChannelFits(run: seq<System>, actions: seq<Action>, i: nat)
    requires IsRun(run, actions) && i < |run|
    ensures |run[i].work.events| <= 10
  {
    if i > 0 {
    hide Next, Enabled;
      ChannelFits(run, actions, i - 1);
      var s, a := run[i - 1], actions[i - 1];
      assert run[i] == Next(s, a);
      StepFits(s, a);
    }
  }

  lemma StepFits(s: System, a: Action)
    requires Enabled(s, a) && (s.work.events != [] ==> s.work.events[0].worker in s.work.known)
    requires |s.work.events| <= 10
    ensures |Next(s, a).work.events| <= 10
  {
    hide Worked, Received, IsWaiting, WorkEnabled;
    if s.work.events != [] { ReceivedKeeps(s.work); }
    match a
    case Handle =>
    case RetryTimer =>
    case NoticeStop =>
    case Cancel =>
    case _ => WorkedFits(s.work, a);
  }

  lemma WorkedFits(k: Work, a: Action)
    requires WorkEnabled(k, a) && |k.events| <= 10
    ensures |Worked(k, a).events| <= 10
  {
  }
}
