/** One-to-many event delivery: the select cases of one send are partitioned in place into those
    still to be served and those served, while subscriptions come and go. */
module Feeds {

  datatype Chan = Chan(id: nat)

  /** The first case of the list receives unsubscriptions, all others send to a subscriber. */
  datatype Case = RemoveSub | SendTo(chan: Chan)

  const FIRST_SUB_SEND_CASE: nat := 1

  /** How many cases send to `c`. */
  function Count(cases: seq<Case>, c: Chan): nat {
    if cases == [] then 0
    else (if cases[0] == SendTo(c) then 1 else 0) + Count(cases[1..], c)
  }

  function Is(x: Case, c: Chan): nat {
    if x == SendTo(c) then 1 else 0
  }

  lemma {:induction false} CountConcat(a: seq<Case>, b: seq<Case>, c: Chan)
    ensures Count(a + b, c) == Count(a, c) + Count(b, c)
  {
    if a == [] {
      assert a + b == b;
    } else {
      assert (a + b)[1..] == a[1..] + b;
      CountConcat(a[1..], b, c);
    }
  }

  lemma CountSplit(s: seq<Case>, i: nat, c: Chan)
    requires i < |s|
    ensures Count(s, c) == Count(s[..i], c) + Is(s[i], c) + Count(s[i + 1..], c)
  {
    assert s == s[..i] + s[i..] && s[i..][1..] == s[i + 1..];
    CountConcat(s[..i], s[i..], c);
  }

  lemma CountAppend(s: seq<Case>, x: Case, c: Chan)
    ensures Count(s + [x], c) == Count(s, c) + Is(x, c)
  {
    CountConcat(s, [x], c);
    assert [x][1..] == [];
  }

  lemma {:induction false} CountHas(s: seq<Case>, c: Chan)
    ensures Count(s, c) > 0 <==> SendTo(c) in s
  {
    if s != [] {
      CountHas(s[1..], c);
      assert s == [s[0]] + s[1..];
    }
  }

  /** The list with the case at `i` taken out. */
  function Deleted(s: seq<Case>, i: nat): seq<Case>
    requires i < |s|
  {
    s[..i] + s[i + 1..]
  }

  /** The list with the case at `i` moved to the end of its first `active` cases. */
  function Deactivated(s: seq<Case>, active: nat, i: nat): seq<Case>
    requires i < active <= |s|
  {
    s[i := s[active - 1]][active - 1 := s[i]]
  }

  /** Deactivating hands one case from the active prefix to the served rest. */
  lemma DeactivatedPartition(s: seq<Case>, active: nat, i: nat, c: Chan)
    requires i < active <= |s|
    ensures var t := Deactivated(s, active, i);
      && Count(s[..active], c) == Count(t[..active - 1], c) + Is(s[i], c)
      && Count(t[active - 1..], c) == Count(s[active..], c) + Is(s[i], c)
  {
    var t, last := Deactivated(s, active, i), active - 1;
    assert t[last..][1..] == s[active..];
    CountSplit(s[..active], i, c);
    if i < last {
      var a, m := s[..i], s[i + 1..last];
      CountSplit(t[..last], i, c);
      assert t[..last][..i] == a && t[..last][i + 1..] == m;
      CountSplit(s[..active][i + 1..], last - i - 1, c);
      assert s[..active][..i] == a && s[..active][i + 1..][..last - i - 1] == m;
      assert s[..active][i + 1..][last - i..] == [];
    } else {
      assert s[..active][..i] == t[..last] && s[..active][i + 1..] == [];
    }
  }

  lemma DeletedCount(s: seq<Case>, i: nat, c: Chan)
    requires i < |s|
    ensures Count(s, c) == Count(Deleted(s, i), c) + Is(s[i], c)
  {
    CountSplit(s, i, c);
    CountConcat(s[..i], s[i + 1..], c);
  }

  /** Deleting takes one case out of the prefix or out of the rest, and leaves the other alone. */
  lemma DeletedPartition(s: seq<Case>, active: nat, i: nat, c: Chan)
    requires i < |s| && active <= |s|
    ensures var t := Deleted(s, i);
      if i < active then
        Count(s[..active], c) == Count(t[..active - 1], c) + Is(s[i], c) && t[active - 1..] == s[active..]
      else
        t[..active] == s[..active] && Count(s[active..], c) == Count(t[active..], c) + Is(s[i], c)
  {
    var t := Deleted(s, i);
    if i < active {
      DeletedCount(s[..active], i, c);
      assert s[..active][..i] == s[..i] && s[..active][i + 1..] == s[i + 1..active];
      assert t[..active - 1] == Deleted(s[..active], i);
    } else {
      DeletedCount(s[active..], i - active, c);
      assert s[active..][..i - active] == s[active..i] && s[active..][i - active + 1..] == s[i + 1..];
      assert t[active..] == Deleted(s[active..], i - active);
    }
  }

  /** The index of the first case for a channel, or -1. */
  method Find(cases: seq<Case>, channel: Chan) returns (index: int)
    ensures index == -1 <==> Count(cases, channel) == 0
    ensures index != -1 ==> 0 <= index < |cases| && cases[index] == SendTo(channel)
    ensures index != -1 ==> forall i :: 0 <= i < index ==> cases[i] != SendTo(channel)
  {
    CountHas(cases, channel);
    for i := 0 to |cases|
      invariant forall k :: 0 <= k < i ==> cases[k] != SendTo(channel)
    {
      if cases[i] == SendTo(channel) {
        return i;
      }
    }
    return -1;
  }

  /** How a send accounts for the channels subscribed at its start: each is still active, was
      delivered to, or was cancelled first; a channel dropped later was delivered to. */
  ghost predicate Accounts(cases: seq<Case>, active: nat, start: multiset<Chan>, delivered: multiset<Chan>,
                           cancelled: multiset<Chan>, dropped: multiset<Chan>) {
    && active <= |cases|
    && (forall c :: Count(cases[..active], c) + delivered[c] + cancelled[c] == start[c])
    && (forall c :: Count(cases[active..], c) + dropped[c] == delivered[c])
  }

  lemma AccountsDeliver(cases: seq<Case>, active: nat, i: nat, start: multiset<Chan>, delivered: multiset<Chan>,
                        cancelled: multiset<Chan>, dropped: multiset<Chan>)
    requires Accounts(cases, active, start, delivered, cancelled, dropped) && i < active && cases[i].SendTo?
    ensures Accounts(Deactivated(cases, active, i), active - 1, start,
      delivered[cases[i].chan := delivered[cases[i].chan] + 1], cancelled, dropped)
  {
    forall c { DeactivatedPartition(cases, active, i, c); }
  }

  lemma AccountsRemove(cases: seq<Case>, active: nat, i: nat, start: multiset<Chan>, delivered: multiset<Chan>,
                       cancelled: multiset<Chan>, dropped: multiset<Chan>)
    requires Accounts(cases, active, start, delivered, cancelled, dropped) && i < |cases| && cases[i].SendTo?
    ensures if i < active
      then Accounts(Deleted(cases, i), active - 1, start, delivered,
        cancelled[cases[i].chan := cancelled[cases[i].chan] + 1], dropped)
      else Accounts(Deleted(cases, i), active, start, delivered, cancelled,
        dropped[cases[i].chan := dropped[cases[i].chan] + 1])
  {
    forall c { DeletedPartition(cases, active, i, c); }
  }

  lemma DeactivatedCount(s: seq<Case>, active: nat, i: nat, c: Chan)
    requires i < active <= |s|
    ensures Count(Deactivated(s, active, i), c) == Count(s, c)
  {
    var t := Deactivated(s, active, i);
    DeactivatedPartition(s, active, i, c);
    CountConcat(s[..active], s[active..], c);
    CountConcat(t[..active - 1], t[active - 1..], c);
    assert s == s[..active] + s[active..] && t == t[..active - 1] + t[active - 1..];
  }

  /** Served to the end, a send has delivered to every channel of its start once, unless cancelled. */
  lemma AccountsDone(cases: seq<Case>, start: multiset<Chan>, delivered: multiset<Chan>,
                     cancelled: multiset<Chan>, dropped: multiset<Chan>)
    requires cases != [] && cases[0] == RemoveSub
    requires Accounts(cases, FIRST_SUB_SEND_CASE, start, delivered, cancelled, dropped)
    ensures start == delivered + cancelled && dropped <= delivered
    ensures forall c :: Count(cases, c) == start[c] - cancelled[c] - dropped[c]
  {
    assert cases[..1] == [RemoveSub] && [RemoveSub][1..] == [];
    forall c ensures Count(cases, c) == Count(cases[1..], c) && Count(cases[..1], c) == 0 {}
  }

  /** Every subscription is in the list or in the inbox, and what is leaving is in the list. */
  ghost predicate Consistent(cases: seq<Case>, inbox: seq<Case>, live: multiset<Chan>, begun: multiset<Chan>,
                             received: multiset<Chan>) {
    && FIRST_SUB_SEND_CASE <= |cases|
    && cases[0] == RemoveSub && (forall i :: FIRST_SUB_SEND_CASE <= i < |cases| ==> cases[i].SendTo?)
    && (forall x :: x in inbox ==> x.SendTo?)
    && (forall c :: live[c] == Count(cases, c) + Count(inbox, c))
    && (forall c :: received[c] <= begun[c] <= received[c] + Count(cases, c))
  }

  lemma ReceivedConsistent(cases: seq<Case>, inbox: seq<Case>, live: multiset<Chan>, begun: multiset<Chan>,
                           received: multiset<Chan>, i: nat)
    requires Consistent(cases, inbox, live, begun, received) && i < |cases| && cases[i].SendTo?
    requires begun[cases[i].chan] > received[cases[i].chan]
    ensures var c := cases[i].chan;
      && live[c] > 0
      && Consistent(Deleted(cases, i), inbox, live[c := live[c] - 1], begun, received[c := received[c] + 1])
  {
    forall c { DeletedCount(cases, i, c); }
  }

  /** A channel leaves while it is still in the inbox. */
  lemma UnsubscribedConsistent(cases: seq<Case>, inbox: seq<Case>, live: multiset<Chan>, begun: multiset<Chan>,
                               received: multiset<Chan>, i: nat)
    requires Consistent(cases, inbox, live, begun, received) && i < |inbox| && inbox[i].SendTo?
    ensures var c := inbox[i].chan;
      live[c] > 0 && Consistent(cases, Deleted(inbox, i), live[c := live[c] - 1], begun, received)
  {
    forall c { DeletedCount(inbox, i, c); }
  }

  /** A channel that is not in the inbox starts to leave. */
  lemma LeavingConsistent(cases: seq<Case>, inbox: seq<Case>, live: multiset<Chan>, begun: multiset<Chan>,
                          received: multiset<Chan>, c: Chan)
    requires Consistent(cases, inbox, live, begun, received) && Count(inbox, c) == 0 && live[c] + received[c] > begun[c]
    ensures Consistent(cases, inbox, live, begun[c := begun[c] + 1], received)
  {
    hide Count;
  }

  lemma ServedConsistent(cases: seq<Case>, inbox: seq<Case>, live: multiset<Chan>, begun: multiset<Chan>,
                         received: multiset<Chan>, active: nat, i: nat)
    requires Consistent(cases, inbox, live, begun, received) && FIRST_SUB_SEND_CASE <= i < active <= |cases|
    ensures Consistent(Deactivated(cases, active, i), inbox, live, begun, received)
  {
    forall c { DeactivatedCount(cases, active, i, c); }
  }

  /** In the list of a consistent feed a leaving channel is there to be found. */
  lemma LeavingFound(cases: seq<Case>, inbox: seq<Case>, live: multiset<Chan>, begun: multiset<Chan>,
                     received: multiset<Chan>, c: Chan)
    requires Consistent(cases, inbox, live, begun, received) && begun[c] > received[c]
    ensures Count(cases, c) > 0 && cases[0] == RemoveSub
  {
  }

  /** The books of one send: the channels subscribed at its start, what became of them, the
      unsubscriptions received before it, and all deliveries made before it. */
  datatype Ledger = Ledger(start: multiset<Chan>, delivered: multiset<Chan>, cancelled: multiset<Chan>,
                           dropped: multiset<Chan>, before: multiset<Chan>, earlier: seq<Chan>) {
    /** The other books are kept of the same send. */
    ghost predicate SameSend(l: Ledger) {
      l.start == start && l.before == before && l.earlier == earlier
    }

    /** The deliveries are those made since the send began. */
    ghost predicate Told(sent: seq<Chan>) {
      earlier <= sent && delivered == multiset(sent[|earlier|..])
    }
  }

  ghost predicate Balanced(cases: seq<Case>, active: nat, nsent: nat, received: multiset<Chan>, l: Ledger) {
    && FIRST_SUB_SEND_CASE <= active <= |cases|
    && Accounts(cases, active, l.start, l.delivered, l.cancelled, l.dropped)
    && nsent == |l.delivered|
    && forall c :: received[c] == l.before[c] + l.cancelled[c] + l.dropped[c]
  }

  lemma BalancedActive(cases: seq<Case>, active: nat, nsent: nat, received: multiset<Chan>, l: Ledger)
    requires Balanced(cases, active, nsent, received, l)
    ensures FIRST_SUB_SEND_CASE <= active <= |cases|
  {
  }

  lemma BalancedServe(cases: seq<Case>, active: nat, i: nat, nsent: nat, received: multiset<Chan>, l: Ledger)
    returns (l': Ledger)
    requires Balanced(cases, active, nsent, received, l) && FIRST_SUB_SEND_CASE <= i < active && cases[i].SendTo?
    ensures Balanced(Deactivated(cases, active, i), active - 1, nsent + 1, received, l')
    ensures l' == l.(delivered := l.delivered + multiset{cases[i].chan})
  {
    AccountsDeliver(cases, active, i, l.start, l.delivered, l.cancelled, l.dropped);
    var c := cases[i].chan;
    l' := l.(delivered := l.delivered[c := l.delivered[c] + 1]);
    assert l'.delivered == l.delivered + multiset{c};
  }

  /** One more delivery. */
  lemma ToldMore(l: Ledger, sent: seq<Chan>, c: Chan)
    requires l.Told(sent)
    ensures var l' := l.(delivered := l.delivered + multiset{c}); l.SameSend(l') && l'.Told(sent + [c])
  {
    assert (sent + [c])[|l.earlier|..] == sent[|l.earlier|..] + [c];
  }

  /** What a delivery does to the list and the books. */
  lemma Delivered(cases: seq<Case>, inbox: seq<Case>, live: multiset<Chan>, begun: multiset<Chan>,
                  received: multiset<Chan>, active: nat, i: nat, nsent: nat, sent: seq<Chan>, l: Ledger)
    returns (l': Ledger)
    requires Consistent(cases, inbox, live, begun, received) && Balanced(cases, active, nsent, received, l)
    requires FIRST_SUB_SEND_CASE <= i < active <= |cases| && l.Told(sent)
    ensures cases[i].SendTo? && Consistent(Deactivated(cases, active, i), inbox, live, begun, received)
    ensures Balanced(Deactivated(cases, active, i), active - 1, nsent + 1, received, l')
    ensures l.SameSend(l') && l'.Told(sent + [cases[i].chan])
  {
    ServedConsistent(cases, inbox, live, begun, received, active, i);
    assert cases[i].SendTo?;
    hide Consistent, Count, Balanced, Deactivated, Ledger.Told, Ledger.SameSend;
    l' := BalancedServe(cases, active, i, nsent, received, l);
    ToldMore(l, sent, cases[i].chan);
  }

  lemma BalancedRemove(cases: seq<Case>, active: nat, i: nat, nsent: nat, received: multiset<Chan>, l: Ledger)
    returns (l': Ledger)
    requires Balanced(cases, active, nsent, received, l) && FIRST_SUB_SEND_CASE <= i < |cases| && cases[i].SendTo?
    ensures var c := cases[i].chan;
      Balanced(Deleted(cases, i), if i < active then active - 1 else active, nsent, received[c := received[c] + 1], l')
    ensures l' == l.(cancelled := l'.cancelled, dropped := l'.dropped)
  {
    AccountsRemove(cases, active, i, l.start, l.delivered, l.cancelled, l.dropped);
    var c := cases[i].chan;
    l' := if i < active then l.(cancelled := l.cancelled[c := l.cancelled[c] + 1])
          else l.(dropped := l.dropped[c := l.dropped[c] + 1]);
  }

  lemma BalancedBegin(cases: seq<Case>, live: multiset<Chan>, begun: multiset<Chan>, received: multiset<Chan>,
                      sent: seq<Chan>)
    requires Consistent(cases, [], live, begun, received)
    ensures Balanced(cases, |cases|, 0, received, Ledger(live, multiset{}, multiset{}, multiset{}, received, sent))
  {
    assert cases[..|cases|] == cases;
  }

  lemma BalancedDone(cases: seq<Case>, nsent: nat, received: multiset<Chan>, l: Ledger)
    requires cases != [] && cases[0] == RemoveSub && Balanced(cases, FIRST_SUB_SEND_CASE, nsent, received, l)
    ensures l.start == l.delivered + l.cancelled && nsent == |l.delivered|
    ensures received == l.before + l.cancelled + l.dropped && l.dropped <= l.delivered
  {
    AccountsDone(cases, l.start, l.delivered, l.cancelled, l.dropped);
  }

  lemma GatheredConsistent(cases: seq<Case>, inbox: seq<Case>, live: multiset<Chan>, begun: multiset<Chan>,
                           received: multiset<Chan>)
    requires Consistent(cases, inbox, live, begun, received)
    ensures Consistent(cases + inbox, [], live, begun, received)
  {
    forall c { CountConcat(cases, inbox, c); }
  }

  lemma FirstCase(cases: seq<Case>, inbox: seq<Case>, live: multiset<Chan>, begun: multiset<Chan>,
                  received: multiset<Chan>)
    requires Consistent(cases, inbox, live, begun, received)
    ensures cases != [] && cases[0] == RemoveSub
  {
  }

  class Feed {
    /** The case list, `count` of whose places are in use, and the cases the next send will add. */
    var buf: array<Case>
    var count: nat
    var inbox: seq<Case>

    /** Bookkeeping: who is subscribed, the unsubscriptions that had to wait for a send or its end,
        and those of them received. */
    var live: multiset<Chan>
    var begun: multiset<Chan>
    var received: multiset<Chan>
    /** The channels delivered to, over all sends and in order. */
    var sent: seq<Chan>

    ghost function Cases(): seq<Case>
      requires count <= buf.Length
      reads this, buf
    {
      buf[..count]
    }

    ghost predicate Valid()
      reads this, buf
    {
      count <= buf.Length && Consistent(Cases(), inbox, live, begun, received)
    }

    constructor ()
      ensures Valid() && fresh(buf) && live == begun == received == multiset{} && sent == []
    {
      buf := new Case[1](_ => RemoveSub);
      count, inbox, live, begun, received, sent := 1, [], multiset{}, multiset{}, multiset{}, [];
      new;
      assert Cases() == [RemoveSub];
    }

    method Subscribe(channel: Chan)
      requires Valid()
      modifies this`inbox, this`live
      ensures Valid() && live == old(live)[channel := old(live)[channel] + 1] && inbox == old(inbox) + [SendTo(channel)]
    {
      forall c { CountAppend(inbox, SendTo(channel), c); }
      inbox := inbox + [SendTo(channel)];
      live := live[channel := live[channel] + 1];
    }

    /** Closes the gap at `index`, in place. */
    method Delete(index: nat)
      requires index < count <= buf.Length
      modifies this`count, buf
      ensures count == old(count) - 1 && Cases() == Deleted(old(Cases()), index)
      ensures forall i :: 0 <= i < count ==> buf[i] == old(buf[if i < index then i else i + 1])
    {
      forall i | index <= i < count - 1 {
        buf[i] := buf[i + 1];
      }
      count := count - 1;
    }

    /** Swaps a served case behind the active prefix. */
    method Deactivate(index: nat, active: nat) returns (rest: nat)
      requires index < active <= count <= buf.Length
      modifies buf
      ensures rest == active - 1 && Cases() == Deactivated(old(Cases()), active, index)
      ensures buf[rest] == old(buf[index]) && (index < rest ==> buf[index] == old(buf[rest]))
      ensures forall i :: 0 <= i < buf.Length && i != index && i != rest ==> buf[i] == old(buf[i])
    {
      var last := active - 1;
      buf[index], buf[last] := buf[last], buf[index];
      return last;
    }

    /** The start of an unsubscription: a channel still in the inbox is gone at once, any other waits
        to be received by the send in progress or to take the send lock itself. */
    method Remove(channel: Chan) returns (done: bool)
      requires Valid() && live[channel] + received[channel] > begun[channel]
      modifies this`inbox, this`live, this`begun
      ensures Valid() && (done <==> Count(old(inbox), channel) > 0)
      ensures if done then live == old(live)[channel := old(live)[channel] - 1] && begun == old(begun)
              else live == old(live) && begun == old(begun)[channel := old(begun)[channel] + 1] && inbox == old(inbox)
      ensures done ==> exists i ::
        0 <= i < |old(inbox)| && old(inbox)[i] == SendTo(channel) && inbox == Deleted(old(inbox), i)
    {
      hide Consistent;
      var index := Find(inbox, channel);
      if index != -1 {
        hide Count, Deleted;
        UnsubscribedConsistent(Cases(), inbox, live, begun, received, index);
        inbox := Deleted(inbox, index);
        live := live[channel := live[channel] - 1];
        return true;
      }
      LeavingConsistent(Cases(), inbox, live, begun, received, channel);
      begun := begun[channel := begun[channel] + 1];
      return false;
    }

    /** Takes the case of a leaving channel out of the list: it is always there to be found. */
    method Receive(channel: Chan) returns (index: nat)
      requires Valid() && begun[channel] > received[channel]
      modifies this`count, this`live, this`received, buf
      ensures Valid() && live == old(live)[channel := old(live)[channel] - 1]
      ensures received == old(received)[channel := old(received)[channel] + 1]
      ensures FIRST_SUB_SEND_CASE <= index < |old(Cases())| && old(Cases())[index] == SendTo(channel)
      ensures Cases() == Deleted(old(Cases()), index)
    {
      hide Consistent;
      LeavingFound(Cases(), inbox, live, begun, received, channel);
      index := Find(buf[..count], channel);
      ReceivedConsistent(Cases(), inbox, live, begun, received, index);
      hide Count;
      Delete(index);
      live, received := live[channel := live[channel] - 1], received[channel := received[channel] + 1];
    }

    /** Whatever other goroutines do meanwhile: they may subscribe and start to unsubscribe. */
    method Others()
      requires Valid()
      modifies this`inbox, this`live, this`begun
      ensures Valid() && begun >= old(begun)
    {
      var n: nat :| true;
      while n > 0
        invariant Valid() && begun >= old(begun)
      {
        var channel: Chan, leave: bool :| true;
        if !leave {
          Subscribe(channel);
        } else if live[channel] + received[channel] > begun[channel] {
          var done := Remove(channel);
        }
        n := n - 1;
      }
    }

    /** Adds the cases of the inbox to the list. */
    method Gather()
      requires Valid()
      modifies this`buf, this`count, this`inbox, buf
      ensures Valid() && inbox == [] && (buf == old(buf) || fresh(buf))
      ensures Cases() == old(Cases()) + old(inbox)
    {
      GatheredConsistent(Cases(), inbox, live, begun, received);
      hide Consistent, Count;
      Append();
      inbox := [];
    }

    /** Copies the inbox behind the list. */
    method Append()
      requires count <= buf.Length
      modifies this`buf, this`count, buf
      ensures count <= buf.Length && (buf == old(buf) || fresh(buf)) && Cases() == old(Cases()) + inbox
    {
      ghost var was := Cases();
      var total := count + |inbox|;
      Grow(total);
      forall i | 0 <= i < |inbox| { buf[count + i] := inbox[i]; }
      assert buf[..count] == was;
      count := total;
      assert Cases() == was + inbox;
    }

    /** Makes room for so many cases. */
    method Grow(total: nat)
      requires count <= buf.Length
      modifies this`buf
      ensures count <= buf.Length && total <= buf.Length && (buf == old(buf) || fresh(buf))
      ensures Cases() == old(Cases())
    {
      if total > buf.Length {
        var room := new Case[total](_ => RemoveSub);
        forall i | 0 <= i < count { room[i] := buf[i]; }
        buf := room;
      }
    }

    /** A delivery to the case at `index` of the active prefix. */
    method Serve(index: nat, active: nat, nsent: nat, ghost l: Ledger) returns (rest: nat, n: nat, ghost l': Ledger)
      requires Valid() && FIRST_SUB_SEND_CASE <= index < active && Balanced(Cases(), active, nsent, received, l)
      requires l.Told(sent)
      modifies this`sent, buf
      ensures Valid() && rest == active - 1 && Balanced(Cases(), rest, n, received, l')
      ensures l.SameSend(l') && l'.Told(sent)
    {
      hide Consistent, Count, Balanced, Deactivated, Ledger.Told, Ledger.SameSend;
      BalancedActive(Cases(), active, nsent, received, l);
      l' := Delivered(Cases(), inbox, live, begun, received, active, index, nsent, sent, l);
      sent := sent + [buf[index].chan];
      rest := Deactivate(index, active);
      n := nsent + 1;
    }

    /** The fast path: try every active channel once without blocking. */
    method TrySends(active: nat, nsent: nat, ghost l: Ledger) returns (rest: nat, n: nat, ghost l': Ledger)
      requires Valid() && Balanced(Cases(), active, nsent, received, l) && l.Told(sent)
      modifies this`inbox, this`live, this`begun, this`sent, buf
      ensures Valid() && rest <= active && Balanced(Cases(), rest, n, received, l')
      ensures l.SameSend(l') && l'.Told(sent)
    {
      hide Consistent, Count, Accounts;
      rest, n, l' := active, nsent, l;
      var i := FIRST_SUB_SEND_CASE;
      while i < rest
        invariant Valid() && FIRST_SUB_SEND_CASE <= i <= rest <= active && Balanced(Cases(), rest, n, received, l')
        invariant l.SameSend(l') && l'.Told(sent)
        decreases rest - i
      {
        Others();
        var free: bool :| true;
        if free {
          rest, n, l' := Serve(i, rest, n, l');
        } else {
          i := i + 1;
        }
      }
    }

    /** The blocking path: a channel unblocks, or an unsubscription is received. */
    method SelectOne(active: nat, nsent: nat, ghost l: Ledger) returns (rest: nat, n: nat, ghost l': Ledger)
      requires Valid() && FIRST_SUB_SEND_CASE < active && Balanced(Cases(), active, nsent, received, l) && l.Told(sent)
      modifies this`inbox, this`live, this`begun, this`count, this`received, this`sent, buf
      ensures Valid() && rest <= active && rest + count < active + old(count)
      ensures Balanced(Cases(), rest, n, received, l')
      ensures l.SameSend(l') && l'.Told(sent)
    {
      hide Consistent, Count, Accounts;
      Others();
      var recv: Chan, unsubscribe: bool :| true;
      if unsubscribe && begun[recv] > received[recv] {
        ghost var was, got := Cases(), received;
        var index := Receive(recv);
        l' := BalancedRemove(was, active, index, nsent, got, l);
        rest, n := if index < active then active - 1 else active, nsent;
      } else {
        var chosen: nat :| FIRST_SUB_SEND_CASE <= chosen < active;
        rest, n, l' := Serve(chosen, active, nsent, l);
      }
    }

    /** Serves until every active channel has been chosen. */
    method ServeAll(ghost l: Ledger) returns (nsent: nat, ghost l': Ledger)
      requires Valid() && Balanced(Cases(), count, 0, received, l) && l.Told(sent)
      modifies this`inbox, this`live, this`begun, this`count, this`received, this`sent, buf
      ensures Valid() && Balanced(Cases(), FIRST_SUB_SEND_CASE, nsent, received, l')
      ensures l.SameSend(l') && l'.Told(sent)
    {
      var active: nat := count;
      nsent, l' := 0, l;
      hide Consistent, Count, Accounts, Balanced;
      while true
        invariant Valid() && active <= count && Balanced(Cases(), active, nsent, received, l')
        invariant l.SameSend(l') && l'.Told(sent)
        decreases active + count
      {
        active, nsent, l' := TrySends(active, nsent, l');
        BalancedActive(Cases(), active, nsent, received, l');
        if active == FIRST_SUB_SEND_CASE {
          break;
        }
        active, nsent, l' := SelectOne(active, nsent, l');
        BalancedActive(Cases(), active, nsent, received, l');
      }
    }

    /** Delivers to every channel subscribed at the start exactly once, unless it is removed before
        its turn, and counts the deliveries. */
    method Send() returns (nsent: nat, ghost cancelled: multiset<Chan>, ghost dropped: multiset<Chan>)
      requires Valid()
      modifies this, buf
      ensures Valid() && old(sent) <= sent && nsent == |sent| - |old(sent)|
      ensures var delivered := multiset(sent[|old(sent)|..]);
        old(live) == delivered + cancelled && received == old(received) + cancelled + dropped && dropped <= delivered
    {
      Gather();
      ghost var l := Ledger(live, multiset{}, multiset{}, multiset{}, received, sent);
      BalancedBegin(Cases(), live, begun, received, sent);
      hide Consistent, Count, Balanced, Accounts;
      nsent, l := ServeAll(l);
      FirstCase(Cases(), inbox, live, begun, received);
      BalancedDone(Cases(), nsent, received, l);
      cancelled, dropped := l.cancelled, l.dropped;
    }
  }
}
