/** Whose answer the daemon hands on: what a user gave on a connection, and how it is drawn on. */
module Integrity {
  import opened Types
  import opened World
  import opened Protocol
  import opened Cancel
  import opened Steps
  import opened Safety
  import L = Link

  // ---- One connection -----------------------------------------------------------------------

  /** An answer handed on as `h` is the one given as `g`: the same decision for the same request,
      or for one of the same id when the request asked about was removed and its id used again. */
  ghost predicate Matches(h: L.Verdict, g: L.Verdict, log: seq<Event>, u: string) {
    && h.answer == g.answer && h.request.id == g.request.id
    && (h.request == g.request || WasRemoved(log, u, g.request))
  }

  /** `hs` is drawn from `gs`: in the same order, none of them used twice. */
  ghost predicate Drawn(hs: seq<L.Verdict>, gs: seq<L.Verdict>, log: seq<Event>, u: string) {
    if hs == [] then true
    else if gs == [] then false
    else
      var n, m := |hs| - 1, |gs| - 1;
      || Drawn(hs, gs[..m], log, u)
      || (Matches(hs[n], gs[m], log, u) && Drawn(hs[..n], gs[..m], log, u))
  }

  lemma {:induction false} DrawnLater(hs: seq<L.Verdict>, gs: seq<L.Verdict>, log: seq<Event>, log': seq<Event>,
                                      u: string)
    requires log <= log' && Drawn(hs, gs, log, u)
    ensures Drawn(hs, gs, log', u)
    decreases |gs|
  {
    hide WasRemoved;
    if hs != [] {
      var n, m := |hs| - 1, |gs| - 1;
      if Drawn(hs, gs[..m], log, u) {
        DrawnLater(hs, gs[..m], log, log', u);
      } else {
        DrawnLater(hs[..n], gs[..m], log, log', u);
        if WasRemoved(log, u, gs[m].request) {
          WasRemovedGrows(log, log', u, gs[m].request);
        }
      }
    }
  }

  lemma DrawnSkips(hs: seq<L.Verdict>, gs: seq<L.Verdict>, g: L.Verdict, log: seq<Event>, u: string)
    requires Drawn(hs, gs, log, u)
    ensures Drawn(hs, gs + [g], log, u)
  {
    hide Matches;
    assert (gs + [g])[..|gs|] == gs;
  }

  lemma DrawnTakes(hs: seq<L.Verdict>, h: L.Verdict, gs: seq<L.Verdict>, g: L.Verdict, log: seq<Event>, u: string)
    requires Drawn(hs, gs, log, u) && Matches(h, g, log, u)
    ensures Drawn(hs + [h], gs + [g], log, u)
  {
    hide Matches;
    assert (gs + [g])[..|gs|] == gs && (hs + [h])[..|hs|] == hs;
  }

  /** What was given before the answer that is still on its way. */
  ghost function Settled(l: L.Link): seq<L.Verdict> {
    if l.toDaemon == [] || l.given == [] then l.given else l.given[..|l.given| - 1]
  }

  /** What was handed on is drawn from what was given and is no longer on its way. */
  ghost predicate Grounded(l: L.Link, log: seq<Event>) {
    Drawn(l.handled, Settled(l), log, l.user)
  }

  /** The answer on its way: what it answers, and what was sent after that. */
  lemma AnsweredQuestion(l: L.Link, standing: Option<NotificationRequest>)
    requires L.LinkInv(l, standing) && l.toDaemon != []
    ensures l.given != [] && 0 < l.asked <= |l.sent|
    ensures var g := l.given[|l.given| - 1];
      && l.toDaemon == [NotificationResponse(g.request.id, g.answer)]
      && if l.asked == |l.sent| then standing == Some(g.request) else l.sent[l.asked] == L.Dismiss(g.request)
  {
    hide L.PopupInv, L.Unread;
    var cs := l.sent[l.asked - 1..];
    assert |cs| > 1 ==> cs[1] == l.sent[l.asked];
  }

  predicate IsAccept(m: Move) {
    m.Accepts? || m.AcceptsAndCloses?
  }

  /** The answer is accepted for the request it was given for, or that one is on record as removed. */
  ghost predicate AcceptedFor(l: L.Link, m: Move, log: seq<Event>)
    requires IsAccept(m)
  {
    l.given != [] ==>
      var g := l.given[|l.given| - 1];
      m.request.Stripped() == g.request || WasRemoved(log, l.user, g.request)
  }

  /** What a move does to the answers given, on their way, and handed on. */
  lemma AfterHistory(l: L.Link, m: Move)
    requires Can(l, m)
    ensures var l' := After(l, m);
      && l'.user == l.user
      && l'.given == (if m.Answers? then l.given + [L.Verdict(l.popup.request, m.answer)] else l.given)
      && l'.handled == (if IsAccept(m) then l.handled + [L.Verdict(m.request.Stripped(), l.toDaemon[0].response)]
                        else l.handled)
      && (m.Answers? || l'.toDaemon == l.toDaemon || l'.toDaemon == [] || |l'.toDaemon| == |l.toDaemon| - 1)
      && (IsAccept(m) ==> l.toDaemon != [] && |l'.toDaemon| < |l.toDaemon|)
  {
  }

  lemma AfterGrounded(l: L.Link, m: Move, standing: Option<NotificationRequest>, log: seq<Event>, log': seq<Event>)
    requires Can(l, m) && L.LinkInv(l, standing) && Grounded(l, log) && log <= log'
    requires IsAccept(m) ==> AcceptedFor(l, m, log')
    ensures Grounded(After(l, m), log')
  {
    hide Drawn, WasRemoved, L.LinkInv, After;
    var l', u, settled := After(l, m), l.user, Settled(l);
    DrawnLater(l.handled, settled, log, log', u);
    AfterHistory(l, m);
    if m.Answers? {
      AskingHasSentNothing(l, standing);
      hide Can;
      var g := L.Verdict(l.popup.request, m.answer);
      assert (l.given + [g])[..|l.given|] == l.given;
      DrawnSkips(l.handled, l.given, g, log', u);
    } else if l.toDaemon != [] {
      AnsweredQuestion(l, standing);
      hide Can;
      var g := l.given[|l.given| - 1];
      assert l.given == settled + [g];
      DrawnSkips(l.handled, settled, g, log', u);
      if IsAccept(m) {
        DrawnTakes(l.handled, L.Verdict(m.request.Stripped(), l.toDaemon[0].response), settled, g, log', u);
      }
    }
  }

  lemma AskingHasSentNothing(l: L.Link, standing: Option<NotificationRequest>)
    requires L.LinkInv(l, standing) && l.popup.Asking?
    ensures l.toDaemon == []
  {
  }

  // ---- The whole state ----------------------------------------------------------------------

  ghost predicate AllGrounded(w: World, log: seq<Event>) {
    forall i :: 0 <= i < |w.links| ==> Grounded(w.links[i], log)
  }

  lemma SomeStanding(w: World, i: nat) returns (standing: Option<NotificationRequest>)
    requires Inv(w) && i < |w.links|
    ensures L.LinkInv(w.links[i], standing)
  {
    hide HandledInv, ConservedInv, QueuesInv, L.LinkInv;
    AnyExplained(w, i);
    standing :| L.LinkInv(w.links[i], standing);
  }

  /** Every step in which answers are accepted as they should be. */
  lemma NextGrounded(w: World, a: Label, log: seq<Event>, log': seq<Event>)
    requires Inv(w) && AllGrounded(w, log) && Enabled(w, a) && log <= log'
    requires forall i :: (0 <= i < |w.links| && IsAccept(MoveOf(w, a, i))
                          ==> AcceptedFor(w.links[i], MoveOf(w, a, i), log'))
    ensures AllGrounded(Next(w, a), log')
  {
    hide Wired, QueuesInv, ConnectionsInv, HandledInv, ConservedInv, Enabled, Next;
    hide Grounded, MoveOf, After, Can, L.LinkInv, AcceptedFor;
    var w' := Next(w, a);
    forall i | 0 <= i < |w'.links| ensures Grounded(w'.links[i], log') {
      if i < |w.links| {
        NextLink(w, a, i);
        var standing := SomeStanding(w, i);
        AfterGrounded(w.links[i], MoveOf(w, a, i), standing, log, log');
      } else {
        NextFresh(w, a, i);
        FreshGrounded(a.user, log');
      }
    }
  }

  lemma FreshGrounded(u: string, log: seq<Event>)
    ensures Grounded(L.Fresh(u), log)
  {
  }

  /** Accepting happens on the connection of the head's user, when a response for the head is read. */
  lemma AcceptingIs(w: World, a: Label, i: nat)
    requires Wired(w) && Enabled(w, a) && i < |w.links| && IsAccept(MoveOf(w, a, i))
    ensures a.Response? && a.fd in w.fdToUser && w.handles[a.fd] == i && w.links[i].toDaemon != []
    ensures LinkOf(w, a.fd) == w.links[i] && w.fdToUser[a.fd] == w.links[i].user
    ensures var q := Queue(w, w.links[i].user);
      && q != [] && q[0].id == w.links[i].toDaemon[0].id
      && MoveOf(w, a, i) == if a.fd in a.broken then AcceptsAndCloses(q[0]) else Accepts(q[0])
  {
    hide Queue, Reached, HeadIs, Wired;
    OpenUser(w, i);
    Known(w, w.userToFd[w.links[i].user]);
  }

  lemma AcceptedGrounded(w: World, a: Label, i: nat)
    requires Inv(w) && AllJustified(w) && Enabled(w, a) && i < |w.links| && IsAccept(MoveOf(w, a, i))
    ensures AcceptedFor(w.links[i], MoveOf(w, a, i), w.log)
  {
    hide Wired, QueuesInv, HandledInv, ConservedInv, Enabled, WasRemoved, L.LinkInv, MoveOf;
    AcceptingIs(w, a, i);
    assert FdInv(w, a.fd) && Justified(w.links[i], w.log);
    hide ConnectionsInv;
    AnsweredQuestion(w.links[i], Standing(w, a.fd));
  }

  lemma {:induction false} RunGrounded(w: World, labels: seq<Label>, w': World)
    requires Inv(w) && AllJustified(w) && AllGrounded(w, w.log) && Run(w, labels, w')
    ensures AllGrounded(w', w'.log)
    decreases |labels|
  {
    hide Wired, QueuesInv, ConnectionsInv, HandledInv, ConservedInv, Next, Enabled, AllJustified, AllGrounded, MoveOf;
    hide AcceptedFor;
    if labels != [] {
      var a, w1 := labels[0], Next(w, labels[0]);
      NextInv(w, a);
      NextJustified(w, a);
      NextLog(w, a);
      forall i | 0 <= i < |w.links| && IsAccept(MoveOf(w, a, i))
        ensures AcceptedFor(w.links[i], MoveOf(w, a, i), w1.log)
      {
        AcceptedGrounded(w, a, i);
        AcceptedForLater(w.links[i], MoveOf(w, a, i), w.log, w1.log);
      }
      NextGrounded(w, a, w.log, w1.log);
      RunGrounded(w1, labels[1..], w');
    }
  }

  lemma AcceptedForLater(l: L.Link, m: Move, log: seq<Event>, log': seq<Event>)
    requires IsAccept(m) && AcceptedFor(l, m, log) && log <= log'
    ensures AcceptedFor(l, m, log')
  {
    hide WasRemoved;
    if l.given != [] && WasRemoved(log, l.user, l.given[|l.given| - 1].request) {
      WasRemovedGrows(log, log', l.user, l.given[|l.given| - 1].request);
    }
  }

  lemma ReachableGrounded(w: World)
    requires Reachable(w)
    ensures AllGrounded(w, w.log)
  {
    hide Inv, AllGrounded;
    var labels :| Run(Initial(), labels, w);
    InitialInv();
    assert AllGrounded(Initial(), []) by { InitialGrounded(); }
    RunGrounded(Initial(), labels, w);
  }

  lemma InitialGrounded()
    ensures AllGrounded(Initial(), [])
  {
  }

  // ---- The theorems -------------------------------------------------------------------------

  /** Whatever the daemon hands to the response handler from a connection, its user gave there:
      in the same order, each answer used at most once, for the very request it was given for or,
      if that one was removed, for one of the same id. */
  lemma AnswersAreTheUsers(w: World, i: nat)
    requires Reachable(w) && i < |w.links|
    ensures Drawn(w.links[i].handled, w.links[i].given, w.log, w.links[i].user)
  {
    hide Reachable, Drawn;
    var l := w.links[i];
    ReachableGrounded(w);
    assert Grounded(l, w.log);
    if Settled(l) != l.given {
      DrawnSkips(l.handled, Settled(l), l.given[|l.given| - 1], w.log, l.user);
      assert l.given == Settled(l) + [l.given[|l.given| - 1]];
    }
  }

  /** A response that the daemon is about to accept: the user's last answer on this connection,
      given for the head of the queue or for a removed request whose id the head uses again. */
  lemma AcceptedAnswerIsTheUsers(w: World, fd: int) returns (g: L.Verdict)
    requires Reachable(w) && fd in w.fdToUser && LinkOf(w, fd).toDaemon != []
    requires var q := Queue(w, w.fdToUser[fd]); q != [] && q[0].id == LinkOf(w, fd).toDaemon[0].id
    ensures var l, u := LinkOf(w, fd), w.fdToUser[fd];
      && l.given != [] && g == l.given[|l.given| - 1]
      && g.answer == l.toDaemon[0].response && g.request.id == Queue(w, u)[0].id
      && (g.request == Queue(w, u)[0].Stripped() || WasRemoved(w.log, u, g.request))
  {
    hide Reachable, L.LinkInv, WasRemoved;
    var l := LinkOf(w, fd);
    Known(w, fd);
    ReachableInv(w);
    ReachableJustified(w);
    assert FdInv(w, fd) && Justified(l, w.log);
    hide Wired, Inv;
    AnsweredQuestion(l, Standing(w, fd));
    g := l.given[|l.given| - 1];
  }

  /** Exactly when an accepted answer was given for the request it is handed on for: nothing was
      sent on the connection after the frame it answers, or what was sent next took back an equal
      request. In the first case the connection is busy, and the request is the one last sent. */
  lemma AcceptedAnswerIsForTheHeadIff(w: World, fd: int, broken: set<int>)
    requires Reachable(w) && Enabled(w, Response(fd, broken))
    requires var q := Queue(w, w.fdToUser[fd]); q != [] && q[0].id == LinkOf(w, fd).toDaemon[0].id
    ensures w.handles[fd] < |Next(w, Response(fd, broken)).links|
    ensures var l, q := LinkOf(w, fd), Queue(w, w.fdToUser[fd])[0];
      && l.given != [] && 0 < l.asked <= |l.sent|
      && var handled := Next(w, Response(fd, broken)).links[w.handles[fd]].handled;
      && (handled == l.handled + [l.given[|l.given| - 1]]
          <==> l.asked == |l.sent| || l.sent[l.asked] == L.Dismiss(q.Stripped()))
      && (l.asked == |l.sent| ==> !w.fdStatus[fd] && l.last == Some(q))
  {
    hide Reachable, L.LinkInv, Next, After;
    var l, q, i := LinkOf(w, fd), Queue(w, w.fdToUser[fd])[0], w.handles[fd];
    Known(w, fd);
    ReachableInv(w);
    assert FdInv(w, fd);
    hide Inv;
    AnsweredQuestion(l, Standing(w, fd));
    NextLink(w, Response(fd, broken), i);
    var m := MoveOf(w, Response(fd, broken), i);
    assert IsAccept(m) && m.request == q;
    hide Wired, MoveOf, DaemonMoveOf, Can;
    AcceptedVerdict(l, m, l.given[|l.given| - 1]);
  }

  lemma AcceptedVerdict(l: L.Link, m: Move, g: L.Verdict)
    requires Can(l, m) && IsAccept(m)
    ensures After(l, m).handled == l.handled + [g]
        <==> g == L.Verdict(m.request.Stripped(), l.toDaemon[0].response)
  {
    var v := L.Verdict(m.request.Stripped(), l.toDaemon[0].response);
    assert After(l, m).handled == l.handled + [v];
    assert (l.handled + [v])[|l.handled|] == v && (l.handled + [g])[|l.handled|] == g;
  }

  /** `hs` is what is left of `gs` after leaving some out. */
  ghost predicate Subsequence(hs: seq<L.Verdict>, gs: seq<L.Verdict>) {
    if hs == [] then true
    else if gs == [] then false
    else
      var n, m := |hs| - 1, |gs| - 1;
      Subsequence(hs, gs[..m]) || (hs[n] == gs[m] && Subsequence(hs[..n], gs[..m]))
  }

  /** A request other than `r` was removed from this user's queue under the id of `r`. */
  ghost predicate OtherRemoved(log: seq<Event>, u: string, r: NotificationRequest) {
    exists x: NotificationRequest :: x.id == r.id && x != r && WasRemoved(log, u, x)
  }

  lemma {:induction false} DrawnExactly(hs: seq<L.Verdict>, gs: seq<L.Verdict>, log: seq<Event>, u: string)
    requires Drawn(hs, gs, log, u)
    requires forall n :: 0 <= n < |hs| ==> !OtherRemoved(log, u, hs[n].request)
    ensures Subsequence(hs, gs)
    decreases |gs|
  {
    hide WasRemoved;
    if hs != [] {
      var n, m := |hs| - 1, |gs| - 1;
      if Drawn(hs, gs[..m], log, u) {
        DrawnExactly(hs, gs[..m], log, u);
      } else {
        assert !OtherRemoved(log, u, hs[n].request);
        DrawnExactly(hs[..n], gs[..m], log, u);
      }
    }
  }

  /** As long as no other request was ever removed under an answered id, the answers handed on are
      exactly answers given: request by request, in order, none twice and none made up. */
  lemma WithoutReuseAnswersAreExact(w: World, i: nat)
    requires Reachable(w) && i < |w.links|
    requires var l := w.links[i];
      forall n :: 0 <= n < |l.handled| ==> !OtherRemoved(w.log, l.user, l.handled[n].request)
    ensures Subsequence(w.links[i].handled, w.links[i].given)
  {
    hide Reachable, OtherRemoved;
    AnswersAreTheUsers(w, i);
    DrawnExactly(w.links[i].handled, w.links[i].given, w.log, w.links[i].user);
  }
}
