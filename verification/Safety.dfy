/** The theorems about every run of the daemon and its popups. */
module Safety {
  import opened Types
  import opened Ordering
  import opened World
  import opened Frames
  import opened Protocol
  import opened Cancel
  import opened Steps
  import L = Link

  lemma {:induction false} RunInv(w: World, labels: seq<Label>, w': World)
    requires Inv(w) && Run(w, labels, w')
    ensures Inv(w')
    decreases |labels|
  {
    if labels != [] {
      NextInv(w, labels[0]);
      RunInv(Next(w, labels[0]), labels[1..], w');
    }
  }

  lemma ReachableInv(w: World)
    requires Reachable(w)
    ensures Inv(w)
  {
    var labels :| Run(Initial(), labels, w);
    InitialInv();
    RunInv(Initial(), labels, w);
  }

  /** One more step at the end of a run. */
  lemma {:induction false} RunSnoc(w0: World, labels: seq<Label>, w: World, a: Label)
    requires Wired(w0) && Wired(w) && Run(w0, labels, w) && Enabled(w, a)
    ensures Run(w0, labels + [a], Next(w, a))
    decreases |labels|
  {
    hide Next, Enabled, Wired;
    if labels == [] {
      assert [a][1..] == [];
      assert Run(Next(w, a), [], Next(w, a));
    } else {
      RunSnoc(Next(w0, labels[0]), labels[1..], w, a);
      assert (labels + [a])[1..] == labels[1..] + [a];
    }
  }

  lemma ReachableNext(w: World, a: Label)
    requires Reachable(w) && Enabled(w, a)
    ensures Reachable(Next(w, a))
  {
    hide Next, Enabled;
    assert Wired(Initial());
    var labels :| Run(Initial(), labels, w);
    RunSnoc(Initial(), labels, w, a);
  }

  /** Each connection of a reachable state is explained by some standing request. */
  lemma ReachableLink(w: World, i: nat) returns (standing: Option<NotificationRequest>)
    requires Reachable(w) && i < |w.links|
    ensures L.LinkInv(w.links[i], standing)
  {
    hide L.LinkInv, HandledOn, Conserved;
    ReachableInv(w);
    if w.links[i].open {
      var fd :| fd in w.handles && w.handles[fd] == i;
      assert FdInv(w, fd);
      standing := Standing(w, fd);
    } else {
      standing :| L.LinkInv(w.links[i], standing);
    }
  }

  // ---- Synchronisation ----------------------------------------------------------------------

  /** In every reachable state the next message on a popup's channel is of a kind the popup
      reads: a frame when idle; the dismiss of its own request while it asks; the ack, or the
      dismiss of its own request, while it waits for the ack. No popup ever ended by parsing
      bytes meant for another state. */
  lemma Synchronised(w: World, i: nat)
    requires Reachable(w) && i < |w.links|
    ensures var l := w.links[i];
      match l.popup
      case Idle => l.toPopup != [] ==> L.IsFrame(l.toPopup[0])
      case Asking(r) => l.toPopup != [] ==> l.toPopup[0] == L.Dismiss(r)
      case AwaitingAck(r, _) => l.toPopup != [] ==> l.toPopup[0] == L.Ack || l.toPopup[0] == L.Dismiss(r)
      case Dead(cause) => cause != L.Desync
  {
    var l := w.links[i];
    var standing := ReachableLink(w, i);
    match l.popup {
      case Asking(r) =>
        if l.toPopup != [] {
          assert ([L.Frame(r)] + l.toPopup)[1] == l.toPopup[0];
        }
      case AwaitingAck(r, _) =>
        if l.toPopup != [] {
          assert ([L.Frame(r)] + l.toPopup)[1] == l.toPopup[0];
        }
      case _ =>
    }
  }

  /** Only a popup's own moves change its state. */
  lemma AfterPopup(l: L.Link, m: Move)
    requires Can(l, m)
    ensures m.Reads? || m.Answers? || m.SeesEnd? || m.Dies? || After(l, m).popup == l.popup
  {
  }

  /** "Incorrect dismiss flag" is not unreachable: a popup ends with it exactly when it polls while
      it asks and finds the connection closed and nothing left to read, because the poll then reads
      no byte and tests a zero. */
  lemma IncorrectDismissFlagIffClosedWhileAsking(w: World, a: Label, i: nat)
    requires Reachable(w) && Enabled(w, a) && i < |w.links| && !w.links[i].popup.Dead?
    ensures i < |Next(w, a).links|
    ensures Next(w, a).links[i].popup == L.Dead(L.BadDismissFlag)
        <==> && a == PopupSeesEnd(i) && w.links[i].popup.Asking?
             && !w.links[i].open && w.links[i].toPopup == []
  {
    hide L.LinkInv, Inv, Reachable, Wired, Next, DaemonMoveOf;
    Synchronised(w, i);
    NextLink(w, a, i);
    AfterPopup(w.links[i], MoveOf(w, a, i));
    if !PopupLabel(a) {
      DaemonMoves(w, a, i);
    }
  }

  /** A popup ends with "Incorrect ack" exactly when it reads, where it expects the ack for its
      answer, the dismiss that takes its request back. */
  lemma IncorrectAckIffDismissed(w: World, a: Label, i: nat)
    requires Reachable(w) && Enabled(w, a) && i < |w.links| && !w.links[i].popup.Dead?
    ensures i < |Next(w, a).links|
    ensures Next(w, a).links[i].popup == L.Dead(L.BadAck)
        <==> && a == PopupReads(i) && w.links[i].popup.AwaitingAck?
             && w.links[i].toPopup[0] == L.Dismiss(w.links[i].popup.request)
  {
    hide L.LinkInv, Inv, Reachable, Wired, Next, DaemonMoveOf;
    Synchronised(w, i);
    NextLink(w, a, i);
    AfterPopup(w.links[i], MoveOf(w, a, i));
    if !PopupLabel(a) {
      DaemonMoves(w, a, i);
    }
  }

  lemma DaemonMoves(w: World, a: Label, i: nat)
    requires Wired(w) && Enabled(w, a) && i < |w.links| && !PopupLabel(a)
    ensures var m := MoveOf(w, a, i); !m.Reads? && !m.Answers? && !m.SeesEnd? && !m.Dies?
  {
    hide Wired, Reached, HeadIs, Queue;
  }

  // ---- Agreement ----------------------------------------------------------------------------

  /** Whatever a popup has taken past its ack check, and so may have stored as a security level,
      the daemon had given to the response handler before: request by request, answer by answer,
      in the same order and never more often. This holds for closed connections too. */
  lemma Agreement(w: World, i: nat)
    requires Reachable(w) && i < |w.links|
    ensures w.links[i].passed <= HandledOn(w.log, i)
  {
    var standing := ReachableLink(w, i);
    ReachableInv(w);
  }

  /** The step itself: a popup that reads an ack for (request, answer) finds exactly that pair
      handled, as the very entry that follows what it has already passed. */
  lemma AckMeansHandled(w: World, i: nat)
    requires Reachable(w) && i < |w.links| && w.links[i].popup.AwaitingAck?
    requires w.links[i].toPopup != [] && w.links[i].toPopup[0].Ack?
    ensures HandledOn(w.log, i)
         == w.links[i].passed + [L.Verdict(w.links[i].popup.request, w.links[i].popup.answer)]
  {
    var l := w.links[i];
    var standing := ReachableLink(w, i);
    ReachableInv(w);
    assert ([L.Frame(l.popup.request)] + l.toPopup)[1] == l.toPopup[0];
  }

  // ---- Conservation -------------------------------------------------------------------------

  /** While the loop runs, the accepted requests of a user in arrival order, less the removed
      ones, are the answered ones in answer order followed by the queue. */
  lemma QueueConservation(w: World, u: string)
    requires Reachable(w) && !w.failed
    ensures Surviving(w.log, u) == Responded(w.log, u) + Queue(w, u)
  {
    ReachableInv(w);
    assert Conserved(w, u);
  }

  /** When the loop fails, the errors complete the account: every request that was accepted and
      not removed has been answered exactly once, in order. */
  lemma FailureAnswersTheRest(w: World, u: string)
    requires Reachable(w) && Enabled(w, LoopFails)
    ensures Responded(Next(w, LoopFails).log, u) == Responded(w.log, u) + Queue(w, u)
    ensures Surviving(Next(w, LoopFails).log, u) == Responded(Next(w, LoopFails).log, u)
  {
    QueueConservation(w, u);
    FailLog(w, 0, u);
  }

  // ---- Connections and the busy bit ---------------------------------------------------------

  /** A busy connection is busy with the head of its user's queue, which is the request last
      sent on it; and the three maps describe one bijection. */
  lemma ReachableConnections(w: World, fd: int)
    requires Reachable(w) && fd in w.fdToUser
    ensures Wired(w)
    ensures !w.fdStatus[fd] ==>
      && Queue(w, w.fdToUser[fd]) != []
      && LinkOf(w, fd).last == Some(Queue(w, w.fdToUser[fd])[0])
    ensures forall gd :: gd in w.fdToUser && w.fdToUser[gd] == w.fdToUser[fd] ==> gd == fd
  {
    ReachableInv(w);
    assert FdInv(w, fd);
  }

  /** No queue ever holds one id twice, and every entry belongs to the queue's user. */
  lemma ReachableQueues(w: World, u: string)
    requires Reachable(w)
    ensures QueueInv(u, Queue(w, u))
  {
    ReachableInv(w);
  }

  // ---- Dismissals ---------------------------------------------------------------------------

  /** Every dismiss sent on a connection took back a request removed from its user's queue. */
  ghost predicate Justified(l: L.Link, log: seq<Event>) {
    forall k :: 0 <= k < |l.sent| && l.sent[k].Dismiss? ==> WasRemoved(log, l.user, l.sent[k].withdrawn)
  }

  ghost predicate AllJustified(w: World) {
    forall i :: 0 <= i < |w.links| ==> Justified(w.links[i], w.log)
  }

  lemma AfterJustified(l: L.Link, m: Move, log: seq<Event>, log': seq<Event>)
    requires Can(l, m) && Justified(l, log) && log <= log'
    requires m.Dismisses? ==> WasRemoved(log', l.user, m.request.Stripped())
    ensures Justified(After(l, m), log')
  {
    hide WasRemoved;
    var l' := After(l, m);
    assert l'.user == l.user && (l'.sent == l.sent || l'.sent == l.sent + [l'.sent[|l.sent|]]);
    assert |l.sent| < |l'.sent| && l'.sent[|l.sent|].Dismiss? ==> l'.sent[|l.sent|] == L.Dismiss(m.request.Stripped());
    hide After, Can;
    forall k | 0 <= k < |l'.sent| && l'.sent[k].Dismiss? ensures WasRemoved(log', l'.user, l'.sent[k].withdrawn) {
      if k < |l.sent| {
        WasRemovedGrows(log, log', l.user, l.sent[k].withdrawn);
      }
    }
  }

  /** Nothing in the history is ever taken back. */
  lemma NextLog(w: World, a: Label)
    requires Wired(w) && Enabled(w, a)
    ensures w.log <= Next(w, a).log
  {
    hide Wired, Names, AllErrors, RemoveFrom, Receive, Push, Connect, L.Close;
    match a {
      case Cancel(id, broken) => RemoveFromLog(w, Users(w.requests.Keys), id, broken);
      case Connection(u, fd) => ConnectFrame(w, u, fd);
      case Response(fd, broken) => ReceiveLog(w, fd, broken);
      case Hand(fd, broken) => PushFrame(w, fd, broken);
      case _ =>
    }
  }

  lemma ReceiveLog(w: World, fd: int, broken: set<int>)
    requires Wired(w) && fd in w.fdToUser && LinkOf(w, fd).toDaemon != []
    ensures w.log <= Receive(w, fd, broken).log
  {
    hide Wired, Receive, L.Close, L.SendAck, L.TakeResponse;
    Known(w, fd);
    var q, l := Queue(w, w.fdToUser[fd]), LinkOf(w, fd);
    if q != [] && q[0].id == l.toDaemon[0].id {
      MatchedFrame(w, fd, broken);
    } else {
      StaleFrame(w, fd, broken);
    }
  }

  lemma DismissesRemoved(w: World, a: Label, i: nat)
    requires Wired(w) && Enabled(w, a) && i < |w.links| && MoveOf(w, a, i).Dismisses?
    ensures WasRemoved(Next(w, a).log, w.links[i].user, MoveOf(w, a, i).request.Stripped())
  {
    hide Wired, WasRemoved, RemoveRequest, Reached;
    OpenUser(w, i);
    Known(w, w.userToFd[w.links[i].user]);
    CancelRecords(w, a.id, a.broken, w.links[i].user);
  }

  lemma NextJustified(w: World, a: Label)
    requires Wired(w) && Enabled(w, a) && AllJustified(w)
    ensures AllJustified(Next(w, a))
  {
    hide Wired, Enabled, Next, Justified, WasRemoved, MoveOf, After, Can;
    var w' := Next(w, a);
    NextLog(w, a);
    forall i | 0 <= i < |w'.links| ensures Justified(w'.links[i], w'.log) {
      if i < |w.links| {
        NextLink(w, a, i);
        if MoveOf(w, a, i).Dismisses? {
          DismissesRemoved(w, a, i);
        }
        AfterJustified(w.links[i], MoveOf(w, a, i), w.log, w'.log);
      } else {
        NextFresh(w, a, i);
        FreshJustified(a.user, w'.log);
      }
    }
  }

  lemma FreshJustified(u: string, log: seq<Event>)
    ensures Justified(L.Fresh(u), log)
  {
  }

  lemma {:induction false} RunJustified(w: World, labels: seq<Label>, w': World)
    requires Wired(w) && AllJustified(w) && Run(w, labels, w')
    ensures AllJustified(w')
    decreases |labels|
  {
    hide Next, Justified;
    if labels != [] {
      NextJustified(w, labels[0]);
      RunJustified(Next(w, labels[0]), labels[1..], w');
    }
  }

  lemma ReachableJustified(w: World)
    requires Reachable(w)
    ensures AllJustified(w)
  {
    var labels :| Run(Initial(), labels, w);
    RunJustified(Initial(), labels, w);
  }

  /** A popup that ends with "Incorrect ack" lost a race: it had answered a request that the
      daemon removed from the queue and took back on this very connection. */
  lemma IncorrectAckOnlyFromRace(w: World, i: nat)
    requires Reachable(w) && Enabled(w, PopupReads(i))
    requires Next(w, PopupReads(i)).links[i].popup == L.Dead(L.BadAck)
    ensures w.links[i].popup.AwaitingAck?
    ensures w.links[i].toPopup[0] == L.Dismiss(w.links[i].popup.request)
    ensures WasRemoved(w.log, w.links[i].user, w.links[i].popup.request)
  {
    hide L.PopupInv, L.Answering, WasRemoved, Next;
    IncorrectAckIffDismissed(w, PopupReads(i), i);
    ReachableJustified(w);
    var l := w.links[i];
    var standing := ReachableLink(w, i);
    assert l.sent[L.ReadSoFar(l)] == l.toPopup[0];
    assert Justified(l, w.log);
  }

  // ---- The end ------------------------------------------------------------------------------

  /** What a move can still do to a closed connection. */
  lemma AfterClosed(l: L.Link, m: Move)
    requires !l.open && Can(l, m)
    ensures var l' := After(l, m); !l'.open && l'.handled == l.handled && l'.sent == l.sent
  {
  }

  lemma {:induction false} RunClosed(w: World, labels: seq<Label>, w': World, i: nat)
    requires Wired(w) && Run(w, labels, w') && i < |w.links| && !w.links[i].open
    ensures i < |w'.links| && !w'.links[i].open
    ensures w'.links[i].handled == w.links[i].handled && w'.links[i].sent == w.links[i].sent
    decreases |labels|
  {
    hide Next, Enabled, Wired, MoveOf, After, Can;
    if labels != [] {
      NextLink(w, labels[0], i);
      AfterClosed(w.links[i], MoveOf(w, labels[0], i));
      RunClosed(Next(w, labels[0]), labels[1..], w', i);
    }
  }

  /** Shutting down is final for every connection there is, whatever happens afterwards: no byte
      is sent on it any more, no answer from it is handed on, and what its popup takes past the
      ack check had been handed on before. */
  lemma ShutdownIsFinal(w: World, labels: seq<Label>, w': World, i: nat)
    requires Reachable(w) && Run(Next(w, Shutdown), labels, w') && i < |w.links|
    ensures i < |w'.links| && !w'.links[i].open
    ensures w'.links[i].sent == w.links[i].sent && w'.links[i].handled == w.links[i].handled
    ensures w'.links[i].passed <= w.links[i].handled
  {
    hide Reachable, Inv;
    ReachableInv(w);
    NextInv(w, Shutdown);
    RunClosed(Next(w, Shutdown), labels, w', i);
    RunInv(Next(w, Shutdown), labels, w');
    PassedWasHandled(w', i);
  }

  lemma LinkParts(l: L.Link, standing: Option<NotificationRequest>)
    requires L.LinkInv(l, standing)
    ensures L.Unread(l) && L.Answering(l, standing) && L.PopupInv(l, standing)
  {
  }

  lemma PassedWasHandled(w: World, i: nat)
    requires Inv(w) && i < |w.links|
    ensures w.links[i].passed <= w.links[i].handled
  {
    hide HandledInv, ConservedInv, QueuesInv, L.LinkInv;
    AnyExplained(w, i);
    var standing :| L.LinkInv(w.links[i], standing);
    assert L.PopupInv(w.links[i], standing) by {
      LinkParts(w.links[i], standing);
    }
    L.ClosePopupInv(w.links[i], standing);
  }
}
