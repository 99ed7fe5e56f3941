/** What the daemon's calls achieve, said of queues, maps and connections themselves. */
module Effects {
  import opened Types
  import Ordering
  import opened World
  import opened Frames
  import opened Protocol
  import opened Iteration
  import L = Link

  // ---- A request comes in -------------------------------------------------------------------

  ghost predicate HasId(q: seq<NotificationRequest>, id: RequestId) {
    exists e :: e in q && e.id == id
  }

  lemma HasIdIff(q: seq<NotificationRequest>, id: RequestId)
    ensures HasId(q, id) <==> IndexOf(q, id) < |q|
  {
    if IndexOf(q, id) < |q| {
      assert q[IndexOf(q, id)] in q;
    }
  }

  /** A request is accepted, at the end of its user's queue, if and only if no entry of that queue
      has its id. Nothing else changes, whether a popup is connected or not. */
  lemma AcceptsExactlyNewIds(w: World, r: NotificationRequest)
    requires Wired(w) && Enabled(w, Add(r))
    ensures var w', u, q := Next(w, Add(r)), r.data.user, Queue(w, r.data.user);
      && (if exists e :: e in q && e.id == r.id then Queue(w', u) == q && w'.log == w.log
          else Queue(w', u) == q + [r] && w'.log == w.log + [Accepted(r)])
      && (forall v :: v != u ==> Queue(w', v) == Queue(w, v))
      && w'.userToFd == w.userToFd && w'.fdToUser == w.fdToUser && w'.fdStatus == w.fdStatus
      && w'.handles == w.handles && w'.links == w.links && w'.failed == w.failed
  {
    hide Wired, IndexOf;
    HasIdIff(Queue(w, r.data.user), r.id);
  }

  // ---- A popup connects ---------------------------------------------------------------------

  /** What `accept` brought is registered for its user, free, as a new connection on which nothing
      has been sent or received; an older connection of that user is closed, and every other one
      stays. */
  lemma ArrivalIsRegistered(w: World, listener: int, io: Io, u: string, fd: int)
    requires Wired(w) && Possible(w, listener, io) && io.accepted == Some((u, fd))
    ensures var w1, n := Arrive(w, io), |w.links|;
      && u in w1.userToFd && w1.userToFd[u] == fd
      && fd in w1.fdToUser && w1.fdToUser[fd] == u
      && fd in w1.fdStatus && w1.fdStatus[fd]
      && fd in w1.handles && w1.handles[fd] == n && |w1.links| == n + 1
      && w1.links[n].user == u && w1.links[n].open && w1.links[n].popup == L.Idle
      && w1.links[n].sent == [] && w1.links[n].toPopup == [] && w1.links[n].toDaemon == []
      && (forall i :: 0 <= i < n ==>
           if w.links[i].open && w.links[i].user == u then !w1.links[i].open else w1.links[i] == w.links[i])
      && w1.requests == w.requests && w1.log == w.log
  {
    hide Connect, Names;
    ConnectFrame(w, u, fd);
    if u in w.userToFd {
      Known(w, w.userToFd[u]);
    }
    forall i | 0 <= i < |w.links| && w.links[i].open && w.links[i].user == u
      ensures u in w.userToFd && w.handles[w.userToFd[u]] == i
    {
      OpenIsRegistered(w, i);
    }
    hide Wired, Possible;
  }

  lemma OpenIsRegistered(w: World, i: nat)
    requires Wired(w) && i < |w.links| && w.links[i].open
    ensures w.links[i].user in w.userToFd && w.userToFd[w.links[i].user] in w.handles
    ensures w.handles[w.userToFd[w.links[i].user]] == i
  {
    var gd :| gd in w.handles && w.handles[gd] == i;
    Known(w, gd);
  }

  // ---- A pass -------------------------------------------------------------------------------

  lemma {:induction false} ServeAllLeaves(w: World, fds: seq<int>, io: Io, gd: int)
    requires Wired(w) && (forall fd :: fd in fds ==> CanServe(w, fd, io))
    requires forall i, j :: 0 <= i < j < |fds| ==> fds[i] != fds[j]
    requires gd in w.fdToUser && gd !in io.ready
    ensures Untouched(w, ServeAll(w, fds, io), gd)
    decreases |fds|
  {
    hide Wired, CanServe, Untouched;
    if fds == [] {
      UntouchedSame(w, gd);
    } else {
      assert CanServe(w, fds[0], io);
      ServeKeeps(w, fds[0], io, fds[1..]);
      var w1 := Serve(w, fds[0], io);
      if fds[0] == gd {
        UntouchedSame(w, gd);
      } else {
        ServeElsewhere(w, fds[0], io, gd);
      }
      hide Serve;
      StillThere(w, w1, gd);
      ServeAllLeaves(w1, fds[1..], io, gd);
      UntouchedTwice(w, w1, ServeAll(w1, fds[1..], io), gd);
    }
  }

  lemma UntouchedSame(w: World, gd: int)
    requires Wired(w) && gd in w.fdToUser
    ensures Untouched(w, w, gd)
  {
  }

  lemma StillThere(w: World, w': World, gd: int)
    requires Wired(w) && Wired(w') && gd in w.fdToUser && Untouched(w, w', gd)
    ensures gd in w'.fdToUser
  {
  }

  lemma UntouchedTwice(w: World, w1: World, w2: World, gd: int)
    requires Wired(w) && Wired(w1) && Wired(w2) && gd in w.fdToUser
    requires Untouched(w, w1, gd) && gd in w1.fdToUser && Untouched(w1, w2, gd)
    ensures Untouched(w, w2, gd)
  {
    hide Wired, Names;
  }

  /** What handing out requests does to a registered connection. */
  ghost predicate HandedOut(w: World, w': World, fd: int, broken: set<int>)
    requires Wired(w) && Wired(w') && fd in w.fdToUser
  {
    var i, l, q := w.handles[fd], LinkOf(w, fd), Queue(w, w.fdToUser[fd]);
    && i < |w'.links|
    && if !w.fdStatus[fd] || q == [] then
         fd in w'.fdToUser && w'.handles[fd] == i && w'.fdStatus[fd] == w.fdStatus[fd] && w'.links[i] == l
       else if fd in broken then fd !in w'.fdToUser && !w'.links[i].open && w'.links[i].sent == l.sent
       else
         && fd in w'.fdToUser && w'.handles[fd] == i && !w'.fdStatus[fd] && w'.links[i].open
         && w'.links[i].sent == l.sent + [L.Frame(q[0].Stripped())]
         && w'.links[i].toPopup == l.toPopup + [L.Frame(q[0].Stripped())]
  }

  lemma PushHandsOut(w: World, fd: int, broken: set<int>)
    requires Wired(w) && fd in w.fdToUser
    ensures HandedOut(w, Push(w, fd, broken), fd, broken)
  {
    hide Wired, Push;
    Known(w, fd);
    PushFrame(w, fd, broken);
  }

  /** Handing out to others afterwards, or before, makes no difference. */
  lemma HandedOutLater(w: World, w1: World, w2: World, fd: int, broken: set<int>)
    requires Wired(w) && Wired(w1) && Wired(w2) && fd in w.fdToUser && w.handles[fd] < |w1.links|
    requires HandedOut(w, w1, fd, broken) && w.handles[fd] < |w2.links|
    requires w2.links[w.handles[fd]] == w1.links[w.handles[fd]]
    requires fd in w2.fdToUser <==> fd in w1.fdToUser
    requires fd in w1.fdToUser ==> w2.handles[fd] == w1.handles[fd] && w2.fdStatus[fd] == w1.fdStatus[fd]
    ensures HandedOut(w, w2, fd, broken)
  {
    hide Wired, Names;
  }

  lemma HandedOutFrom(w: World, w1: World, w2: World, fd: int, broken: set<int>)
    requires Wired(w) && Wired(w1) && Wired(w2) && fd in w.fdToUser && Untouched(w, w1, fd)
    requires fd in w1.fdToUser && HandedOut(w1, w2, fd, broken)
    ensures HandedOut(w, w2, fd, broken)
  {
    hide Wired, Names;
  }

  /** Descriptor `fd` and connection `i` are none of those handed something. */
  lemma {:induction false} PushAllLeaves(w: World, fds: seq<int>, broken: set<int>, fd: int, i: nat)
    requires Wired(w) && (forall gd :: gd in fds ==> gd in w.fdToUser)
    requires forall a, b :: 0 <= a < b < |fds| ==> fds[a] != fds[b]
    requires fd !in fds && i < |w.links| && (forall gd :: gd in fds ==> w.handles[gd] != i)
    ensures var w' := PushAll(w, fds, broken);
      && i < |w'.links| && w'.links[i] == w.links[i]
      && (fd in w'.fdToUser <==> fd in w.fdToUser)
      && (fd in w.fdToUser ==> w'.handles[fd] == w.handles[fd] && w'.fdStatus[fd] == w.fdStatus[fd])
    decreases |fds|
  {
    hide Wired, Push;
    if fds != [] {
      var gd, w1 := fds[0], Push(w, fds[0], broken);
      PushKeeps(w, gd, broken, fds[1..]);
      PushOnly(w, gd, broken);
      Known(w, gd);
      forall d | d in fds[1..] ensures d in w1.fdToUser && d in w1.handles && w1.handles[d] != i {
        PushElsewhere(w, gd, broken, d);
        Known(w1, d);
      }
      assert w1.links[i] == w.links[i];
      hide Untouched;
      PushAllLeaves(w1, fds[1..], broken, fd, i);
      if fd in w.fdToUser {
        PushElsewhere(w, gd, broken, fd);
        SameStatus(w, w1, fd);
      }
    }
  }

  lemma SameStatus(w: World, w1: World, fd: int)
    requires Wired(w) && Wired(w1) && fd in w.fdToUser && Untouched(w, w1, fd)
    ensures fd in w1.fdToUser && w1.handles[fd] == w.handles[fd] && w1.fdStatus[fd] == w.fdStatus[fd]
  {
  }

  lemma {:induction false} PushAllHandsOut(w: World, fds: seq<int>, broken: set<int>, fd: int)
    requires Wired(w) && (forall gd :: gd in fds ==> gd in w.fdToUser)
    requires forall a, b :: 0 <= a < b < |fds| ==> fds[a] != fds[b]
    requires fd in fds
    ensures HandedOut(w, PushAll(w, fds, broken), fd, broken)
    decreases |fds|
  {
    hide Wired, Push, HandedOut, Untouched;
    var gd, w1 := fds[0], Push(w, fds[0], broken);
    PushKeeps(w, gd, broken, fds[1..]);
    if gd == fd {
      PushHandsOut(w, fd, broken);
      Known(w, fd);
      OthersAreElsewhere(w, fds, broken);
      PushAllLeaves(w1, fds[1..], broken, fd, w.handles[fd]);
      HandedOutLater(w, w1, PushAll(w, fds, broken), fd, broken);
    } else {
      PushElsewhere(w, gd, broken, fd);
      PushAllHandsOut(w1, fds[1..], broken, fd);
      HandedOutFrom(w, w1, PushAll(w, fds, broken), fd, broken);
    }
  }

  lemma OthersAreElsewhere(w: World, fds: seq<int>, broken: set<int>)
    requires Wired(w) && fds != [] && (forall gd :: gd in fds ==> gd in w.fdToUser)
    requires forall a, b :: 0 <= a < b < |fds| ==> fds[a] != fds[b]
    ensures var w1, i := Push(w, fds[0], broken), w.handles[fds[0]];
      && i < |w1.links|
      && forall d :: d in fds[1..] ==> d in w1.fdToUser && w1.handles[d] != i
  {
    hide Push;
    Known(w, fds[0]);
    PushOnly(w, fds[0], broken);
    forall d | d in fds[1..] ensures d in w.fdToUser && d != fds[0] && w.handles[d] != w.handles[fds[0]] {
      Known(w, d);
    }
    hide Wired;
  }

  /** In every pass a registered connection that is free and whose user has a request queued, when
      requests are handed out, is sent the frame of the head and nothing else, and is busy from then
      on; or it is dropped if that fails. Every other registered connection is left alone. */
  lemma PassHandsOut(w: World, listener: int, io: Io, fd: int)
    requires Wired(w) && Possible(w, listener, io) && fd in Responses(w, listener, io).fdToUser
    ensures var w2, w' := Responses(w, listener, io), Pass(w, listener, io);
      var i, l, q := w2.handles[fd], LinkOf(w2, fd), Queue(w2, w2.fdToUser[fd]);
      && i < |w'.links|
      && if !w2.fdStatus[fd] || q == [] then
           fd in w'.fdToUser && w'.handles[fd] == i && w'.fdStatus[fd] == w2.fdStatus[fd] && w'.links[i] == l
         else if fd in io.broken then fd !in w'.fdToUser && !w'.links[i].open && w'.links[i].sent == l.sent
         else
           && fd in w'.fdToUser && w'.handles[fd] == i && !w'.fdStatus[fd] && w'.links[i].open
           && w'.links[i].sent == l.sent + [L.Frame(q[0].Stripped())]
           && w'.links[i].toPopup == l.toPopup + [L.Frame(q[0].Stripped())]
  {
    hide Responses, Possible, PushAll, PushOrder, Wired;
    var w2 := Responses(w, listener, io);
    PushAllHandsOut(w2, PushOrder(w2), io.broken, fd);
  }

  /** A popup that connects is served in the same pass: if its user has a request queued, exactly
      the frame of the head has been sent to it when the pass ends (or it is gone, if that failed);
      otherwise it is registered and free. */
  lemma PassServesTheArrival(w: World, listener: int, io: Io, u: string, fd: int)
    requires Wired(w) && Possible(w, listener, io) && io.accepted == Some((u, fd))
    ensures var w', n, q := Pass(w, listener, io), |w.links|, Queue(w, u);
      && n < |w'.links| && w'.links[n].user == u
      && if q == [] then
           && fd in w'.fdToUser && w'.fdToUser[fd] == u && w'.handles[fd] == n && w'.fdStatus[fd]
           && w'.links[n].open && w'.links[n].sent == []
         else if fd in io.broken then fd !in w'.fdToUser && !w'.links[n].open && w'.links[n].sent == []
         else
           && fd in w'.fdToUser && w'.fdToUser[fd] == u && w'.handles[fd] == n && !w'.fdStatus[fd]
           && w'.links[n].open && w'.links[n].sent == [L.Frame(q[0].Stripped())]
  {
    hide Possible, Responses, Wired;
    ArrivalAwaitsRequests(w, listener, io, u, fd);
    Known(Responses(w, listener, io), fd);
    PassHandsOut(w, listener, io, fd);
    PassUsers(w, listener, io, fd);
  }

  /** Reading the responses leaves the new connection, and its user's queue, as they were. */
  lemma ArrivalAwaitsRequests(w: World, listener: int, io: Io, u: string, fd: int)
    requires Wired(w) && Possible(w, listener, io) && io.accepted == Some((u, fd))
    ensures var w2 := Responses(w, listener, io);
      && fd in w2.fdToUser && w2.fdToUser[fd] == u && w2.fdStatus[fd] && w2.handles[fd] == |w.links|
      && LinkOf(w2, fd).user == u && LinkOf(w2, fd).open && LinkOf(w2, fd).sent == []
      && Queue(w2, u) == Queue(w, u)
  {
    var w1 := Arrive(w, io);
    assert fd !in io.ready;
    ArriveCanServe(w, listener, io);
    hide Possible;
    ArrivalIsRegistered(w, listener, io, u, fd);
    assert Queue(w1, u) == Queue(w, u);
    hide Arrive, Wired;
    ServeAllLeaves(w1, ServeOrder(w1), io, fd);
  }

  /** Who a connection belongs to never changes. */
  lemma PassUsers(w: World, listener: int, io: Io, fd: int)
    requires Wired(w) && Possible(w, listener, io) && fd in Responses(w, listener, io).fdToUser
    ensures var w2, w' := Responses(w, listener, io), Pass(w, listener, io);
      && w2.handles[fd] < |w2.links| && w2.handles[fd] < |w'.links|
      && w'.links[w2.handles[fd]].user == w2.links[w2.handles[fd]].user
      && (fd in w'.fdToUser && w'.handles[fd] == w2.handles[fd] ==> w'.fdToUser[fd] == w2.fdToUser[fd])
  {
    hide Responses, Possible;
    var w2, w' := Responses(w, listener, io), Pass(w, listener, io);
    Known(w2, fd);
    hide Wired, PushAll, PushOrder;
    PushAllUsers(w2, PushOrder(w2), io.broken, w2.handles[fd]);
    if fd in w'.fdToUser {
      Known(w', fd);
    }
  }

  lemma {:induction false} PushAllUsers(w: World, fds: seq<int>, broken: set<int>, i: nat)
    requires Wired(w) && (forall gd :: gd in fds ==> gd in w.fdToUser)
    requires forall a, b :: 0 <= a < b < |fds| ==> fds[a] != fds[b]
    requires i < |w.links|
    ensures i < |PushAll(w, fds, broken).links| && PushAll(w, fds, broken).links[i].user == w.links[i].user
    decreases |fds|
  {
    hide Wired, Push;
    if fds != [] {
      PushKeeps(w, fds[0], broken, fds[1..]);
      PushFrame(w, fds[0], broken);
      Known(w, fds[0]);
      PushAllUsers(Push(w, fds[0], broken), fds[1..], broken, i);
    }
  }

  /** What reading does, said of the connection itself. One whose stream has ended is closed, and
      nothing was left unread. Otherwise the response is off the channel; if its id is that of the
      head of the queue it has been handed on for the head, and acknowledged unless that failed,
      which closes the connection; if not, nothing was handed on and nothing sent. */
  lemma PassReadsWhatIsReady(w: World, listener: int, io: Io, fd: int)
    requires Inv(w) && Possible(w, listener, io)
    requires fd in Arrive(w, io).fdToUser && fd in io.ready
    ensures var w1, w2 := Arrive(w, io), Responses(w, listener, io);
      var l, q := LinkOf(w1, fd), Queue(w1, w1.fdToUser[fd]);
      && w1.handles[fd] < |w2.links|
      && var l' := w2.links[w1.handles[fd]];
         if fd in io.gone then
           l.popup.Dead? && l.toDaemon == [] && !l'.open && l'.handled == l.handled && l'.sent == l.sent
         else
           && |l.toDaemon| == 1 && l'.toDaemon == []
           && if q != [] && q[0].id == l.toDaemon[0].id then
                && l'.handled == l.handled + [L.Verdict(q[0].Stripped(), l.toDaemon[0].response)]
                && (if fd in io.broken then !l'.open && l'.sent == l.sent
                    else l'.open && l'.sent == l.sent + [L.Ack])
              else l'.open && l'.handled == l.handled && l'.sent == l.sent
  {
    var w1 := Arrive(w, io);
    ArriveCanServe(w, listener, io);
    assert CanServe(w1, fd, io);
    if io.accepted.Some? {
      ConnectInv(w, io.accepted.value.0, io.accepted.value.1);
    }
    hide Arrive, Possible;
    assert FdInv(w1, fd);
    Known(w1, fd);
    hide Inv, Wired, L.LinkInv, Responses, LinkServed;
    PassReadsEveryReady(w, listener, io, fd);
    AtMostOne(LinkOf(w1, fd), Standing(w1, fd));
    ServedMeans(LinkOf(w1, fd), Queue(w1, w1.fdToUser[fd]), fd, io);
  }

  lemma AtMostOne(l: L.Link, standing: Option<NotificationRequest>)
    requires L.LinkInv(l, standing)
    ensures |l.toDaemon| <= 1
  {
    hide L.PopupInv, L.Unread;
  }

  lemma ServedMeans(l: L.Link, q: seq<NotificationRequest>, fd: int, io: Io)
    requires l.open && fd in io.ready && |l.toDaemon| <= 1
    requires if fd in io.gone then AtEnd(l) else l.toDaemon != []
    ensures var l' := LinkServed(l, q, fd, io);
      if fd in io.gone then
        l.popup.Dead? && l.toDaemon == [] && !l'.open && l'.handled == l.handled && l'.sent == l.sent
      else
        && |l.toDaemon| == 1 && l'.toDaemon == []
        && if q != [] && q[0].id == l.toDaemon[0].id then
             && l'.handled == l.handled + [L.Verdict(q[0].Stripped(), l.toDaemon[0].response)]
             && (if fd in io.broken then !l'.open && l'.sent == l.sent
                 else l'.open && l'.sent == l.sent + [L.Ack])
           else l'.open && l'.handled == l.handled && l'.sent == l.sent
  {
  }

  // ---- The loop fails -----------------------------------------------------------------------

  /** What a failed talker can still do: nothing is accepted or answered any more, no error is sent
      twice, and no queue grows. */
  lemma {:induction false} AfterFailure(w: World, labels: seq<Label>, w': World)
    requires Wired(w) && w.failed && Run(w, labels, w')
    ensures w'.failed && w.log <= w'.log
    ensures forall k :: |w.log| <= k < |w'.log| ==> w'.log[k].Removed?
    decreases |labels|
  {
    hide Wired, Next, Enabled;
    if labels != [] {
      NextAfterFailure(w, labels[0]);
      AfterFailure(Next(w, labels[0]), labels[1..], w');
    }
  }

  lemma NextAfterFailure(w: World, a: Label)
    requires Wired(w) && w.failed && Enabled(w, a)
    ensures var w' := Next(w, a);
      && w'.failed && w.log <= w'.log
      && forall k :: |w.log| <= k < |w'.log| ==> w'.log[k].Removed?
  {
    hide Wired, RemoveFrom;
    if a.Cancel? {
      RemoveFromOnlyRemoves(w, Ordering.Users(w.requests.Keys), a.id, a.broken);
    }
  }

  lemma {:induction false} RemoveFromOnlyRemoves(w: World, users: seq<string>, id: RequestId, broken: set<int>)
    requires Wired(w)
    ensures var w' := RemoveFrom(w, users, id, broken);
      && w'.failed == w.failed && w.log <= w'.log
      && forall k :: |w.log| <= k < |w'.log| ==> w'.log[k].Removed?
    decreases |users|
  {
    hide Wired, Withdraw, IndexOf;
    if users != [] && IndexOf(Queue(w, users[0]), id) < |Queue(w, users[0])| {
      WithdrawFrame(w, users[0], id, broken);
      RemoveFromOnlyRemoves(Withdraw(w, users[0], id, broken), users[1..], id, broken);
    }
  }

  /** A loop that fails marks the talker failed, for ever; after the errors nobody is answered. */
  lemma FailureIsFinal(w: World, labels: seq<Label>, w': World)
    requires Wired(w) && Enabled(w, LoopFails) && Run(Next(w, LoopFails), labels, w')
    ensures Next(w, LoopFails).failed && w'.failed
    ensures Next(w, LoopFails).log <= w'.log
    ensures forall k :: |Next(w, LoopFails).log| <= k < |w'.log| ==> w'.log[k].Removed?
  {
    hide Wired, AllErrors;
    assert Next(w, LoopFails).failed;
    AfterFailure(Next(w, LoopFails), labels, w');
  }
}
