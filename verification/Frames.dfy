/** What each critical section changes, field by field. */
module Frames {
  import opened Types
  import opened World
  import L = Link

  lemma SendDismissFrame(w: World, fd: int, r: NotificationRequest, broken: set<int>)
    requires Wired(w) && fd in w.fdToUser && !w.fdStatus[fd]
    ensures SendDismiss(w, fd, r, broken)
         == if fd in broken then Remove(w, fd)
            else w.(fdStatus := w.fdStatus[fd := true],
                    links := w.links[w.handles[fd] := L.SendDismiss(LinkOf(w, fd), r)])
  {
    hide Wired, Names, Remove, L.SendDismiss;
  }

  lemma WithdrawFrame(w: World, u: string, id: RequestId, broken: set<int>)
    requires Wired(w) && IndexOf(Queue(w, u), id) < |Queue(w, u)|
    ensures
      var q, k, w' := Queue(w, u), IndexOf(Queue(w, u), id), Withdraw(w, u, id, broken);
      && w'.requests == w.requests[u := q[..k] + q[k + 1..]]
      && w'.log == w.log + [Removed(u, q[k])] && w'.failed == w.failed
      && if k == 0 && u in w.userToFd && !w.fdStatus[w.userToFd[u]] then
           var fd := w.userToFd[u];
           if fd in broken then
             && w'.userToFd == w.userToFd - {u} && w'.fdToUser == w.fdToUser - {fd}
             && w'.fdStatus == w.fdStatus - {fd} && w'.handles == w.handles - {fd}
             && w'.links == w.links[w.handles[fd] := L.Close(LinkOf(w, fd))]
           else
             && w'.userToFd == w.userToFd && w'.fdToUser == w.fdToUser
             && w'.fdStatus == w.fdStatus[fd := true] && w'.handles == w.handles
             && w'.links == w.links[w.handles[fd] := L.SendDismiss(LinkOf(w, fd), q[0])]
         else
           && w'.userToFd == w.userToFd && w'.fdToUser == w.fdToUser
           && w'.fdStatus == w.fdStatus && w'.handles == w.handles && w'.links == w.links
  {
    var q, k := Queue(w, u), IndexOf(Queue(w, u), id);
    if k == 0 && u in w.userToFd {
      var fd := w.userToFd[u];
      Known(w, fd);
      if !w.fdStatus[fd] {
        SendDismissFrame(w, fd, q[0], broken);
        assert fd in broken ==> w.fdToUser[fd] == u;
      }
    }
    hide Wired, Names, IndexOf, L.SendDismiss, L.Close, LinkOf;
  }

  lemma PushFrame(w: World, fd: int, broken: set<int>)
    requires Wired(w) && fd in w.fdToUser
    ensures
      var w', l, q := Push(w, fd, broken), LinkOf(w, fd), Queue(w, w.fdToUser[fd]);
      && w'.requests == w.requests[w.fdToUser[fd] := q] && w'.log == w.log && w'.failed == w.failed
      && if !w.fdStatus[fd] || q == [] then
           && w'.userToFd == w.userToFd && w'.fdToUser == w.fdToUser
           && w'.handles == w.handles && w'.fdStatus == w.fdStatus && w'.links == w.links
         else if fd in broken then
           && w'.userToFd == w.userToFd - {w.fdToUser[fd]} && w'.fdToUser == w.fdToUser - {fd}
           && w'.handles == w.handles - {fd} && w'.fdStatus == w.fdStatus - {fd}
           && w'.links == w.links[w.handles[fd] := L.Close(l)]
         else
           && w'.userToFd == w.userToFd && w'.fdToUser == w.fdToUser
           && w'.handles == w.handles && w'.fdStatus == w.fdStatus[fd := false]
           && w'.links == w.links[w.handles[fd] := L.SendFrame(l, q[0])]
  {
    hide Wired, Names, L.Close, L.SendFrame;
    Known(w, fd);
    assert w.fdStatus[fd := false] - {fd} == w.fdStatus - {fd};
  }

  lemma StaleFrame(w: World, fd: int, broken: set<int>)
    requires Wired(w) && fd in w.fdToUser && LinkOf(w, fd).toDaemon != []
    requires var q := Queue(w, w.fdToUser[fd]); q == [] || q[0].id != LinkOf(w, fd).toDaemon[0].id
    ensures Receive(w, fd, broken)
         == w.(requests := w.requests[w.fdToUser[fd] := Queue(w, w.fdToUser[fd])],
               fdStatus := w.fdStatus[fd := true],
               links := w.links[w.handles[fd] := L.TakeResponse(LinkOf(w, fd))])
  {
    hide Wired, Names, L.TakeResponse;
    Known(w, fd);
  }

  /** The connection after a response for the head was read and handed on. */
  ghost function Accepting(w: World, fd: int): L.Link
    requires Wired(w) && fd in w.fdToUser && LinkOf(w, fd).toDaemon != [] && Queue(w, w.fdToUser[fd]) != []
  {
    var l := LinkOf(w, fd);
    L.Accept(L.TakeResponse(l), Queue(w, w.fdToUser[fd])[0], l.toDaemon[0].response)
  }

  lemma MatchedFrame(w: World, fd: int, broken: set<int>)
    requires Wired(w) && fd in w.fdToUser && LinkOf(w, fd).toDaemon != []
    requires var q := Queue(w, w.fdToUser[fd]); q != [] && q[0].id == LinkOf(w, fd).toDaemon[0].id
    ensures
      var w', u, l, i := Receive(w, fd, broken), w.fdToUser[fd], LinkOf(w, fd), w.handles[fd];
      var q := Queue(w, u);
      && w'.requests == w.requests[u := q[1..]] && w'.failed == w.failed
      && w'.log == w.log + [Answered(i, u, q[0], l.toDaemon[0].response)]
      && if fd in broken then
           && w'.userToFd == w.userToFd - {u} && w'.fdToUser == w.fdToUser - {fd}
           && w'.handles == w.handles - {fd} && w'.fdStatus == w.fdStatus - {fd}
           && w'.links == w.links[i := L.Close(Accepting(w, fd))]
         else
           && w'.userToFd == w.userToFd && w'.fdToUser == w.fdToUser
           && w'.handles == w.handles && w'.fdStatus == w.fdStatus[fd := true]
           && w'.links == w.links[i := L.SendAck(Accepting(w, fd))]
  {
    hide Wired, Names, L.Accept, L.SendAck, L.Close;
    Known(w, fd);
  }

  lemma ConnectFrame(w: World, u: string, fd: int)
    requires Wired(w) && fd !in w.fdToUser
    ensures
      var w' := Connect(w, u, fd);
      && w'.requests == w.requests && w'.log == w.log && w'.failed == w.failed
      && w'.userToFd == w.userToFd[u := fd]
      && if u in w.userToFd then
           var gd := w.userToFd[u];
           && w'.fdToUser == (w.fdToUser - {gd})[fd := u]
           && w'.fdStatus == (w.fdStatus - {gd})[fd := true]
           && w'.handles == (w.handles - {gd})[fd := |w.links|]
           && w'.links == w.links[w.handles[gd] := L.Close(LinkOf(w, gd))] + [L.Fresh(u)]
         else
           && w'.fdToUser == w.fdToUser[fd := u] && w'.fdStatus == w.fdStatus[fd := true]
           && w'.handles == w.handles[fd := |w.links|] && w'.links == w.links + [L.Fresh(u)]
  {
    if u in w.userToFd {
      Known(w, w.userToFd[u]);
    }
    hide Wired, Names, L.Close, L.Fresh, LinkOf;
  }

  // ---- One connection at a time -------------------------------------------------------------

  /** A connection looks the same in two states, and so does its user's queue. */
  ghost predicate Untouched(w: World, w': World, fd: int)
    requires Wired(w) && Wired(w') && fd in w.fdToUser
  {
    && fd in w'.fdToUser && w'.fdToUser[fd] == w.fdToUser[fd]
    && w'.fdStatus[fd] == w.fdStatus[fd] && w'.handles[fd] == w.handles[fd]
    && LinkOf(w', fd) == LinkOf(w, fd)
    && Queue(w', w.fdToUser[fd]) == Queue(w, w.fdToUser[fd])
  }

  /** A step that concerns one connection, and the queue of its user, and nothing else. */
  ghost predicate OnlyOf(w: World, w': World, fd: int)
    requires Wired(w) && Wired(w') && fd in w.fdToUser
  {
    && |w'.links| == |w.links|
    && (forall i :: 0 <= i < |w.links| && i != w.handles[fd] ==> w'.links[i] == w.links[i])
    && (forall gd :: gd in w'.fdToUser ==> gd in w.fdToUser)
    && (forall gd :: gd in w.fdToUser && gd != fd ==> Untouched(w, w', gd))
    && (fd in w'.fdToUser ==> w'.fdToUser[fd] == w.fdToUser[fd] && w'.handles[fd] == w.handles[fd])
  }

  /** The shape every such step has, in terms of the maps. */
  ghost predicate Only(w: World, w': World, fd: int, q: seq<NotificationRequest>, l: L.Link, free: bool)
    requires Wired(w) && fd in w.fdToUser
  {
    && (w'.requests == w.requests || w'.requests == w.requests[w.fdToUser[fd] := q])
    && (w'.links == w.links || w'.links == w.links[w.handles[fd] := l])
    && if fd in w'.fdToUser then
         && w'.fdToUser == w.fdToUser && w'.handles == w.handles
         && (w'.fdStatus == w.fdStatus || w'.fdStatus == w.fdStatus[fd := free])
       else
         && w'.fdToUser == w.fdToUser - {fd} && w'.handles == w.handles - {fd}
         && w'.fdStatus == w.fdStatus - {fd}
  }

  lemma OnlyUntouched(w: World, w': World, fd: int, q: seq<NotificationRequest>, l: L.Link, free: bool, gd: int)
    requires Wired(w) && Wired(w') && fd in w.fdToUser && Only(w, w', fd, q, l, free)
    requires gd in w.fdToUser && gd != fd
    ensures Untouched(w, w', gd)
  {
    hide Wired;
    Known(w, gd);
    Known(w, fd);
    assert w.handles[gd] != w.handles[fd] && w.fdToUser[gd] != w.fdToUser[fd];
    var v, i := w.fdToUser[gd], w.handles[gd];
    assert gd in w'.fdToUser && w'.fdToUser[gd] == v && w'.fdStatus[gd] == w.fdStatus[gd] && w'.handles[gd] == i;
    assert w'.links[i] == w.links[i];
    assert Queue(w', v) == Queue(w, v);
  }

  lemma OnlyIsOnlyOf(w: World, w': World, fd: int, q: seq<NotificationRequest>, l: L.Link, free: bool)
    requires Wired(w) && Wired(w') && fd in w.fdToUser && Only(w, w', fd, q, l, free)
    ensures OnlyOf(w, w', fd)
  {
    hide Wired, Names, Untouched;
    Known(w, fd);
    forall gd | gd in w.fdToUser && gd != fd ensures Untouched(w, w', gd) {
      OnlyUntouched(w, w', fd, q, l, free, gd);
    }
  }

  lemma RemoveOnly(w: World, fd: int)
    requires Wired(w) && fd in w.fdToUser
    ensures OnlyOf(w, Remove(w, fd), fd)
  {
    hide Wired, Names, OnlyOf, L.Close;
    Known(w, fd);
    OnlyIsOnlyOf(w, Remove(w, fd), fd, [], L.Close(LinkOf(w, fd)), true);
  }

  lemma WithdrawOnly(w: World, u: string, id: RequestId, broken: set<int>)
    requires Wired(w) && IndexOf(Queue(w, u), id) < |Queue(w, u)| && u in w.userToFd
    ensures OnlyOf(w, Withdraw(w, u, id, broken), w.userToFd[u])
  {
    hide Names, OnlyOf, L.Close, L.SendDismiss, Withdraw, IndexOf;
    var q, k, fd := Queue(w, u), IndexOf(Queue(w, u), id), w.userToFd[u];
    assert w.fdToUser[fd] == u;
    Known(w, fd);
    hide Wired;
    WithdrawFrame(w, u, id, broken);
    var w' := Withdraw(w, u, id, broken);
    OnlyIsOnlyOf(w, w', fd, q[..k] + q[k + 1..],
      if fd in broken then L.Close(LinkOf(w, fd)) else L.SendDismiss(LinkOf(w, fd), q[0]), true);
  }

  lemma PushOnly(w: World, fd: int, broken: set<int>)
    requires Wired(w) && fd in w.fdToUser
    ensures OnlyOf(w, Push(w, fd, broken), fd)
  {
    var q, l := Queue(w, w.fdToUser[fd]), LinkOf(w, fd);
    PushFrame(w, fd, broken);
    hide Wired, Names, OnlyOf, L.Close, L.SendFrame, Push;
    OnlyIsOnlyOf(w, Push(w, fd, broken), fd, q,
      if fd in broken || q == [] then L.Close(l) else L.SendFrame(l, q[0]), false);
  }

  lemma ReceiveOnly(w: World, fd: int, broken: set<int>)
    requires Wired(w) && fd in w.fdToUser && LinkOf(w, fd).toDaemon != []
    ensures OnlyOf(w, Receive(w, fd, broken), fd)
  {
    hide Wired, Names, OnlyOf, L.Close, L.SendAck, L.TakeResponse, Receive;
    Known(w, fd);
    var q, l := Queue(w, w.fdToUser[fd]), LinkOf(w, fd);
    if q != [] && q[0].id == l.toDaemon[0].id {
      MatchedFrame(w, fd, broken);
      OnlyIsOnlyOf(w, Receive(w, fd, broken), fd, q[1..],
        if fd in broken then L.Close(Accepting(w, fd)) else L.SendAck(Accepting(w, fd)), true);
    } else {
      StaleFrame(w, fd, broken);
      OnlyIsOnlyOf(w, Receive(w, fd, broken), fd, q, L.TakeResponse(l), true);
    }
  }

  lemma PopupOnly(w: World, fd: int, l: L.Link)
    requires Wired(w) && fd in w.fdToUser
    requires l.open == LinkOf(w, fd).open && l.user == LinkOf(w, fd).user
    ensures w.handles[fd] < |w.links| && OnlyOf(w, PopupMove(w, w.handles[fd], l), fd)
  {
    hide Wired, Names, OnlyOf;
    Known(w, fd);
    OnlyIsOnlyOf(w, PopupMove(w, w.handles[fd], l), fd, [], l, true);
  }
}
