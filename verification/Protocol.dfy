/** The joint invariant of daemon and popups, and that every step keeps it. */
module Protocol {
  import opened Types
  import opened Ordering
  import opened World
  import opened Frames
  import L = Link

  // ---- Projections of the history -----------------------------------------------------------

  /** The answers the daemon accepted from connection `i`, in order. */
  ghost function HandledOn(log: seq<Event>, i: nat): seq<L.Verdict> {
    if log == [] then [] else
      var before, e := HandledOn(log[..|log| - 1], i), log[|log| - 1];
      if e.Answered? && e.link == i then before + [L.Verdict(e.request.Stripped(), e.answer)] else before
  }

  /** The requests of a user the response handler was called for, in order. */
  ghost function Responded(log: seq<Event>, u: string): seq<NotificationRequest> {
    if log == [] then [] else
      var before, e := Responded(log[..|log| - 1], u), log[|log| - 1];
      if (e.Answered? || e.Errored?) && e.user == u then before + [e.request] else before
  }

  /** The accepted requests of a user in arrival order, less the removed ones: a removal takes
      back the latest acceptance of its id. Answers play no part in it. */
  ghost function Surviving(log: seq<Event>, u: string): seq<NotificationRequest> {
    if log == [] then [] else
      var before, e := Surviving(log[..|log| - 1], u), log[|log| - 1];
      if e.Accepted? && e.request.data.user == u then before + [e.request]
      else if e.Removed? && e.user == u then DropLatest(before, e.request.id)
      else before
  }

  ghost function DropLatest(q: seq<NotificationRequest>, id: RequestId): seq<NotificationRequest> {
    if q == [] then []
    else if q[|q| - 1].id == id then q[..|q| - 1]
    else DropLatest(q[..|q| - 1], id) + [q[|q| - 1]]
  }

  lemma {:induction false} DropLatestInTail(front: seq<NotificationRequest>, q: seq<NotificationRequest>, k: nat)
    requires k < |q| && UniqueIds(q)
    ensures DropLatest(front + q, q[k].id) == front + (q[..k] + q[k + 1..])
  {
    var n := |q| - 1;
    assert (front + q)[|front + q| - 1] == q[n];
    assert (front + q)[..|front + q| - 1] == front + q[..n];
    if k == n {
      assert q[k + 1..] == [];
      assert front + q[..n] == front + (q[..k] + q[k + 1..]);
    } else {
      DropLatestInTail(front, q[..n], k);
      assert q[..n][..k] == q[..k];
      assert q[k + 1..] == q[..n][k + 1..] + [q[n]];
    }
  }

  /** One more event at the end of the log. */
  lemma OneMore(log: seq<Event>, e: Event, i: nat, u: string)
    ensures HandledOn(log + [e], i)
         == HandledOn(log, i)
            + if e.Answered? && e.link == i then [L.Verdict(e.request.Stripped(), e.answer)] else []
    ensures Responded(log + [e], u)
         == Responded(log, u) + if (e.Answered? || e.Errored?) && e.user == u then [e.request] else []
    ensures Surviving(log + [e], u)
         == if e.Accepted? && e.request.data.user == u then Surviving(log, u) + [e.request]
            else if e.Removed? && e.user == u then DropLatest(Surviving(log, u), e.request.id)
            else Surviving(log, u)
  {
    hide DropLatest;
    var log' := log + [e];
    assert log'[..|log'| - 1] == log && log'[|log'| - 1] == e;
  }

  // ---- The invariant ------------------------------------------------------------------------

  ghost predicate UniqueIds(q: seq<NotificationRequest>) {
    forall i, j :: 0 <= i < j < |q| ==> q[i].id != q[j].id
  }

  ghost predicate QueueInv(u: string, q: seq<NotificationRequest>) {
    UniqueIds(q) && forall i :: 0 <= i < |q| ==> q[i].data.user == u
  }

  /** The request the daemon takes a connection to be busy with. */
  ghost function Standing(w: World, fd: int): Option<NotificationRequest>
    requires Wired(w) && fd in w.fdToUser
  {
    StandingOf(Queue(w, w.fdToUser[fd]), w.fdStatus[fd])
  }

  ghost function StandingOf(q: seq<NotificationRequest>, free: bool): Option<NotificationRequest> {
    if free || q == [] then None else Some(q[0].Stripped())
  }

  /** A busy connection is busy with the head of its user's queue, the request last sent on it. */
  ghost predicate BusyHead(l: L.Link, q: seq<NotificationRequest>, free: bool) {
    !free ==> q != [] && l.last == Some(q[0])
  }

  ghost predicate Fits(l: L.Link, q: seq<NotificationRequest>, free: bool) {
    BusyHead(l, q, free) && L.LinkInv(l, StandingOf(q, free))
  }

  ghost predicate FdInv(w: World, fd: int)
    requires Wired(w) && fd in w.fdToUser
  {
    Fits(LinkOf(w, fd), Queue(w, w.fdToUser[fd]), w.fdStatus[fd])
  }

  /** Some standing request explains the connection. */
  ghost predicate Explained(l: L.Link) {
    exists standing :: L.LinkInv(l, standing)
  }

  /** Per user: accepted less removed = responded followed by the queue. */
  ghost predicate Conserved(w: World, u: string) {
    Surviving(w.log, u) == Responded(w.log, u) + Queue(w, u)
  }

  ghost predicate QueuesInv(w: World) {
    forall u :: u in w.requests ==> QueueInv(u, w.requests[u])
  }

  ghost predicate ConnectionsInv(w: World)
    requires Wired(w)
  {
    && (forall fd :: fd in w.fdToUser ==> FdInv(w, fd))
    && (forall i :: 0 <= i < |w.links| && !w.links[i].open ==> Explained(w.links[i]))
  }

  /** The history of each connection and the log agree on the answers handed on. */
  ghost predicate HandledInv(w: World) {
    && (forall i :: 0 <= i < |w.links| ==> w.links[i].handled == HandledOn(w.log, i))
    && (forall i :: |w.links| <= i ==> HandledOn(w.log, i) == [])
  }

  ghost predicate ConservedInv(w: World) {
    !w.failed ==> forall u :: Conserved(w, u)
  }

  ghost predicate Inv(w: World) {
    Wired(w) && QueuesInv(w) && ConnectionsInv(w) && HandledInv(w) && ConservedInv(w)
  }

  lemma InitialInv()
    ensures Inv(Initial())
  {
  }

  // ---- A connection and the queue it serves -------------------------------------------------

  /** A queue may change behind its head, or from its head on while the connection is free. */
  lemma QueueFits(l: L.Link, q: seq<NotificationRequest>, q': seq<NotificationRequest>, free: bool)
    requires Fits(l, q, free)
    requires free || (q' != [] && q'[0] == q[0])
    ensures Fits(l, q', free)
  {
    hide L.LinkInv;
  }

  lemma SentFits(l: L.Link, q: seq<NotificationRequest>)
    requires Fits(l, q, true) && q != []
    ensures Fits(L.SendFrame(l, q[0]), q, false) && Explained(L.Close(l))
  {
    hide L.LinkInv;
    L.SendFrameInv(l, q[0]);
    L.EndInv(l, None);
  }

  lemma DismissedFits(l: L.Link, q: seq<NotificationRequest>, q': seq<NotificationRequest>)
    requires Fits(l, q, false)
    ensures Fits(L.SendDismiss(l, q[0]), q', true) && Explained(L.Close(l))
  {
    hide L.LinkInv, L.SendDismiss;
    L.SendDismissInv(l, q[0]);
    L.EndInv(l, Some(q[0].Stripped()));
  }

  lemma StaleFits(l: L.Link, q: seq<NotificationRequest>, free: bool)
    requires Fits(l, q, free) && l.open && l.toDaemon != []
    requires q == [] || q[0].id != l.toDaemon[0].id
    ensures Fits(L.TakeResponse(l), q, true)
  {
    hide L.LinkInv;
    L.StaleInv(l, StandingOf(q, free));
  }

  lemma MatchFits(l: L.Link, q: seq<NotificationRequest>, free: bool)
    requires Fits(l, q, free) && l.open && l.toDaemon != []
    requires q != [] && q[0].id == l.toDaemon[0].id
    ensures var l' := L.Accept(L.TakeResponse(l), q[0], l.toDaemon[0].response);
      Fits(L.SendAck(l'), q[1..], true) && Explained(L.Close(l'))
  {
    hide L.LinkInv, L.SendAck, L.Close;
    L.MatchInv(l, q[0], StandingOf(q, free));
  }

  lemma ClosedExplained(l: L.Link, q: seq<NotificationRequest>, free: bool)
    requires Fits(l, q, free)
    ensures Explained(l) && Explained(L.Close(l))
  {
    hide L.LinkInv;
    L.EndInv(l, StandingOf(q, free));
  }

  // ---- What a step keeps, part by part ------------------------------------------------------

  lemma QueueIds(u: string, q: seq<NotificationRequest>, k: nat)
    requires QueueInv(u, q) && k < |q|
    ensures QueueInv(u, q[..k] + q[k + 1..])
  {
  }

  lemma SetQueuesInv(w: World, w': World, u: string, q: seq<NotificationRequest>)
    requires QueuesInv(w) && QueueInv(u, q) && w'.requests == w.requests[u := q]
    ensures QueuesInv(w')
  {
    hide QueueInv;
  }

  lemma QueueOf(w: World, u: string)
    requires QueuesInv(w)
    ensures QueueInv(u, Queue(w, u))
  {
  }

  /** Two states that look the same from one connection. */
  lemma SameFdInv(w: World, w': World, fd: int)
    requires Wired(w) && Wired(w') && fd in w.fdToUser && fd in w'.fdToUser
    requires w'.fdToUser[fd] == w.fdToUser[fd] && w'.fdStatus[fd] == w.fdStatus[fd]
    requires LinkOf(w', fd) == LinkOf(w, fd) && Queue(w', w.fdToUser[fd]) == Queue(w, w.fdToUser[fd])
    requires FdInv(w, fd)
    ensures FdInv(w', fd)
  {
    hide Wired, Fits;
  }

  /** A step that concerns one connection keeps all the others. */
  lemma OnlyOfConnections(w: World, w': World, fd: int)
    requires Wired(w) && Wired(w') && ConnectionsInv(w) && fd in w.fdToUser && OnlyOf(w, w', fd)
    requires fd in w'.fdToUser ==> FdInv(w', fd)
    requires fd !in w'.fdToUser && w.handles[fd] < |w'.links| ==> Explained(w'.links[w.handles[fd]])
    ensures ConnectionsInv(w')
  {
    hide Wired, Names, L.LinkInv, Explained, FdInv;
    Known(w, fd);
    if fd in w'.fdToUser {
      Known(w', fd);
    }
    forall gd | gd in w'.fdToUser ensures FdInv(w', gd) {
      if gd != fd {
        assert FdInv(w, gd) && Untouched(w, w', gd);
        SameFdInv(w, w', gd);
      }
    }
  }

  /** A step that concerns no connection at all. */
  lemma OtherConnections(w: World, w': World)
    requires Wired(w) && Wired(w') && ConnectionsInv(w)
    requires w'.links == w.links && w'.handles == w.handles
    requires w'.fdToUser == w.fdToUser && w'.fdStatus == w.fdStatus
    requires forall fd :: fd in w.fdToUser ==> Queue(w', w.fdToUser[fd]) == Queue(w, w.fdToUser[fd])
    ensures ConnectionsInv(w')
  {
    hide Names, Explained, FdInv, Queue;
    forall fd | fd in w'.fdToUser ensures FdInv(w', fd) {
      assert FdInv(w, fd);
      SameFdInv(w, w', fd);
    }
  }

  /** At most one event is added, and no answer. */
  ghost predicate QuietLog(log: seq<Event>, log': seq<Event>) {
    log' == log || (|log'| == |log| + 1 && log'[..|log|] == log && !log'[|log|].Answered?)
  }

  lemma SameHandledInv(w: World, w': World)
    requires HandledInv(w) && QuietLog(w.log, w'.log) && |w.links| <= |w'.links|
    requires forall i :: 0 <= i < |w.links| ==> w'.links[i].handled == w.links[i].handled
    requires forall i :: |w.links| <= i < |w'.links| ==> w'.links[i].handled == []
    ensures HandledInv(w')
  {
    forall i: nat ensures HandledOn(w'.log, i) == HandledOn(w.log, i) {
    }
    hide HandledOn;
  }

  lemma SameConservedInv(w: World, w': World)
    requires ConservedInv(w) && w'.log == w.log && w'.failed == w.failed
    requires forall v :: Queue(w', v) == Queue(w, v)
    ensures ConservedInv(w')
  {
    hide Queue;
    forall v | !w.failed ensures Conserved(w', v) {
      assert Conserved(w, v);
    }
  }

  // ---- Every step keeps the invariant -------------------------------------------------------

  lemma AddInv(w: World, r: NotificationRequest)
    requires Inv(w) && !w.failed
    ensures Inv(AddRequest(w, r))
  {
    hide QueueInv, QueuesInv, ConnectionsInv, Wired, IndexOf;
    var w', u, q := AddRequest(w, r), r.data.user, Queue(w, r.data.user);
    QueueOf(w, u);
    AddQueue(u, q, r);
    SetQueuesInv(w, w', u, w'.requests[u]);
    AddConnections(w, r);
    SameHandledInv(w, w');
    forall v ensures Conserved(w', v) {
      assert Conserved(w, v);
      AddConserved(w, r, v);
    }
  }

  lemma AddQueue(u: string, q: seq<NotificationRequest>, r: NotificationRequest)
    requires QueueInv(u, q) && r.data.user == u
    ensures IndexOf(q, r.id) == |q| ==> QueueInv(u, q + [r])
  {
  }

  lemma AddConnections(w: World, r: NotificationRequest)
    requires Wired(w) && ConnectionsInv(w)
    ensures ConnectionsInv(AddRequest(w, r))
  {
    hide IndexOf, ConnectionsInv;
    var w', u := AddRequest(w, r), r.data.user;
    if u in w.userToFd {
      assert w.fdToUser[w.userToFd[u]] == u;
      AddOnly(w, r, w.userToFd[u]);
      hide AddRequest, Wired, OnlyOf;
      OnlyOfConnections(w, w', w.userToFd[u]);
    } else {
      OtherConnections(w, w');
    }
  }

  lemma AddOnly(w: World, r: NotificationRequest, fd: int)
    requires Wired(w) && ConnectionsInv(w) && fd in w.fdToUser && w.fdToUser[fd] == r.data.user
    ensures var w' := AddRequest(w, r);
      OnlyOf(w, w', fd) && fd in w'.fdToUser && FdInv(w', fd)
  {
    hide IndexOf, Explained, Fits, OnlyOf, Wired;
    var w', u := AddRequest(w, r), r.data.user;
    Known(w, fd);
    assert FdInv(w, fd);
    OnlyIsOnlyOf(w, w', fd, w'.requests[u], LinkOf(w, fd), true);
    AddFits(LinkOf(w, fd), Queue(w, u), Queue(w', u), w.fdStatus[fd]);
  }

  lemma AddFits(l: L.Link, q: seq<NotificationRequest>, q': seq<NotificationRequest>, free: bool)
    requires Fits(l, q, free) && q <= q'
    ensures Fits(l, q', free)
  {
    hide L.LinkInv;
    QueueFits(l, q, q', free);
  }

  lemma AddConserved(w: World, r: NotificationRequest, v: string)
    requires Wired(w) && Conserved(w, v)
    ensures Conserved(AddRequest(w, r), v)
  {
    hide Surviving, Responded, Wired, IndexOf;
    var w', u, q := AddRequest(w, r), r.data.user, Queue(w, r.data.user);
    if IndexOf(q, r.id) == |q| {
      assert w'.log == w.log + [Accepted(r)];
      assert Queue(w', v) == if u == v then q + [r] else Queue(w, v);
      hide AddRequest, Queue;
      AcceptedLog(w.log, r, v);
      if u == v {
        AppendTwice(Responded(w.log, v), q, [r]);
      }
    } else {
      assert w'.log == w.log && Queue(w', v) == Queue(w, v);
      hide AddRequest, Queue;
    }
  }

  lemma AcceptedLog(log: seq<Event>, r: NotificationRequest, v: string)
    ensures Responded(log + [Accepted(r)], v) == Responded(log, v)
    ensures Surviving(log + [Accepted(r)], v)
         == if r.data.user == v then Surviving(log, v) + [r] else Surviving(log, v)
  {
    var log' := log + [Accepted(r)];
    assert log'[..|log'| - 1] == log && log'[|log'| - 1] == Accepted(r);
  }

  lemma RemoveInv(w: World, fd: int)
    requires Inv(w) && fd in w.fdToUser
    ensures Inv(Remove(w, fd))
  {
    hide L.LinkInv, HandledOn, Conserved;
    var w' := Remove(w, fd);
    assert FdInv(w, fd);
    ClosedExplained(LinkOf(w, fd), Queue(w, w.fdToUser[fd]), w.fdStatus[fd]);
    Known(w, fd);
    RemoveOnly(w, fd);
    hide Wired, OnlyOf, FdInv, Explained;
    OnlyOfConnections(w, w', fd);
    hide ConnectionsInv;
    SameHandledInv(w, w');
    SameConservedInv(w, w');
  }

  lemma WithdrawInv(w: World, u: string, id: RequestId, broken: set<int>)
    requires Inv(w) && IndexOf(Queue(w, u), id) < |Queue(w, u)|
    ensures Inv(Withdraw(w, u, id, broken))
  {
    hide ConnectionsInv, Withdraw, IndexOf, QueueInv, QueuesInv, HandledInv, Wired, UniqueIds;
    var w', q := Withdraw(w, u, id, broken), Queue(w, u);
    var k := IndexOf(q, id);
    WithdrawConnections(w, u, id, broken);
    WithdrawFrame(w, u, id, broken);
    QueueOf(w, u);
    QueueIds(u, q, k);
    SetQueuesInv(w, w', u, q[..k] + q[k + 1..]);
    assert UniqueIds(q) by { assert QueueInv(u, q); }
    WithdrawHandled(w, u, id, broken);
    forall v | !w.failed ensures Conserved(w', v) {
      WithdrawConserved(w, w', u, k, v);
    }
  }

  lemma WithdrawHandled(w: World, u: string, id: RequestId, broken: set<int>)
    requires Wired(w) && HandledInv(w) && IndexOf(Queue(w, u), id) < |Queue(w, u)|
    ensures HandledInv(Withdraw(w, u, id, broken))
  {
    WithdrawFrame(w, u, id, broken);
    if u in w.userToFd {
      Known(w, w.userToFd[u]);
    }
    hide Withdraw, Wired, HandledInv, IndexOf;
    SameHandledInv(w, Withdraw(w, u, id, broken));
  }

  lemma WithdrawConnections(w: World, u: string, id: RequestId, broken: set<int>)
    requires Wired(w) && ConnectionsInv(w) && IndexOf(Queue(w, u), id) < |Queue(w, u)|
    ensures ConnectionsInv(Withdraw(w, u, id, broken))
  {
    var w' := Withdraw(w, u, id, broken);
    WithdrawFrame(w, u, id, broken);
    if u in w.userToFd {
      var fd := w.userToFd[u];
      Known(w, fd);
      WithdrawFd(w, u, id, broken);
      WithdrawOnly(w, u, id, broken);
      hide Withdraw, Wired, Names, FdInv, Explained, IndexOf, OnlyOf, ConnectionsInv;
      OnlyOfConnections(w, w', fd);
    } else {
      hide Withdraw, IndexOf, ConnectionsInv;
      OtherConnections(w, w');
    }
  }

  /** The connection of the user whose queue is changed. */
  lemma WithdrawFd(w: World, u: string, id: RequestId, broken: set<int>)
    requires Wired(w) && ConnectionsInv(w) && IndexOf(Queue(w, u), id) < |Queue(w, u)| && u in w.userToFd
    ensures var w', fd := Withdraw(w, u, id, broken), w.userToFd[u];
      if fd in w'.fdToUser then FdInv(w', fd)
      else w.handles[fd] < |w'.links| && Explained(w'.links[w.handles[fd]])
  {
    var w', q, fd := Withdraw(w, u, id, broken), Queue(w, u), w.userToFd[u];
    Known(w, fd);
    assert FdInv(w, fd);
    WithdrawFrame(w, u, id, broken);
    hide Withdraw, Wired, Fits, Explained, ConnectionsInv, L.SendDismiss, L.Close;
    var k := IndexOf(q, id);
    if w.fdStatus[fd] || k > 0 {
      QueueFits(LinkOf(w, fd), q, q[..k] + q[k + 1..], w.fdStatus[fd]);
    } else {
      DismissedFits(LinkOf(w, fd), q, q[..k] + q[k + 1..]);
    }
  }

  lemma WithdrawConserved(w: World, w': World, u: string, k: nat, v: string)
    requires Conserved(w, v)
    requires k < |Queue(w, u)| && UniqueIds(Queue(w, u))
    requires w'.log == w.log + [Removed(u, Queue(w, u)[k])]
    requires w'.requests == w.requests[u := Queue(w, u)[..k] + Queue(w, u)[k + 1..]]
    ensures Conserved(w', v)
  {
    hide Surviving, Responded, DropLatest;
    OneMore(w.log, Removed(u, Queue(w, u)[k]), 0, v);
    if u == v {
      DropLatestInTail(Responded(w.log, u), Queue(w, u), k);
    }
  }

  lemma {:induction false} RemoveFromInv(w: World, users: seq<string>, id: RequestId, broken: set<int>)
    requires Inv(w)
    ensures Inv(RemoveFrom(w, users, id, broken))
    decreases |users|
  {
    hide Withdraw, ConnectionsInv, HandledInv, ConservedInv, QueuesInv, Wired;
    if users != [] && IndexOf(Queue(w, users[0]), id) < |Queue(w, users[0])| {
      WithdrawInv(w, users[0], id, broken);
      RemoveFromInv(Withdraw(w, users[0], id, broken), users[1..], id, broken);
    }
  }

  lemma StaleResponseInv(w: World, fd: int, broken: set<int>)
    requires Inv(w) && fd in w.fdToUser && LinkOf(w, fd).toDaemon != []
    requires var q := Queue(w, w.fdToUser[fd]); q == [] || q[0].id != LinkOf(w, fd).toDaemon[0].id
    ensures Inv(Receive(w, fd, broken))
  {
    hide Receive, ConnectionsInv, ConservedInv, QueuesInv, HandledOn;
    StaleConnections(w, fd, broken);
    StaleFrame(w, fd, broken);
    SameQueues(w, Receive(w, fd, broken), w.fdToUser[fd]);
    SameHandledInv(w, Receive(w, fd, broken));
  }

  /** A queue that is stored as it is, or as an empty one if there was none. */
  lemma SameQueues(w: World, w': World, u: string)
    requires QueuesInv(w) && ConservedInv(w) && w'.log == w.log && w'.failed == w.failed
    requires w'.requests == w.requests[u := Queue(w, u)]
    ensures QueuesInv(w') && ConservedInv(w')
  {
    hide QueuesInv;
    QueueOf(w, u);
    SetQueuesInv(w, w', u, Queue(w, u));
    SameConservedInv(w, w');
  }

  lemma StaleConnections(w: World, fd: int, broken: set<int>)
    requires Wired(w) && ConnectionsInv(w) && fd in w.fdToUser && LinkOf(w, fd).toDaemon != []
    requires var q := Queue(w, w.fdToUser[fd]); q == [] || q[0].id != LinkOf(w, fd).toDaemon[0].id
    ensures ConnectionsInv(Receive(w, fd, broken))
  {
    Known(w, fd);
    ReceiveOnly(w, fd, broken);
    assert FdInv(w, fd);
    StaleFrame(w, fd, broken);
    hide Receive, ConnectionsInv, Wired, OnlyOf, Fits;
    StaleFits(LinkOf(w, fd), Queue(w, w.fdToUser[fd]), w.fdStatus[fd]);
    assert FdInv(Receive(w, fd, broken), fd);
    hide FdInv;
    OnlyOfConnections(w, Receive(w, fd, broken), fd);
  }

  /** The response matches the head: it is handed on, and acknowledged if the socket lets it. */
  lemma MatchedResponseInv(w: World, fd: int, broken: set<int>)
    requires Inv(w) && fd in w.fdToUser && LinkOf(w, fd).toDaemon != []
    requires var q := Queue(w, w.fdToUser[fd]); q != [] && q[0].id == LinkOf(w, fd).toDaemon[0].id
    ensures Inv(Receive(w, fd, broken))
  {
    MatchedConnections(w, fd, broken);
    MatchedFrame(w, fd, broken);
    hide Receive, ConnectionsInv, HandledInv;
    var w', q := Receive(w, fd, broken), Queue(w, w.fdToUser[fd]);
    TailQueuesInv(w, w', w.fdToUser[fd]);
    hide QueuesInv;
    MatchedHandled(w, w', fd, q[0], LinkOf(w, fd).toDaemon[0].response);
    hide Wired;
    forall v | !w.failed ensures Conserved(w', v) {
      assert Conserved(w, v);
      MatchedConserved(w, w', w.handles[fd], w.fdToUser[fd], LinkOf(w, fd).toDaemon[0].response, v);
    }
  }

  lemma TailQueuesInv(w: World, w': World, u: string)
    requires QueuesInv(w) && Queue(w, u) != [] && w'.requests == w.requests[u := Queue(w, u)[1..]]
    ensures QueuesInv(w')
  {
    var q := Queue(w, u);
    QueueOf(w, u);
    QueueIds(u, q, 0);
    assert q[..0] + q[1..] == q[1..];
    SetQueuesInv(w, w', u, q[1..]);
  }

  lemma MatchedConnections(w: World, fd: int, broken: set<int>)
    requires Wired(w) && ConnectionsInv(w) && fd in w.fdToUser && LinkOf(w, fd).toDaemon != []
    requires var q := Queue(w, w.fdToUser[fd]); q != [] && q[0].id == LinkOf(w, fd).toDaemon[0].id
    ensures ConnectionsInv(Receive(w, fd, broken))
  {
    hide Receive, Wired, OnlyOf, Explained, FdInv, ConnectionsInv, Queue;
    Known(w, fd);
    MatchedFd(w, fd, broken);
    ReceiveOnly(w, fd, broken);
    OnlyOfConnections(w, Receive(w, fd, broken), fd);
  }

  lemma MatchedFd(w: World, fd: int, broken: set<int>)
    requires Wired(w) && ConnectionsInv(w) && fd in w.fdToUser && LinkOf(w, fd).toDaemon != []
    requires var q := Queue(w, w.fdToUser[fd]); q != [] && q[0].id == LinkOf(w, fd).toDaemon[0].id
    ensures var w' := Receive(w, fd, broken);
      if fd in w'.fdToUser then FdInv(w', fd)
      else w.handles[fd] < |w'.links| && Explained(w'.links[w.handles[fd]])
  {
    assert FdInv(w, fd);
    Known(w, fd);
    MatchedFrame(w, fd, broken);
    hide Receive, Wired, Fits, Explained, ConnectionsInv, L.SendAck, L.Close;
    MatchFits(LinkOf(w, fd), Queue(w, w.fdToUser[fd]), w.fdStatus[fd]);
  }

  lemma MatchedHandled(w: World, w': World, fd: int, q: NotificationRequest, a: NResponseType)
    requires Wired(w) && fd in w.fdToUser && HandledInv(w)
    requires exists u :: w'.log == w.log + [Answered(w.handles[fd], u, q, a)]
    requires exists l: L.Link :: (w'.links == w.links[w.handles[fd] := l]
                                  && l.handled == LinkOf(w, fd).handled + [L.Verdict(q.Stripped(), a)])
    ensures HandledInv(w')
  {
    hide HandledOn, Wired;
    Known(w, fd);
    var u :| w'.log == w.log + [Answered(w.handles[fd], u, q, a)];
    forall i: nat
      ensures HandledOn(w'.log, i)
           == HandledOn(w.log, i) + if i == w.handles[fd] then [L.Verdict(q.Stripped(), a)] else []
    {
      OneMore(w.log, Answered(w.handles[fd], u, q, a), i, u);
    }
  }

  lemma MatchedConserved(w: World, w': World, j: nat, u: string, a: NResponseType, v: string)
    requires Conserved(w, v) && Queue(w, u) != []
    requires w'.log == w.log + [Answered(j, u, Queue(w, u)[0], a)]
    requires w'.requests == w.requests[u := Queue(w, u)[1..]]
    ensures Conserved(w', v)
  {
    var q := Queue(w, u);
    assert Queue(w', v) == if u == v then q[1..] else Queue(w, v);
    hide Surviving, Responded, Queue;
    OneMore(w.log, Answered(j, u, q[0], a), 0, v);
    if u == v {
      MoveOver(Responded(w.log, v), q);
    } else {
      assert Responded(w'.log, v) == Responded(w.log, v);
    }
  }

  /** The first element of the second sequence moves to the end of the first. */
  lemma MoveOver(a: seq<NotificationRequest>, q: seq<NotificationRequest>)
    requires q != []
    ensures a + q == a + [q[0]] + q[1..]
  {
  }

  lemma ConnectInv(w: World, u: string, fd: int)
    requires Inv(w) && fd !in w.fdToUser
    ensures Inv(Connect(w, u, fd))
  {
    var w1 := if u in w.userToFd then Remove(w, w.userToFd[u]) else w;
    if u in w.userToFd {
      RemoveInv(w, w.userToFd[u]);
    }
    assert Connect(w, u, fd) == Connect(w1, u, fd);
    FreshConnectionInv(w1, u, fd);
  }

  lemma FreshConnectionInv(w: World, u: string, fd: int)
    requires Inv(w) && fd !in w.fdToUser && u !in w.userToFd
    ensures Inv(Connect(w, u, fd))
  {
    hide Connect, L.LinkInv, HandledOn, Conserved, Wired, FdInv;
    var w' := Connect(w, u, fd);
    ConnectFrame(w, u, fd);
    FreshFds(w, u, fd);
    SameHandledInv(w, w');
    SameConservedInv(w, w');
  }

  lemma FreshFds(w: World, u: string, fd: int)
    requires Wired(w) && ConnectionsInv(w) && fd !in w.fdToUser && u !in w.userToFd
    ensures ConnectionsInv(Connect(w, u, fd))
  {
    hide Connect, FdInv, Explained, Wired;
    var w' := Connect(w, u, fd);
    ConnectFrame(w, u, fd);
    FreshFd(w, u, fd);
    forall gd | gd in w'.fdToUser ensures FdInv(w', gd) {
      if gd != fd {
        Known(w, gd);
        hide Wired;
        SameFdInv(w, w', gd);
      }
    }
  }

  lemma FreshFd(w: World, u: string, fd: int)
    requires Wired(w) && fd !in w.fdToUser && u !in w.userToFd
    ensures fd in Connect(w, u, fd).fdToUser && FdInv(Connect(w, u, fd), fd)
  {
    hide Connect, L.LinkInv, Wired;
    ConnectFrame(w, u, fd);
    L.FreshInv(u);
  }

  lemma PushInv(w: World, fd: int, broken: set<int>)
    requires Inv(w) && fd in w.fdToUser
    ensures Inv(Push(w, fd, broken))
  {
    hide Push, Wired, ConnectionsInv, ConservedInv, QueuesInv, HandledOn;
    PushConnections(w, fd, broken);
    Known(w, fd);
    PushFrame(w, fd, broken);
    SameQueues(w, Push(w, fd, broken), w.fdToUser[fd]);
    SameHandledInv(w, Push(w, fd, broken));
  }

  lemma PushConnections(w: World, fd: int, broken: set<int>)
    requires Wired(w) && ConnectionsInv(w) && fd in w.fdToUser
    ensures ConnectionsInv(Push(w, fd, broken))
  {
    hide Push, Wired, OnlyOf, Explained, FdInv, ConnectionsInv;
    Known(w, fd);
    PushFd(w, fd, broken);
    PushOnly(w, fd, broken);
    OnlyOfConnections(w, Push(w, fd, broken), fd);
  }

  lemma PushFd(w: World, fd: int, broken: set<int>)
    requires Wired(w) && ConnectionsInv(w) && fd in w.fdToUser
    ensures var w' := Push(w, fd, broken);
      if fd in w'.fdToUser then FdInv(w', fd)
      else w.handles[fd] < |w'.links| && Explained(w'.links[w.handles[fd]])
  {
    hide Push, Wired, Fits, Explained, L.Close, L.SendFrame;
    Known(w, fd);
    var l, q := LinkOf(w, fd), Queue(w, w.fdToUser[fd]);
    assert FdInv(w, fd);
    hide ConnectionsInv;
    PushFrame(w, fd, broken);
    if w.fdStatus[fd] && q != [] {
      SentFits(l, q);
    }
  }

  /** What a run of error events adds to the history of a user. */
  ghost function ErroredFor(es: seq<Event>, u: string): seq<NotificationRequest> {
    if es == [] then [] else
      (if es[0].Errored? && es[0].user == u then [es[0].request] else []) + ErroredFor(es[1..], u)
  }

  lemma AppendTwice(a: seq<NotificationRequest>, b: seq<NotificationRequest>, c: seq<NotificationRequest>)
    ensures a + b + c == a + (b + c)
  {
  }

  lemma {:induction false} ErrorsLog(log: seq<Event>, es: seq<Event>, i: nat, u: string)
    requires forall k :: 0 <= k < |es| ==> es[k].Errored?
    ensures HandledOn(log + es, i) == HandledOn(log, i)
    ensures Surviving(log + es, u) == Surviving(log, u)
    ensures Responded(log + es, u) == Responded(log, u) + ErroredFor(es, u)
    decreases |es|
  {
    hide HandledOn, Responded, Surviving;
    if es == [] {
      assert log + es == log;
    } else {
      assert log + es == (log + [es[0]]) + es[1..];
      OneMore(log, es[0], i, u);
      ErrorsLog(log + [es[0]], es[1..], i, u);
      var first := if es[0].user == u then [es[0].request] else [];
      assert ErroredFor(es, u) == first + ErroredFor(es[1..], u);
      hide ErroredFor;
      AppendTwice(Responded(log, u), first, ErroredFor(es[1..], u));
    }
  }

  lemma {:induction false} ErroredForConcat(a: seq<Event>, b: seq<Event>, u: string)
    ensures ErroredFor(a + b, u) == ErroredFor(a, u) + ErroredFor(b, u)
    decreases |a|
  {
    if a == [] {
      assert a + b == b;
    } else {
      assert (a + b)[1..] == a[1..] + b;
      ErroredForConcat(a[1..], b, u);
    }
  }

  lemma {:induction false} ErroredForQueue(v: string, q: seq<NotificationRequest>, u: string)
    ensures ErroredFor(QueueErrors(v, q), u) == if u == v then q else []
    decreases |q|
  {
    if q != [] {
      assert QueueErrors(v, q)[1..] == QueueErrors(v, q[1..]);
      ErroredForQueue(v, q[1..], u);
      assert q == [q[0]] + q[1..];
    }
  }

  lemma {:induction false} AllErrorsFor(w: World, users: seq<string>, u: string)
    requires forall i, j :: 0 <= i < j < |users| ==> users[i] != users[j]
    ensures ErroredFor(AllErrors(w, users), u) == if u in users then Queue(w, u) else []
    decreases |users|
  {
    if users == [] {
      return;
    }
    hide ErroredFor, QueueErrors;
    ErroredForConcat(QueueErrors(users[0], Queue(w, users[0])), AllErrors(w, users[1..]), u);
    ErroredForQueue(users[0], Queue(w, users[0]), u);
    AllErrorsFor(w, users[1..], u);
    assert u in users <==> u == users[0] || u in users[1..];
    assert u == users[0] ==> u !in users[1..];
  }

  lemma {:induction false} AllErrorsAre(w: World, users: seq<string>)
    ensures forall k :: 0 <= k < |AllErrors(w, users)| ==> AllErrors(w, users)[k].Errored?
    decreases |users|
  {
    if users != [] {
      AllErrorsAre(w, users[1..]);
    }
  }

  /** The errors sent when the loop fails, user by user: exactly the remaining queue. */
  lemma FailLog(w: World, i: nat, u: string)
    requires Wired(w)
    ensures HandledOn(Fail(w).log, i) == HandledOn(w.log, i)
    ensures Surviving(Fail(w).log, u) == Surviving(w.log, u)
    ensures Responded(Fail(w).log, u) == Responded(w.log, u) + Queue(w, u)
  {
    var users := Users(w.requests.Keys);
    StringOrder();
    AscendingSpec(StringLeq, w.requests.Keys);
    assert forall i, j :: 0 <= i < j < |users| ==> users[i] != users[j];
    assert u in users <==> u in w.requests;
    hide Users, Ascending, StringLeq, Wired, HandledOn, Surviving, Responded, AllErrors;
    AllErrorsFor(w, users, u);
    AllErrorsAre(w, users);
    ErrorsLog(w.log, AllErrors(w, users), i, u);
  }

  lemma FailInv(w: World)
    requires Inv(w)
    ensures Inv(Fail(w))
  {
    hide ConnectionsInv, Wired, HandledOn, AllErrors;
    var w' := Fail(w);
    OtherConnections(w, w');
    forall i: nat ensures HandledOn(w'.log, i) == HandledOn(w.log, i) {
      FailLog(w, i, "");
    }
  }

  lemma ClearInv(w: World)
    requires Inv(w)
    ensures Inv(Clear(w))
  {
    var w' := Clear(w);
    forall i | 0 <= i < |w.links| ensures Explained(w'.links[i]) {
      AnyExplained(w, i);
    }
    hide ConnectionsInv, Conserved, HandledOn;
    assert ConnectionsInv(w');
    SameHandledInv(w, w');
    SameConservedInv(w, w');
  }

  /** Open or closed, a connection is explained, and stays so when it is closed. */
  lemma AnyExplained(w: World, i: nat)
    requires Wired(w) && ConnectionsInv(w) && i < |w.links|
    ensures Explained(w.links[i]) && Explained(L.Close(w.links[i]))
  {
    hide L.LinkInv;
    if w.links[i].open {
      var fd :| fd in w.handles && w.handles[fd] == i;
      assert FdInv(w, fd);
      ClosedExplained(w.links[i], Queue(w, w.fdToUser[fd]), w.fdStatus[fd]);
    } else {
      var standing :| L.LinkInv(w.links[i], standing);
      L.EndInv(w.links[i], standing);
    }
  }

  /** A move of the popup that keeps the connection explained, whatever is standing. */
  lemma PopupMoveInv(w: World, i: nat, l: L.Link)
    requires Inv(w) && i < |w.links|
    requires l.open == w.links[i].open && l.user == w.links[i].user
    requires l.handled == w.links[i].handled && l.last == w.links[i].last
    requires forall standing :: L.LinkInv(w.links[i], standing) ==> L.LinkInv(l, standing)
    ensures Inv(PopupMove(w, i, l))
  {
    hide ConnectionsInv, Wired, L.LinkInv, HandledOn, Conserved;
    var w' := PopupMove(w, i, l);
    PopupConnections(w, i, l);
    SameHandledInv(w, w');
    SameConservedInv(w, w');
  }

  lemma PopupConnections(w: World, i: nat, l: L.Link)
    requires Wired(w) && ConnectionsInv(w) && i < |w.links|
    requires l.open == w.links[i].open && l.user == w.links[i].user && l.last == w.links[i].last
    requires forall standing :: L.LinkInv(w.links[i], standing) ==> L.LinkInv(l, standing)
    ensures ConnectionsInv(PopupMove(w, i, l))
  {
    hide L.LinkInv;
    var w' := PopupMove(w, i, l);
    if l.open {
      var fd :| fd in w.handles && w.handles[fd] == i;
      assert FdInv(w, fd);
      PopupOnly(w, fd, l);
      assert L.LinkInv(l, Standing(w, fd));
      assert FdInv(w', fd);
      hide Wired, Names, OnlyOf, FdInv, Explained, ConnectionsInv;
      OnlyOfConnections(w, w', fd);
    } else {
      forall fd | fd in w.fdToUser ensures FdInv(w', fd) {
        Known(w, fd);
        assert FdInv(w, fd);
        hide Wired, Names;
        SameFdInv(w, w', fd);
      }
      var standing :| L.LinkInv(w.links[i], standing);
      assert L.LinkInv(l, standing);
    }
  }

  lemma PopupStepInv(w: World, a: Label)
    requires Inv(w) && Enabled(w, a)
    requires a.PopupReads? || a.PopupAnswers? || a.PopupSeesEnd? || a.PopupDies?
    ensures Inv(Next(w, a))
  {
    hide L.LinkInv, Inv, Wired;
    var l := w.links[a.i];
    match a {
      case PopupReads(i) =>
        forall s | L.LinkInv(l, s) ensures L.LinkInv(L.Receive(l), s) { L.ReceiveInv(l, s); }
        PopupMoveInv(w, i, L.Receive(l));
      case PopupAnswers(i, answer) =>
        forall s | L.LinkInv(l, s) ensures L.LinkInv(L.Answer(l, answer), s) { L.AnswerInv(l, answer, s); }
        PopupMoveInv(w, i, L.Answer(l, answer));
      case PopupSeesEnd(i) =>
        forall s | L.LinkInv(l, s) ensures L.LinkInv(L.EndOfStream(l), s) { L.EndInv(l, s); }
        PopupMoveInv(w, i, L.EndOfStream(l));
      case PopupDies(i) =>
        forall s | L.LinkInv(l, s) ensures L.LinkInv(L.Kill(l), s) { L.EndInv(l, s); }
        PopupMoveInv(w, i, L.Kill(l));
    }
  }

  /** Every step of the daemon and of every popup keeps the joint invariant. */
  lemma NextInv(w: World, a: Label)
    requires Inv(w) && Enabled(w, a)
    ensures Inv(Next(w, a))
  {
    match a {
      case Add(r) => AddInv(w, r);
      case Cancel(id, broken) => RemoveFromInv(w, Users(w.requests.Keys), id, broken);
      case Connection(u, fd) => ConnectInv(w, u, fd);
      case Response(fd, broken) =>
        var q := Queue(w, w.fdToUser[fd]);
        if q == [] || q[0].id != LinkOf(w, fd).toDaemon[0].id {
          StaleResponseInv(w, fd, broken);
        } else {
          MatchedResponseInv(w, fd, broken);
        }
      case Gone(fd) => RemoveInv(w, fd);
      case Hand(fd, broken) => PushInv(w, fd, broken);
      case LoopFails => FailInv(w);
      case Shutdown => ClearInv(w);
      case _ => PopupStepInv(w, a);
    }
    hide Inv, Wired;
  }
}
