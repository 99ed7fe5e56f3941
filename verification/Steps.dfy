/** What each step does to each connection: one of a handful of moves, or nothing. */
module Steps {
  import opened Types
  import opened Ordering
  import opened World
  import opened Frames
  import opened Cancel
  import L = Link

  datatype Move =
    | Stay
    | Closes
    | Reads
    | Answers(answer: NResponseType)
    | SeesEnd
    | Dies
    | Sends(request: NotificationRequest)
    | Dismisses(request: NotificationRequest)
    | Takes
    | Accepts(request: NotificationRequest)
    | AcceptsAndCloses(request: NotificationRequest)

  /** Whether a connection can make the move. */
  predicate Can(l: L.Link, m: Move) {
    match m
    case Reads => l.toPopup != [] && !l.popup.Dead?
    case Answers(a) => l.popup.Asking? && a != NoAnswer
    case SeesEnd => !l.open && !l.popup.Dead? && l.toPopup == []
    case Closes => l.open
    case Sends(_) => l.open
    case Dismisses(_) => l.open
    case Takes => l.open && l.toDaemon != []
    case Accepts(r) => l.open && l.toDaemon != [] && l.toDaemon[0].id == r.id
    case AcceptsAndCloses(r) => l.open && l.toDaemon != [] && l.toDaemon[0].id == r.id
    case _ => true
  }

  function After(l: L.Link, m: Move): L.Link
    requires Can(l, m)
  {
    match m
    case Stay => l
    case Closes => L.Close(l)
    case Reads => L.Receive(l)
    case Answers(a) => L.Answer(l, a)
    case SeesEnd => L.EndOfStream(l)
    case Dies => L.Kill(l)
    case Sends(r) => L.SendFrame(l, r)
    case Dismisses(r) => L.SendDismiss(l, r)
    case Takes => L.TakeResponse(l)
    case Accepts(r) => L.SendAck(HandedOn(l, r))
    case AcceptsAndCloses(r) => L.Close(HandedOn(l, r))
  }

  function HandedOn(l: L.Link, r: NotificationRequest): L.Link
    requires l.toDaemon != []
  {
    L.Accept(L.TakeResponse(l), r, l.toDaemon[0].response)
  }

  /** Descriptor `fd` is registered for connection `i`. */
  ghost predicate About(w: World, fd: int, i: nat)
    requires Wired(w)
  {
    fd in w.fdToUser && w.handles[fd] == i
  }

  lemma OpenUser(w: World, i: nat)
    requires Wired(w) && i < |w.links| && w.links[i].open
    ensures var u := w.links[i].user; u in w.userToFd && About(w, w.userToFd[u], i)
  {
    var fd :| fd in w.handles && w.handles[fd] == i;
    Known(w, fd);
  }

  ghost function MoveOf(w: World, a: Label, i: nat): Move
    requires Wired(w) && Enabled(w, a) && i < |w.links|
  {
    if PopupLabel(a) then
      if a.i == i then PopupMoveOf(a) else Stay
    else if !w.links[i].open then Stay
    else
      OpenUser(w, i);
      DaemonMoveOf(w, a, w.userToFd[w.links[i].user])
  }

  function PopupMoveOf(a: Label): Move
    requires PopupLabel(a)
  {
    match a
    case PopupReads(_) => Reads
    case PopupAnswers(_, answer) => Answers(answer)
    case PopupSeesEnd(_) => SeesEnd
    case _ => Dies
  }

  /** What a step of the daemon does on a registered connection. */
  ghost function DaemonMoveOf(w: World, a: Label, fd: int): Move
    requires Wired(w) && Enabled(w, a) && !PopupLabel(a) && fd in w.fdToUser
  {
    var u, q := w.fdToUser[fd], Queue(w, w.fdToUser[fd]);
    match a
    case Cancel(id, broken) =>
      if Reached(w, u, id) && HeadIs(w, u, id) && !w.fdStatus[fd] then
        if fd in broken then Closes else Dismisses(q[0])
      else Stay
    case Connection(v, _) => if u == v then Closes else Stay
    case Response(d, broken) =>
      if d != fd then Stay
      else if q == [] || q[0].id != LinkOf(w, fd).toDaemon[0].id then Takes
      else if fd in broken then AcceptsAndCloses(q[0])
      else Accepts(q[0])
    case Gone(d) => if d == fd then Closes else Stay
    case Hand(d, broken) =>
      if d != fd || !w.fdStatus[fd] || q == [] then Stay
      else if fd in broken then Closes
      else Sends(q[0])
    case Shutdown => Closes
    case _ => Stay
  }

  predicate PopupLabel(a: Label) {
    a.PopupReads? || a.PopupAnswers? || a.PopupSeesEnd? || a.PopupDies?
  }

  /** A step takes connection `i` through a move. */
  ghost predicate Makes(w: World, w': World, i: nat, m: Move)
    requires i < |w.links|
  {
    i < |w'.links| && Can(w.links[i], m) && w'.links[i] == After(w.links[i], m)
  }

  /** Every step makes exactly this move on every connection there is. */
  lemma NextLink(w: World, a: Label, i: nat)
    requires Wired(w) && Enabled(w, a) && i < |w.links|
    ensures Makes(w, Next(w, a), i, MoveOf(w, a, i))
  {
    hide Wired, Next, Enabled, After, DaemonMoveOf;
    if PopupLabel(a) {
      PopupLink(w, a, i);
    } else if w.links[i].open {
      OpenUser(w, i);
      OpenLink(w, a, w.userToFd[w.links[i].user], i);
    } else {
      ClosedLink(w, a, i);
    }
  }

  lemma PopupLink(w: World, a: Label, i: nat)
    requires Wired(w) && Enabled(w, a) && i < |w.links| && PopupLabel(a)
    ensures Makes(w, Next(w, a), i, if a.i == i then PopupMoveOf(a) else Stay)
  {
    hide Wired, L.Receive, L.Answer, L.EndOfStream, L.Kill;
  }

  /** Steps of the daemon leave a closed connection alone. */
  lemma ClosedLink(w: World, a: Label, i: nat)
    requires Wired(w) && Enabled(w, a) && i < |w.links| && !PopupLabel(a) && !w.links[i].open
    ensures Makes(w, Next(w, a), i, Stay)
  {
    match a {
      case Cancel(id, broken) => CancelLeavesClosed(w, id, broken, i);
      case Connection(u, fd) => ConnectLeavesClosed(w, u, fd, i);
      case Response(fd, broken) => Known(w, fd); ReceiveOnly(w, fd, broken);
      case Gone(fd) => Known(w, fd);
      case Hand(fd, broken) => Known(w, fd); PushOnly(w, fd, broken);
      case _ => hide AllErrors;
    }
    hide Wired, Enabled, RemoveRequest, Connect, Receive, Push, Untouched, After;
    assert i < |Next(w, a).links| && Next(w, a).links[i] == w.links[i];
    hide Next;
    StayLink(w, Next(w, a), i);
  }

  lemma ConnectLeavesClosed(w: World, u: string, fd: int, i: nat)
    requires Wired(w) && fd !in w.fdToUser && i < |w.links| && !w.links[i].open
    ensures i < |Connect(w, u, fd).links| && Connect(w, u, fd).links[i] == w.links[i]
  {
    ConnectFrame(w, u, fd);
    if u in w.userToFd {
      Known(w, w.userToFd[u]);
    }
    hide Connect, Wired, L.Close, L.Fresh;
  }

  lemma OpenLink(w: World, a: Label, fd: int, i: nat)
    requires Wired(w) && Enabled(w, a) && !PopupLabel(a) && i < |w.links| && About(w, fd, i)
    ensures Makes(w, Next(w, a), i, DaemonMoveOf(w, a, fd))
  {
    match a {
      case Cancel(id, broken) => CancelLink(w, id, broken, fd, i);
      case Connection(u, d) => ConnectLink(w, u, d, fd, i);
      case Response(d, broken) => ResponseLink(w, d, broken, fd, i);
      case Gone(d) => GoneLink(w, d, fd, i);
      case Hand(d, broken) => HandLink(w, d, broken, fd, i);
      case _ => PlainLink(w, a, fd, i);
    }
    hide *;
  }

  lemma PlainLink(w: World, a: Label, fd: int, i: nat)
    requires Wired(w) && Enabled(w, a) && i < |w.links| && About(w, fd, i)
    requires a.Add? || a.LoopFails? || a.Shutdown?
    ensures Makes(w, Next(w, a), i, DaemonMoveOf(w, a, fd))
  {
    hide Wired, AllErrors, L.Close;
    Known(w, fd);
  }

  lemma CancelLink(w: World, id: RequestId, broken: set<int>, fd: int, i: nat)
    requires Wired(w) && i < |w.links| && About(w, fd, i)
    ensures Makes(w, Next(w, Cancel(id, broken)), i, DaemonMoveOf(w, Cancel(id, broken), fd))
  {
    hide Wired, RemoveRequest, Reached, L.Close, L.SendDismiss;
    Known(w, fd);
    var u, l, m := w.fdToUser[fd], LinkOf(w, fd), DaemonMoveOf(w, Cancel(id, broken), fd);
    var withdrawn := Reached(w, u, id) && HeadIs(w, u, id);
    assert Next(w, Cancel(id, broken)) == RemoveRequest(w, id, broken);
    assert withdrawn ==> Queue(w, u) != [];
    assert Can(l, m) && After(l, m) == if !withdrawn || w.fdStatus[fd] then l
                                       else if fd in broken then L.Close(l)
                                       else L.SendDismiss(l, Queue(w, u)[0]);
    hide Next, DaemonMoveOf, HeadIs, Queue, Can, After;
    CancelDismissesBusyHead(w, id, broken, fd);
  }

  lemma ConnectLink(w: World, u: string, d: int, fd: int, i: nat)
    requires Wired(w) && Enabled(w, Connection(u, d)) && i < |w.links| && About(w, fd, i)
    ensures Makes(w, Next(w, Connection(u, d)), i, DaemonMoveOf(w, Connection(u, d), fd))
  {
    ConnectFrame(w, u, d);
    Known(w, fd);
    if u in w.userToFd {
      Known(w, w.userToFd[u]);
      assert w.handles[w.userToFd[u]] == i ==> w.userToFd[u] == fd;
    }
    hide Wired, Connect, L.Close, L.Fresh;
  }

  lemma ResponseLink(w: World, d: int, broken: set<int>, fd: int, i: nat)
    requires Wired(w) && Enabled(w, Response(d, broken)) && i < |w.links| && About(w, fd, i)
    ensures Makes(w, Next(w, Response(d, broken)), i, DaemonMoveOf(w, Response(d, broken), fd))
  {
    Known(w, fd);
    ReceiveOnly(w, d, broken);
    if d == fd {
      OwnResponseLink(w, broken, fd, i);
    } else {
      assert w.handles[d] != i;
      hide Receive, Wired, Untouched, LinkOf, Queue, After;
      assert Receive(w, d, broken).links[i] == w.links[i];
      StayLink(w, Receive(w, d, broken), i);
    }
    hide *;
  }

  lemma StayLink(w: World, w': World, i: nat)
    requires i < |w.links| && i < |w'.links| && w'.links[i] == w.links[i]
    ensures Makes(w, w', i, Stay)
  {
  }

  lemma OwnResponseLink(w: World, broken: set<int>, fd: int, i: nat)
    requires Wired(w) && Enabled(w, Response(fd, broken)) && i < |w.links| && About(w, fd, i)
    ensures Makes(w, Next(w, Response(fd, broken)), i, DaemonMoveOf(w, Response(fd, broken), fd))
  {
    hide Wired, Receive, L.TakeResponse, L.Close, L.SendAck, L.Accept;
    Known(w, fd);
    var q, l := Queue(w, w.fdToUser[fd]), LinkOf(w, fd);
    var m := DaemonMoveOf(w, Response(fd, broken), fd);
    assert Next(w, Response(fd, broken)) == Receive(w, fd, broken);
    assert Can(l, m);
    if q == [] || q[0].id != l.toDaemon[0].id {
      assert After(l, m) == L.TakeResponse(l);
      hide Next, DaemonMoveOf, Enabled, Can, After;
      StaleFrame(w, fd, broken);
    } else {
      assert After(l, m) == if fd in broken then L.Close(Accepting(w, fd)) else L.SendAck(Accepting(w, fd));
      hide Next, DaemonMoveOf, Enabled, Can, After, Accepting;
      MatchedFrame(w, fd, broken);
    }
  }

  lemma GoneLink(w: World, d: int, fd: int, i: nat)
    requires Wired(w) && Enabled(w, Gone(d)) && i < |w.links| && About(w, fd, i)
    ensures Makes(w, Next(w, Gone(d)), i, DaemonMoveOf(w, Gone(d), fd))
  {
    hide Wired, L.Close;
    Known(w, fd);
    Known(w, d);
    assert w.handles[d] == i ==> d == fd;
  }

  lemma HandLink(w: World, d: int, broken: set<int>, fd: int, i: nat)
    requires Wired(w) && Enabled(w, Hand(d, broken)) && i < |w.links| && About(w, fd, i)
    ensures Makes(w, Next(w, Hand(d, broken)), i, DaemonMoveOf(w, Hand(d, broken), fd))
  {
    hide Push, Untouched, L.Close, L.SendFrame;
    Known(w, fd);
    assert d != fd ==> w.handles[d] != i;
    hide Wired;
    var q, l, m := Queue(w, w.fdToUser[fd]), LinkOf(w, fd), DaemonMoveOf(w, Hand(d, broken), fd);
    assert Next(w, Hand(d, broken)) == Push(w, d, broken);
    assert Can(l, m) && After(l, m) == if d != fd || !w.fdStatus[fd] || q == [] then l
                                       else if fd in broken then L.Close(l) else L.SendFrame(l, q[0]);
    hide Next, DaemonMoveOf, Can, After;
    if d == fd {
      PushFrame(w, fd, broken);
    } else {
      PushOnly(w, d, broken);
    }
  }

  /** Connections only ever come into being fresh, one at a time. */
  lemma NextFresh(w: World, a: Label, i: nat)
    requires Wired(w) && Enabled(w, a) && |w.links| <= i < |Next(w, a).links|
    ensures a.Connection? && i == |w.links| && Next(w, a).links[i] == L.Fresh(a.user)
  {
    hide RemoveFrom, Connect, Receive, Push, AllErrors, Untouched, L.Close, L.Fresh;
    match a {
      case Cancel(id, broken) => RemoveFromCount(w, Users(w.requests.Keys), id, broken);
      case Connection(u, fd) => ConnectFrame(w, u, fd);
      case Response(fd, broken) => ReceiveOnly(w, fd, broken);
      case Hand(fd, broken) => PushOnly(w, fd, broken);
      case _ =>
    }
  }

  lemma {:induction false} RemoveFromCount(w: World, users: seq<string>, id: RequestId, broken: set<int>)
    requires Wired(w)
    ensures |RemoveFrom(w, users, id, broken).links| == |w.links|
    decreases |users|
  {
    if users != [] && Holds(w, users[0], id) {
      WithdrawFrame(w, users[0], id, broken);
      hide Withdraw, Wired;
      RemoveFromCount(Withdraw(w, users[0], id, broken), users[1..], id, broken);
    }
  }
}
