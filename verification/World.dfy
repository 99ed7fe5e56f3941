/** NotificationTalker's state, the sockets it talks over and the popups at their other ends, as
    one value; every critical section of the daemon and every move of a popup is a function on it. */
module World {
  import opened Types
  import opened Ordering
  import L = Link

  datatype Event =
    | Accepted(request: NotificationRequest)
    | Removed(user: string, request: NotificationRequest)
    | Answered(link: nat, user: string, request: NotificationRequest, answer: NResponseType)
    | Errored(user: string, request: NotificationRequest)

  datatype World = World(
    requests: map<string, seq<NotificationRequest>>,
    userToFd: map<string, int>,
    fdToUser: map<int, string>,
    fdStatus: map<int, bool>,       // true: nothing is outstanding on the connection
    handles: map<int, nat>,         // the kernel's descriptor table: which connection a descriptor names
    links: seq<L.Link>,             // every connection ever accepted
    log: seq<Event>,                // history: what the daemon did with requests, in order
    failed: bool)

  ghost function Initial(): World {
    World(map[], map[], map[], map[], map[], [], [], false)
  }

  // ---- The three connection maps and the descriptor table -----------------------------------

  /** user-to-fd and fd-to-user are inverse bijections, the status map and the descriptor table
      have exactly the same descriptors, and a descriptor names the open connection of its user. */
  ghost predicate Wired(w: World) {
    && (forall u :: u in w.userToFd ==> w.userToFd[u] in w.fdToUser && w.fdToUser[w.userToFd[u]] == u)
    && (forall fd :: fd in w.fdToUser ==> w.fdToUser[fd] in w.userToFd && w.userToFd[w.fdToUser[fd]] == fd)
    && w.fdStatus.Keys == w.fdToUser.Keys
    && w.handles.Keys == w.fdToUser.Keys
    && (forall fd :: fd in w.handles ==> Names(w, fd))
    && (forall fd, gd :: fd in w.handles && gd in w.handles && w.handles[fd] == w.handles[gd] ==> fd == gd)
    && (forall i :: 0 <= i < |w.links| && w.links[i].open ==> exists fd :: fd in w.handles && w.handles[fd] == i)
  }

  ghost predicate Names(w: World, fd: int)
    requires fd in w.handles && fd in w.fdToUser
  {
    && w.handles[fd] < |w.links|
    && w.links[w.handles[fd]].open
    && w.links[w.handles[fd]].user == w.fdToUser[fd]
  }

  /** A step that leaves the wiring alone: the same descriptors for the same users and connections. */
  lemma Rewired(w: World, w': World)
    requires Wired(w)
    requires w'.userToFd == w.userToFd && w'.fdToUser == w.fdToUser && w'.handles == w.handles
    requires w'.fdStatus.Keys == w.fdStatus.Keys && |w'.links| == |w.links|
    requires forall i :: (0 <= i < |w.links| ==>
                            w'.links[i].open == w.links[i].open && w'.links[i].user == w.links[i].user)
    ensures Wired(w')
  {
    forall fd | fd in w'.handles ensures Names(w', fd) {
      assert Names(w, fd);
    }
  }

  /** What is known of a registered descriptor. */
  lemma Known(w: World, fd: int)
    requires Wired(w) && fd in w.fdToUser
    ensures fd in w.fdStatus && fd in w.handles && w.handles[fd] < |w.links|
    ensures w.links[w.handles[fd]].open && w.links[w.handles[fd]].user == w.fdToUser[fd]
    ensures w.fdToUser[fd] in w.userToFd && w.userToFd[w.fdToUser[fd]] == fd
  {
    assert Names(w, fd);
  }

  ghost function LinkOf(w: World, fd: int): L.Link
    requires Wired(w) && fd in w.handles
  {
    w.links[w.handles[fd]]
  }

  ghost function SetLink(w: World, fd: int, l: L.Link): (w': World)
    requires Wired(w) && fd in w.handles
    requires l.open && l.user == LinkOf(w, fd).user
    ensures Wired(w')
  {
    var w' := w.(links := w.links[w.handles[fd] := l]);
    Rewired(w, w');
    w'
  }

  ghost function SetStatus(w: World, fd: int, free: bool): (w': World)
    requires Wired(w) && fd in w.handles
    ensures Wired(w')
  {
    var w' := w.(fdStatus := w.fdStatus[fd := free]);
    Rewired(w, w');
    w'
  }

  // ---- Queues -------------------------------------------------------------------------------

  function Queue(w: World, u: string): seq<NotificationRequest> {
    if u in w.requests then w.requests[u] else []
  }

  ghost function SetQueue(w: World, u: string, q: seq<NotificationRequest>): (w': World)
    ensures Wired(w) ==> Wired(w')
  {
    var w' := w.(requests := w.requests[u := q]);
    assert Wired(w) ==> Wired(w') by {
      if Wired(w) {
        Rewired(w, w');
      }
    }
    w'
  }

  ghost function Log(w: World, e: Event): (w': World)
    ensures Wired(w) ==> Wired(w')
  {
    var w' := w.(log := w.log + [e]);
    assert Wired(w) ==> Wired(w') by {
      if Wired(w) {
        Rewired(w, w');
      }
    }
    w'
  }

  /** `std::find_if` by id: the first position, or the length. */
  function IndexOf(q: seq<NotificationRequest>, id: RequestId): (k: nat)
    ensures k <= |q| && (k < |q| ==> q[k].id == id)
    ensures forall j :: 0 <= j < k ==> q[j].id != id
  {
    if q == [] || q[0].id == id then 0 else 1 + IndexOf(q[1..], id)
  }

  // ---- The daemon's critical sections -------------------------------------------------------

  ghost function AddRequest(w: World, r: NotificationRequest): (w': World)
    requires Wired(w)
    ensures Wired(w')
  {
    var q := Queue(w, r.data.user);
    if IndexOf(q, r.id) == |q| then Log(SetQueue(w, r.data.user, q + [r]), Accepted(r))
    else SetQueue(w, r.data.user, q)
  }

  /** `remove`: the descriptor is closed and forgotten. */
  ghost function Remove(w: World, fd: int): (w': World)
    requires Wired(w) && fd in w.fdToUser
    ensures Wired(w')
  {
    var w' := w.(
      userToFd := w.userToFd - {w.fdToUser[fd]},
      fdToUser := w.fdToUser - {fd},
      fdStatus := w.fdStatus - {fd},
      handles := w.handles - {fd},
      links := w.links[w.handles[fd] := L.Close(LinkOf(w, fd))]);
    RemoveWired(w, fd, w');
    w'
  }

  lemma RemoveWired(w: World, fd: int, w': World)
    requires Wired(w) && fd in w.fdToUser
    requires w'.userToFd == w.userToFd - {w.fdToUser[fd]} && w'.fdToUser == w.fdToUser - {fd}
    requires w'.fdStatus == w.fdStatus - {fd} && w'.handles == w.handles - {fd}
    requires w'.links == w.links[w.handles[fd] := L.Close(LinkOf(w, fd))]
    ensures Wired(w')
  {
    forall gd | gd in w'.handles ensures Names(w', gd) {
      assert Names(w, gd);
    }
    forall i | 0 <= i < |w'.links| && w'.links[i].open
      ensures exists gd :: gd in w'.handles && w'.handles[gd] == i
    {
      assert i != w.handles[fd] && w.links[i].open;
      var gd :| gd in w.handles && w.handles[gd] == i;
      assert gd in w'.handles;
    }
  }

  /** Sends to descriptors in `broken` fail. */
  ghost function SendDismiss(w: World, fd: int, r: NotificationRequest, broken: set<int>): (w': World)
    requires Wired(w) && fd in w.fdToUser
    ensures Wired(w')
  {
    if w.fdStatus[fd] then w
    else if fd in broken then Remove(w, fd)
    else SetStatus(SetLink(w, fd, L.SendDismiss(LinkOf(w, fd), r)), fd, true)
  }

  /** One pass of `removeRequest`'s loop over a queue that holds the id. */
  ghost function Withdraw(w: World, u: string, id: RequestId, broken: set<int>): (w': World)
    requires Wired(w) && IndexOf(Queue(w, u), id) < |Queue(w, u)|
    ensures Wired(w')
  {
    var q := Queue(w, u);
    var k := IndexOf(q, id);
    var w1 := if k == 0 && u in w.userToFd then SendDismiss(w, w.userToFd[u], q[0], broken) else w;
    Log(SetQueue(w1, u, q[..k] + q[k + 1..]), Removed(u, q[k]))
  }

  /** The loop stops at the first user whose queue lacks the id. */
  ghost function RemoveFrom(w: World, users: seq<string>, id: RequestId, broken: set<int>): (w': World)
    requires Wired(w)
    ensures Wired(w')
    decreases |users|
  {
    if users == [] || IndexOf(Queue(w, users[0]), id) == |Queue(w, users[0])| then w
    else RemoveFrom(Withdraw(w, users[0], id, broken), users[1..], id, broken)
  }

  ghost function RemoveRequest(w: World, id: RequestId, broken: set<int>): (w': World)
    requires Wired(w)
    ensures Wired(w')
  {
    RemoveFrom(w, Users(w.requests.Keys), id, broken)
  }

  ghost function SendRequest(w: World, fd: int, r: NotificationRequest, broken: set<int>): (w': World)
    requires Wired(w) && fd in w.fdToUser
    ensures Wired(w')
  {
    if fd in broken then Remove(SetStatus(w, fd, false), fd)
    else SetLink(SetStatus(w, fd, false), fd, L.SendFrame(LinkOf(w, fd), r))
  }

  ghost function ParseResponse(w: World, response: NotificationResponse, fd: int, broken: set<int>): (w': World)
    requires Wired(w) && fd in w.fdToUser
    ensures Wired(w')
  {
    var u := w.fdToUser[fd];
    var q := Queue(w, u);
    if q == [] || q[0].id != response.id then SetStatus(SetQueue(w, u, q), fd, true)
    else
      var w1 := Log(SetQueue(w, u, q[1..]), Answered(w.handles[fd], u, q[0], response.response));
      var l := L.Accept(LinkOf(w, fd), q[0], response.response);
      if fd in broken then Remove(SetLink(w1, fd, l), fd)
      else SetStatus(SetLink(w1, fd, L.SendAck(l)), fd, true)
  }

  /** A response is read off the socket and parsed. */
  ghost function Receive(w: World, fd: int, broken: set<int>): (w': World)
    requires Wired(w) && fd in w.fdToUser && LinkOf(w, fd).toDaemon != []
    ensures Wired(w')
  {
    var l := LinkOf(w, fd);
    ParseResponse(SetLink(w, fd, L.TakeResponse(l)), l.toDaemon[0], fd, broken)
  }

  /** `accept` returned a descriptor that was not in use; an older connection of the user goes. */
  ghost function Connect(w: World, u: string, fd: int): (w': World)
    requires Wired(w) && fd !in w.fdToUser
    ensures Wired(w')
  {
    var w1 := if u in w.userToFd then Remove(w, w.userToFd[u]) else w;
    var w' := w1.(
      userToFd := w1.userToFd[u := fd],
      fdToUser := w1.fdToUser[fd := u],
      fdStatus := w1.fdStatus[fd := true],
      handles := w1.handles[fd := |w1.links|],
      links := w1.links + [L.Fresh(u)]);
    ConnectWired(w1, u, fd, w');
    w'
  }

  lemma ConnectWired(w: World, u: string, fd: int, w': World)
    requires Wired(w) && fd !in w.fdToUser && u !in w.userToFd
    requires w'.userToFd == w.userToFd[u := fd] && w'.fdToUser == w.fdToUser[fd := u]
    requires w'.fdStatus == w.fdStatus[fd := true] && w'.handles == w.handles[fd := |w.links|]
    requires w'.links == w.links + [L.Fresh(u)]
    ensures Wired(w')
  {
    forall gd | gd in w'.handles ensures gd in w'.fdToUser && Names(w', gd) {
      assert gd != fd ==> Names(w, gd);
    }
    forall i | 0 <= i < |w'.links| && w'.links[i].open
      ensures exists gd :: gd in w'.handles && w'.handles[gd] == i
    {
      ConnectNames(w, fd, w', i);
    }
    hide Names;
  }

  lemma ConnectNames(w: World, fd: int, w': World, i: nat)
    requires Wired(w) && fd !in w.handles && i < |w'.links| == |w.links| + 1
    requires w'.handles == w.handles[fd := |w.links|]
    requires i < |w.links| ==> w.links[i].open
    ensures exists gd :: gd in w'.handles && w'.handles[gd] == i
  {
    if i < |w.links| {
      var gd :| gd in w.handles && w.handles[gd] == i;
      assert w'.handles[gd] == i;
    } else {
      assert w'.handles[fd] == i;
    }
  }

  /** One pass of the loop that hands a free connection the head of its user's queue. */
  ghost function Push(w: World, fd: int, broken: set<int>): (w': World)
    requires Wired(w) && fd in w.fdToUser
    ensures Wired(w')
  {
    var u := w.fdToUser[fd];
    var q := Queue(w, u);
    var w1 := SetQueue(w, u, q);
    if w.fdStatus[fd] && q != [] then SendRequest(w1, fd, q[0], broken) else w1
  }

  function QueueErrors(u: string, q: seq<NotificationRequest>): seq<Event> {
    seq(|q|, i requires 0 <= i < |q| => Errored(u, q[i]))
  }

  function AllErrors(w: World, users: seq<string>): seq<Event> {
    if users == [] then [] else QueueErrors(users[0], Queue(w, users[0])) + AllErrors(w, users[1..])
  }

  /** The loop ended by an exception: every request still queued is answered with an error. */
  ghost function Fail(w: World): (w': World)
    requires Wired(w)
    ensures Wired(w')
  {
    var w' := w.(log := w.log + AllErrors(w, Users(w.requests.Keys)), failed := true);
    Rewired(w, w');
    w'
  }

  /** `clear`: every descriptor is closed. */
  ghost function Clear(w: World): (w': World)
    ensures Wired(w')
  {
    w.(userToFd := map[], fdToUser := map[], fdStatus := map[], handles := map[],
       links := seq(|w.links|, i requires 0 <= i < |w.links| =>
         if w.links[i].open then L.Close(w.links[i]) else w.links[i]))
  }

  // ---- The step relation --------------------------------------------------------------------

  datatype Label =
    | Add(request: NotificationRequest)
    | Cancel(id: RequestId, broken: set<int>)
    | Connection(user: string, fd: int)
    | Response(fd: int, broken: set<int>)
    | Gone(fd: int)
    | Hand(fd: int, broken: set<int>)
    | LoopFails
    | Shutdown
    | PopupReads(i: nat)
    | PopupAnswers(i: nat, answer: NResponseType)
    | PopupSeesEnd(i: nat)
    | PopupDies(i: nat)

  /** The popup is gone and everything it sent has been read: the next read meets the end. */
  predicate AtEnd(l: L.Link) {
    l.popup.Dead? && l.toDaemon == []
  }

  /** When a step can happen. Cancels come from the agent's thread and go on after a failure. Either
      side meets the end of the stream only when there is nothing left to read. */
  ghost predicate Enabled(w: World, a: Label)
    requires Wired(w)
  {
    match a
    case Add(_) => !w.failed
    case Cancel(_, _) => true
    case Connection(_, fd) => !w.failed && fd !in w.fdToUser
    case Response(fd, _) => !w.failed && fd in w.fdToUser && LinkOf(w, fd).toDaemon != []
    case Gone(fd) => !w.failed && fd in w.fdToUser && AtEnd(LinkOf(w, fd))
    case Hand(fd, _) => !w.failed && fd in w.fdToUser
    case LoopFails => !w.failed
    case Shutdown => true
    case PopupReads(i) => i < |w.links| && w.links[i].toPopup != [] && !w.links[i].popup.Dead?
    case PopupAnswers(i, answer) => i < |w.links| && w.links[i].popup.Asking? && answer != NoAnswer
    case PopupSeesEnd(i) =>
      i < |w.links| && !w.links[i].open && !w.links[i].popup.Dead? && w.links[i].toPopup == []
    case PopupDies(i) => i < |w.links|
  }

  /** A popup's move changes its own connection only. */
  ghost function PopupMove(w: World, i: nat, l: L.Link): (w': World)
    requires Wired(w) && i < |w.links|
    requires l.open == w.links[i].open && l.user == w.links[i].user
    ensures Wired(w')
  {
    var w' := w.(links := w.links[i := l]);
    Rewired(w, w');
    w'
  }

  ghost function Next(w: World, a: Label): (w': World)
    requires Wired(w) && Enabled(w, a)
    ensures Wired(w')
  {
    match a
    case Add(r) => AddRequest(w, r)
    case Cancel(id, broken) => RemoveRequest(w, id, broken)
    case Connection(u, fd) => Connect(w, u, fd)
    case Response(fd, broken) => Receive(w, fd, broken)
    case Gone(fd) => Remove(w, fd)
    case Hand(fd, broken) => Push(w, fd, broken)
    case LoopFails => Fail(w)
    case Shutdown => Clear(w)
    case PopupReads(i) => PopupMove(w, i, L.Receive(w.links[i]))
    case PopupAnswers(i, answer) => PopupMove(w, i, L.Answer(w.links[i], answer))
    case PopupSeesEnd(i) => PopupMove(w, i, L.EndOfStream(w.links[i]))
    case PopupDies(i) => PopupMove(w, i, L.Kill(w.links[i]))
  }

  ghost predicate Run(w: World, labels: seq<Label>, w': World)
    requires Wired(w)
    decreases |labels|
  {
    if labels == [] then w' == w
    else Enabled(w, labels[0]) && Run(Next(w, labels[0]), labels[1..], w')
  }

  lemma RunOne(w: World, a: Label)
    requires Wired(w) && Enabled(w, a)
    ensures Run(w, [a], Next(w, a))
  {
    hide Next, Enabled, Wired;
    assert Run(Next(w, a), [], Next(w, a));
  }

  lemma {:induction false} RunWired(w: World, labels: seq<Label>, w': World)
    requires Wired(w) && Run(w, labels, w')
    ensures Wired(w')
    decreases |labels|
  {
    hide Next, Enabled;
    if labels != [] {
      RunWired(Next(w, labels[0]), labels[1..], w');
    }
  }

  ghost predicate Reachable(w: World)
    ensures Reachable(w) ==> Wired(w)
  {
    assert Wired(Initial());
    assert forall labels :: Run(Initial(), labels, w) ==> Wired(w) by {
      forall labels | Run(Initial(), labels, w) ensures Wired(w) {
        RunWired(Initial(), labels, w);
      }
    }
    exists labels :: Run(Initial(), labels, w)
  }
}
