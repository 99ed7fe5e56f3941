/** When an id may be used again: exactly when no question of that id can still be answered. */
module Reuse {
  import opened Types
  import opened Translator
  import opened World
  import opened Frames
  import opened Protocol
  import opened Cancel
  import opened Steps
  import opened Safety
  import opened Integrity
  import L = Link

  // ---- What may still be answered -----------------------------------------------------------

  /** The requests an idle popup shows as it reads these messages. One over the limit ends it. */
  function Shown(ms: seq<L.Message>): set<NotificationRequest> {
    if ms == [] then {}
    else if !ms[0].Frame? then Shown(ms[1..])
    else if FrameSize(ms[0].request) > SIZE_LIMIT then {}
    else {ms[0].request} + Shown(ms[1..])
  }

  /** The requests an answer may still come for, if nothing more is sent. */
  function Answerable(l: L.Link): set<NotificationRequest> {
    if l.toDaemon != [] then if l.given == [] then {} else {l.given[|l.given| - 1].request}
    else
      match l.popup
      case Idle => Shown(l.toPopup)
      case Asking(r) => {r} + Shown(l.toPopup)
      case AwaitingAck(_, a) =>
        if l.toPopup != [] && l.toPopup[0].Ack? && a != Error then Shown(l.toPopup[1..]) else {}
      case Dead(_) => {}
  }

  lemma {:induction false} ShownMore(ms: seq<L.Message>, m: L.Message)
    ensures Shown(ms + [m]) <= Shown(ms) + if m.Frame? then {m.request} else {}
  {
    if ms != [] {
      assert (ms + [m])[1..] == ms[1..] + [m];
      ShownMore(ms[1..], m);
    } else {
      assert ([m])[1..] == [];
    }
  }

  /** While an answer is on its way, no ack comes first: what is next to read, if anything, takes
      the request back. */
  lemma NoAckYet(l: L.Link, standing: Option<NotificationRequest>)
    requires L.LinkInv(l, standing) && l.toDaemon != [] && l.open && !l.popup.Dead?
    ensures l.popup.AwaitingAck? && (l.toPopup != [] ==> l.toPopup[0].Dismiss?)
  {
    hide L.Answering, L.Unread;
    if l.toPopup != [] {
      assert ([L.Frame(l.popup.request)] + l.toPopup)[1] == l.toPopup[0];
    }
  }

  /** No move but a new frame adds to what may be answered. */
  lemma AfterAnswerable(l: L.Link, m: Move, standing: Option<NotificationRequest>)
    requires L.LinkInv(l, standing) && Can(l, m) && l.open && After(l, m).open
    ensures Answerable(After(l, m)) <= Answerable(l) + if m.Sends? then {m.request.Stripped()} else {}
  {
    hide L.LinkInv;
    if l.toDaemon != [] && !l.popup.Dead? {
      NoAckYet(l, standing);
    }
    match m {
      case Sends(r) => SendAnswerable(l, L.Frame(r.Stripped()));
      case Dismisses(r) => SendAnswerable(l, L.Dismiss(r.Stripped()));
      case Accepts(r) => SendAnswerable(HandedOn(l, r), L.Ack);
      case _ =>
    }
  }

  lemma SendAnswerable(l: L.Link, m: L.Message)
    requires m.Ack? ==> l.toPopup == [] || l.toPopup[0].Dismiss? || l.popup.Dead?
    ensures Answerable(L.Send(l, m)) <= Answerable(l) + if m.Frame? then {m.request} else {}
  {
    ShownMore(l.toPopup, m);
    if l.toPopup != [] {
      ShownMore(l.toPopup[1..], m);
      assert (l.toPopup + [m])[1..] == l.toPopup[1..] + [m];
    }
  }

  // ---- Ids and open questions ---------------------------------------------------------------

  /** No entry of the queue has the id of a question that may still be answered, unless it is that
      very request. */
  ghost predicate KeptApart(xs: set<NotificationRequest>, q: seq<NotificationRequest>) {
    forall x, e :: x in xs && e in q && e.id == x.id ==> e.Stripped() == x
  }

  ghost predicate OwnLink(w: World, i: nat)
    requires i < |w.links|
  {
    w.links[i].open ==> KeptApart(Answerable(w.links[i]), Queue(w, w.links[i].user))
  }

  ghost predicate Own(w: World) {
    forall i :: 0 <= i < |w.links| ==> OwnLink(w, i)
  }

  predicate OpenFor(l: L.Link, u: string) {
    l.open && l.user == u
  }

  /** No question of this id, other than about this very request, may still be answered. */
  ghost predicate SafeToAdd(w: World, r: NotificationRequest) {
    forall i, x :: 0 <= i < |w.links| && OpenFor(w.links[i], r.data.user) && x in Answerable(w.links[i])
      ==> x.id == r.id ==> x == r.Stripped()
  }

  ghost predicate Appends(w: World, a: Label) {
    a.Add? && IndexOf(Queue(w, a.request.data.user), a.request.id) == |Queue(w, a.request.data.user)|
  }

  /** Nothing but an accepted request comes into a queue. */
  lemma NextQueue(w: World, a: Label, u: string, e: NotificationRequest)
    requires Wired(w) && Enabled(w, a) && !Appends(w, a) && e in Queue(Next(w, a), u)
    ensures e in Queue(w, u)
  {
    hide Wired, RemoveRequest, Receive, Push, Connect, AllErrors, Reached, L.Close, L.SendAck, L.TakeResponse;
    match a {
      case Cancel(id, broken) => RemoveRequestQueues(w, id, broken, u);
      case Connection(v, fd) => ConnectFrame(w, v, fd);
      case Response(fd, broken) => ReceiveQueue(w, fd, broken, u, e);
      case Hand(fd, broken) => PushFrame(w, fd, broken);
      case _ =>
    }
  }

  lemma ReceiveQueue(w: World, fd: int, broken: set<int>, u: string, e: NotificationRequest)
    requires Wired(w) && fd in w.fdToUser && LinkOf(w, fd).toDaemon != [] && e in Queue(Receive(w, fd, broken), u)
    ensures e in Queue(w, u)
  {
    hide Wired, Receive, L.Close, L.SendAck, L.TakeResponse;
    Known(w, fd);
    var q, l := Queue(w, w.fdToUser[fd]), LinkOf(w, fd);
    if q != [] && q[0].id == l.toDaemon[0].id {
      MatchedFrame(w, fd, broken);
    } else {
      StaleFrame(w, fd, broken);
    }
  }

  /** A frame is only ever sent for the head of the user's queue. */
  lemma SendsHead(w: World, a: Label, i: nat)
    requires Wired(w) && Enabled(w, a) && i < |w.links| && MoveOf(w, a, i).Sends?
    ensures var q := Queue(w, w.links[i].user); q != [] && MoveOf(w, a, i).request == q[0]
  {
    hide Reached, HeadIs, Wired;
    OpenUser(w, i);
    Known(w, w.userToFd[w.links[i].user]);
  }

  /** Every step but the acceptance of a request keeps ids and open questions apart. */
  lemma NextOwn(w: World, a: Label)
    requires Inv(w) && Own(w) && Enabled(w, a) && !Appends(w, a)
    ensures Own(Next(w, a))
  {
    hide QueuesInv, ConnectionsInv, HandledInv, ConservedInv, Wired, Enabled, Next, OwnLink, Appends, MoveOf;
    var w' := Next(w, a);
    forall i | 0 <= i < |w'.links| ensures OwnLink(w', i) {
      if i < |w.links| {
        NextOwnLink(w, a, i);
      } else {
        NextFresh(w, a, i);
        FreshOwn(w', i, a.user);
      }
    }
  }

  lemma FreshOwn(w: World, i: nat, u: string)
    requires i < |w.links| && w.links[i] == L.Fresh(u)
    ensures OwnLink(w, i)
  {
  }

  lemma NextOwnLink(w: World, a: Label, i: nat)
    requires Inv(w) && Enabled(w, a) && !Appends(w, a) && i < |w.links| && OwnLink(w, i)
    ensures i < |Next(w, a).links| && OwnLink(Next(w, a), i)
  {
    hide Wired, QueuesInv, ConnectionsInv, HandledInv, ConservedInv, Enabled, Next, Appends;
    hide MoveOf, L.LinkInv, Answerable, Queue, UniqueIds, Can, After;
    var w', l, m := Next(w, a), w.links[i], MoveOf(w, a, i);
    NextLink(w, a, i);
    AfterOpen(l, m);
    if w'.links[i].open {
      var standing := SomeStanding(w, i);
      AfterAnswerable(l, m, standing);
      var q, q' := Queue(w, l.user), Queue(w', l.user);
      forall e | e in q' ensures e in q { NextQueue(w, a, l.user, e); }
      QueueOf(w, l.user);
      if m.Sends? {
        SendsHead(w, a, i);
        HeadApart(q);
      }
    }
  }

  lemma AfterOpen(l: L.Link, m: Move)
    requires Can(l, m)
    ensures After(l, m).user == l.user && (After(l, m).open ==> l.open)
  {
  }

  lemma HeadApart(q: seq<NotificationRequest>)
    requires UniqueIds(q) && q != []
    ensures KeptApart({q[0].Stripped()}, q)
  {
  }

  /** Accepting a request keeps them apart exactly when no other question of its id is open on its
      user's connection. */
  lemma AddKeepsOwnIff(w: World, r: NotificationRequest)
    requires Wired(w) && Own(w) && Enabled(w, Add(r)) && Appends(w, Add(r))
    ensures Own(Next(w, Add(r))) <==> SafeToAdd(w, r)
  {
    hide Wired, Answerable, IndexOf;
    var w', u, q := Next(w, Add(r)), r.data.user, Queue(w, r.data.user);
    assert Queue(w', u) == q + [r] && w'.links == w.links;
    assert forall v :: v != u ==> Queue(w', v) == Queue(w, v);
    hide Next, Queue;
    if Own(w') {
      forall i, x | 0 <= i < |w.links| && OpenFor(w.links[i], u) && x in Answerable(w.links[i])
        ensures x.id == r.id ==> x == r.Stripped()
      {
        assert OwnLink(w', i) && r in Queue(w', u);
      }
    }
    if SafeToAdd(w, r) {
      forall i | 0 <= i < |w'.links| ensures OwnLink(w', i) {
        assert OwnLink(w, i) && (w.links[i].open && w.links[i].user == u ==> OpenFor(w.links[i], u));
      }
    }
  }

  // ---- Runs ---------------------------------------------------------------------------------

  /** No step of the run accepts a request while another question of its id may be answered. */
  ghost predicate NoEarlyReuse(w: World, labels: seq<Label>)
    requires Wired(w)
    decreases |labels|
  {
    labels != [] ==>
      && Enabled(w, labels[0])
      && (Appends(w, labels[0]) ==> SafeToAdd(w, labels[0].request))
      && NoEarlyReuse(Next(w, labels[0]), labels[1..])
  }

  ghost predicate OwnThroughout(w: World, labels: seq<Label>)
    requires Wired(w)
    decreases |labels|
  {
    && Own(w)
    && (labels != [] ==> Enabled(w, labels[0]) && OwnThroughout(Next(w, labels[0]), labels[1..]))
  }

  /** Ids and open questions stay apart all along a run exactly when no id is reused early. */
  lemma {:induction false} OwnThroughoutIff(w: World, labels: seq<Label>)
    requires Inv(w) && Own(w)
    ensures OwnThroughout(w, labels) <==> NoEarlyReuse(w, labels)
    decreases |labels|
  {
    hide Own, SafeToAdd, Next, Enabled, QueuesInv, ConnectionsInv, HandledInv, ConservedInv, Wired;
    if labels != [] && Enabled(w, labels[0]) {
      var a := labels[0];
      NextInv(w, a);
      if Appends(w, a) {
        AddKeepsOwnIff(w, a.request);
      } else {
        NextOwn(w, a);
      }
      if Own(Next(w, a)) {
        OwnThroughoutIff(Next(w, a), labels[1..]);
      }
    }
  }

  /** An answer accepted while they are apart is accepted for the request it was given for. */
  lemma OwnAccepted(w: World, a: Label, i: nat)
    requires Inv(w) && Own(w) && Enabled(w, a) && i < |w.links| && IsAccept(MoveOf(w, a, i))
    ensures AcceptedFor(w.links[i], MoveOf(w, a, i), [])
  {
    hide Wired, QueuesInv, ConnectionsInv, HandledInv, ConservedInv, Enabled, MoveOf, L.LinkInv, Queue;
    AcceptingIs(w, a, i);
    var l, q := w.links[i], Queue(w, w.links[i].user);
    var standing := SomeStanding(w, i);
    AnsweredQuestion(l, standing);
    assert OwnLink(w, i) && l.given[|l.given| - 1].request in Answerable(l) && q[0] in q;
    Known(w, a.fd);
  }

  lemma {:induction false} RunExact(w: World, labels: seq<Label>, w': World)
    requires Inv(w) && AllGrounded(w, []) && Run(w, labels, w') && OwnThroughout(w, labels)
    ensures AllGrounded(w', [])
    decreases |labels|
  {
    hide Wired, QueuesInv, ConnectionsInv, HandledInv, ConservedInv, Next, Enabled;
    hide Own, AllGrounded, MoveOf, AcceptedFor;
    if labels != [] {
      var a := labels[0];
      NextInv(w, a);
      forall i | 0 <= i < |w.links| && IsAccept(MoveOf(w, a, i))
        ensures AcceptedFor(w.links[i], MoveOf(w, a, i), [])
      {
        OwnAccepted(w, a, i);
      }
      NextGrounded(w, a, [], []);
      RunExact(Next(w, a), labels[1..], w');
    }
  }

  /** Over every run that reuses no id early, what is handed on from a connection is exactly what
      its user gave there for those very requests: in order, none twice and none made up. */
  lemma AnswersAreExact(labels: seq<Label>, w: World, i: nat)
    requires Run(Initial(), labels, w) && NoEarlyReuse(Initial(), labels) && i < |w.links|
    ensures Subsequence(w.links[i].handled, w.links[i].given)
  {
    hide Inv, AllGrounded, Next, Enabled, Own, Drawn;
    InitialInv();
    InitialGrounded();
    InitialOwn();
    OwnThroughoutIff(Initial(), labels);
    RunExact(Initial(), labels, w);
    GroundedExactly(w, i);
  }

  lemma InitialOwn()
    ensures Own(Initial())
  {
  }

  lemma GroundedExactly(w: World, i: nat)
    requires AllGrounded(w, []) && i < |w.links|
    ensures Subsequence(w.links[i].handled, w.links[i].given)
  {
    hide Drawn;
    var l := w.links[i];
    assert Grounded(l, []);
    if Settled(l) != l.given {
      DrawnSkips(l.handled, Settled(l), l.given[|l.given| - 1], [], l.user);
      assert l.given == Settled(l) + [l.given[|l.given| - 1]];
    }
    DrawnExactly(l.handled, l.given, [], l.user);
  }

  // ---- When an answer can go astray ---------------------------------------------------------

  ghost predicate PopupsOnly(labels: seq<Label>) {
    forall k :: 0 <= k < |labels| ==> PopupLabel(labels[k])
  }

  /** The answer on its way has the id of this head, and was given for another request. */
  ghost predicate Astray(l: L.Link, head: NotificationRequest) {
    && l.toDaemon != [] && l.toDaemon[0].id == head.id
    && l.given != [] && l.given[|l.given| - 1].request != head.Stripped()
  }

  /** A question that may be answered can be answered: the popup reads on to it, and its user
      answers. */
  lemma {:induction false} CanAnswer(w: World, i: nat, x: NotificationRequest) returns (labels: seq<Label>, w': World)
    requires Inv(w) && i < |w.links| && w.links[i].open && x in Answerable(w.links[i])
    ensures PopupsOnly(labels) && Run(w, labels, w')
    ensures i < |w'.links| && w'.links[i].toDaemon != [] && w'.links[i].toDaemon[0].id == x.id
    ensures w'.links[i].given != [] && w'.links[i].given[|w'.links[i].given| - 1].request == x
    decreases |w.links[i].toPopup|
  {
    hide QueuesInv, ConnectionsInv, HandledInv, ConservedInv, Wired, Next, Enabled;
    if w.links[i].toDaemon != [] || w.links[i].popup == L.Asking(x) {
      labels, w' := AnswersNow(w, i, x);
    } else {
      ReadsOnNext(w, i, x);
      var a := PopupReads(i);
      var more, w2 := CanAnswer(Next(w, a), i, x);
      labels, w' := [a] + more, w2;
      assert ([a] + more)[1..] == more;
    }
  }

  lemma AnswersNow(w: World, i: nat, x: NotificationRequest) returns (labels: seq<Label>, w': World)
    requires Inv(w) && i < |w.links| && w.links[i].open && x in Answerable(w.links[i])
    requires w.links[i].toDaemon != [] || w.links[i].popup == L.Asking(x)
    ensures PopupsOnly(labels) && Run(w, labels, w')
    ensures i < |w'.links| && w'.links[i].toDaemon != [] && w'.links[i].toDaemon[0].id == x.id
    ensures w'.links[i].given != [] && w'.links[i].given[|w'.links[i].given| - 1].request == x
  {
    hide QueuesInv, ConnectionsInv, HandledInv, ConservedInv, Wired, L.LinkInv, Next;
    if w.links[i].toDaemon != [] {
      var standing := SomeStanding(w, i);
      AnsweredQuestion(w.links[i], standing);
      labels, w' := [], w;
    } else {
      labels, w' := [PopupAnswers(i, Allow)], Next(w, PopupAnswers(i, Allow));
      NextLink(w, labels[0], i);
      RunOne(w, labels[0]);
    }
  }

  lemma ReadsOnNext(w: World, i: nat, x: NotificationRequest)
    requires Inv(w) && i < |w.links| && w.links[i].open && x in Answerable(w.links[i])
    requires w.links[i].toDaemon == [] && w.links[i].popup != L.Asking(x)
    ensures Enabled(w, PopupReads(i)) && Inv(Next(w, PopupReads(i)))
    ensures var w' := Next(w, PopupReads(i));
      && i < |w'.links| && w'.links[i].open && x in Answerable(w'.links[i])
      && |w'.links[i].toPopup| < |w.links[i].toPopup|
  {
    hide QueuesInv, ConnectionsInv, HandledInv, ConservedInv, Wired, L.LinkInv, Next, Answerable;
    var standing := SomeStanding(w, i);
    ReadsOn(w.links[i], x, standing);
    NextLink(w, PopupReads(i), i);
    NextInv(w, PopupReads(i));
  }

  lemma ReadsOn(l: L.Link, x: NotificationRequest, standing: Option<NotificationRequest>)
    requires L.LinkInv(l, standing) && l.open && l.toDaemon == [] && x in Answerable(l) && l.popup != L.Asking(x)
    ensures l.toPopup != [] && !l.popup.Dead?
    ensures x in Answerable(L.Receive(l)) && L.Receive(l).open
  {
    match l.popup {
      case Asking(r) => assert ([L.Frame(r)] + l.toPopup)[1] == l.toPopup[0];
      case _ =>
    }
  }

  /** The popups on their own bring no other answer than one there was a question for. */
  lemma {:induction false} PopupsAnswerable(w: World, labels: seq<Label>, w': World, i: nat)
    requires Inv(w) && PopupsOnly(labels) && Run(w, labels, w') && i < |w.links| && w.links[i].open
    ensures i < |w'.links| && Answerable(w'.links[i]) <= Answerable(w.links[i])
    ensures w'.requests == w.requests
    decreases |labels|
  {
    hide QueuesInv, ConnectionsInv, HandledInv, ConservedInv, Wired, Answerable, Enabled, Next;
    if labels != [] {
      assert PopupLabel(labels[0]) && PopupsOnly(labels[1..]);
      PopupAnswerable(w, labels[0], i);
      PopupsAnswerable(Next(w, labels[0]), labels[1..], w', i);
    }
  }

  lemma PopupAnswerable(w: World, a: Label, i: nat)
    requires Inv(w) && Enabled(w, a) && PopupLabel(a) && i < |w.links| && w.links[i].open
    ensures var w' := Next(w, a);
      && Inv(w') && w'.requests == w.requests && i < |w'.links| && w'.links[i].open
      && Answerable(w'.links[i]) <= Answerable(w.links[i])
  {
    hide QueuesInv, ConnectionsInv, HandledInv, ConservedInv, Wired, L.LinkInv, Answerable;
    assert Next(w, a).requests == w.requests;
    hide Next, Enabled;
    var standing := SomeStanding(w, i);
    NextLink(w, a, i);
    NextInv(w, a);
    PopupMoves(w, a, i);
    hide After, Can, MoveOf;
    AfterAnswerable(w.links[i], MoveOf(w, a, i), standing);
  }

  lemma PopupMoves(w: World, a: Label, i: nat)
    requires Wired(w) && Enabled(w, a) && PopupLabel(a) && i < |w.links| && Can(w.links[i], MoveOf(w, a, i))
    ensures !MoveOf(w, a, i).Sends?
    ensures After(w.links[i], MoveOf(w, a, i)).open == w.links[i].open
  {
    hide Wired, Enabled, DaemonMoveOf, L.Receive;
    OpenStays(w.links[i], MoveOf(w, a, i));
  }

  lemma OpenStays(l: L.Link, m: Move)
    requires Can(l, m) && (m.Stay? || m.Reads? || m.Answers? || m.SeesEnd? || m.Dies?)
    ensures After(l, m).open == l.open
  {
  }

  /** An answer can go astray, by nothing but what popups do, exactly when a question other than
      the head is open under the head's id. */
  lemma AstrayIff(w: World, fd: int, head: NotificationRequest)
    requires Reachable(w) && fd in w.fdToUser
    ensures w.handles[fd] < |w.links|
    ensures (exists labels, w' :: && PopupsOnly(labels) && Run(w, labels, w')
                                  && w.handles[fd] < |w'.links| && Astray(w'.links[w.handles[fd]], head))
        <==> exists x :: x in Answerable(LinkOf(w, fd)) && x.id == head.id && x != head.Stripped()
  {
    hide Reachable, Run, QueuesInv, ConnectionsInv, HandledInv, ConservedInv, Answerable, L.LinkInv, Wired;
    ReachableInv(w);
    Known(w, fd);
    var i := w.handles[fd];
    if labels, w' :| PopupsOnly(labels) && Run(w, labels, w') && i < |w'.links| && Astray(w'.links[i], head) {
      PopupsAnswerable(w, labels, w', i);
      RunInv(w, labels, w');
      var standing := SomeStanding(w', i);
      AnsweredQuestion(w'.links[i], standing);
      assert w'.links[i].given[|w'.links[i].given| - 1].request in Answerable(w'.links[i]) by {
        OnItsWay(w'.links[i]);
      }
    }
    if x :| x in Answerable(LinkOf(w, fd)) && x.id == head.id && x != head.Stripped() {
      var labels, w' := CanAnswer(w, i, x);
      assert Astray(w'.links[i], head);
    }
  }

  lemma OnItsWay(l: L.Link)
    requires l.toDaemon != [] && l.given != []
    ensures l.given[|l.given| - 1].request in Answerable(l)
  {
  }
}
