/** Runs that show what the safety theorems must allow for: a cancel that crosses an answer, a
    connection closed while the popup asks, a cancel that does not reach its request. */
module Races {
  import opened Types
  import opened Ordering
  import opened World
  import opened Frames
  import opened Translator
  import opened Safety
  import Cancel
  import L = Link

  lemma InitialReachable()
    ensures Reachable(Initial())
  {
    assert Run(Initial(), [], Initial());
  }

  /** One user, one connection, under descriptor 0; the queue and the connection as given. */
  ghost predicate One(w: World, u: string, q: seq<NotificationRequest>, free: bool, l: L.Link) {
    && w.requests == map[u := q] && w.userToFd == map[u := 0] && w.fdToUser == map[0 := u]
    && w.fdStatus == map[0 := free] && w.handles == map[0 := 0] && w.links == [l]
    && l.open && l.user == u && !w.failed
  }

  lemma OneWired(w: World, u: string, q: seq<NotificationRequest>, free: bool, l: L.Link)
    requires One(w, u, q, free, l)
    ensures Wired(w) && LinkOf(w, 0) == l && Queue(w, u) == q
  {
    assert Names(w, 0);
  }

  lemma AddedToEmpty(w: World, r: NotificationRequest)
    requires Wired(w) && Queue(w, r.data.user) == []
    ensures AddRequest(w, r) == w.(requests := w.requests[r.data.user := [r]], log := w.log + [Accepted(r)])
  {
    assert [] + [r] == [r];
  }

  /** A request is queued, and its user's popup connects. */
  lemma Connected(r: NotificationRequest) returns (w: World)
    ensures Reachable(w) && One(w, r.data.user, [r], true, L.Fresh(r.data.user))
  {
    hide Reachable;
    var u := r.data.user;
    InitialReachable();
    ReachableNext(Initial(), Add(r));
    var w1 := Next(Initial(), Add(r));
    AddedToEmpty(Initial(), r);
    ReachableNext(w1, Connection(u, 0));
    w := Next(w1, Connection(u, 0));
  }

  /** The popup is shown the request. */
  lemma Asked(r: NotificationRequest) returns (w: World, l: L.Link)
    requires FrameSize(r.Stripped()) <= SIZE_LIMIT
    ensures Reachable(w) && One(w, r.data.user, [r], false, l)
    ensures l.popup == L.Asking(r.Stripped()) && l.toPopup == []
    ensures l.toDaemon == [] && l.given == [] && l.handled == [] && l.open
  {
    hide Reachable, One;
    var u, l0 := r.data.user, L.Fresh(r.data.user);
    var w0 := Connected(r);
    var w1 := Handed(w0, r, l0);
    l := L.Receive(L.SendFrame(l0, r));
    w := ReadMoved(w1, u, [r], false, L.SendFrame(l0, r));
  }

  /** Its user allows it; the daemon has not read that yet. */
  lemma Allowed(r: NotificationRequest) returns (w: World, l: L.Link)
    requires FrameSize(r.Stripped()) <= SIZE_LIMIT
    ensures Reachable(w) && One(w, r.data.user, [r], false, l)
    ensures l.popup == L.AwaitingAck(r.Stripped(), Allow) && l.toPopup == []
    ensures l.toDaemon == [NotificationResponse(r.id, Allow)]
    ensures l.given == [L.Verdict(r.Stripped(), Allow)] && l.handled == []
  {
    hide Reachable, One;
    var w0, l0 := Asked(r);
    l := L.Answer(l0, Allow);
    w := AnswerMoved(w0, r.data.user, [r], false, l0);
  }

  lemma Handed(w: World, r: NotificationRequest, l: L.Link) returns (w': World)
    requires Reachable(w) && One(w, r.data.user, [r], true, l)
    ensures Reachable(w') && One(w', r.data.user, [r], false, L.SendFrame(l, r))
  {
    hide Reachable, Push, L.SendFrame, Wired;
    OneWired(w, r.data.user, [r], true, l);
    ReachableNext(w, Hand(0, {}));
    w' := Next(w, Hand(0, {}));
    assert w' == Push(w, 0, {});
    hide Next, Enabled;
    PushFrame(w, 0, {});
    assert l.user == L.SendFrame(l, r).user && L.SendFrame(l, r).open by {
      FrameKeeps(l, r);
    }
  }

  lemma FrameKeeps(l: L.Link, r: NotificationRequest)
    ensures L.SendFrame(l, r).user == l.user && L.SendFrame(l, r).open == l.open
  {
  }

  lemma ReadMoved(w: World, u: string, q: seq<NotificationRequest>, free: bool, l: L.Link) returns (w': World)
    requires Reachable(w) && One(w, u, q, free, l) && l.toPopup != [] && !l.popup.Dead?
    ensures Reachable(w') && One(w', u, q, free, L.Receive(l))
  {
    hide Reachable, Wired, L.Receive;
    ReachableNext(w, PopupReads(0));
    w' := Next(w, PopupReads(0));
    ReadKeeps(l);
  }

  lemma ReadKeeps(l: L.Link)
    requires l.toPopup != [] && !l.popup.Dead?
    ensures L.Receive(l).open == l.open && L.Receive(l).user == l.user
  {
  }

  lemma AnswerMoved(w: World, u: string, q: seq<NotificationRequest>, free: bool, l: L.Link) returns (w': World)
    requires Reachable(w) && One(w, u, q, free, l) && l.popup.Asking?
    ensures Reachable(w') && One(w', u, q, free, L.Answer(l, Allow))
  {
    hide Reachable, Wired;
    ReachableNext(w, PopupAnswers(0, Allow));
    w' := Next(w, PopupAnswers(0, Allow));
  }

  /** The request is taken back, and a dismiss goes out after the answer was given. */
  lemma CancelCrosses(r: NotificationRequest) returns (w: World, l: L.Link)
    requires FrameSize(r.Stripped()) <= SIZE_LIMIT
    ensures Reachable(w) && One(w, r.data.user, [], true, l)
    ensures l.popup == L.AwaitingAck(r.Stripped(), Allow) && l.toPopup == [L.Dismiss(r.Stripped())]
    ensures l.toDaemon == [NotificationResponse(r.id, Allow)]
    ensures l.given == [L.Verdict(r.Stripped(), Allow)] && l.handled == []
  {
    hide Reachable;
    var u := r.data.user;
    var w0, l0 := Allowed(r);
    OneWired(w0, u, [r], false, l0);
    ReachableNext(w0, Cancel(r.id, {}));
    w, l := Next(w0, Cancel(r.id, {})), L.SendDismiss(l0, r);
    OnlyUser(w0, u);
    CancelOnly(w0, u, r.id);
    WithdrawnOne(w0, r, l0);
    hide Next;
  }

  lemma CancelOnly(w: World, u: string, id: RequestId)
    requires Wired(w) && w.requests.Keys == {u} && Cancel.Holds(w, u, id)
    ensures RemoveRequest(w, id, {}) == Withdraw(w, u, id, {})
  {
    hide Withdraw, Users;
    OnlyUser(w, u);
    assert [u][1..] == [];
    assert RemoveFrom(Withdraw(w, u, id, {}), [], id, {}) == Withdraw(w, u, id, {});
  }

  lemma WithdrawnOne(w: World, r: NotificationRequest, l: L.Link)
    requires Wired(w) && One(w, r.data.user, [r], false, l)
    ensures Cancel.Holds(w, r.data.user, r.id)
    ensures One(Withdraw(w, r.data.user, r.id, {}), r.data.user, [], true, L.SendDismiss(l, r))
  {
    hide L.SendDismiss, Withdraw, Wired;
    OneWired(w, r.data.user, [r], false, l);
    assert IndexOf([r], r.id) == 0;
    hide IndexOf;
    WithdrawFrame(w, r.data.user, r.id, {});
    assert [r][..0] + [r][0 + 1..] == [];
    DismissKeeps(l, r);
  }

  lemma DismissKeeps(l: L.Link, r: NotificationRequest)
    ensures L.SendDismiss(l, r).user == l.user && L.SendDismiss(l, r).open == l.open
  {
  }

  lemma OnlyUser(w: World, u: string)
    requires w.requests.Keys == {u}
    ensures Users(w.requests.Keys) == [u]
  {
    StringOrder();
    AscendingSpec(StringLeq, w.requests.Keys);
    var users := Users(w.requests.Keys);
    hide Users, Ascending, StringLeq;
    assert |{u}| == 1;
    assert users[0] in users;
  }

  /** "Incorrect ack" is reachable: a popup whose user allowed a request that was cancelled
      meanwhile reads the dismiss where it expects the ack, and ends. */
  lemma IncorrectAckReachable(r: NotificationRequest) returns (w: World)
    requires FrameSize(r.Stripped()) <= SIZE_LIMIT
    ensures Reachable(w) && w.links != [] && w.links[0].popup == L.Dead(L.BadAck)
  {
    hide Reachable;
    var w0, l := CancelCrosses(r);
    w := ReadMoved(w0, r.data.user, [], true, l);
  }

  /** A reused id is answered for a question its user never saw: after the same crossing, the
      daemon hands the answer for `r` on as the answer for `s`. */
  lemma ReusedIdTakesTheAnswer(r: NotificationRequest, s: NotificationRequest) returns (w: World)
    requires FrameSize(r.Stripped()) <= SIZE_LIMIT
    requires s.id == r.id && s.data.user == r.data.user
    ensures Reachable(w) && w.links != []
    ensures w.links[0].given == [L.Verdict(r.Stripped(), Allow)]
    ensures w.links[0].handled == [L.Verdict(s.Stripped(), Allow)]
  {
    hide Reachable;
    var w0, l := CancelCrosses(r);
    var w1 := Again(w0, s, l);
    w := Taken(w1, s, l);
  }

  lemma Again(w: World, s: NotificationRequest, l: L.Link) returns (w': World)
    requires Reachable(w) && One(w, s.data.user, [], true, l)
    ensures Reachable(w') && One(w', s.data.user, [s], true, l)
  {
    hide Reachable, Wired;
    OneWired(w, s.data.user, [], true, l);
    ReachableNext(w, Add(s));
    w' := Next(w, Add(s));
    AddedToEmpty(w, s);
  }

  lemma Taken(w: World, s: NotificationRequest, l: L.Link) returns (w': World)
    requires Reachable(w) && One(w, s.data.user, [s], true, l)
    requires l.toDaemon == [NotificationResponse(s.id, Allow)] && l.handled == []
    ensures Reachable(w') && w'.links != []
    ensures w'.links[0].given == l.given && w'.links[0].handled == [L.Verdict(s.Stripped(), Allow)]
  {
    hide Reachable, Wired, Receive, L.SendAck;
    OneWired(w, s.data.user, [s], true, l);
    ReachableNext(w, Response(0, {}));
    w' := Next(w, Response(0, {}));
    assert w' == Receive(w, 0, {});
    hide Next, Enabled;
    MatchedFrame(w, 0, {});
    assert w'.links == [L.SendAck(Accepting(w, 0))];
    AckKeeps(Accepting(w, 0));
  }

  lemma AckKeeps(l: L.Link)
    ensures L.SendAck(l).given == l.given && L.SendAck(l).handled == l.handled
  {
  }

  /** "Incorrect dismiss flag" is reachable: the daemon shuts down while the popup asks. */
  lemma IncorrectDismissFlagReachable(r: NotificationRequest) returns (w: World)
    requires FrameSize(r.Stripped()) <= SIZE_LIMIT
    ensures Reachable(w) && w.links != [] && w.links[0].popup == L.Dead(L.BadDismissFlag)
  {
    hide Reachable;
    var w0, l := Asked(r);
    OneWired(w0, r.data.user, [r], false, l);
    ReachableNext(w0, Shutdown);
    var w1 := Next(w0, Shutdown);
    assert w1.links == [L.Close(l)];
    ReachableNext(w1, PopupSeesEnd(0));
    w := Next(w1, PopupSeesEnd(0));
  }

  /** A lost cancel is reachable: `u` has connected once and has an empty queue, and what `v`, who
      comes after `u`, asks for cannot be cancelled any more. */
  lemma CancelLostReachable(u: string, r: NotificationRequest, broken: set<int>) returns (w: World)
    requires u != r.data.user && StringLeq(u, r.data.user)
    ensures Reachable(w) && Enabled(w, Cancel(r.id, broken))
    ensures Queue(w, r.data.user) == [r] && Queue(Next(w, Cancel(r.id, broken)), r.data.user) == [r]
  {
    hide Reachable, StringLeq;
    w := EmptyQueueThen(u, r);
    hide Next;
    var v := r.data.user;
    assert Queue(w, u) == [] && !Cancel.Holds(w, u, r.id);
    assert !Cancel.Reached(w, v, r.id);
    assert Next(w, Cancel(r.id, broken)) == RemoveRequest(w, r.id, broken) by {
      CancelIs(w, r.id, broken);
    }
    hide RemoveRequest, Cancel.Reached, Cancel.Holds;
    Cancel.RemoveRequestQueues(w, r.id, broken, v);
  }

  lemma CancelIs(w: World, id: RequestId, broken: set<int>)
    requires Wired(w)
    ensures Next(w, Cancel(id, broken)) == RemoveRequest(w, id, broken)
  {
  }

  lemma EmptyQueueThen(u: string, r: NotificationRequest) returns (w: World)
    requires u != r.data.user
    ensures Reachable(w) && w.requests == map[u := [], r.data.user := [r]]
  {
    hide Reachable;
    InitialReachable();
    ReachableNext(Initial(), Connection(u, 0));
    var w1 := Next(Initial(), Connection(u, 0));
    assert One(w1.(requests := map[u := []]), u, [], true, L.Fresh(u));
    assert w1.requests == map[];
    ReachableNext(w1, Hand(0, {}));
    var w2 := Next(w1, Hand(0, {}));
    PushFrame(w1, 0, {});
    assert w2.requests == map[u := []] && !w2.failed;
    ReachableNext(w2, Add(r));
    w := Next(w2, Add(r));
    AddedToEmpty(w2, r);
  }
}
