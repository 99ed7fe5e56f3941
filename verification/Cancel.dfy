/** What cancelling a request does, and when it fails to do it: `removeRequest` gives up at the
    first user whose queue lacks the id. */
module Cancel {
  import opened Types
  import opened Ordering
  import opened World
  import opened Frames
  import opened Protocol
  import L = Link

  ghost predicate Holds(w: World, u: string, id: RequestId) {
    IndexOf(Queue(w, u), id) < |Queue(w, u)|
  }

  /** The scan gets to this user: every user up to and including it holds the id. */
  ghost predicate Reached(w: World, u: string, id: RequestId) {
    u in w.requests && forall v :: v in w.requests && StringLeq(v, u) ==> Holds(w, v, id)
  }

  function Erased(q: seq<NotificationRequest>, id: RequestId): seq<NotificationRequest> {
    var k := IndexOf(q, id);
    if k < |q| then q[..k] + q[k + 1..] else q
  }

  /** The same, for a scan over a list of users. */
  ghost predicate ReachedIn(w: World, users: seq<string>, u: string, id: RequestId) {
    exists p :: 0 <= p < |users| && users[p] == u && forall j :: 0 <= j <= p ==> Holds(w, users[j], id)
  }

  lemma ReachedInStep(w: World, w': World, users: seq<string>, u: string, id: RequestId)
    requires users != [] && u != users[0] && Holds(w, users[0], id)
    requires forall j :: 1 <= j < |users| ==> Queue(w', users[j]) == Queue(w, users[j])
    ensures ReachedIn(w, users, u, id) <==> ReachedIn(w', users[1..], u, id)
  {
    if ReachedIn(w, users, u, id) {
      var p :| 0 <= p < |users| && users[p] == u && forall j :: 0 <= j <= p ==> Holds(w, users[j], id);
      assert users[1..][p - 1] == u;
      assert forall j :: 0 <= j <= p - 1 ==> users[1..][j] == users[j + 1] && Holds(w, users[j + 1], id);
    }
    if ReachedIn(w', users[1..], u, id) {
      var p :| 0 <= p < |users[1..]| && users[1..][p] == u
        && forall j :: 0 <= j <= p ==> Holds(w', users[1..][j], id);
      assert users[p + 1] == u;
      forall j | 0 <= j <= p + 1 ensures Holds(w, users[j], id) {
        if j > 0 {
          assert users[1..][j - 1] == users[j];
        }
      }
    }
  }

  /** One pass changes one queue. */
  lemma WithdrawQueues(w: World, u: string, id: RequestId, broken: set<int>, v: string)
    requires Wired(w) && Holds(w, u, id)
    ensures Queue(Withdraw(w, u, id, broken), v) == if v == u then Erased(Queue(w, u), id) else Queue(w, v)
    ensures Withdraw(w, u, id, broken).requests.Keys == w.requests.Keys
  {
    hide Withdraw, Wired, IndexOf;
    WithdrawFrame(w, u, id, broken);
  }

  lemma {:induction false} RemoveFromQueues(w: World, users: seq<string>, id: RequestId, broken: set<int>, u: string)
    requires Wired(w)
    requires forall i, j :: 0 <= i < j < |users| ==> users[i] != users[j]
    ensures Queue(RemoveFrom(w, users, id, broken), u)
         == if ReachedIn(w, users, u, id) then Erased(Queue(w, u), id) else Queue(w, u)
    ensures RemoveFrom(w, users, id, broken).requests.Keys == w.requests.Keys
    decreases |users|
  {
    hide Withdraw, Erased;
    if users != [] && Holds(w, users[0], id) {
      var w' := Withdraw(w, users[0], id, broken);
      forall v ensures Queue(w', v) == if v == users[0] then Erased(Queue(w, v), id) else Queue(w, v) {
        WithdrawQueues(w, users[0], id, broken, v);
      }
      WithdrawQueues(w, users[0], id, broken, u);
      RemoveFromQueues(w', users[1..], id, broken, u);
      if u == users[0] {
        assert ReachedIn(w, users, u, id);
        assert !ReachedIn(w', users[1..], u, id);
      } else {
        ReachedInStep(w, w', users, u, id);
      }
    }
  }

  ghost predicate Enumerates(w: World, users: seq<string>) {
    && (forall v :: v in users <==> v in w.requests)
    && (forall i, j :: 0 <= i < j < |users| ==> StringLeq(users[i], users[j]) && users[i] != users[j])
  }

  lemma UsersEnumerate(w: World)
    ensures Enumerates(w, Users(w.requests.Keys))
  {
    hide StringLeq, Ascending;
    StringOrder();
    AscendingSpec(StringLeq, w.requests.Keys);
  }

  lemma ReachedInIsReached(w: World, users: seq<string>, u: string, id: RequestId)
    requires Enumerates(w, users) && ReachedIn(w, users, u, id)
    ensures Reached(w, u, id)
  {
    hide StringLeq, Holds;
    StringOrder();
    var p :| 0 <= p < |users| && users[p] == u && forall j :: 0 <= j <= p ==> Holds(w, users[j], id);
    forall v | v in w.requests && StringLeq(v, u) ensures Holds(w, v, id) {
      assert v in users;
      var j :| 0 <= j < |users| && users[j] == v;
      assert j > p ==> StringLeq(u, v) && u != v;
    }
    assert u in users;
  }

  lemma ReachedIsInReach(w: World, users: seq<string>, u: string, id: RequestId)
    requires Enumerates(w, users) && Reached(w, u, id)
    ensures ReachedIn(w, users, u, id)
  {
    hide StringLeq, Holds;
    StringOrder();
    assert u in users;
    var p :| 0 <= p < |users| && users[p] == u;
    forall j | 0 <= j <= p ensures Holds(w, users[j], id) {
      assert users[j] in users;
      assert StringLeq(users[j], u);
    }
  }

  /** Being reached in the map's own order is being reached in its enumeration. */
  lemma ReachedIsReachedIn(w: World, u: string, id: RequestId)
    ensures ReachedIn(w, Users(w.requests.Keys), u, id) <==> Reached(w, u, id)
  {
    hide Reached, ReachedIn;
    UsersEnumerate(w);
    if Reached(w, u, id) {
      ReachedIsInReach(w, Users(w.requests.Keys), u, id);
    }
    if ReachedIn(w, Users(w.requests.Keys), u, id) {
      ReachedInIsReached(w, Users(w.requests.Keys), u, id);
    }
  }

  /** `removeRequest` takes the id, and nothing else, out of exactly the queues its scan reaches,
      and keeps the order of every other entry. */
  lemma RemoveRequestQueues(w: World, id: RequestId, broken: set<int>, u: string)
    requires Wired(w)
    ensures Queue(RemoveRequest(w, id, broken), u)
         == if Reached(w, u, id) then Erased(Queue(w, u), id) else Queue(w, u)
    ensures RemoveRequest(w, id, broken).requests.Keys == w.requests.Keys
  {
    hide Erased, Users, RemoveFrom, Reached, ReachedIn, StringLeq;
    UsersEnumerate(w);
    RemoveFromQueues(w, Users(w.requests.Keys), id, broken, u);
    ReachedIsReachedIn(w, u, id);
  }

  lemma ErasedLacks(q: seq<NotificationRequest>, id: RequestId)
    requires UniqueIds(q)
    ensures IndexOf(Erased(q, id), id) == |Erased(q, id)|
  {
    var k, e := IndexOf(q, id), Erased(q, id);
    if k < |q| {
      forall i | 0 <= i < |e| ensures e[i].id != id {
        assert e[i] == if i < k then q[i] else q[i + 1];
      }
    }
  }

  /** A cancelled id is gone from a user's queue exactly when it was not there or every user up
      to that one, in the order of the map, held it as well. */
  lemma CancelledIffReached(w: World, id: RequestId, broken: set<int>, u: string)
    requires Wired(w) && UniqueIds(Queue(w, u))
    ensures !Holds(RemoveRequest(w, id, broken), u, id) <==> !Holds(w, u, id) || Reached(w, u, id)
  {
    hide RemoveRequest;
    RemoveRequestQueues(w, id, broken, u);
    ErasedLacks(Queue(w, u), id);
  }

  /** With an id held by one user only, as ids from one source are, cancelling works exactly when
      that user comes first among all users that ever had a queue. */
  lemma CancelWorksIffFirstUser(w: World, id: RequestId, broken: set<int>, u: string)
    requires Wired(w) && UniqueIds(Queue(w, u))
    requires forall v :: v in w.requests ==> (Holds(w, v, id) <==> v == u)
    requires u in w.requests
    ensures !Holds(RemoveRequest(w, id, broken), u, id)
        <==> forall v :: v in w.requests ==> StringLeq(u, v)
  {
    hide RemoveRequest, Holds, StringLeq;
    CancelledIffReached(w, id, broken, u);
    StringOrder();
  }

  /** The input that shows it: the only request of "b" cannot be cancelled once "a" has had a
      queue, even an empty one. */
  lemma CancelLost(w: World, r: NotificationRequest, broken: set<int>)
    requires Wired(w) && w.requests == map["a" := [], "b" := [r]]
    ensures Queue(RemoveRequest(w, r.id, broken), "b") == [r]
  {
    hide RemoveRequest;
    RemoveRequestQueues(w, r.id, broken, "b");
    assert StringLeq("a", "b");
    assert !Holds(w, "a", r.id);
  }

  // ---- The dismiss --------------------------------------------------------------------------

  ghost predicate HeadIs(w: World, u: string, id: RequestId) {
    Queue(w, u) != [] && Queue(w, u)[0].id == id
  }

  /** What a cancel does to a connection: a dismiss of the head when the head is the one withdrawn
      and the connection is busy with it (the connection goes if that fails), nothing otherwise. */
  ghost predicate DismissedAs(w: World, w': World, fd: int, withdrawn: bool, broken: set<int>)
    requires Wired(w) && Wired(w') && fd in w.fdToUser
    requires withdrawn ==> Queue(w, w.fdToUser[fd]) != []
  {
    var i, l := w.handles[fd], LinkOf(w, fd);
    && |w'.links| == |w.links|
    && if withdrawn && !w.fdStatus[fd] then
         if fd in broken then fd !in w'.fdToUser && w'.links[i] == L.Close(l)
         else
           && fd in w'.fdToUser && w'.handles[fd] == i && w'.fdStatus[fd]
           && w'.links[i] == L.SendDismiss(l, Queue(w, w.fdToUser[fd])[0])
       else
         && fd in w'.fdToUser && w'.handles[fd] == i && w'.fdStatus[fd] == w.fdStatus[fd]
         && w'.links[i] == l
  }

  lemma WithdrawDismisses(w: World, u: string, id: RequestId, broken: set<int>, fd: int)
    requires Wired(w) && Holds(w, u, id) && fd in w.fdToUser && w.fdToUser[fd] == u
    ensures DismissedAs(w, Withdraw(w, u, id, broken), fd, HeadIs(w, u, id), broken)
  {
    hide Withdraw, Wired, IndexOf, L.SendDismiss, L.Close;
    Known(w, fd);
    WithdrawFrame(w, u, id, broken);
    FirstOrNot(Queue(w, u), id);
  }

  lemma FirstOrNot(q: seq<NotificationRequest>, id: RequestId)
    requires IndexOf(q, id) < |q|
    ensures IndexOf(q, id) == 0 <==> q[0].id == id
  {
  }

  /** Connection `i`, and descriptor `fd` if it is registered, belong to none of these users. */
  ghost predicate Apart(w: World, users: seq<string>, fd: int, i: nat)
    requires Wired(w)
  {
    forall v :: v in users && v in w.userToFd ==> w.userToFd[v] != fd && w.handles[w.userToFd[v]] != i
  }

  ghost predicate Same(w: World, w': World, fd: int, i: nat)
    requires Wired(w) && Wired(w') && i < |w.links|
  {
    && |w'.links| == |w.links| && w'.links[i] == w.links[i]
    && (fd in w'.fdToUser <==> fd in w.fdToUser)
    && (fd in w.fdToUser ==>
          && w'.fdToUser[fd] == w.fdToUser[fd] && w'.handles[fd] == w.handles[fd]
          && w'.fdStatus[fd] == w.fdStatus[fd])
  }

  lemma WithdrawElsewhere(w: World, v: string, id: RequestId, broken: set<int>, users: seq<string>, fd: int, i: nat)
    requires Wired(w) && Holds(w, v, id) && i < |w.links|
    requires v in users && Apart(w, users, fd, i)
    ensures Same(w, Withdraw(w, v, id, broken), fd, i) && Apart(Withdraw(w, v, id, broken), users, fd, i)
  {
    hide Withdraw, IndexOf, L.SendDismiss, L.Close;
    var w' := Withdraw(w, v, id, broken);
    WithdrawFrame(w, v, id, broken);
    if v in w.userToFd {
      Known(w, w.userToFd[v]);
    }
    StillApart(w, v, id, broken, users, fd, i);
    hide Wired;
  }

  lemma StillApart(w: World, v: string, id: RequestId, broken: set<int>, users: seq<string>, fd: int, i: nat)
    requires Wired(w) && Holds(w, v, id) && Apart(w, users, fd, i)
    ensures Apart(Withdraw(w, v, id, broken), users, fd, i)
  {
    hide Withdraw, IndexOf, L.SendDismiss, L.Close;
    var w' := Withdraw(w, v, id, broken);
    WithdrawFrame(w, v, id, broken);
    forall u | u in users && u in w'.userToFd ensures w'.userToFd[u] != fd && w'.handles[w'.userToFd[u]] != i {
      assert u in w.userToFd && w'.userToFd[u] == w.userToFd[u];
      assert w'.userToFd[u] in w'.fdToUser;
    }
    hide Wired;
  }

  /** Scanning other users leaves a connection, or its absence, alone. */
  lemma {:induction false} RemoveFromElsewhere(w: World, users: seq<string>, id: RequestId, broken: set<int>, fd: int,
                                               i: nat)
    requires Wired(w) && i < |w.links| && Apart(w, users, fd, i)
    ensures Same(w, RemoveFrom(w, users, id, broken), fd, i)
    decreases |users|
  {
    hide Withdraw, Names;
    if users != [] && Holds(w, users[0], id) {
      var w' := Withdraw(w, users[0], id, broken);
      WithdrawElsewhere(w, users[0], id, broken, users, fd, i);
      assert Apart(w', users[1..], fd, i);
      hide Apart, Holds, Wired;
      RemoveFromElsewhere(w', users[1..], id, broken, fd, i);
    }
  }

  lemma {:induction false} RemoveFromDismisses(w: World, users: seq<string>, id: RequestId, broken: set<int>, fd: int)
    requires Wired(w) && fd in w.fdToUser
    requires forall i, j :: 0 <= i < j < |users| ==> users[i] != users[j]
    ensures var u := w.fdToUser[fd];
      DismissedAs(w, RemoveFrom(w, users, id, broken), fd,
        ReachedIn(w, users, u, id) && HeadIs(w, u, id), broken)
    decreases |users|
  {
    hide Withdraw, Names, L.SendDismiss, L.Close;
    Known(w, fd);
    var u := w.fdToUser[fd];
    if users != [] && Holds(w, users[0], id) {
      if u == users[0] {
        assert ReachedIn(w, users, u, id);
        FirstDismisses(w, users, id, broken, fd);
      } else {
        OtherDismisses(w, users, id, broken, fd);
        RemoveFromDismisses(Withdraw(w, users[0], id, broken), users[1..], id, broken, fd);
      }
    }
  }

  lemma NonEmptyHead(w: World, u: string, id: RequestId)
    ensures HeadIs(w, u, id) ==> Queue(w, u) != []
  {
  }

  /** The scan meets the connection's own user first; what follows is about others. */
  lemma FirstDismisses(w: World, users: seq<string>, id: RequestId, broken: set<int>, fd: int)
    requires Wired(w) && fd in w.fdToUser && users != [] && w.fdToUser[fd] == users[0] && Holds(w, users[0], id)
    requires forall i, j :: 0 <= i < j < |users| ==> users[i] != users[j]
    ensures DismissedAs(w, RemoveFrom(w, users, id, broken), fd, HeadIs(w, users[0], id), broken)
  {
    hide Withdraw, L.SendDismiss, L.Close, Wired, Apart, HeadIs, LinkOf;
    Known(w, fd);
    var w', i := Withdraw(w, users[0], id, broken), w.handles[fd];
    assert HeadIs(w, users[0], id) ==> Queue(w, users[0]) != [] by {
      NonEmptyHead(w, users[0], id);
    }
    hide Queue;
    WithdrawDismisses(w, users[0], id, broken, fd);
    WithdrawApart(w, users, id, broken, fd);
    RemoveFromElsewhere(w', users[1..], id, broken, fd, i);
  }

  lemma WithdrawApart(w: World, users: seq<string>, id: RequestId, broken: set<int>, fd: int)
    requires Wired(w) && fd in w.fdToUser && users != [] && w.fdToUser[fd] == users[0] && Holds(w, users[0], id)
    requires forall i, j :: 0 <= i < j < |users| ==> users[i] != users[j]
    ensures Apart(Withdraw(w, users[0], id, broken), users[1..], fd, w.handles[fd])
  {
    hide Withdraw, IndexOf, L.SendDismiss, L.Close;
    var w', rest := Withdraw(w, users[0], id, broken), users[1..];
    Known(w, fd);
    WithdrawFrame(w, users[0], id, broken);
    forall v | v in rest && v in w'.userToFd
      ensures w'.userToFd[v] != fd && w'.handles[w'.userToFd[v]] != w.handles[fd]
    {
      assert v != users[0] && v in w.userToFd && w'.userToFd[v] == w.userToFd[v];
      Known(w, w.userToFd[v]);
      assert w.userToFd[v] != fd && w.handles[w.userToFd[v]] != w.handles[fd];
      assert w'.userToFd[v] in w'.fdToUser;
    }
  }

  /** The scan meets another user first. */
  lemma OtherDismisses(w: World, users: seq<string>, id: RequestId, broken: set<int>, fd: int)
    requires Wired(w) && fd in w.fdToUser && users != [] && w.fdToUser[fd] != users[0] && Holds(w, users[0], id)
    requires forall i, j :: 0 <= i < j < |users| ==> users[i] != users[j]
    ensures var w', u := Withdraw(w, users[0], id, broken), w.fdToUser[fd];
      && w.handles[fd] < |w.links| && Same(w, w', fd, w.handles[fd]) && Queue(w', u) == Queue(w, u)
      && (ReachedIn(w, users, u, id) <==> ReachedIn(w', users[1..], u, id))
  {
    hide Withdraw, ReachedIn, Erased;
    var w', v, u := Withdraw(w, users[0], id, broken), users[0], w.fdToUser[fd];
    Known(w, fd);
    if v in w.userToFd {
      Known(w, w.userToFd[v]);
    }
    assert Apart(w, [v], fd, w.handles[fd]);
    hide Wired, Apart;
    WithdrawElsewhere(w, v, id, broken, [v], fd, w.handles[fd]);
    forall x ensures Queue(w', x) == if x == v then Erased(Queue(w, x), id) else Queue(w, x) {
      WithdrawQueues(w, v, id, broken, x);
    }
    ReachedInStep(w, w', users, u, id);
  }

  /** A cancel sends a dismiss on a connection exactly when the cancelled request was reached by
      the scan, was the head of that user's queue, and the connection was busy with it; every
      other registered connection is left as it was. */
  lemma CancelDismissesBusyHead(w: World, id: RequestId, broken: set<int>, fd: int)
    requires Wired(w) && fd in w.fdToUser
    ensures var u := w.fdToUser[fd];
      DismissedAs(w, RemoveRequest(w, id, broken), fd, Reached(w, u, id) && HeadIs(w, u, id), broken)
  {
    hide RemoveFrom, StringLeq, Holds, Users, DismissedAs, Reached, ReachedIn;
    UsersEnumerate(w);
    RemoveFromDismisses(w, Users(w.requests.Keys), id, broken, fd);
    ReachedIsReachedIn(w, w.fdToUser[fd], id);
  }

  lemma SomeOther(s: set<int>) returns (b: int)
    ensures b !in s
  {
    b := 0;
    if s != {} {
      IntOrder();
      var m := LeastExists(IntLeq, s);
      b := m - 1;
    }
  }

  /** A connection that is no longer registered is out of a cancel's reach. */
  lemma CancelLeavesClosed(w: World, id: RequestId, broken: set<int>, i: nat)
    requires Wired(w) && i < |w.links| && !w.links[i].open
    ensures |RemoveRequest(w, id, broken).links| == |w.links|
    ensures RemoveRequest(w, id, broken).links[i] == w.links[i]
  {
    var users := Users(w.requests.Keys);
    var fd := SomeOther(w.fdToUser.Keys);
    forall v | v in users && v in w.userToFd ensures w.userToFd[v] != fd && w.handles[w.userToFd[v]] != i {
      Known(w, w.userToFd[v]);
    }
    hide RemoveFrom, Users, Wired;
    RemoveFromElsewhere(w, users, id, broken, fd, i);
  }

  // ---- What is taken down -------------------------------------------------------------------

  ghost predicate WasRemoved(log: seq<Event>, u: string, r: NotificationRequest) {
    exists k :: 0 <= k < |log| && log[k].Removed? && log[k].user == u && log[k].request.Stripped() == r
  }

  lemma WasRemovedGrows(log: seq<Event>, log': seq<Event>, u: string, r: NotificationRequest)
    requires log <= log' && WasRemoved(log, u, r)
    ensures WasRemoved(log', u, r)
  {
    var k :| 0 <= k < |log| && log[k].Removed? && log[k].user == u && log[k].request.Stripped() == r;
    assert log'[k] == log[k];
  }

  lemma {:induction false} RemoveFromLog(w: World, users: seq<string>, id: RequestId, broken: set<int>)
    requires Wired(w)
    ensures w.log <= RemoveFrom(w, users, id, broken).log
    decreases |users|
  {
    hide Withdraw, Wired, IndexOf;
    if users != [] && IndexOf(Queue(w, users[0]), id) < |Queue(w, users[0])| {
      WithdrawFrame(w, users[0], id, broken);
      RemoveFromLog(Withdraw(w, users[0], id, broken), users[1..], id, broken);
    }
  }

  /** Whatever a scan takes out of a queue it takes down as removed. */
  lemma {:induction false} RemoveFromRecords(w: World, users: seq<string>, id: RequestId, broken: set<int>, u: string)
    requires Wired(w) && ReachedIn(w, users, u, id) && Holds(w, u, id)
    requires forall i, j :: 0 <= i < j < |users| ==> users[i] != users[j]
    ensures var q := Queue(w, u);
      WasRemoved(RemoveFrom(w, users, id, broken).log, u, q[IndexOf(q, id)].Stripped())
    decreases |users|
  {
    hide Withdraw, Wired, Erased, WasRemoved;
    var p :| 0 <= p < |users| && users[p] == u && forall j :: 0 <= j <= p ==> Holds(w, users[j], id);
    var v, q := users[0], Queue(w, u);
    var w', r := Withdraw(w, v, id, broken), q[IndexOf(q, id)];
    assert Holds(w, v, id);
    if u == v {
      WithdrawRecords(w, u, id, broken);
      RemoveFromLog(w', users[1..], id, broken);
      WasRemovedGrows(w'.log, RemoveFrom(w', users[1..], id, broken).log, u, r.Stripped());
    } else {
      forall x ensures Queue(w', x) == if x == v then Erased(Queue(w, x), id) else Queue(w, x) {
        WithdrawQueues(w, v, id, broken, x);
      }
      ReachedInStep(w, w', users, u, id);
      RemoveFromRecords(w', users[1..], id, broken, u);
    }
  }

  lemma WithdrawRecords(w: World, u: string, id: RequestId, broken: set<int>)
    requires Wired(w) && Holds(w, u, id)
    ensures WasRemoved(Withdraw(w, u, id, broken).log, u, Queue(w, u)[IndexOf(Queue(w, u), id)].Stripped())
  {
    hide Withdraw, Wired, IndexOf;
    WithdrawFrame(w, u, id, broken);
    assert Withdraw(w, u, id, broken).log[|w.log|].Removed?;
  }

  /** A cancel takes down the head it removes. */
  lemma CancelRecords(w: World, id: RequestId, broken: set<int>, u: string)
    requires Wired(w) && Reached(w, u, id) && HeadIs(w, u, id)
    ensures WasRemoved(RemoveRequest(w, id, broken).log, u, Queue(w, u)[0].Stripped())
  {
    hide RemoveFrom, StringLeq, Wired, WasRemoved, Users;
    UsersEnumerate(w);
    ReachedIsReachedIn(w, u, id);
    RemoveFromRecords(w, Users(w.requests.Keys), id, broken, u);
  }
}
