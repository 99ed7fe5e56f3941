/** The daemon's side as it is written: maps updated in place, loops over them, early exits. Each
    method does exactly what the function of the same critical section says. */
module NotificationTalker {
  import opened Types
  import opened Ordering
  import opened Frames
  import opened Iteration
  import Effects
  import W = World
  import L = Link

  datatype RequestType = RT_Action | RT_Cancel | RT_Close

  class NotificationTalker {
    const listener: int
    var requests: map<string, seq<NotificationRequest>>
    var userToFd: map<string, int>
    var fdToUser: map<int, string>
    var fdStatus: map<int, bool>
    var failed: bool
    var stopFlag: bool
    var handlerSet: bool

    // The sockets, and the record of what was done.
    var handles: map<int, nat>
    var links: seq<L.Link>
    var log: seq<W.Event>

    ghost function View(): W.World
      reads this
    {
      W.World(requests, userToFd, fdToUser, fdStatus, handles, links, log, failed)
    }

    constructor (listener: int)
      ensures this.listener == listener && View() == W.Initial() && !stopFlag && !handlerSet
    {
      this.listener := listener;
      requests, userToFd, fdToUser, fdStatus := map[], map[], map[], map[];
      handles, links, log := map[], [], [];
      failed, stopFlag, handlerSet := false, false, false;
    }

    /** `find_if` over a queue. */
    method Find(queue: seq<NotificationRequest>, id: RequestId) returns (k: nat)
      ensures k == W.IndexOf(queue, id)
    {
      k := 0;
      while k < |queue| && queue[k].id != id
        invariant k <= |queue|
        invariant W.IndexOf(queue, id) == k + W.IndexOf(queue[k..], id)
      {
        assert queue[k..][1..] == queue[k + 1..];
        k := k + 1;
      }
    }

    method AddRequest(request: NotificationRequest)
      requires W.Wired(View())
      modifies `requests, `log
      ensures View() == W.AddRequest(old(View()), request)
      ensures var user := request.data.user;
        var q := if user in old(requests) then old(requests)[user] else [];
        if exists e :: e in q && e.id == request.id then requests == old(requests)[user := q] && log == old(log)
        else requests == old(requests)[user := q + [request]] && log == old(log) + [W.Accepted(request)]
    {
      hide W.Wired, W.IndexOf;
      Effects.HasIdIff(W.Queue(View(), request.data.user), request.id);
      var user := request.data.user;
      if user !in requests {
        requests := requests[user := []];
      }
      var k := Find(requests[user], request.id);
      if k == |requests[user]| {
        requests := requests[user := requests[user] + [request]];
        log := log + [W.Accepted(request)];
      }
    }

    method Remove(fd: int)
      requires W.Wired(View()) && fd in fdToUser
      modifies `userToFd, `fdToUser, `fdStatus, `handles, `links
      ensures View() == W.Remove(old(View()), fd)
    {
      hide W.Wired, L.Close, L.SendDismiss, L.SendFrame, L.SendAck;
      W.Known(View(), fd);
      links := links[handles[fd] := L.Close(links[handles[fd]])];
      handles := handles - {fd};
      var user := fdToUser[fd];
      fdToUser := fdToUser - {fd};
      userToFd := userToFd - {user};
      fdStatus := fdStatus - {fd};
    }

    method SendDismiss(fd: int, withdrawn: NotificationRequest, broken: set<int>)
      requires W.Wired(View()) && fd in fdToUser
      modifies `userToFd, `fdToUser, `fdStatus, `handles, `links
      ensures View() == W.SendDismiss(old(View()), fd, withdrawn, broken)
    {
      hide W.Wired, L.Close, L.SendDismiss, L.SendFrame, L.SendAck;
      W.Known(View(), fd);
      if !fdStatus[fd] {
        if fd in broken {
          Remove(fd);
          return;
        }
        links := links[handles[fd] := L.SendDismiss(links[handles[fd]], withdrawn)];
        fdStatus := fdStatus[fd := true];
      }
    }

    /** The loop body: entry `k` of the user's queue is erased. */
    method Withdraw(user: string, id: RequestId, k: nat, broken: set<int>)
      requires W.Wired(View()) && user in requests
      requires k == W.IndexOf(requests[user], id) && k < |requests[user]|
      modifies `requests, `log, `userToFd, `fdToUser, `fdStatus, `handles, `links
      ensures View() == W.Withdraw(old(View()), user, id, broken)
    {
      var queue := requests[user];
      if k == 0 && user in userToFd {
        SendDismiss(userToFd[user], queue[0], broken);
      }
      requests := requests[user := queue[..k] + queue[k + 1..]];
      log := log + [W.Removed(user, queue[k])];
    }

    method RemoveRequest(id: RequestId, broken: set<int>)
      requires W.Wired(View())
      modifies `requests, `log, `userToFd, `fdToUser, `fdStatus, `handles, `links
      ensures View() == W.RemoveRequest(old(View()), id, broken)
    {
      hide W.Withdraw, W.Wired;
      ghost var start := View();
      var todo := requests.Keys;
      while todo != {}
        invariant W.Wired(View()) && todo <= requests.Keys
        invariant W.RemoveFrom(View(), Users(todo), id, broken) == W.RemoveRequest(start, id, broken)
        decreases |todo|
      {
        ghost var before := View();
        var user := FirstUser(todo);
        assert Users(todo)[1..] == Users(todo - {user});
        var k := Find(requests[user], id);
        if k == |requests[user]| {
          return;
        }
        WithdrawKeys(before, user, id, broken);
        Withdraw(user, id, k, broken);
        todo := todo - {user};
      }
    }

    /** `parseRequest`: nothing happens before a response handler is set. */
    method ParseRequest(kind: RequestType, request: NotificationRequest, broken: set<int>)
      requires W.Wired(View())
      modifies `requests, `log, `userToFd, `fdToUser, `fdStatus, `handles, `links, `stopFlag
      ensures View() ==
        if !handlerSet || kind.RT_Close? then old(View())
        else if kind.RT_Action? then W.AddRequest(old(View()), request)
        else W.RemoveRequest(old(View()), request.id, broken)
      ensures stopFlag == (old(stopFlag) || (handlerSet && kind.RT_Close?))
    {
      if !handlerSet {
        return;
      }
      match kind
      case RT_Close => stopFlag := true;
      case RT_Action => AddRequest(request);
      case RT_Cancel => RemoveRequest(request.id, broken);
    }

    method SendRequest(fd: int, request: NotificationRequest, broken: set<int>)
      requires W.Wired(View()) && fd in fdToUser
      modifies `userToFd, `fdToUser, `fdStatus, `handles, `links
      ensures View() == W.SendRequest(old(View()), fd, request, broken)
    {
      hide W.Wired, L.Close, L.SendDismiss, L.SendFrame, L.SendAck;
      W.Known(View(), fd);
      fdStatus := fdStatus[fd := false];
      assert View() == W.SetStatus(old(View()), fd, false);
      if fd in broken {
        Remove(fd);
        return;
      }
      links := links[handles[fd] := L.SendFrame(links[handles[fd]], request)];
    }

    method ParseResponse(response: NotificationResponse, fd: int, broken: set<int>)
      requires W.Wired(View()) && fd in fdToUser
      modifies `requests, `log, `userToFd, `fdToUser, `fdStatus, `handles, `links
      ensures View() == W.ParseResponse(old(View()), response, fd, broken)
    {
      hide W.Wired, L.Close, L.SendDismiss, L.SendFrame, L.SendAck;
      W.Known(View(), fd);
      var user := fdToUser[fd];
      if user !in requests {
        requests := requests[user := []];
      }
      var queue := requests[user];
      if queue == [] {
        fdStatus := fdStatus[fd := true];
        return;
      }
      var request := queue[0];
      if request.id != response.id {
        fdStatus := fdStatus[fd := true];
        return;
      }
      AcceptResponse(response, fd, broken);
    }

    /** The answer is for the head of the queue: it is handed on and acknowledged. */
    method AcceptResponse(response: NotificationResponse, fd: int, broken: set<int>)
      requires W.Wired(View()) && fd in fdToUser && fdToUser[fd] in requests
      requires requests[fdToUser[fd]] != [] && requests[fdToUser[fd]][0].id == response.id
      modifies `requests, `log, `userToFd, `fdToUser, `fdStatus, `handles, `links
      ensures View() == W.ParseResponse(old(View()), response, fd, broken)
    {
      hide W.Wired, L.Close, L.SendDismiss, L.SendFrame, L.SendAck;
      W.Known(View(), fd);
      var user := fdToUser[fd];
      var queue := requests[user];
      var request := queue[0];
      requests := requests[user := queue[1..]];
      log := log + [W.Answered(handles[fd], user, request, response.response)];
      links := links[handles[fd] := L.Accept(links[handles[fd]], request, response.response)];
      assert View() == W.SetLink(W.Log(W.SetQueue(old(View()), user, queue[1..]),
                                       W.Answered(handles[fd], user, request, response.response)),
                                 fd, links[handles[fd]]);
      if fd in broken {
        Remove(fd);
        return;
      }
      links := links[handles[fd] := L.SendAck(links[handles[fd]])];
      fdStatus := fdStatus[fd := true];
    }

    /** One ready connection: a response is read and parsed, or the stream has ended. */
    method ReadConnection(fd: int, io: Io)
      requires W.Wired(View()) && CanServe(View(), fd, io) && fd in io.ready
      modifies `requests, `log, `userToFd, `fdToUser, `fdStatus, `handles, `links
      ensures View() == Serve(old(View()), fd, io)
    {
      hide W.Wired, L.Close, L.SendDismiss, L.SendFrame, L.SendAck;
      W.Known(View(), fd);
      if fd in io.gone {
        Remove(fd);
      } else {
        var response := links[handles[fd]].toDaemon[0];
        links := links[handles[fd] := L.TakeResponse(links[handles[fd]])];
        assert View() == W.SetLink(old(View()), fd, links[handles[fd]]);
        ParseResponse(response, fd, io.broken);
      }
    }

    /** `recvResponses`: the loop stops as soon as it has met as many ready descriptors as select
        counted, and still serves the same connections as if it looked at all of them. */
    method RecvResponses(count: nat, io: Io) returns (rv: nat)
      requires W.Wired(View())
      requires forall fd :: fd in fdToUser ==> CanServe(View(), fd, io)
      requires |set fd | fd in io.ready && fd in fdToUser| <= count
      modifies `requests, `log, `userToFd, `fdToUser, `fdStatus, `handles, `links
      ensures View() == ServeAll(old(View()), ServeOrder(old(View())), io)
      ensures rv <= count
    {
      hide ServeAll, W.Receive, W.Remove, Remaining, Pending, FdsLeft, CanServe, W.Wired, Users;
      rv := count;
      ghost var start := View();
      var snapshot := userToFd;
      var todo := snapshot.Keys;
      StartServing(start, io);
      while todo != {}
        invariant W.Wired(View()) && todo <= snapshot.Keys && snapshot == start.userToFd && rv <= count
        invariant Remaining(start, View(), todo, io)
        invariant RestOf(start, View(), todo, io) == ServeAll(start, ServeOrder(start), io)
        invariant |Pending(start, todo, io)| <= rv
        decreases |todo|
      {
        if rv == 0 {
          StopServing(start, View(), todo, io);
          return;
        }
        var user := FirstUser(todo);
        var fd := snapshot[user];
        ServeNext(start, View(), todo, user, io);
        if fd in io.ready {
          rv := rv - 1;
          ReadConnection(fd, io);
        }
        todo := todo - {user};
      }
      NoPending(start, io);
      StopServing(start, View(), todo, io);
    }

    /** `newConnection`, given what accept and the credentials check returned. */
    method NewConnection(count: nat, io: Io) returns (rv: nat)
      requires W.Wired(View())
      requires io.accepted.Some? ==> io.accepted.value.1 !in fdToUser && 0 < count
      modifies `userToFd, `fdToUser, `fdStatus, `handles, `links
      ensures View() == Arrive(old(View()), io)
      ensures io.accepted.Some? ==>
        var (user, fd) := io.accepted.value;
        && user in userToFd && userToFd[user] == fd && fd in fdToUser && fdToUser[fd] == user
        && fd in fdStatus && fdStatus[fd] && fd in handles && handles[fd] == |old(links)|
        && |links| == |old(links)| + 1 && links[|old(links)|] == L.Fresh(user)
      ensures rv == if io.accepted.Some? then count - 1 else count
    {
      rv := count;
      if io.accepted.Some? {
        hide L.Fresh, L.Close, W.Wired;
        rv := rv - 1;
        var (user, fd) := io.accepted.value;
        if user in userToFd {
          OwnDescriptor(View(), user);
          W.Known(View(), userToFd[user]);
          Remove(userToFd[user]);
        }
        handles := handles[fd := |links|];
        links := links + [L.Fresh(user)];
        userToFd := userToFd[user := fd];
        fdToUser := fdToUser[fd := user];
        fdStatus := fdStatus[fd := true];
      }
    }

    /** One free connection is given the head of its user's queue. */
    method Hand(fd: int, broken: set<int>)
      requires W.Wired(View()) && fd in fdToUser
      modifies `requests, `userToFd, `fdToUser, `fdStatus, `handles, `links
      ensures View() == W.Push(old(View()), fd, broken)
    {
      hide W.Wired;
      W.Known(View(), fd);
      var user := fdToUser[fd];
      if user !in requests {
        requests := requests[user := []];
      }
      assert View() == W.SetQueue(old(View()), user, W.Queue(old(View()), user));
      if fdStatus[fd] && requests[user] != [] {
        SendRequest(fd, requests[user][0], broken);
      }
    }

    /** The loop that gives every free connection the head of its user's queue. */
    method PushRequests(broken: set<int>)
      requires W.Wired(View())
      modifies `requests, `userToFd, `fdToUser, `fdStatus, `handles, `links
      ensures View() == PushAll(old(View()), PushOrder(old(View())), broken)
    {
      hide W.Wired, W.Push, Descriptors, PushAll;
      ghost var start := View();
      var todo := fdStatus.Keys;
      assert PushOrder(start) == Descriptors(todo);
      while todo != {}
        invariant W.Wired(View())
        invariant CanPush(View(), todo)
        invariant PushAll(View(), Descriptors(todo), broken) == PushAll(start, PushOrder(start), broken)
        decreases |todo|
      {
        var fd := FirstDescriptor(todo);
        PushNext(View(), todo, fd, broken);
        Hand(fd, broken);
        todo := todo - {fd};
      }
      PushNone(View(), broken);
    }

    /** The body of `run`'s loop, for a select count equal to the number of ready descriptors. */
    method Turn(io: Io)
      requires W.Wired(View()) && Possible(View(), listener, io)
      modifies `requests, `log, `userToFd, `fdToUser, `fdStatus, `handles, `links
      ensures View() == Pass(old(View()), listener, io)
      ensures forall fd :: fd in fdToUser && fdStatus[fd] ==> fdToUser[fd] !in requests || requests[fdToUser[fd]] == []
    {
      ghost var start := View();
      var rv := |io.ready|;
      ArriveCanServe(start, listener, io);
      CountLeft(start, listener, io);
      if rv != 0 {
        rv := NewConnection(rv, io);
        rv := RecvResponses(rv, io);
      } else {
        NoneReady(start, listener, io);
      }
      assert View() == Responses(start, listener, io);
      PushRequests(io.broken);
      forall fd | fd in fdToUser && fdStatus[fd]
        ensures fdToUser[fd] !in requests || requests[fdToUser[fd]] == []
      {
        PassServesEverything(start, listener, io, fd);
      }
    }

    /** Every request of one queue is answered with an error. */
    method ReportQueue(user: string)
      requires user in requests
      modifies `log
      ensures log == old(log) + W.QueueErrors(user, requests[user])
    {
      var queue := requests[user];
      for i := 0 to |queue|
        invariant log == old(log) + W.QueueErrors(user, queue[..i])
      {
        assert W.QueueErrors(user, queue[..i + 1]) == W.QueueErrors(user, queue[..i]) + [W.Errored(user, queue[i])];
        log := log + [W.Errored(user, queue[i])];
      }
      assert queue[..|queue|] == queue;
    }

    /** What `run` does once its loop has thrown. */
    method ReportFailure()
      requires W.Wired(View())
      modifies `log, `failed
      ensures View() == W.Fail(old(View()))
    {
      hide W.QueueErrors, W.Wired, Users;
      failed := true;
      ghost var start := old(View());
      var todo := requests.Keys;
      while todo != {}
        invariant todo <= requests.Keys && failed
        invariant log + W.AllErrors(start, Users(todo)) == start.log + W.AllErrors(start, Users(requests.Keys))
        decreases |todo|
      {
        var user := FirstUser(todo);
        ghost var before := log;
        ReportQueue(user);
        AllErrorsStep(start, before, todo, user);
        todo := todo - {user};
      }
      NoUsers();
      assert log + [] == log;
    }

    method CloseAll()
      requires fdStatus.Keys == handles.Keys && forall fd :: fd in handles ==> handles[fd] < |links|
      modifies `links
      ensures |links| == |old(links)|
      ensures forall i :: 0 <= i < |links| ==>
        links[i] == if Named(handles, i) then L.Close(old(links)[i]) else old(links)[i]
    {
      hide L.Close;
      var todo := fdStatus.Keys;
      ghost var start := links;
      while todo != {}
        invariant todo <= handles.Keys && |links| == |start|
        invariant forall i :: 0 <= i < |start| ==>
          links[i] == start[i] || (links[i] == L.Close(start[i]) && Named(handles, i))
        invariant forall fd :: fd in handles && fd !in todo ==> links[handles[fd]] == L.Close(start[handles[fd]])
        decreases |todo|
      {
        var fd := FirstDescriptor(todo);
        CloseTwice(start[handles[fd]]);
        links := links[handles[fd] := L.Close(links[handles[fd]])];
        todo := todo - {fd};
      }
    }

    /** `clear`: every descriptor is closed and every map emptied. */
    method Clear()
      requires W.Wired(View())
      modifies `userToFd, `fdToUser, `fdStatus, `handles, `links
      ensures View() == W.Clear(old(View()))
    {
      assert forall fd :: fd in handles ==> W.Names(View(), fd);
      CloseAll();
      ClearedLinks(old(View()), links);
      fdStatus, fdToUser, userToFd, handles := map[], map[], map[], map[];
    }
  }

  ghost predicate Named(handles: map<int, nat>, i: nat) {
    exists fd :: fd in handles && handles[fd] == i
  }

  lemma CloseTwice(l: L.Link)
    ensures L.Close(L.Close(l)) == L.Close(l)
  {
  }

  lemma ClearedLinks(w: W.World, links: seq<L.Link>)
    requires W.Wired(w) && |links| == |w.links|
    requires forall i :: 0 <= i < |links| ==>
      links[i] == if Named(w.handles, i) then L.Close(w.links[i]) else w.links[i]
    ensures links == W.Clear(w).links
  {
    assert forall fd :: fd in w.handles ==> W.Names(w, fd);
  }

  // ---- The ready count ----------------------------------------------------------------------

  /** The descriptors still to be looked at, when users `todo` of the snapshot are left. */
  ghost function FdsLeft(start: W.World, todo: set<string>): seq<int>
    requires todo <= start.userToFd.Keys
  {
    TodoUsers(start, todo);
    Fds(start, Users(todo))
  }

  lemma TodoUsers(start: W.World, todo: set<string>)
    requires todo <= start.userToFd.Keys
    ensures forall u :: u in Users(todo) <==> u in todo
    ensures forall u :: u in Users(todo) ==> u in start.userToFd
    ensures forall i, j :: 0 <= i < j < |Users(todo)| ==> Users(todo)[i] != Users(todo)[j]
  {
    StringOrder();
    AscendingSpec(StringLeq, todo);
  }

  ghost function Pending(start: W.World, todo: set<string>, io: Io): set<int>
    requires todo <= start.userToFd.Keys
  {
    set u | u in todo && start.userToFd[u] in io.ready :: start.userToFd[u]
  }

  /** The rest of the loop can be carried out in the present state. */
  ghost predicate Remaining(start: W.World, now: W.World, todo: set<string>, io: Io)
    requires W.Wired(now) && todo <= start.userToFd.Keys
  {
    && W.Wired(start)
    && (forall fd :: fd in FdsLeft(start, todo) ==> CanServe(now, fd, io))
    && (forall i, j :: 0 <= i < j < |FdsLeft(start, todo)| ==> FdsLeft(start, todo)[i] != FdsLeft(start, todo)[j])
  }

  lemma StartServing(start: W.World, io: Io)
    requires W.Wired(start) && (forall fd :: fd in start.fdToUser ==> CanServe(start, fd, io))
    ensures Remaining(start, start, start.userToFd.Keys, io)
    ensures FdsLeft(start, start.userToFd.Keys) == ServeOrder(start)
    ensures Pending(start, start.userToFd.Keys, io) == set fd | fd in io.ready && fd in start.fdToUser
  {
    hide CanServe, Users;
    var todo := start.userToFd.Keys;
    TodoUsers(start, todo);
    assert FdsLeft(start, todo) == ServeOrder(start);
    forall fd | fd in io.ready && fd in start.fdToUser ensures fd in Pending(start, todo, io) {
      assert start.userToFd[start.fdToUser[fd]] == fd;
    }
  }

  lemma {:induction false} ServeNothing(w: W.World, fds: seq<int>, io: Io)
    requires W.Wired(w) && (forall fd :: fd in fds ==> CanServe(w, fd, io) && fd !in io.ready)
    requires forall i, j :: 0 <= i < j < |fds| ==> fds[i] != fds[j]
    ensures ServeAll(w, fds, io) == w
    decreases |fds|
  {
    if fds != [] {
      ServeNothing(w, fds[1..], io);
    }
  }

  lemma FdsLeftStep(start: W.World, todo: set<string>, user: string)
    requires todo <= start.userToFd.Keys && user in todo
    requires Users(todo) == [user] + Users(todo - {user})
    ensures FdsLeft(start, todo) == [start.userToFd[user]] + FdsLeft(start, todo - {user})
  {
    hide Users;
    TodoUsers(start, todo);
    TodoUsers(start, todo - {user});
    assert Users(todo)[1..] == Users(todo - {user});
  }

  lemma PendingStep(start: W.World, todo: set<string>, user: string, io: Io)
    requires W.Wired(start) && todo <= start.userToFd.Keys && user in todo
    ensures var fd := start.userToFd[user];
      |Pending(start, todo - {user}, io)| + (if fd in io.ready then 1 else 0) == |Pending(start, todo, io)|
  {
    var fd, rest := start.userToFd[user], todo - {user};
    forall u | u in rest ensures start.userToFd[u] != fd {
      assert start.fdToUser[start.userToFd[u]] == u && start.fdToUser[fd] == user;
    }
    hide W.Wired;
    if fd in io.ready {
      assert Pending(start, todo, io) == Pending(start, rest, io) + {fd};
    } else {
      assert Pending(start, todo, io) == Pending(start, rest, io);
    }
  }

  /** One turn of the response loop, whether or not the connection is ready. */
  lemma ServeNext(start: W.World, now: W.World, todo: set<string>, user: string, io: Io)
    requires W.Wired(now) && todo <= start.userToFd.Keys && user in todo
    requires Remaining(start, now, todo, io)
    requires Users(todo) == [user] + Users(todo - {user})
    ensures var fd, rest := start.userToFd[user], todo - {user};
      && CanServe(now, fd, io)
      && Remaining(start, Serve(now, fd, io), rest, io)
      && ServeAll(now, FdsLeft(start, todo), io) == ServeAll(Serve(now, fd, io), FdsLeft(start, rest), io)
      && |Pending(start, rest, io)| + (if fd in io.ready then 1 else 0) == |Pending(start, todo, io)|
  {
    hide CanServe, Serve, Users, FdsLeft, W.Wired;
    var fd, rest := start.userToFd[user], todo - {user};
    FdsLeftStep(start, todo, user);
    PendingStep(start, todo, user, io);
    var left := FdsLeft(start, rest);
    assert FdsLeft(start, todo)[0] == fd && FdsLeft(start, todo)[1..] == left;
    assert fd in FdsLeft(start, todo);
    assert forall gd :: gd in left ==> gd in FdsLeft(start, todo);
    assert fd !in left;
    ServeKeeps(now, fd, io, left);
  }

  lemma ReadyIsPending(start: W.World, todo: set<string>, io: Io)
    requires W.Wired(start) && todo <= start.userToFd.Keys
    ensures forall fd :: fd in FdsLeft(start, todo) && fd in io.ready ==> fd in Pending(start, todo, io)
  {
    hide Users;
    TodoUsers(start, todo);
    var users := Users(todo);
    FdsOf(start, users);
    forall fd | fd in FdsLeft(start, todo) && fd in io.ready ensures fd in Pending(start, todo, io) {
      var i :| 0 <= i < |users| && Fds(start, users)[i] == fd;
      assert users[i] in users;
      assert start.userToFd[users[i]] == fd;
    }
  }

  /** What is left of the loop, as a function of where it has got to. */
  ghost function RestOf(start: W.World, now: W.World, todo: set<string>, io: Io): W.World
    requires W.Wired(now) && todo <= start.userToFd.Keys && Remaining(start, now, todo, io)
  {
    ServeAll(now, FdsLeft(start, todo), io)
  }

  /** With nothing pending, nothing is left to do: leaving the loop early loses no connection. */
  lemma StopServing(start: W.World, now: W.World, todo: set<string>, io: Io)
    requires W.Wired(now) && todo <= start.userToFd.Keys && Remaining(start, now, todo, io)
    requires |Pending(start, todo, io)| == 0
    ensures RestOf(start, now, todo, io) == now
  {
    hide CanServe, ServeAll, FdsLeft, W.Wired;
    ReadyIsPending(start, todo, io);
    assert Pending(start, todo, io) == {};
    ServeNothing(now, FdsLeft(start, todo), io);
  }

  lemma NoPending(start: W.World, io: Io)
    ensures Pending(start, {}, io) == {}
  {
  }

  lemma WithdrawKeys(w: W.World, user: string, id: RequestId, broken: set<int>)
    requires W.Wired(w) && W.IndexOf(W.Queue(w, user), id) < |W.Queue(w, user)|
    ensures W.Withdraw(w, user, id, broken).requests.Keys == w.requests.Keys
  {
    hide W.Withdraw, W.Wired, W.IndexOf;
    WithdrawFrame(w, user, id, broken);
  }

  ghost predicate CanPush(w: W.World, todo: set<int>) {
    && (forall fd :: fd in Descriptors(todo) ==> fd in w.fdToUser)
    && (forall i, j :: 0 <= i < j < |Descriptors(todo)| ==> Descriptors(todo)[i] != Descriptors(todo)[j])
  }

  lemma PushNext(w: W.World, todo: set<int>, fd: int, broken: set<int>)
    requires W.Wired(w) && CanPush(w, todo) && fd in todo
    requires Descriptors(todo) == [fd] + Descriptors(todo - {fd})
    ensures fd in w.fdToUser
    ensures CanPush(W.Push(w, fd, broken), todo - {fd})
    ensures PushAll(w, Descriptors(todo), broken) == PushAll(W.Push(w, fd, broken), Descriptors(todo - {fd}), broken)
  {
    hide W.Push, Descriptors, W.Wired;
    var left := Descriptors(todo - {fd});
    assert Descriptors(todo)[0] == fd && Descriptors(todo)[1..] == left;
    assert fd in Descriptors(todo);
    assert forall gd :: gd in left ==> gd in Descriptors(todo);
    assert fd !in left;
    PushKeeps(w, fd, broken, left);
  }

  lemma PushNone(w: W.World, broken: set<int>)
    requires W.Wired(w)
    ensures Descriptors({}) == [] && PushAll(w, [], broken) == w
  {
    IntOrder();
  }

  lemma NoUsers()
    ensures Users({}) == []
  {
    StringOrder();
  }

  lemma AllErrorsStep(w: W.World, log: seq<W.Event>, todo: set<string>, user: string)
    requires Users(todo) == [user] + Users(todo - {user})
    ensures log + W.AllErrors(w, Users(todo))
         == log + W.QueueErrors(user, W.Queue(w, user)) + W.AllErrors(w, Users(todo - {user}))
  {
    hide Users;
    assert Users(todo)[1..] == Users(todo - {user});
  }

  /** After the listener is taken off the count, it still covers every ready connection that is
      registered: a reconnect can only take registered descriptors away. */
  lemma CountLeft(w: W.World, listener: int, io: Io)
    requires W.Wired(w) && Possible(w, listener, io)
    ensures |set fd | fd in io.ready && fd in Arrive(w, io).fdToUser|
         <= |io.ready| - (if io.accepted.Some? then 1 else 0)
  {
    var left := set fd | fd in io.ready && fd in Arrive(w, io).fdToUser;
    if io.accepted.Some? {
      var others := io.ready - {listener};
      assert left <= others;
      assert others == left + (others - left);
    } else {
      assert io.ready == left + (io.ready - left);
    }
  }

  lemma NoneReady(w: W.World, listener: int, io: Io)
    requires W.Wired(w) && Possible(w, listener, io) && |io.ready| == 0
    ensures Responses(w, listener, io) == w
  {
    hide ServeOrder;
    ArriveCanServe(w, listener, io);
    ServeNothing(w, ServeOrder(w), io);
  }
}
