/** One pass of the daemon's loop: a new connection, the responses that are ready, and a request
    for every connection that is free. */
module Iteration {
  import opened Types
  import opened Ordering
  import opened World
  import opened Frames
  import L = Link

  /** What the kernel reports during one pass: the descriptors select marked, whose reads hit the
      end of the stream, whose writes fail, and what accept returned. */
  datatype Io = Io(ready: set<int>, gone: set<int>, broken: set<int>, accepted: Option<(string, int)>)

  /** What a kernel may report in state `w`, with `listener` the listening descriptor. */
  ghost predicate Possible(w: World, listener: int, io: Io)
    requires Wired(w)
  {
    && !w.failed
    && listener !in w.fdToUser
    && (forall fd :: fd in io.ready ==> fd == listener || fd in w.fdToUser)
    && (listener in io.ready <==> io.accepted.Some?)
    && (io.accepted.Some? ==>
          io.accepted.value.1 !in w.fdToUser && io.accepted.value.1 != listener)
    && (forall fd :: fd in io.ready && fd in w.fdToUser ==>
          if fd in io.gone then AtEnd(LinkOf(w, fd)) else LinkOf(w, fd).toDaemon != [])
  }

  ghost function Arrive(w: World, io: Io): (w': World)
    requires Wired(w) && (io.accepted.Some? ==> io.accepted.value.1 !in w.fdToUser)
    ensures Wired(w')
  {
    match io.accepted
    case None => w
    case Some((u, fd)) => Connect(w, u, fd)
  }

  /** A ready connection is read, or dropped at the end of its stream. */
  ghost predicate CanServe(w: World, fd: int, io: Io)
    requires Wired(w)
  {
    && fd in w.fdToUser
    && (fd in io.ready ==>
          if fd in io.gone then AtEnd(LinkOf(w, fd)) else LinkOf(w, fd).toDaemon != [])
  }

  ghost function Serve(w: World, fd: int, io: Io): (w': World)
    requires Wired(w) && CanServe(w, fd, io)
    ensures Wired(w')
  {
    if fd !in io.ready then w
    else if fd in io.gone then Remove(w, fd)
    else Receive(w, fd, io.broken)
  }

  lemma ServeOnly(w: World, fd: int, io: Io)
    requires Wired(w) && CanServe(w, fd, io)
    ensures OnlyOf(w, Serve(w, fd, io), fd)
  {
    hide Wired, Receive, Remove, OnlyOf;
    if fd !in io.ready {
      SameOnly(w, fd);
    } else if fd in io.gone {
      RemoveOnly(w, fd);
    } else {
      ReceiveOnly(w, fd, io.broken);
    }
  }

  lemma SameOnly(w: World, fd: int)
    requires Wired(w) && fd in w.fdToUser
    ensures OnlyOf(w, w, fd)
  {
    hide Wired, OnlyOf;
    OnlyIsOnlyOf(w, w, fd, [], LinkOf(w, fd), true) by {
      Known(w, fd);
    }
  }

  /** Serving one connection leaves every other one as it was. */
  lemma ServeElsewhere(w: World, fd: int, io: Io, gd: int)
    requires Wired(w) && CanServe(w, fd, io) && gd in w.fdToUser && gd != fd
    ensures Untouched(w, Serve(w, fd, io), gd)
  {
    hide Serve, Wired, Untouched;
    ServeOnly(w, fd, io);
  }

  /** All of them, with no count of how many were ready. */
  ghost function ServeAll(w: World, fds: seq<int>, io: Io): (w': World)
    requires Wired(w) && (forall fd :: fd in fds ==> CanServe(w, fd, io))
    requires forall i, j :: 0 <= i < j < |fds| ==> fds[i] != fds[j]
    ensures Wired(w')
    decreases |fds|
  {
    if fds == [] then w else
      ServeKeeps(w, fds[0], io, fds[1..]);
      ServeAll(Serve(w, fds[0], io), fds[1..], io)
  }

  lemma ServeKeeps(w: World, fd: int, io: Io, fds: seq<int>)
    requires Wired(w) && CanServe(w, fd, io) && fd !in fds
    requires forall gd :: gd in fds ==> CanServe(w, gd, io)
    ensures forall gd :: gd in fds ==> CanServe(Serve(w, fd, io), gd, io)
  {
    hide Serve, Wired;
    forall gd | gd in fds ensures CanServe(Serve(w, fd, io), gd, io) {
      assert CanServe(w, gd, io);
      ServeElsewhere(w, fd, io, gd);
      Known(w, gd);
    }
  }

  ghost function PushAll(w: World, fds: seq<int>, broken: set<int>): (w': World)
    requires Wired(w) && (forall fd :: fd in fds ==> fd in w.fdToUser)
    requires forall i, j :: 0 <= i < j < |fds| ==> fds[i] != fds[j]
    ensures Wired(w')
    decreases |fds|
  {
    if fds == [] then w else
      PushKeeps(w, fds[0], broken, fds[1..]);
      PushAll(Push(w, fds[0], broken), fds[1..], broken)
  }

  lemma PushElsewhere(w: World, fd: int, broken: set<int>, gd: int)
    requires Wired(w) && fd in w.fdToUser && gd in w.fdToUser && gd != fd
    ensures Untouched(w, Push(w, fd, broken), gd)
  {
    hide Push, Wired, Untouched;
    PushOnly(w, fd, broken);
  }

  lemma PushKeeps(w: World, fd: int, broken: set<int>, fds: seq<int>)
    requires Wired(w) && fd in w.fdToUser && fd !in fds
    requires forall gd :: gd in fds ==> gd in w.fdToUser
    ensures forall gd :: gd in fds ==> gd in Push(w, fd, broken).fdToUser
  {
    hide Push, Wired;
    forall gd | gd in fds ensures gd in Push(w, fd, broken).fdToUser {
      PushElsewhere(w, fd, broken, gd);
    }
  }

  // ---- The orders of iteration --------------------------------------------------------------

  /** The descriptors of the user map, in the order of its users. */
  ghost function Fds(w: World, users: seq<string>): seq<int>
    requires forall u :: u in users ==> u in w.userToFd
  {
    if users == [] then [] else [w.userToFd[users[0]]] + Fds(w, users[1..])
  }

  lemma {:induction false} FdsOf(w: World, users: seq<string>)
    requires Wired(w) && (forall u :: u in users ==> u in w.userToFd)
    requires forall i, j :: 0 <= i < j < |users| ==> users[i] != users[j]
    ensures |Fds(w, users)| == |users|
    ensures forall i :: 0 <= i < |users| ==> Fds(w, users)[i] == w.userToFd[users[i]]
    ensures forall i, j :: 0 <= i < j < |users| ==> Fds(w, users)[i] != Fds(w, users)[j]
    decreases |users|
  {
    hide Wired;
    if users != [] {
      assert forall u :: u in users[1..] ==> u in users;
      FdsOf(w, users[1..]);
      forall i | 0 <= i < |users| ensures Fds(w, users)[i] == w.userToFd[users[i]] {
        assert i > 0 ==> users[i] == users[1..][i - 1];
      }
      hide Fds;
      forall i, j | 0 <= i < j < |users| ensures w.userToFd[users[i]] != w.userToFd[users[j]] {
        assert users[i] in users && users[j] in users;
        OwnDescriptor(w, users[i]);
        OwnDescriptor(w, users[j]);
      }
    }
  }

  lemma OwnDescriptor(w: World, u: string)
    requires Wired(w) && u in w.userToFd
    ensures w.userToFd[u] in w.fdToUser && w.fdToUser[w.userToFd[u]] == u
  {
  }

  ghost function ServeOrder(w: World): (fds: seq<int>)
    requires Wired(w)
    ensures forall fd :: fd in fds <==> fd in w.fdToUser
    ensures forall i, j :: 0 <= i < j < |fds| ==> fds[i] != fds[j]
  {
    var users := Users(w.userToFd.Keys);
    StringOrder();
    AscendingSpec(StringLeq, w.userToFd.Keys);
    FdsOf(w, users);
    ServeOrderCovers(w, users);
    Fds(w, users)
  }

  lemma ServeOrderCovers(w: World, users: seq<string>)
    requires Wired(w) && (forall u :: u in users <==> u in w.userToFd)
    requires forall i, j :: 0 <= i < j < |users| ==> users[i] != users[j]
    ensures forall fd :: fd in Fds(w, users) <==> fd in w.fdToUser
  {
    FdsOf(w, users);
    forall fd | fd in Fds(w, users) ensures fd in w.fdToUser {
      var i :| 0 <= i < |users| && Fds(w, users)[i] == fd;
      assert users[i] in users;
    }
    forall fd | fd in w.fdToUser ensures fd in Fds(w, users) {
      assert w.fdToUser[fd] in users;
      var i :| 0 <= i < |users| && users[i] == w.fdToUser[fd];
      assert Fds(w, users)[i] == fd;
    }
  }

  ghost function PushOrder(w: World): (fds: seq<int>)
    requires Wired(w)
    ensures forall fd :: fd in fds <==> fd in w.fdToUser
    ensures forall i, j :: 0 <= i < j < |fds| ==> fds[i] != fds[j]
  {
    IntOrder();
    AscendingSpec(IntLeq, w.fdStatus.Keys);
    Descriptors(w.fdStatus.Keys)
  }

  // ---- The whole pass -----------------------------------------------------------------------

  ghost function Responses(w: World, listener: int, io: Io): (w': World)
    requires Wired(w) && Possible(w, listener, io)
    ensures Wired(w')
  {
    var w1 := Arrive(w, io);
    ArriveCanServe(w, listener, io);
    ServeAll(w1, ServeOrder(w1), io)
  }

  ghost function Pass(w: World, listener: int, io: Io): (w': World)
    requires Wired(w) && Possible(w, listener, io)
    ensures Wired(w')
  {
    var w2 := Responses(w, listener, io);
    PushAll(w2, PushOrder(w2), io.broken)
  }

  lemma ArriveCanServe(w: World, listener: int, io: Io)
    requires Wired(w) && Possible(w, listener, io)
    ensures forall fd :: fd in Arrive(w, io).fdToUser ==> CanServe(Arrive(w, io), fd, io)
  {
    var w1 := Arrive(w, io);
    forall fd | fd in w1.fdToUser ensures CanServe(w1, fd, io) {
      if fd in io.ready {
        assert fd in w.fdToUser && LinkOf(w1, fd) == LinkOf(w, fd);
      }
    }
  }

  // ---- What a pass achieves -----------------------------------------------------------------

  ghost predicate Settled(w: World, fd: int)
    requires Wired(w)
  {
    fd in w.fdToUser && w.fdStatus[fd] ==> Queue(w, w.fdToUser[fd]) == []
  }

  lemma {:induction false} PushAllSettles(w: World, fds: seq<int>, broken: set<int>, gd: int)
    requires Wired(w) && (forall fd :: fd in fds ==> fd in w.fdToUser)
    requires forall i, j :: 0 <= i < j < |fds| ==> fds[i] != fds[j]
    requires gd in fds || Settled(w, gd)
    ensures Settled(PushAll(w, fds, broken), gd)
    ensures PushAll(w, fds, broken).fdToUser.Keys <= w.fdToUser.Keys
    decreases |fds|
  {
    hide Push;
    if fds != [] {
      PushKeeps(w, fds[0], broken, fds[1..]);
      PushSettles(w, fds[0], broken, gd);
      PushAllSettles(Push(w, fds[0], broken), fds[1..], broken, gd);
    }
  }

  lemma PushSettles(w: World, fd: int, broken: set<int>, gd: int)
    requires Wired(w) && fd in w.fdToUser
    ensures gd == fd || Settled(w, gd) ==> Settled(Push(w, fd, broken), gd)
    ensures Push(w, fd, broken).fdToUser.Keys <= w.fdToUser.Keys
  {
    hide Push, Wired, L.Close, L.SendFrame;
    Known(w, fd);
    PushFrame(w, fd, broken);
    if gd in w.fdToUser && gd != fd {
      PushElsewhere(w, fd, broken, gd);
    }
  }

  /** At the end of a pass no registered connection is both free and has a request queued. */
  lemma PassServesEverything(w: World, listener: int, io: Io, fd: int)
    requires Wired(w) && Possible(w, listener, io)
    ensures var w' := Pass(w, listener, io);
      fd in w'.fdToUser && w'.fdStatus[fd] ==> Queue(w', w'.fdToUser[fd]) == []
  {
    hide Responses;
    var w2 := Responses(w, listener, io);
    if fd in Pass(w, listener, io).fdToUser {
      PushAllSettles(w2, PushOrder(w2), io.broken, fd);
    }
  }

  lemma {:induction false} ServeAllServes(w: World, fds: seq<int>, io: Io, gd: int)
    requires Wired(w) && (forall fd :: fd in fds ==> CanServe(w, fd, io))
    requires forall i, j :: 0 <= i < j < |fds| ==> fds[i] != fds[j]
    requires gd in w.fdToUser
    ensures w.handles[gd] < |ServeAll(w, fds, io).links|
    ensures ServeAll(w, fds, io).links[w.handles[gd]]
         == if gd in fds then LinkServed(LinkOf(w, gd), Queue(w, w.fdToUser[gd]), gd, io) else LinkOf(w, gd)
    decreases |fds|
  {
    hide Serve, Wired, CanServe, LinkServed, Queue;
    Known(w, gd);
    if fds != [] {
      assert CanServe(w, fds[0], io);
      ServeKeeps(w, fds[0], io, fds[1..]);
      if gd != fds[0] {
        ServeElsewhere(w, fds[0], io, gd);
        assert gd in fds <==> gd in fds[1..];
        ServeAllServes(Serve(w, fds[0], io), fds[1..], io, gd);
      } else {
        FirstServed(w, fds, io);
      }
    }
  }

  lemma FirstServed(w: World, fds: seq<int>, io: Io)
    requires Wired(w) && (forall fd :: fd in fds ==> CanServe(w, fd, io)) && fds != [] && fds[0] in w.fdToUser
    requires forall i, j :: 0 <= i < j < |fds| ==> fds[i] != fds[j]
    ensures w.handles[fds[0]] < |ServeAll(w, fds, io).links|
    ensures ServeAll(w, fds, io).links[w.handles[fds[0]]]
         == LinkServed(LinkOf(w, fds[0]), Queue(w, w.fdToUser[fds[0]]), fds[0], io)
  {
    hide Serve, CanServe, LinkServed, Queue;
    var gd, w1 := fds[0], Serve(w, fds[0], io);
    Known(w, gd);
    assert CanServe(w, gd, io);
    ServeKeeps(w, gd, io, fds[1..]);
    ServedLink(w, gd, io);
    ServeOnly(w, gd, io);
    forall fd | fd in w1.handles && w1.handles[fd] == w.handles[gd] ensures fd == gd {
      Known(w1, fd);
    }
    hide Wired, OnlyOf;
    ServeAllGone(w1, fds[1..], io, w.handles[gd], gd);
  }

  ghost function LinkServed(l: L.Link, q: seq<NotificationRequest>, gd: int, io: Io): L.Link {
    if gd !in io.ready then l
    else if gd in io.gone then L.Close(l)
    else if l.toDaemon == [] then l
    else if q == [] || q[0].id != l.toDaemon[0].id then L.TakeResponse(l)
    else
      var accepted := L.Accept(L.TakeResponse(l), q[0], l.toDaemon[0].response);
      if gd in io.broken then L.Close(accepted) else L.SendAck(accepted)
  }

  lemma ServedLink(w: World, gd: int, io: Io)
    requires Wired(w) && CanServe(w, gd, io)
    ensures w.handles[gd] < |Serve(w, gd, io).links|
    ensures Serve(w, gd, io).links[w.handles[gd]]
         == LinkServed(LinkOf(w, gd), Queue(w, w.fdToUser[gd]), gd, io)
  {
    hide Wired, Receive, L.Close, L.SendAck, L.TakeResponse;
    Known(w, gd);
    var q, l := Queue(w, w.fdToUser[gd]), LinkOf(w, gd);
    if gd in io.ready && gd !in io.gone {
      if q != [] && q[0].id == l.toDaemon[0].id {
        MatchedFrame(w, gd, io.broken);
      } else {
        StaleFrame(w, gd, io.broken);
      }
    }
  }

  /** A connection that is not among those served stays as it is, open or closed. */
  lemma {:induction false} ServeAllGone(w: World, fds: seq<int>, io: Io, i: nat, gd: int)
    requires Wired(w) && (forall fd :: fd in fds ==> CanServe(w, fd, io))
    requires forall i, j :: 0 <= i < j < |fds| ==> fds[i] != fds[j]
    requires i < |w.links| && gd !in fds && (forall fd :: fd in w.handles && w.handles[fd] == i ==> fd == gd)
    ensures i < |ServeAll(w, fds, io).links| && ServeAll(w, fds, io).links[i] == w.links[i]
    decreases |fds|
  {
    hide Serve, CanServe;
    if fds != [] {
      assert CanServe(w, fds[0], io);
      Served(w, fds[0], io);
      ServeKeeps(w, fds[0], io, fds[1..]);
      ServeOther(w, fds[0], io, i);
      ServeAllGone(Serve(w, fds[0], io), fds[1..], io, i, gd);
    }
  }

  lemma Served(w: World, fd: int, io: Io)
    requires Wired(w) && CanServe(w, fd, io)
    ensures fd in w.fdToUser && fd in w.handles
  {
  }

  lemma ServeOther(w: World, fd: int, io: Io, i: nat)
    requires Wired(w) && CanServe(w, fd, io) && i < |w.links| && w.handles[fd] != i
    ensures i < |Serve(w, fd, io).links| && Serve(w, fd, io).links[i] == w.links[i]
    ensures var w' := Serve(w, fd, io);
      forall gd :: gd in w'.handles ==> gd in w.handles && w'.handles[gd] == w.handles[gd]
  {
    hide Serve;
    ServeOnly(w, fd, io);
    var w' := Serve(w, fd, io);
    forall gd | gd in w'.handles ensures gd in w.handles && w'.handles[gd] == w.handles[gd] {
      assert gd in w'.fdToUser && gd in w.fdToUser;
    }
    hide Wired;
  }

  /** No connection that was ready and is still registered when the responses are read is passed
      over: each has been read, or dropped at the end of its stream. */
  lemma PassReadsEveryReady(w: World, listener: int, io: Io, fd: int)
    requires Wired(w) && Possible(w, listener, io)
    requires fd in Arrive(w, io).fdToUser && fd in io.ready
    ensures var w1, w2 := Arrive(w, io), Responses(w, listener, io);
      && w1.handles[fd] < |w2.links|
      && w2.links[w1.handles[fd]]
         == LinkServed(LinkOf(w1, fd), Queue(w1, w1.fdToUser[fd]), fd, io)
  {
    hide Serve, Arrive, ServeOrder, Names;
    var w1 := Arrive(w, io);
    ArriveCanServe(w, listener, io);
    ServeAllServes(w1, ServeOrder(w1), io, fd);
  }

  // ---- A pass is a run ----------------------------------------------------------------------

  lemma {:induction false} RunAppend(w: World, a: seq<Label>, w1: World, b: seq<Label>, w2: World)
    requires Wired(w) && Run(w, a, w1) && Wired(w1) && Run(w1, b, w2)
    ensures Run(w, a + b, w2)
    decreases |a|
  {
    hide Next, Enabled, Wired;
    if a == [] {
      assert a + b == b;
    } else {
      RunAppend(Next(w, a[0]), a[1..], w1, b, w2);
      assert (a + b)[1..] == a[1..] + b;
    }
  }

  lemma ServeRuns(w: World, fd: int, io: Io) returns (labels: seq<Label>)
    requires Wired(w) && CanServe(w, fd, io) && !w.failed
    ensures Run(w, labels, Serve(w, fd, io)) && !Serve(w, fd, io).failed
  {
    hide Wired, Receive, Remove, Run;
    if fd !in io.ready {
      labels := [];
      NoLabels(w);
    } else {
      var a := if fd in io.gone then Gone(fd) else Response(fd, io.broken);
      assert Enabled(w, a) && Next(w, a) == Serve(w, fd, io);
      hide Next, Enabled;
      RunOne(w, a);
      labels := [a];
      ServeFails(w, fd, io);
    }
  }

  lemma NoLabels(w: World)
    requires Wired(w)
    ensures Run(w, [], w)
  {
  }

  lemma ServeFails(w: World, fd: int, io: Io)
    requires Wired(w) && CanServe(w, fd, io)
    ensures Serve(w, fd, io).failed == w.failed
  {
    hide Wired, Receive, L.Close, L.SendAck, L.TakeResponse;
    Known(w, fd);
    if fd in io.ready && fd !in io.gone {
      var q, l := Queue(w, w.fdToUser[fd]), LinkOf(w, fd);
      if q != [] && q[0].id == l.toDaemon[0].id {
        MatchedFrame(w, fd, io.broken);
      } else {
        StaleFrame(w, fd, io.broken);
      }
    }
  }

  lemma {:induction false} ServeAllRuns(w: World, fds: seq<int>, io: Io) returns (labels: seq<Label>)
    requires Wired(w) && (forall fd :: fd in fds ==> CanServe(w, fd, io)) && !w.failed
    requires forall i, j :: 0 <= i < j < |fds| ==> fds[i] != fds[j]
    ensures Run(w, labels, ServeAll(w, fds, io)) && !ServeAll(w, fds, io).failed
    decreases |fds|
  {
    hide Serve;
    if fds == [] {
      labels := [];
    } else {
      ServeKeeps(w, fds[0], io, fds[1..]);
      var a := ServeRuns(w, fds[0], io);
      var b := ServeAllRuns(Serve(w, fds[0], io), fds[1..], io);
      RunAppend(w, a, Serve(w, fds[0], io), b, ServeAll(w, fds, io));
      labels := a + b;
    }
  }

  lemma PushRuns(w: World, fd: int, broken: set<int>) returns (labels: seq<Label>)
    requires Wired(w) && fd in w.fdToUser && !w.failed
    ensures Run(w, labels, Push(w, fd, broken)) && !Push(w, fd, broken).failed
  {
    hide Push, Wired, L.Close, L.SendFrame;
    assert Next(w, Hand(fd, broken)) == Push(w, fd, broken);
    RunOne(w, Hand(fd, broken));
    labels := [Hand(fd, broken)];
    PushFrame(w, fd, broken);
  }

  lemma {:induction false} PushAllRuns(w: World, fds: seq<int>, broken: set<int>) returns (labels: seq<Label>)
    requires Wired(w) && (forall fd :: fd in fds ==> fd in w.fdToUser) && !w.failed
    requires forall i, j :: 0 <= i < j < |fds| ==> fds[i] != fds[j]
    ensures Run(w, labels, PushAll(w, fds, broken))
    decreases |fds|
  {
    hide Push;
    if fds == [] {
      labels := [];
    } else {
      PushKeeps(w, fds[0], broken, fds[1..]);
      var a := PushRuns(w, fds[0], broken);
      var b := PushAllRuns(Push(w, fds[0], broken), fds[1..], broken);
      RunAppend(w, a, Push(w, fds[0], broken), b, PushAll(w, fds, broken));
      labels := a + b;
    }
  }

  lemma PassRuns(w: World, listener: int, io: Io) returns (labels: seq<Label>)
    requires Wired(w) && Possible(w, listener, io)
    ensures Run(w, labels, Pass(w, listener, io))
  {
    hide Arrive, ServeAll, PushAll, ServeOrder, PushOrder, CanServe, Names, Run;
    var w1, w2 := Arrive(w, io), Responses(w, listener, io);
    ArriveCanServe(w, listener, io);
    var a := ArriveRuns(w, listener, io);
    var b := ServeAllRuns(w1, ServeOrder(w1), io);
    RunAppend(w, a, w1, b, w2);
    var c := PushAllRuns(w2, PushOrder(w2), io.broken);
    RunAppend(w, a + b, w2, c, Pass(w, listener, io));
    labels := a + b + c;
  }

  /** A pass of the loop is a run of the step relation, so all that is proved of runs holds
      whenever the loop comes round. */
  lemma PassIsRun(w: World, listener: int, io: Io)
    requires Wired(w) && Possible(w, listener, io)
    ensures exists labels :: Run(w, labels, Pass(w, listener, io))
    ensures Reachable(w) ==> Reachable(Pass(w, listener, io))
  {
    hide Pass, Possible, Run;
    var labels := PassRuns(w, listener, io);
    if Reachable(w) {
      var before :| Run(Initial(), before, w);
      RunAppend(Initial(), before, w, labels, Pass(w, listener, io));
    }
  }

  lemma ArriveRuns(w: World, listener: int, io: Io) returns (labels: seq<Label>)
    requires Wired(w) && Possible(w, listener, io)
    ensures Run(w, labels, Arrive(w, io)) && !Arrive(w, io).failed
  {
    labels := [];
    if io.accepted.Some? {
      var a := Connection(io.accepted.value.0, io.accepted.value.1);
      RunOne(w, a);
      labels := [a];
    }
  }
}
