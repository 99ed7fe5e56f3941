/** The agent and the backend of its windows as they are written: maps and queues updated in place,
    requests deleted by hand. */
module Agent {
  import opened Types
  import opened Translator
  import M = AgentModel

  /** The static side of NotificationBackend: the registry from ids to windows. The journal is the
      record of what went to the talker and to Cynara, in order. */
  class NotificationBackend {
    var idToInstance: map<RequestId, M.Instance>
    var journal: seq<M.Event>
    ghost var windows: set<M.Instance>

    constructor ()
      ensures idToInstance == map[] && journal == [] && windows == {}
    {
      idToInstance, journal, windows := map[], [], {};
    }

    /** `start`: the window registers itself and posts its request, or finds the talker failed. */
    method Start(ui: M.Instance, id: RequestId, names: Option<RequestData>, talkerFailed: bool) returns (threw: bool)
      modifies this, ui
      ensures idToInstance == old(idToInstance)[id := ui] && ui.id == Some(id)
      ensures threw == talkerFailed
      ensures journal == old(journal) + if threw then [] else [M.Posted(M.Action, id, names)]
      ensures windows == old(windows) + if threw then {} else {ui}
    {
      idToInstance := idToInstance[id := ui];
      ui.id := Some(id);
      threw := talkerFailed;
      if !threw {
        journal := journal + [M.Posted(M.Action, id, names)];
        windows := windows + {ui};
      }
    }

    /** `responseCb`: the window the id stands for, if it still stands for one. */
    method ResponseCb(id: RequestId, response: NResponseType) returns (r: Option<M.Response>)
      ensures r == if id in idToInstance then Some(M.Response(id, M.FromPopup(response), idToInstance[id])) else None
    {
      if id !in idToInstance {
        return None;
      }
      r := Some(M.Response(id, M.FromPopup(response), idToInstance[id]));
    }

    /** `dismiss`: the talker is told to cancel the window's request. */
    method Dismiss(ui: M.Instance)
      requires ui.id.Some?
      modifies `journal
      ensures journal == old(journal) + [M.Posted(M.Cancel, ui.id.value, None)]
    {
      journal := journal + [M.Posted(M.Cancel, ui.id.value, None)];
    }

    /** The destructor takes the window's id out of the registry. */
    method Destroy(ui: M.Instance)
      requires ui.id.Some?
      modifies `idToInstance
      ensures idToInstance == old(idToInstance) - {ui.id.value}
    {
      idToInstance := idToInstance - {ui.id.value};
    }
  }

  class Agent {
    const backend: NotificationBackend
    var incomingRequests: seq<M.Request>
    var incomingResponses: seq<M.Response>
    var requests: map<RequestId, M.Request>
    var uis: map<RequestId, M.Instance>
    var stopFlag: bool
    ghost var handed: set<M.Request>
    ghost var deleted: set<M.Request>

    ghost function View(): M.Agent
      reads this, backend
    {
      M.Agent(incomingRequests, incomingResponses, requests, uis, backend.idToInstance, stopFlag,
              backend.journal, handed, deleted, backend.windows)
    }

    /** Every window carries the id it is filed under. */
    ghost predicate Labelled()
      reads this, uis.Values
    {
      forall id :: id in uis ==> uis[id].id == Some(id)
    }

    constructor ()
      ensures View() == M.Initial() && Labelled() && fresh(backend)
    {
      backend := new NotificationBackend();
      incomingRequests, incomingResponses, requests, uis := [], [], map[], map[];
      stopFlag := false;
      handed, deleted := {}, {};
    }

    /** Every `delete`: never of a request that is already gone. */
    method Delete(request: M.Request)
      requires request !in deleted
      modifies `deleted
      ensures deleted == old(deleted) + {request}
    {
      deleted := deleted + {request};
    }

    /** Cynara's thread hands a request over. */
    method RequestHandler(request: M.Request)
      requires request !in handed
      modifies `incomingRequests, `handed
      ensures View() == M.HandIn(old(View()), request) && handed == old(handed) + {request}
    {
      incomingRequests := incomingRequests + [request];
      handed := handed + {request};
    }

    /** The talker's thread delivers an answer. */
    method UIResponseHandler(id: RequestId, response: NResponseType)
      modifies `incomingResponses
      ensures View() == M.Respond(old(View()), id, response)
    {
      var r := backend.ResponseCb(id, response);
      if r.Some? {
        incomingResponses := incomingResponses + [r.value];
      }
    }

    method SendResponse(kind: M.Kind, id: RequestId, data: string)
      modifies backend`journal
      ensures backend.journal == old(backend.journal) + [M.Replied(kind, id, data)]
    {
      backend.journal := backend.journal + [M.Replied(kind, id, data)];
    }

    method DismissUI(id: RequestId)
      requires Labelled()
      modifies `uis, backend`idToInstance, backend`journal
      ensures Labelled() && View() == M.DismissUI(old(View()), id)
    {
      if id in uis {
        var ui := uis[id];
        backend.Dismiss(ui);
        uis := uis - {id};
        backend.Destroy(ui);
      }
    }

    /** A window is opened for a request. `outcome` is how the interface answers: declining is
        allowed by it, NotificationBackend itself only opens or throws. */
    method StartUIForRequest(request: M.Request, outcome: M.Outcome, ui: M.Instance) returns (started: bool)
      requires Labelled() && request.id !in uis && ui !in uis.Values
      modifies `uis, backend, ui
      ensures Labelled() && started == outcome.Opened?
      ensures View() == if started then M.OpenUI(old(View()), request, ui)
                        else old(View()).(registry := old(backend.idToInstance) - {request.id})
    {
      hide DecodeRequest;
      var names := DecodeRequest(request.data);
      if outcome.Declined? {
        backend.idToInstance := backend.idToInstance - {request.id};
        return false;
      }
      var threw := backend.Start(ui, request.id, names, outcome.Threw?);
      if threw {
        backend.Destroy(ui);
        return false;
      }
      uis := uis[request.id := ui];
      started := true;
    }

    /** A cancel of a pending request: both requests are deleted and the window goes. */
    method CancelPending(request: M.Request, ghost ui: M.Instance)
      requires Labelled() && request.id in requests && request.kind.Cancel?
      requires requests[request.id] !in deleted && request !in deleted && requests[request.id] != request
      modifies `requests, `uis, `deleted, backend`idToInstance, backend`journal
      ensures Labelled() && View() == M.ProcessRequest(old(View()), request, M.Opened, ui)
    {
      Delete(requests[request.id]);
      requests := requests - {request.id};
      SendResponse(M.Cancel, request.id, "");
      DismissUI(request.id);
      Delete(request);
    }

    /** An action that is not pending yet: it is admitted, refused, or ends the loop. */
    method TryToAdmit(request: M.Request, outcome: M.Outcome, ui: M.Instance)
      requires Labelled() && request.id !in requests && request.kind.Action? && request !in deleted
      requires request.id !in uis && ui !in uis.Values
      modifies this`requests, this`uis, this`deleted, this`stopFlag, backend, ui
      ensures Labelled() && View() == M.ProcessRequest(old(View()), request, outcome, ui)
    {
      hide DecodeRequest, AnswerToData;
      var started := StartUIForRequest(request, outcome, ui);
      if outcome.Threw? {
        Delete(request);
        stopFlag := true;
      } else if !started {
        backend.journal := backend.journal + [M.Refused(request.id)];
        SendResponse(M.Action, request.id, AnswerToData(0, ERROR_MSG));
        Delete(request);
      } else {
        requests := requests[request.id := request];
        backend.journal := backend.journal + [M.Admitted(request.id)];
      }
    }

    /** `processCynaraRequest`, for a request that has just left the queue. */
    method ProcessCynaraRequest(request: M.Request, outcome: M.Outcome, ui: M.Instance)
      requires Labelled() && M.InHand(View(), request) && !request.kind.Close? && ui !in backend.windows
      modifies this`requests, this`uis, this`deleted, this`stopFlag, backend, ui
      ensures Labelled() && View() == M.ProcessRequest(old(View()), request, outcome, ui)
    {
      InHandLives(View(), request, ui);
      hide M.OpenUI, M.DismissUI, DecodeRequest, AnswerToData, M.InHand;
      if request.id in requests {
        if request.kind.Cancel? {
          CancelPending(request, ui);
        } else {
          Delete(request);
        }
      } else if request.kind.Cancel? {
        Delete(request);
      } else {
        TryToAdmit(request, outcome, ui);
      }
    }

    /** `processUIResponse`, for a response that has just left the queue. */
    method ProcessUIResponse(response: M.Response)
      requires Labelled() && M.Owned(View()) && M.Filed(requests)
      modifies `requests, `uis, `deleted, backend`idToInstance, backend`journal
      ensures Labelled() && View() == M.ProcessResponse(old(View()), response)
    {
      if response.id in requests {
        var pluginData;
        if response.kind == UIError {
          pluginData := AnswerToData(0, ERROR_MSG);
        } else if response.kind == UIResponseType.Timeout {
          pluginData := AnswerToData(0, TIMEOUT_MSG);
        } else {
          pluginData := AnswerToData(M.UIResponseToPolicyType(response.kind), "");
        }
        hide M.AnswerData, M.UIResponseToPolicyType, AnswerToData;
        var request := requests[response.id];
        PendingLives(View(), response.id);
        SendResponse(M.Action, response.id, pluginData);
        Delete(request);
        requests := requests - {response.id};
      }
      DismissUI(response.id);
    }

    /** What other threads bring while the lock is free. */
    method Arrive(arrivals: seq<M.Arrival>)
      requires M.New(arrivals, handed)
      modifies `incomingRequests, `incomingResponses, `handed
      ensures View() == M.Arrive(old(View()), arrivals)
    {
      hide M.Respond, M.HandIn;
      ghost var start := View();
      for i := 0 to |arrivals|
        invariant M.Arrive(View(), arrivals[i..]) == M.Arrive(start, arrivals)
        invariant M.New(arrivals[i..], handed)
      {
        assert arrivals[i..][0] == arrivals[i] && arrivals[i..][1..] == arrivals[i + 1..];
        match arrivals[i]
        case Handed(r) => RequestHandler(r);
        case Delivered(id, response) => UIResponseHandler(id, response);
      }
    }

    /** The head of the request queue is taken and processed. */
    method NextRequest(outcome: M.Outcome, ui: M.Instance)
      requires Labelled() && M.Inv(View()) && !stopFlag && ui !in backend.windows && incomingRequests != []
      modifies this`incomingRequests, this`requests, this`uis, this`deleted, this`stopFlag, backend, ui
      ensures Labelled() && M.Inv(View()) && View() == M.TakeRequest(old(View()), outcome, ui)
      ensures var r := old(incomingRequests[0]);
        stopFlag <==> r.kind.Close? || (r.kind.Action? && r.id !in old(requests) && outcome.Threw?)
    {
      hide M.ProcessRequest, M.Inv;
      var request := incomingRequests[0];
      M.StopsIff(View(), M.NextRequest(outcome, ui));
      M.TakenInHand(View());
      M.TakeRequestInv(View(), outcome, ui);
      incomingRequests := incomingRequests[1..];
      if request.kind.Close? {
        Delete(request);
        stopFlag := true;
        return;
      }
      ProcessCynaraRequest(request, outcome, ui);
    }

    /** The head of the response queue is taken and processed. */
    method NextResponse()
      requires Labelled() && M.Inv(View()) && incomingResponses != []
      modifies this`incomingResponses, this`requests, this`uis, this`deleted, backend`idToInstance, backend`journal
      ensures Labelled() && M.Inv(View()) && View() == M.TakeResponse(old(View()))
    {
      hide M.ProcessResponse, M.Inv;
      var response := incomingResponses[0];
      M.TakeResponseInv(View());
      InvParts(View());
      incomingResponses := incomingResponses[1..];
      ProcessUIResponse(response);
    }

    /** One turn of the inner loop of `run`: a request if there is one, then a response if there is
        one by then. Whenever the lock is free, more of both may arrive. */
    method Turn(o: M.Occasion)
      requires Labelled() && M.Inv(View()) && !stopFlag && o.ui !in backend.windows
      requires incomingRequests != [] || incomingResponses != []
      requires M.New(o.during + o.after, handed)
      modifies this, backend, o.ui
      ensures Labelled() && M.Inv(View()) && View() == M.Turned(old(View()), o)
    {
      hide M.Inv, M.TakeRequest, M.TakeResponse, M.Arrive, M.New;
      if incomingRequests != [] {
        TakeRequestSizes(View(), o.outcome, o.ui);
        NextRequest(o.outcome, o.ui);
        if stopFlag {
          return;
        }
      }
      M.NewAppend(View(), o.during, o.after);
      ArriveInv(View(), o.during);
      Arrive(o.during);
      if incomingResponses != [] {
        TakeResponseSizes(View());
        NextResponse();
      }
      ArriveInv(View(), o.after);
      Arrive(o.after);
    }

    /** The inner loop of `run`, on the occasions there are: it goes on until both queues are empty
        or a close request or an exception stops it. What it does is a run of the step relation,
        and with an occasion for everything there is to process, it ends. */
    method Drain(os: seq<M.Occasion>)
      requires Labelled() && M.Inv(View()) && !stopFlag && M.New(M.Arrivals(os), handed)
      requires forall i :: 0 <= i < |os| ==> os[i].ui !in backend.windows
      requires forall i, j :: 0 <= i < j < |os| ==> os[i].ui != os[j].ui
      modifies this, backend, set o | o in os :: o.ui
      ensures Labelled() && M.Inv(View())
      ensures old(|incomingRequests| + |incomingResponses|) + |M.Arrivals(os)| <= |os| ==>
        stopFlag || (incomingRequests == [] && incomingResponses == [])
      ensures exists labels :: M.Run(old(View()), labels, View())
    {
      hide M.Inv, M.Turned, M.Run, M.New;
      ghost var start := View();
      ghost var labels: seq<M.Label> := [];
      M.RunNone(start);
      var turn := 0;
      while turn < |os| && !stopFlag && (incomingRequests != [] || incomingResponses != [])
        invariant Labelled() && M.Inv(View()) && M.Run(start, labels, View())
        invariant 0 <= turn <= |os|
        invariant stopFlag || M.New(M.Arrivals(os[turn..]), handed)
        invariant stopFlag || |incomingRequests| + |incomingResponses| + turn + |M.Arrivals(os[turn..])|
          <= |start.incoming| + |start.responses| + |M.Arrivals(os)|
        invariant forall i :: turn <= i < |os| ==> os[i].ui !in backend.windows
        decreases |os| - turn
      {
        ghost var before := View();
        var o := os[turn];
        assert os[turn..][1..] == os[turn + 1..];
        ghost var more := TurnRuns(before, o, M.Arrivals(os[turn + 1..]));
        Turn(o);
        M.RunAppend(start, labels, before, more, View());
        labels := labels + more;
        turn := turn + 1;
      }
      assert os[|os|..] == [];
    }

    /** `finish`, once Cynara's thread has stopped or failed to: a process that cannot stop its
        windows quits where it is. */
    method Finish(talkerStopped: bool) returns (orderly: bool)
      requires M.Inv(View())
      modifies `incomingRequests, `deleted, `requests
      ensures orderly == M.Finish(old(View()), talkerStopped).Some?
      ensures orderly ==> View() == M.Finish(old(View()), talkerStopped).value
      ensures orderly ==> deleted == handed
    {
      ghost var start := View();
      if !talkerStopped {
        return false;
      }
      while incomingRequests != []
        invariant M.Owned(View())
        invariant View() == start.(incoming := incomingRequests, deleted := deleted)
        invariant deleted + M.Elements(incomingRequests) == start.deleted + M.Elements(start.incoming)
        decreases |incomingRequests|
      {
        var request := incomingRequests[0];
        HeadLives(View());
        incomingRequests := incomingRequests[1..];
        Delete(request);
      }
      assert deleted == start.deleted + M.Elements(start.incoming);
      if uis != map[] {
        return false;
      }
      assert requests.Keys == {} && requests == map[];
      orderly := true;
    }
  }

  lemma ArriveInv(s: M.Agent, arrivals: seq<M.Arrival>)
    requires M.Inv(s) && M.New(arrivals, s.handed)
    ensures M.Inv(M.Arrive(s, arrivals))
  {
    hide M.Inv, M.Arrive, M.New;
    var labels := M.ArriveRuns(s, arrivals);
    M.RunInv(s, labels, M.Arrive(s, arrivals));
  }

  /** A turn of the loop is a run of steps; unless it stops, it shortens the queues by one but for
      what arrives, and it opens no window but the one it was given. */
  lemma TurnRuns(s: M.Agent, o: M.Occasion, later: seq<M.Arrival>) returns (labels: seq<M.Label>)
    requires !s.stopped && o.ui !in s.windows && (s.incoming != [] || s.responses != [])
    requires M.New(o.during + o.after + later, s.handed)
    ensures M.New(o.during + o.after, s.handed)
    ensures var s' := M.Turned(s, o);
      && M.Run(s, labels, s') && s'.windows <= s.windows + {o.ui}
      && (s'.stopped ||
           (&& |s'.incoming| + |s'.responses| + 1 <= |s.incoming| + |s.responses| + |o.during| + |o.after|
            && M.New(later, s'.handed)))
  {
    hide M.TakeRequest, M.TakeResponse, M.Run, M.Arrive, M.New;
    labels := [];
    var s1 := s;
    M.RunNone(s);
    M.NewAppend(s, o.during + o.after, later);
    M.NewAppend(s, o.during, o.after);
    if s.incoming != [] {
      TakeRequestSizes(s, o.outcome, o.ui);
      M.RunOne(s, M.NextRequest(o.outcome, o.ui));
      s1 := M.TakeRequest(s, o.outcome, o.ui);
      labels := [M.NextRequest(o.outcome, o.ui)];
    }
    if !s1.stopped {
      M.NewAppend(s1, o.during + o.after, later);
      M.NewAppend(s1, o.during, o.after);
      var mid := M.Arrive(s1, o.during);
      var arriving := M.ArriveRuns(s1, o.during);
      M.RunAppend(s, labels, s1, arriving, mid);
      var rest := SecondHalfRuns(mid, o.after);
      M.RunAppend(s, labels + arriving, mid, rest, M.Turned(s, o));
      labels := labels + arriving + rest;
      HandedOverall(s1, o, later);
    }
  }

  lemma {:induction false} ArriveHanded(s: M.Agent, t: M.Agent, arrivals: seq<M.Arrival>)
    requires s.handed == t.handed
    ensures M.Arrive(s, arrivals).handed == M.Arrive(t, arrivals).handed
    decreases |arrivals|
  {
    if arrivals != [] {
      match arrivals[0] {
        case Handed(r) => ArriveHanded(M.HandIn(s, r), M.HandIn(t, r), arrivals[1..]);
        case Delivered(id, response) =>
          ArriveHanded(M.Respond(s, id, response), M.Respond(t, id, response), arrivals[1..]);
      }
    }
  }

  /** Which requests have been handed in does not depend on what is processed in between. */
  lemma HandedOverall(s: M.Agent, o: M.Occasion, later: seq<M.Arrival>)
    requires M.New(o.during + o.after + later, s.handed)
    ensures var mid := M.Arrive(s, o.during);
      M.New(later, M.Arrive(if mid.responses == [] then mid else M.TakeResponse(mid), o.after).handed)
  {
    hide M.TakeResponse, M.Arrive, M.New;
    var mid := M.Arrive(s, o.during);
    assert o.during + o.after + later == o.during + (o.after + later);
    M.NewAppend(s, o.during, o.after + later);
    M.NewAppend(mid, o.after, later);
    if mid.responses != [] {
      TakeResponseSizes(mid);
      ArriveHanded(mid, M.TakeResponse(mid), o.after);
    }
  }

  lemma SecondHalfRuns(mid: M.Agent, after: seq<M.Arrival>) returns (labels: seq<M.Label>)
    requires !mid.stopped && M.New(after, mid.handed)
    ensures var s' := M.Arrive(if mid.responses == [] then mid else M.TakeResponse(mid), after);
      && M.Run(mid, labels, s') && s'.windows == mid.windows
      && |s'.incoming| + |s'.responses|
         <= |mid.incoming| + |mid.responses| + |after| - if mid.responses == [] then 0 else 1
  {
    hide M.TakeResponse, M.Run, M.Arrive, M.New;
    if mid.responses == [] {
      labels := M.ArriveRuns(mid, after);
    } else {
      TakeResponseSizes(mid);
      M.RunOne(mid, M.NextResponse);
      var arriving := M.ArriveRuns(M.TakeResponse(mid), after);
      M.RunAppend(mid, [M.NextResponse], M.TakeResponse(mid), arriving, M.Arrive(M.TakeResponse(mid), after));
      labels := [M.NextResponse] + arriving;
    }
  }

  lemma TakeRequestSizes(s: M.Agent, outcome: M.Outcome, ui: M.Instance)
    requires s.incoming != []
    ensures var s' := M.TakeRequest(s, outcome, ui);
      && s'.incoming == s.incoming[1..] && s'.responses == s.responses
      && s'.windows <= s.windows + {ui} && s'.handed == s.handed
  {
    hide M.ProcessRequest;
    ProcessRequestSizes(s.(incoming := s.incoming[1..]), s.incoming[0], outcome, ui);
  }

  lemma ProcessRequestSizes(s: M.Agent, r: M.Request, outcome: M.Outcome, ui: M.Instance)
    ensures var s' := M.ProcessRequest(s, r, outcome, ui);
      && s'.incoming == s.incoming && s'.responses == s.responses
      && s'.windows <= s.windows + {ui} && s'.handed == s.handed
  {
    hide M.DismissUI, M.OpenUI, DecodeRequest, AnswerToData;
    M.DismissInv(M.Reply(M.Delete(s, if r.id in s.pending then s.pending[r.id] else r).(pending := s.pending - {r.id}),
                         M.Cancel, r.id, ""), r.id, r.id);
    OpenSizes(s, r, ui);
  }

  lemma OpenSizes(s: M.Agent, r: M.Request, ui: M.Instance)
    ensures var s' := M.OpenUI(s, r, ui);
      && s'.incoming == s.incoming && s'.responses == s.responses
      && s'.windows == s.windows + {ui} && s'.handed == s.handed
  {
    hide DecodeRequest;
  }

  lemma TakeResponseSizes(s: M.Agent)
    requires s.responses != []
    ensures var s' := M.TakeResponse(s);
      && s'.incoming == s.incoming && s'.responses == s.responses[1..]
      && s'.windows == s.windows && s'.handed == s.handed
  {
    hide M.AnswerData;
  }

  lemma PendingLives(s: M.Agent, id: RequestId)
    requires M.Owned(s) && id in s.pending && s.pending[id].id == id
    ensures s.pending[id] !in s.deleted
  {
    assert M.IsPending(s, s.pending[id]);
  }

  lemma InHandLives(s: M.Agent, r: M.Request, ui: M.Instance)
    requires M.InHand(s, r) && ui !in s.windows
    ensures r !in s.deleted && (r.id !in s.pending ==> r.id !in s.uis) && ui !in s.uis.Values
    ensures r.id in s.pending ==> s.pending[r.id] !in s.deleted && s.pending[r.id] != r
  {
    if r.id in s.pending {
      assert M.IsPending(s, s.pending[r.id]);
    }
  }

  lemma InvParts(s: M.Agent)
    requires M.Inv(s)
    ensures M.Owned(s) && M.Filed(s.pending)
  {
  }

  /** Deleting the head of the queue moves it from one place to another. */
  lemma HeadLives(s: M.Agent)
    requires M.Owned(s) && s.incoming != []
    ensures s.incoming[0] !in s.deleted
    ensures var s' := s.(incoming := s.incoming[1..], deleted := s.deleted + {s.incoming[0]});
      && M.Owned(s')
      && s'.deleted + M.Elements(s'.incoming) == s.deleted + M.Elements(s.incoming)
  {
    var s' := s.(incoming := s.incoming[1..], deleted := s.deleted + {s.incoming[0]});
    assert s.incoming == [s.incoming[0]] + s'.incoming;
    assert forall r :: r in s.incoming <==> r == s.incoming[0] || r in s'.incoming;
    assert M.Elements(s.incoming) == {s.incoming[0]} + M.Elements(s'.incoming);
    assert forall r :: M.IsPending(s', r) <==> M.IsPending(s, r);
    hide M.IsPending, M.Elements;
  }
}
