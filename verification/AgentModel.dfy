/** The agent's bookkeeping as a value: what each processing step does to the queues, the pending
    requests, the windows, the registry of the backends, and the replies to Cynara. */
module AgentModel {
  import opened Types
  import opened Translator
  import opened Decimal

  datatype Kind = Action | Cancel | Close

  /** A request from Cynara: an object that is handed over and must be deleted. */
  class Request {
    const kind: Kind
    const id: RequestId
    const data: string

    constructor (kind: Kind, id: RequestId, data: string)
      ensures this.kind == kind && this.id == id && this.data == data
    {
      this.kind, this.id, this.data := kind, id, data;
    }
  }

  /** A window for one request, known to the backend by the request's id. */
  class Instance {
    var id: Option<RequestId>

    constructor ()
      ensures id == None
    {
      id := None;
    }
  }

  /** An answer on its way to the agent's loop, and the window it was given in. */
  datatype Response = Response(id: RequestId, kind: UIResponseType, from: Instance)

  datatype Event =
    | Replied(kind: Kind, id: RequestId, data: string)
    | Admitted(id: RequestId)
    | Refused(id: RequestId)
    | Posted(kind: Kind, id: RequestId, names: Option<RequestData>)

  datatype Agent = Agent(
    incoming: seq<Request>,
    responses: seq<Response>,
    pending: map<RequestId, Request>,
    uis: map<RequestId, Instance>,
    registry: map<RequestId, Instance>,
    stopped: bool,
    log: seq<Event>,
    handed: set<Request>,       // history: every request handed to the agent
    deleted: set<Request>,      // history: the requests deleted so far
    windows: set<Instance>)     // history: every window opened

  /** How opening a window can go: it opens, it is declined, or an exception leaves the loop. */
  datatype Outcome = Opened | Declined | Threw

  ghost function Initial(): Agent {
    Agent([], [], map[], map[], map[], false, [], {}, {}, {})
  }

  // ---- Answers ------------------------------------------------------------------------------

  function UIResponseToPolicyType(kind: UIResponseType): nat {
    match kind
    case YesOnce => ALLOW_ONCE
    case YesSession => ALLOW_PER_SESSION
    case YesLife => ALLOW_PER_LIFE
    case NoOnce => DENY_ONCE
    case NoSession => DENY_PER_SESSION
    case NoLife => DENY_PER_LIFE
    case _ => DENY_ONCE
  }

  function AnswerData(kind: UIResponseType): string {
    if kind == UIError then AnswerToData(0, ERROR_MSG)
    else if kind == UIResponseType.Timeout then AnswerToData(0, TIMEOUT_MSG)
    else AnswerToData(UIResponseToPolicyType(kind), "")
  }

  function FromPopup(response: NResponseType): UIResponseType {
    match response
    case Allow => YesLife
    case Deny => NoOnce
    case Never => NoLife
    case Error => UIError
    case NoAnswer => UIResponseType.Timeout
  }

  /** From the button in the popup to the decision the plugin reads: allow and never arrive as the
      permanent decisions, deny as a single refusal, an error or no answer as a refusal. */
  lemma AnswerReachesPlugin(types: PolicyTypes, response: NResponseType)
    requires types.Valid()
    ensures DataToAnswer(types, AnswerData(FromPopup(response)))
         == Ok(match response
               case Allow => ALLOW_PER_LIFE
               case Never => DENY_PER_LIFE
               case Deny => DENY_ONCE
               case Error => types.deny
               case NoAnswer => types.deny)
  {
    hide DataToAnswer, AnswerToData;
    AnswerRoundTrip(types, UIResponseToPolicyType(FromPopup(response)));
    AnswerRoundTrip(types, 0);
  }

  /** Every answer of a window, used by the popup or not, and what the plugin reads. */
  lemma KindsReachPlugin(types: PolicyTypes, kind: UIResponseType)
    requires types.Valid()
    ensures DataToAnswer(types, AnswerData(kind))
         == Ok(match kind
               case YesOnce => 11
               case YesSession => 12
               case YesLife => 13
               case NoOnce => 14
               case NoSession => 15
               case NoLife => 16
               case Timeout => types.deny
               case UIError => types.deny)
  {
    hide DataToAnswer, AnswerToData;
    AnswerRoundTrip(types, UIResponseToPolicyType(kind));
    AnswerRoundTrip(types, 0);
  }

  /** The texts themselves. */
  lemma AnswerTexts(response: NResponseType)
    ensures AnswerData(FromPopup(response))
         == match response
            case Allow => "13"
            case Deny => "14"
            case Never => "16"
            case Error => "ERROR"
            case NoAnswer => "TIMEOUT"
  {
    assert ToText(1) == "1" && ToText(13) == "13" && ToText(14) == "14" && ToText(16) == "16";
  }

  // ---- The processing steps -----------------------------------------------------------------

  ghost function Reply(s: Agent, kind: Kind, id: RequestId, data: string): Agent {
    s.(log := s.log + [Replied(kind, id, data)])
  }

  ghost function Delete(s: Agent, r: Request): Agent {
    s.(deleted := s.deleted + {r})
  }

  /** `dismissUI`: the talker is told to cancel, and the window goes together with its entry in
      the registry. */
  ghost function DismissUI(s: Agent, id: RequestId): Agent {
    if id in s.uis then
      s.(uis := s.uis - {id}, registry := s.registry - {id}, log := s.log + [Posted(Cancel, id, None)])
    else s
  }

  /** `startUIForRequest` for a window that opens. The map's insert keeps an older window of the
      same id; the new one is then destroyed again, and takes the id out of the registry. */
  ghost function OpenUI(s: Agent, r: Request, ui: Instance): Agent {
    var s1 := s.(log := s.log + [Posted(Action, r.id, DecodeRequest(r.data))], windows := s.windows + {ui});
    if r.id in s.uis then s1.(registry := s.registry - {r.id})
    else s1.(registry := s.registry[r.id := ui], uis := s.uis[r.id := ui])
  }

  /** `processCynaraRequest`, for the request that has left the queue. */
  ghost function ProcessRequest(s: Agent, r: Request, outcome: Outcome, ui: Instance): Agent {
    if r.id in s.pending then
      if r.kind.Cancel? then
        var s1 := Delete(s, s.pending[r.id]).(pending := s.pending - {r.id});
        Delete(DismissUI(Reply(s1, Cancel, r.id, ""), r.id), r)
      else Delete(s, r)
    else if r.kind.Cancel? then Delete(s, r)
    else
      match outcome
      case Opened =>
        var s1 := OpenUI(s, r, ui);
        s1.(pending := s1.pending[r.id := r], log := s1.log + [Admitted(r.id)])
      case Declined =>
        var s1 := s.(registry := s.registry - {r.id}, log := s.log + [Refused(r.id)]);
        Delete(Reply(s1, Action, r.id, AnswerToData(0, ERROR_MSG)), r)
      case Threw =>
        Delete(s.(registry := s.registry - {r.id}, stopped := true), r)
  }

  /** `processUIResponse`, for the response that has left the queue. */
  ghost function ProcessResponse(s: Agent, response: Response): Agent {
    var id := response.id;
    var s1 :=
      if id in s.pending then
        Delete(Reply(s, Action, id, AnswerData(response.kind)), s.pending[id]).(pending := s.pending - {id})
      else s;
    DismissUI(s1, id)
  }

  /** The head of the request queue is taken; a close request stops the loop. */
  ghost function TakeRequest(s: Agent, outcome: Outcome, ui: Instance): Agent
    requires s.incoming != []
  {
    var r, s1 := s.incoming[0], s.(incoming := s.incoming[1..]);
    if r.kind.Close? then Delete(s1, r).(stopped := true) else ProcessRequest(s1, r, outcome, ui)
  }

  ghost function TakeResponse(s: Agent): Agent
    requires s.responses != []
  {
    ProcessResponse(s.(responses := s.responses[1..]), s.responses[0])
  }

  /** `responseCb`: an answer for an id that has no window any more is dropped. */
  ghost function Respond(s: Agent, id: RequestId, response: NResponseType): Agent {
    if id in s.registry then
      s.(responses := s.responses + [Response(id, FromPopup(response), s.registry[id])])
    else s
  }

  ghost function HandIn(s: Agent, r: Request): Agent {
    s.(incoming := s.incoming + [r], handed := s.handed + {r})
  }

  // ---- Runs ---------------------------------------------------------------------------------

  datatype Label =
    | FromCynara(r: Request)
    | FromTalker(id: RequestId, response: NResponseType)
    | NextRequest(outcome: Outcome, ui: Instance)
    | NextResponse

  ghost predicate Enabled(s: Agent, a: Label) {
    match a
    case FromCynara(r) => r !in s.handed
    case FromTalker(_, _) => true
    case NextRequest(_, ui) => !s.stopped && s.incoming != [] && ui !in s.windows
    case NextResponse => !s.stopped && s.responses != []
  }

  ghost function Next(s: Agent, a: Label): Agent
    requires Enabled(s, a)
  {
    match a
    case FromCynara(r) => HandIn(s, r)
    case FromTalker(id, response) => Respond(s, id, response)
    case NextRequest(outcome, ui) => TakeRequest(s, outcome, ui)
    case NextResponse => TakeResponse(s)
  }

  ghost predicate Run(s: Agent, labels: seq<Label>, s': Agent)
    decreases |labels|
  {
    if labels == [] then s' == s
    else Enabled(s, labels[0]) && Run(Next(s, labels[0]), labels[1..], s')
  }

  // ---- Turns of the loop --------------------------------------------------------------------

  /** What another thread brings while the agent's lock is free. */
  datatype Arrival = Handed(request: Request) | Delivered(id: RequestId, response: NResponseType)

  ghost function Arrive(s: Agent, arrivals: seq<Arrival>): Agent
    decreases |arrivals|
  {
    if arrivals == [] then s
    else
      match arrivals[0]
      case Handed(r) => Arrive(HandIn(s, r), arrivals[1..])
      case Delivered(id, response) => Arrive(Respond(s, id, response), arrivals[1..])
  }

  /** Each request that arrives is a new object. */
  ghost predicate New(arrivals: seq<Arrival>, handed: set<Request>)
    decreases |arrivals|
  {
    arrivals != [] ==>
      match arrivals[0]
      case Handed(r) => r !in handed && New(arrivals[1..], handed + {r})
      case Delivered(_, _) => New(arrivals[1..], handed)
  }

  /** What one turn of the loop meets: how opening a window goes, the window, and what arrives
      while a request is processed and after that. */
  datatype Occasion = Occasion(outcome: Outcome, ui: Instance, during: seq<Arrival>, after: seq<Arrival>)

  /** A request if there is one, then a response if there is one by then; a close request or an
      exception ends the turn, and the loop, at once. */
  ghost function Turned(s: Agent, o: Occasion): Agent {
    var s1 := if s.incoming != [] then TakeRequest(s, o.outcome, o.ui) else s;
    if s1.stopped then s1
    else
      var mid := Arrive(s1, o.during);
      Arrive(if mid.responses == [] then mid else TakeResponse(mid), o.after)
  }

  /** All that arrives in a list of turns. */
  ghost function Arrivals(os: seq<Occasion>): seq<Arrival> {
    if os == [] then [] else os[0].during + os[0].after + Arrivals(os[1..])
  }

  lemma {:induction false} NewAppend(s: Agent, a: seq<Arrival>, b: seq<Arrival>)
    ensures New(a + b, s.handed) <==> New(a, s.handed) && New(b, Arrive(s, a).handed)
    decreases |a|
  {
    if a == [] {
      assert a + b == b;
    } else {
      assert (a + b)[1..] == a[1..] + b;
      match a[0] {
        case Handed(r) => NewAppend(HandIn(s, r), a[1..], b);
        case Delivered(id, response) => NewAppend(Respond(s, id, response), a[1..], b);
      }
    }
  }

  lemma {:induction false} ArriveRuns(s: Agent, arrivals: seq<Arrival>) returns (labels: seq<Label>)
    requires New(arrivals, s.handed)
    ensures Run(s, labels, Arrive(s, arrivals))
    ensures var s' := Arrive(s, arrivals);
      && |s'.incoming| + |s'.responses| <= |s.incoming| + |s.responses| + |arrivals|
      && s.responses <= s'.responses && s'.windows == s.windows && s'.stopped == s.stopped
    decreases |arrivals|
  {
    labels := [];
    if arrivals != [] {
      var a := match arrivals[0]
               case Handed(r) => FromCynara(r)
               case Delivered(id, response) => FromTalker(id, response);
      var more := ArriveRuns(Next(s, a), arrivals[1..]);
      labels := [a] + more;
      assert labels[1..] == more;
    }
  }

  // ---- The invariant ------------------------------------------------------------------------

  /** Pending requests, windows and registry have the same ids, and the registry names exactly the
      window that the window map owns. */
  ghost predicate Registered(s: Agent) {
    && s.uis.Keys == s.pending.Keys
    && s.registry == s.uis
    && (forall id :: id in s.uis ==> s.uis[id] in s.windows)
    && Filed(s.pending)
    && (forall k :: 0 <= k < |s.responses| ==> s.responses[k].from in s.windows)
  }

  /** Every request handed in is in exactly one of three places: the queue, once; pending, under
      its own id; or deleted. */
  ghost predicate Owned(s: Agent) {
    && (forall i, j :: 0 <= i < j < |s.incoming| ==> s.incoming[i] != s.incoming[j])
    && s.handed == Elements(s.incoming) + s.pending.Values + s.deleted
    && (forall r :: r in s.incoming ==> r !in s.deleted && !IsPending(s, r))
    && (forall r :: r in s.deleted ==> !IsPending(s, r))
  }

  ghost function Elements(q: seq<Request>): set<Request> {
    set r | r in q
  }

  ghost predicate IsPending(s: Agent, r: Request) {
    r.id in s.pending && s.pending[r.id] == r
  }

  ghost function Replies(log: seq<Event>, id: RequestId): nat {
    if log == [] then 0 else
      var e := log[|log| - 1];
      Replies(log[..|log| - 1], id) + if e.Replied? && e.id == id then 1 else 0
  }

  /** Actions that were admitted or refused at the start: those Cynara waits on a reply for. */
  ghost function Actions(log: seq<Event>, id: RequestId): nat {
    if log == [] then 0 else
      var e := log[|log| - 1];
      Actions(log[..|log| - 1], id) + if (e.Admitted? || e.Refused?) && e.id == id then 1 else 0
  }

  /** Requests posted to the talker under an id, and cancels posted for them. */
  ghost function Posts(log: seq<Event>, id: RequestId, kind: Kind): nat {
    if log == [] then 0 else
      var e := log[|log| - 1];
      Posts(log[..|log| - 1], id, kind) + if e.Posted? && e.id == id && e.kind == kind then 1 else 0
  }

  /** Replies settle admissions and refusals, and cancels posted to the talker settle requests
      posted to it, each but for the one that is pending. */
  ghost predicate Settled(s: Agent, id: RequestId) {
    var open := if id in s.pending then 1 else 0;
    && Replies(s.log, id) + open == Actions(s.log, id)
    && Posts(s.log, id, Cancel) + open == Posts(s.log, id, Action)
  }

  ghost predicate Inv(s: Agent) {
    Registered(s) && Owned(s) && forall id :: Settled(s, id)
  }

  lemma CountStep(log: seq<Event>, e: Event, id: RequestId)
    ensures Replies(log + [e], id) == Replies(log, id) + if e.Replied? && e.id == id then 1 else 0
    ensures Actions(log + [e], id) == Actions(log, id) + if (e.Admitted? || e.Refused?) && e.id == id then 1 else 0
    ensures forall kind :: (Posts(log + [e], id, kind)
                             == Posts(log, id, kind) + if e.Posted? && e.id == id && e.kind == kind then 1 else 0)
  {
    assert (log + [e])[..|log + [e]| - 1] == log;
  }

  /** Dismissing a window posts one cancel for it and changes nothing else that is counted. */
  lemma DismissInv(s: Agent, id: RequestId, i: RequestId)
    ensures var s' := DismissUI(s, id);
      && s'.pending == s.pending && s'.incoming == s.incoming && s'.deleted == s.deleted && s'.handed == s.handed
      && s'.windows == s.windows && s'.responses == s.responses && s'.stopped == s.stopped
      && s'.uis == s.uis - {id} && (s.registry == s.uis ==> s'.registry == s'.uis)
      && Replies(s'.log, i) == Replies(s.log, i) && Actions(s'.log, i) == Actions(s.log, i)
      && Posts(s'.log, i, Action) == Posts(s.log, i, Action)
      && Posts(s'.log, i, Cancel) == Posts(s.log, i, Cancel) + if i == id && id in s.uis then 1 else 0
  {
    hide Replies, Actions, Posts;
    CountStep(s.log, Posted(Cancel, id, None), i);
  }

  /** Each pending request is filed under its own id. */
  ghost predicate Filed(pending: map<RequestId, Request>) {
    forall id :: id in pending ==> pending[id].id == id
  }

  lemma FiledValues(pending: map<RequestId, Request>, id: RequestId, r: Request)
    requires Filed(pending)
    ensures id in pending ==> (pending - {id}).Values == pending.Values - {pending[id]}
    ensures id !in pending ==> pending[id := r].Values == pending.Values + {r}
  {
    if id in pending {
      var less := pending - {id};
      forall q | q in pending.Values - {pending[id]} ensures q in less.Values {
        var i :| i in pending && pending[i] == q;
        assert less[i] == q;
      }
      forall q | q in less.Values ensures q in pending.Values - {pending[id]} {
        var i :| i in less && less[i] == q;
        assert pending[i] == q;
      }
    } else {
      var more := pending[id := r];
      forall q | q in pending.Values + {r} ensures q in more.Values {
        if q == r {
          assert more[id] == q;
        } else {
          var i :| i in pending && pending[i] == q;
          assert more[i] == q;
        }
      }
    }
  }

  // ---- Every step keeps it ------------------------------------------------------------------

  lemma HandInInv(s: Agent, r: Request)
    requires Inv(s) && r !in s.handed
    ensures Inv(HandIn(s, r))
  {
    var s' := HandIn(s, r);
    forall q ensures q in s'.incoming <==> q in s.incoming || q == r {
    }
    forall id ensures Settled(s', id) {
      assert Settled(s, id);
    }
    assert forall q :: IsPending(s', q) <==> IsPending(s, q);
  }

  lemma RespondInv(s: Agent, id: RequestId, response: NResponseType)
    requires Inv(s)
    ensures Inv(Respond(s, id, response))
  {
    var s' := Respond(s, id, response);
    forall i ensures Settled(s', i) {
      assert Settled(s, i);
    }
    assert forall q :: IsPending(s', q) <==> IsPending(s, q);
  }

  /** The state with the head of the queue in hand: everything holds except that this request is
      in none of the three places. */
  ghost predicate InHand(s: Agent, r: Request) {
    && Registered(s) && (forall id :: Settled(s, id))
    && (forall i, j :: 0 <= i < j < |s.incoming| ==> s.incoming[i] != s.incoming[j])
    && s.handed == {r} + Elements(s.incoming) + s.pending.Values + s.deleted
    && (forall q :: q in s.incoming ==> q !in s.deleted && !IsPending(s, q))
    && (forall q :: q in s.deleted ==> !IsPending(s, q))
    && r !in s.incoming && r !in s.deleted && !IsPending(s, r)
  }

  lemma TakenInHand(s: Agent)
    requires Inv(s) && s.incoming != []
    ensures InHand(s.(incoming := s.incoming[1..]), s.incoming[0])
  {
    var s', r := s.(incoming := s.incoming[1..]), s.incoming[0];
    assert s.incoming == [r] + s'.incoming;
    assert forall q :: IsPending(s', q) <==> IsPending(s, q);
    forall id ensures Settled(s', id) {
      assert Settled(s, id);
    }
  }

  lemma DeletedInv(s: Agent, r: Request, s': Agent)
    requires InHand(s, r) && s' == Delete(s, r).(stopped := s'.stopped)
    ensures Inv(s')
  {
    forall id ensures Settled(s', id) {
      assert Settled(s, id);
    }
    assert forall q :: IsPending(s', q) <==> IsPending(s, q);
  }

  /** A pending request is deleted, a reply sent for it, and its window dismissed. */
  lemma ClosedInv(s: Agent, id: RequestId, kind: Kind, data: string, i: RequestId)
    requires Settled(s, i) && id in s.pending && s.uis.Keys == s.pending.Keys
    ensures var s1 := Delete(Reply(s, kind, id, data), s.pending[id]).(pending := s.pending - {id});
      Settled(DismissUI(s1, id), i)
  {
    hide Replies, Actions, Posts, DismissUI;
    var s1 := Delete(Reply(s, kind, id, data), s.pending[id]).(pending := s.pending - {id});
    DismissInv(s1, id, i);
    CountStep(s.log, Replied(kind, id, data), i);
  }

  lemma CancelledInv(s: Agent, r: Request)
    requires InHand(s, r) && r.id in s.pending
    ensures var s1 := Delete(s, s.pending[r.id]).(pending := s.pending - {r.id});
      Inv(Delete(DismissUI(Reply(s1, Cancel, r.id, ""), r.id), r))
  {
    hide Replies, Actions, Posts, DismissUI;
    var s1 := Delete(s, s.pending[r.id]).(pending := s.pending - {r.id});
    var s2 := Reply(s1, Cancel, r.id, "");
    var s' := Delete(DismissUI(s2, r.id), r);
    forall id ensures Settled(s', id) {
      ClosedInv(s, r.id, Cancel, "", id);
    }
    DismissInv(s2, r.id, r.id);
    var gone := s.pending[r.id];
    FiledValues(s.pending, r.id, r);
    assert gone in s.pending.Values;
    forall q ensures IsPending(s', q) <==> IsPending(s, q) && q != gone {
    }
  }

  lemma AdmittedInv(s: Agent, r: Request, ui: Instance)
    requires InHand(s, r) && r.id !in s.pending && r.kind.Action? && ui !in s.windows
    ensures Inv(ProcessRequest(s, r, Opened, ui))
  {
    hide DecodeRequest, Settled;
    var s' := ProcessRequest(s, r, Opened, ui);
    forall id ensures Settled(s', id) {
      AdmittedSettled(s, r, ui, id);
    }
    FiledValues(s.pending, r.id, r);
    forall q ensures IsPending(s', q) <==> IsPending(s, q) || q == r {
    }
  }

  lemma AdmittedSettled(s: Agent, r: Request, ui: Instance, id: RequestId)
    requires Settled(s, id) && r.id !in s.pending && r.kind.Action?
    ensures Settled(ProcessRequest(s, r, Opened, ui), id)
  {
    hide Replies, Actions, Posts, DecodeRequest;
    CountStep(s.log, Posted(Action, r.id, DecodeRequest(r.data)), id);
    CountStep(s.log + [Posted(Action, r.id, DecodeRequest(r.data))], Admitted(r.id), id);
  }

  lemma RefusedInv(s: Agent, r: Request, ui: Instance)
    requires InHand(s, r) && r.id !in s.pending && r.kind.Action?
    ensures Inv(ProcessRequest(s, r, Declined, ui))
  {
    hide AnswerToData;
    var s' := ProcessRequest(s, r, Declined, ui);
    forall id ensures Settled(s', id) {
      assert Settled(s, id);
      CountStep(s.log, Refused(r.id), id);
      CountStep(s.log + [Refused(r.id)], Replied(Action, r.id, AnswerToData(0, ERROR_MSG)), id);
    }
    assert s'.registry == s.registry;
    assert forall q :: IsPending(s', q) <==> IsPending(s, q);
  }

  lemma TakeRequestInv(s: Agent, outcome: Outcome, ui: Instance)
    requires Inv(s) && s.incoming != [] && ui !in s.windows
    ensures Inv(TakeRequest(s, outcome, ui))
  {
    hide InHand, Inv;
    var s1, r := s.(incoming := s.incoming[1..]), s.incoming[0];
    TakenInHand(s);
    if r.kind.Close? {
      DeletedInv(s1, r, TakeRequest(s, outcome, ui));
    } else if r.id in s.pending && r.kind.Cancel? {
      CancelledInv(s1, r);
    } else if r.id in s.pending || r.kind.Cancel? {
      DeletedInv(s1, r, TakeRequest(s, outcome, ui));
    } else {
      match outcome
      case Opened => AdmittedInv(s1, r, ui);
      case Declined => RefusedInv(s1, r, ui);
      case Threw =>
        SameRegistry(s1, r);
        DeletedInv(s1, r, TakeRequest(s, outcome, ui));
    }
  }

  lemma SameRegistry(s: Agent, r: Request)
    requires InHand(s, r) && r.id !in s.pending
    ensures s.registry - {r.id} == s.registry
  {
  }

  lemma TakeResponseInv(s: Agent)
    requires Inv(s) && s.responses != []
    ensures Inv(TakeResponse(s))
  {
    hide AnswerData;
    var id := s.responses[0].id;
    var s1 := s.(responses := s.responses[1..]);
    assert forall q :: IsPending(s1, q) <==> IsPending(s, q);
    forall i ensures Settled(s1, i) {
      assert Settled(s, i);
    }
    hide Settled;
    if id in s.pending {
      AnsweredInv(s1, id, AnswerData(s.responses[0].kind));
    } else {
      NoWindow(s1, id);
    }
  }

  lemma AnsweredInv(s: Agent, id: RequestId, data: string)
    requires Inv(s) && id in s.pending
    ensures var s1 := Delete(Reply(s, Action, id, data), s.pending[id]).(pending := s.pending - {id});
      Inv(DismissUI(s1, id))
  {
    hide DismissUI, Settled;
    var s1 := Delete(Reply(s, Action, id, data), s.pending[id]).(pending := s.pending - {id});
    var s' := DismissUI(s1, id);
    DismissInv(s1, id, id);
    forall i ensures Settled(s', i) {
      ClosedInv(s, id, Action, data, i);
    }
    var gone := s.pending[id];
    FiledValues(s.pending, id, gone);
    assert gone in s.pending.Values;
    forall q ensures IsPending(s', q) <==> IsPending(s, q) && q != gone {
    }
  }

  lemma NoWindow(s: Agent, id: RequestId)
    requires id !in s.uis
    ensures DismissUI(s, id) == s
  {
  }

  lemma NextInv(s: Agent, a: Label)
    requires Inv(s) && Enabled(s, a)
    ensures Inv(Next(s, a))
  {
    hide Inv;
    match a
    case FromCynara(r) => HandInInv(s, r);
    case FromTalker(id, response) => RespondInv(s, id, response);
    case NextRequest(outcome, ui) => TakeRequestInv(s, outcome, ui);
    case NextResponse => TakeResponseInv(s);
  }

  lemma {:induction false} RunInv(s: Agent, labels: seq<Label>, s': Agent)
    requires Inv(s) && Run(s, labels, s')
    ensures Inv(s')
    decreases |labels|
  {
    hide Inv, Next, Enabled;
    if labels != [] {
      NextInv(s, labels[0]);
      RunInv(Next(s, labels[0]), labels[1..], s');
    }
  }

  // ---- The theorems -------------------------------------------------------------------------

  /** Over every interleaving of actions, cancels, answers and stray responses, ids reused or not:
      the replies sent to Cynara for an id are the actions admitted or refused under it, less one
      while a request is pending; and the cancels posted to the talker are the requests posted to
      it, less one while a request is pending. */
  lemma ReplyConservation(labels: seq<Label>, s: Agent, id: RequestId)
    requires Run(Initial(), labels, s)
    ensures Replies(s.log, id) == Actions(s.log, id) - if id in s.pending then 1 else 0
    ensures Posts(s.log, id, Cancel) == Posts(s.log, id, Action) - if id in s.pending then 1 else 0
  {
    assert Inv(Initial());
    RunInv(Initial(), labels, s);
    assert Settled(s, id);
  }

  /** In every state between two steps the three maps agree, and each request handed in is in the
      queue, pending or deleted, and in one of them only. */
  lemma Ownership(labels: seq<Label>, s: Agent)
    requires Run(Initial(), labels, s)
    ensures s.uis.Keys == s.pending.Keys == s.registry.Keys
    ensures forall id :: id in s.registry ==> s.registry[id] == s.uis[id]
    ensures Owned(s)
  {
    assert Inv(Initial());
    RunInv(Initial(), labels, s);
  }

  /** An answer goes to the one window that is open for its id, which is so exactly while a request
      under that id is pending; otherwise it goes nowhere. */
  lemma AnswerGoesToTheOwner(labels: seq<Label>, s: Agent, id: RequestId, response: NResponseType)
    requires Run(Initial(), labels, s)
    ensures id in s.pending <==> id in s.uis
    ensures Respond(s, id, response).responses
         == s.responses + if id in s.pending then [Response(id, FromPopup(response), s.uis[id])] else []
    ensures Respond(s, id, response) == s.(responses := Respond(s, id, response).responses)
  {
    assert Inv(Initial());
    hide FromPopup, Owned;
    RunInv(Initial(), labels, s);
  }

  /** The replies in a log. */
  ghost function RepliesIn(log: seq<Event>): seq<Event> {
    if log == [] then [] else
      RepliesIn(log[..|log| - 1]) + if log[|log| - 1].Replied? then [log[|log| - 1]] else []
  }

  lemma RepliesStep(log: seq<Event>, e: Event)
    ensures RepliesIn(log + [e]) == RepliesIn(log) + if e.Replied? then [e] else []
  {
    assert (log + [e])[..|log + [e]| - 1] == log;
  }

  /** What taking a request sends to Cynara: a confirmed cancel for a pending request, an error for
      an action whose window is declined, and nothing for a duplicate, for a cancel of something
      unknown, or for an action that is admitted. */
  lemma RequestReplies(s: Agent, outcome: Outcome, ui: Instance)
    requires s.incoming != []
    ensures var r := s.incoming[0];
      RepliesIn(TakeRequest(s, outcome, ui).log)
      == RepliesIn(s.log)
         + (if r.kind.Cancel? && r.id in s.pending then [Replied(Cancel, r.id, "")]
            else if r.kind.Action? && r.id !in s.pending && outcome.Declined? then [Replied(Action, r.id, ERROR_MSG)]
            else [])
  {
    hide DecodeRequest, RepliesIn;
    var r, log, log' := s.incoming[0], s.log, TakeRequest(s, outcome, ui).log;
    if r.kind.Cancel? && r.id in s.pending {
      var e := Replied(Cancel, r.id, "");
      assert log' == if r.id in s.uis then log + [e] + [Posted(Cancel, r.id, None)] else log + [e];
      hide TakeRequest;
      RepliesStep(log, e);
      RepliesStep(log + [e], Posted(Cancel, r.id, None));
    } else if r.kind.Action? && r.id !in s.pending && outcome.Opened? {
      var e := Posted(Action, r.id, DecodeRequest(r.data));
      assert log' == log + [e] + [Admitted(r.id)];
      hide TakeRequest;
      RepliesStep(log, e);
      RepliesStep(log + [e], Admitted(r.id));
    } else if r.kind.Action? && r.id !in s.pending && outcome.Declined? {
      assert log' == log + [Refused(r.id)] + [Replied(Action, r.id, ERROR_MSG)];
      hide TakeRequest;
      RepliesStep(log, Refused(r.id));
      RepliesStep(log + [Refused(r.id)], Replied(Action, r.id, ERROR_MSG));
    }
  }

  /** Taking a response replies exactly when its id is pending; a late one sends nothing. */
  lemma ResponseReplies(s: Agent)
    requires s.responses != []
    ensures var response := s.responses[0];
      RepliesIn(TakeResponse(s).log)
      == RepliesIn(s.log)
         + if response.id in s.pending then [Replied(Action, response.id, AnswerData(response.kind))] else []
  {
    hide AnswerData, RepliesIn;
    var response := s.responses[0];
    var e := Replied(Action, response.id, AnswerData(response.kind));
    RepliesStep(s.log, e);
    RepliesStep(s.log, Posted(Cancel, response.id, None));
    RepliesStep(s.log + [e], Posted(Cancel, response.id, None));
  }

  /** The names the plugin encoded are the names the window is opened with. */
  lemma NamesReachTheWindow(s: Agent, r: Request, ui: Instance, client: string, user: string, privilege: string)
    requires r.kind.Action? && r.id !in s.pending && r.data == RequestToData(client, user, privilege)
    ensures ProcessRequest(s, r, Opened, ui).log
         == s.log + [Posted(Action, r.id, Some(RequestData(client, user, privilege))), Admitted(r.id)]
  {
    hide DecodeRequest, RequestToData;
    RequestRoundTrip(client, user, privilege);
  }

  // ---- When the loop stops ------------------------------------------------------------------

  /** A step stops the agent if and only if it takes a close request, or an action whose id is not
      pending and whose window throws; stopped is stopped. */
  lemma StopsIff(s: Agent, a: Label)
    requires Enabled(s, a)
    ensures Next(s, a).stopped <==>
      || s.stopped
      || (a.NextRequest?
          && (|| s.incoming[0].kind.Close?
              || (s.incoming[0].kind.Action? && s.incoming[0].id !in s.pending && a.outcome.Threw?)))
  {
    hide AnswerData, DecodeRequest, AnswerToData, FromPopup;
  }

  /** What is left as it was when a step stops the agent: everything but the request that did it,
      which has left the queue and is deleted. */
  lemma StoppingOnlyStops(s: Agent, a: Label)
    requires Inv(s) && Enabled(s, a) && !s.stopped && Next(s, a).stopped
    ensures Next(s, a)
         == s.(incoming := s.incoming[1..], deleted := s.deleted + {s.incoming[0]}, stopped := true)
  {
    hide AnswerData, DecodeRequest, AnswerToData, FromPopup, Owned, Settled;
    assert s.incoming[0].id !in s.pending ==> s.registry - {s.incoming[0].id} == s.registry;
  }

  /** Once the agent has stopped, nothing is processed any more, whatever still arrives: no request
      or answer leaves its queue, nothing is replied, posted, opened or deleted. */
  lemma {:induction false} StoppedIsFinal(s: Agent, labels: seq<Label>, s': Agent)
    requires s.stopped && Run(s, labels, s')
    ensures s'.stopped && s.incoming <= s'.incoming && s.responses <= s'.responses
    ensures s'.pending == s.pending && s'.uis == s.uis && s'.registry == s.registry
    ensures s'.log == s.log && s'.deleted == s.deleted && s'.windows == s.windows
    decreases |labels|
  {
    hide TakeRequest, TakeResponse;
    if labels != [] {
      StoppedIsFinal(Next(s, labels[0]), labels[1..], s');
    }
  }

  /** So a close request that is taken is the last thing processed. */
  lemma CloseIsFinal(s: Agent, a: Label, labels: seq<Label>, s': Agent)
    requires Inv(s) && Enabled(s, a) && a.NextRequest? && s.incoming[0].kind.Close?
    requires Run(Next(s, a), labels, s')
    ensures s'.stopped && s'.log == s.log && s'.windows == s.windows && s'.deleted == s.deleted + {s.incoming[0]}
    ensures s'.pending == s.pending && s'.uis == s.uis && s'.registry == s.registry
    ensures s.incoming[1..] <= s'.incoming && s.responses <= s'.responses
  {
    hide Inv, Run;
    StopsIff(s, a);
    StoppingOnlyStops(s, a);
    hide Next;
    StoppedIsFinal(Next(s, a), labels, s');
  }

  /** A turn of the loop in which nothing arrives takes one request and one response, if there are
      any, unless the request stops it. */
  lemma TurnTakesOneOfEach(s: Agent, o: Occasion)
    requires !s.stopped && o.during == [] && o.after == []
    ensures var s' := Turned(s, o);
      && s'.incoming == (if s.incoming != [] then s.incoming[1..] else [])
      && s'.responses == (if s.responses != [] && !s'.stopped then s.responses[1..] else s.responses)
      && (s'.stopped <==>
            && s.incoming != []
            && (|| s.incoming[0].kind.Close?
                || (s.incoming[0].kind.Action? && s.incoming[0].id !in s.pending && o.outcome.Threw?)))
  {
    hide TakeRequest, TakeResponse;
    var s1 := s;
    if s.incoming != [] {
      TakeRequestQueues(s, o.outcome, o.ui);
      s1 := TakeRequest(s, o.outcome, o.ui);
    }
    if s1.responses != [] {
      TakeResponseQueues(s1);
    }
  }

  lemma TakeRequestQueues(s: Agent, outcome: Outcome, ui: Instance)
    requires s.incoming != []
    ensures var s', r := TakeRequest(s, outcome, ui), s.incoming[0];
      && s'.incoming == s.incoming[1..] && s'.responses == s.responses
      && (s'.stopped <==>
            || s.stopped || r.kind.Close?
            || (r.kind.Action? && r.id !in s.pending && outcome.Threw?))
  {
    hide ProcessRequest;
    var s1, r := s.(incoming := s.incoming[1..]), s.incoming[0];
    if !r.kind.Close? {
      ProcessKeepsQueues(s1, r, outcome, ui);
      ProcessStops(s1, r, outcome, ui);
    }
  }

  lemma ProcessKeepsQueues(s: Agent, r: Request, outcome: Outcome, ui: Instance)
    ensures var s' := ProcessRequest(s, r, outcome, ui); s'.incoming == s.incoming && s'.responses == s.responses
  {
    hide DecodeRequest, AnswerToData;
  }

  lemma ProcessStops(s: Agent, r: Request, outcome: Outcome, ui: Instance)
    requires !r.kind.Close?
    ensures ProcessRequest(s, r, outcome, ui).stopped
        <==> s.stopped || (r.kind.Action? && r.id !in s.pending && outcome.Threw?)
  {
    hide DecodeRequest, AnswerToData;
  }

  lemma TakeResponseQueues(s: Agent)
    requires s.responses != []
    ensures var s' := TakeResponse(s);
      s'.incoming == s.incoming && s'.responses == s.responses[1..] && s'.stopped == s.stopped
  {
    hide AnswerData;
  }

  // ---- The order of requests ----------------------------------------------------------------

  /** The requests handed in along a run, in order. */
  ghost function HandedIn(labels: seq<Label>): seq<Request> {
    if labels == [] then [] else
      (if labels[0].FromCynara? then [labels[0].r] else []) + HandedIn(labels[1..])
  }

  /** The requests taken along a run, in order. */
  ghost function TakenOn(s: Agent, labels: seq<Label>): seq<Request>
    decreases |labels|
  {
    if labels == [] || !Enabled(s, labels[0]) then [] else
      (if labels[0].NextRequest? then [s.incoming[0]] else []) + TakenOn(Next(s, labels[0]), labels[1..])
  }

  /** Requests are taken in the order in which they were handed in, none is passed over, and none
      is lost: over every run those taken, followed by the queue, are those handed in. */
  lemma RequestsTakenInOrder(labels: seq<Label>, s: Agent)
    requires Run(Initial(), labels, s)
    ensures HandedIn(labels) == TakenOn(Initial(), labels) + s.incoming
  {
    TakenInOrder(Initial(), labels, s);
    assert [] + HandedIn(labels) == HandedIn(labels);
  }

  lemma {:induction false} TakenInOrder(s: Agent, labels: seq<Label>, s': Agent)
    requires Run(s, labels, s')
    ensures s.incoming + HandedIn(labels) == TakenOn(s, labels) + s'.incoming
    decreases |labels|
  {
    if labels != [] {
      var a, s1 := labels[0], Next(s, labels[0]);
      TakenInOrder(s1, labels[1..], s');
      QueueStep(s, a);
      hide Next, Enabled;
      var rest, taken := HandedIn(labels[1..]), TakenOn(s1, labels[1..]);
      if a.FromCynara? {
        assert s.incoming + ([a.r] + rest) == s1.incoming + rest;
      } else if a.NextRequest? {
        assert s.incoming + rest == [s.incoming[0]] + (s1.incoming + rest);
        assert [s.incoming[0]] + (taken + s'.incoming) == [s.incoming[0]] + taken + s'.incoming;
      }
      assert [] + rest == rest && [] + taken == taken;
    }
  }

  lemma QueueStep(s: Agent, a: Label)
    requires Enabled(s, a)
    ensures Next(s, a).incoming
         == match a
            case FromCynara(r) => s.incoming + [r]
            case NextRequest(_, _) => s.incoming[1..]
            case _ => s.incoming
  {
    hide AnswerData, DecodeRequest, AnswerToData, FromPopup;
  }

  // ---- Whose answer -------------------------------------------------------------------------

  /** Every queued answer to a pending id was given in the window of that pending request. */
  ghost predicate OwnAnswers(s: Agent) {
    forall k :: 0 <= k < |s.responses| && s.responses[k].id in s.uis
      ==> s.responses[k].from == s.uis[s.responses[k].id]
  }

  ghost predicate NothingQueuedFor(s: Agent, id: RequestId) {
    forall k :: 0 <= k < |s.responses| ==> s.responses[k].id != id
  }

  /** Admitting a request keeps that so exactly when no answer under its id is still queued. */
  lemma AdmissionKeepsOwnAnswersIff(s: Agent, ui: Instance)
    requires Inv(s) && OwnAnswers(s) && s.incoming != [] && ui !in s.windows
    requires s.incoming[0].kind.Action? && s.incoming[0].id !in s.pending
    ensures OwnAnswers(TakeRequest(s, Opened, ui))
        <==> NothingQueuedFor(s, s.incoming[0].id)
  {
    hide DecodeRequest;
    var s' := TakeRequest(s, Opened, ui);
    assert s'.uis == s.uis[s.incoming[0].id := ui] && s'.responses == s.responses;
    if k :| 0 <= k < |s.responses| && s.responses[k].id == s.incoming[0].id {
      assert s'.responses[k].from in s.windows;
    }
  }

  /** A request is about to be taken that would be admitted. */
  ghost predicate Admits(s: Agent, a: Label)
    requires Enabled(s, a)
  {
    a.NextRequest? && a.outcome.Opened? && s.incoming[0].kind.Action? && s.incoming[0].id !in s.pending
  }

  /** No step of the run admits an id while an answer under it is queued. */
  ghost predicate NoEarlyReuse(s: Agent, labels: seq<Label>)
    decreases |labels|
  {
    labels != [] ==>
      && Enabled(s, labels[0])
      && (Admits(s, labels[0]) ==> NothingQueuedFor(s, s.incoming[0].id))
      && NoEarlyReuse(Next(s, labels[0]), labels[1..])
  }

  ghost predicate OwnThroughout(s: Agent, labels: seq<Label>)
    decreases |labels|
  {
    && OwnAnswers(s)
    && (labels != [] ==> Enabled(s, labels[0]) && OwnThroughout(Next(s, labels[0]), labels[1..]))
  }

  lemma OtherStepsKeepOwnAnswers(s: Agent, a: Label)
    requires Inv(s) && OwnAnswers(s) && Enabled(s, a) && !Admits(s, a)
    ensures OwnAnswers(Next(s, a))
  {
    hide AnswerData, DecodeRequest, AnswerToData, FromPopup, Owned, Settled;
    match a {
      case FromCynara(r) =>
      case FromTalker(id, response) =>
      case NextRequest(outcome, ui) => FewerWindows(s, TakeRequest(s, outcome, ui));
      case NextResponse => FewerWindows(s, TakeResponse(s));
    }
  }

  /** Windows may go, and queued answers too. */
  lemma FewerWindows(s: Agent, s': Agent)
    requires OwnAnswers(s)
    requires s'.responses == s.responses || (s.responses != [] && s'.responses == s.responses[1..])
    requires forall id :: id in s'.uis ==> id in s.uis && s'.uis[id] == s.uis[id]
    ensures OwnAnswers(s')
  {
  }

  lemma NextOwnIff(s: Agent, a: Label)
    requires Inv(s) && OwnAnswers(s) && Enabled(s, a)
    ensures OwnAnswers(Next(s, a)) <==> (Admits(s, a) ==> NothingQueuedFor(s, s.incoming[0].id))
  {
    if Admits(s, a) {
      AdmissionKeepsOwnAnswersIff(s, a.ui);
    } else {
      OtherStepsKeepOwnAnswers(s, a);
    }
    hide Inv, OwnAnswers, NothingQueuedFor;
  }

  /** Queued answers stay with their own windows all along a run exactly when no id is admitted
      while an answer under it is queued. */
  lemma {:induction false} OwnThroughoutIff(s: Agent, labels: seq<Label>)
    requires Inv(s) && OwnAnswers(s)
    ensures OwnThroughout(s, labels) <==> NoEarlyReuse(s, labels)
    decreases |labels|
  {
    hide Inv, OwnAnswers, NothingQueuedFor, Next, Enabled, Admits;
    if labels != [] && Enabled(s, labels[0]) {
      var s' := Next(s, labels[0]);
      NextInv(s, labels[0]);
      NextOwnIff(s, labels[0]);
      if OwnAnswers(s') {
        OwnThroughoutIff(s', labels[1..]);
      } else {
        NotOwn(s', labels[1..]);
      }
    }
  }

  lemma NotOwn(s: Agent, labels: seq<Label>)
    requires !OwnAnswers(s)
    ensures !OwnThroughout(s, labels)
  {
  }

  lemma {:induction false} OwnAtTheEnd(s: Agent, labels: seq<Label>, s': Agent)
    requires OwnThroughout(s, labels) && Run(s, labels, s')
    ensures OwnAnswers(s')
    decreases |labels|
  {
    hide OwnAnswers, Next, Enabled;
    if labels != [] {
      OwnAtTheEnd(Next(s, labels[0]), labels[1..], s');
    }
  }

  /** If no id is admitted while an answer under it is queued, every answer that is turned into a
      reply was given in the window of the very request it settles. */
  lemma AnswersSettleTheirOwnRequest(labels: seq<Label>, s: Agent)
    requires Run(Initial(), labels, s) && NoEarlyReuse(Initial(), labels)
    requires Enabled(s, NextResponse) && s.responses[0].id in s.pending
    ensures s.responses[0].id in s.uis && s.responses[0].from == s.uis[s.responses[0].id]
  {
    assert Inv(Initial());
    OwnThroughoutIff(Initial(), labels);
    OwnAtTheEnd(Initial(), labels, s);
    RunInv(Initial(), labels, s);
  }

  /** Without that, it fails: an action is answered and cancelled, its id is used again, and the
      queued answer of the old window settles the new request. */
  lemma StaleAnswerSettlesReusedId(first: Request, cancel: Request, second: Request, closed: Instance,
                                   current: Instance)
    returns (labels: seq<Label>, s: Agent)
    requires first != second && first.kind.Action? && second.kind.Action? && cancel.kind.Cancel?
    requires first.id == second.id == cancel.id && closed != current
    ensures Run(Initial(), labels, s) && Enabled(s, NextResponse)
    ensures s.responses[0] == Response(second.id, YesLife, closed)
    ensures s.pending == map[second.id := second] && s.uis == map[second.id := current]
    ensures TakeResponse(s).log
         == s.log + [Replied(Action, second.id, AnswerData(YesLife)), Posted(Cancel, second.id, None)]
  {
    hide DecodeRequest, AnswerData;
    var id := first.id;
    var l1, l2, l3 := FromCynara(first), FromCynara(cancel), FromCynara(second);
    var l4, l5, l6 := NextRequest(Opened, closed), FromTalker(id, Allow), NextRequest(Opened, current);
    var s3 := Initial().(incoming := [first, cancel, second], handed := {first, cancel, second});
    assert Run(Initial(), [l1, l2, l3], s3) by {
      ThreeHandedIn(first, cancel, second);
    }
    var s4 := OpenedFirst(s3, first, cancel, second, closed);
    var s5 := Respond(s4, id, Allow);
    var s6 := TakeRequest(s5, Opened, current);
    assert s6.incoming == [second] && s6.pending == map[] && s6.uis == map[] && s6.windows == {closed};
    s := TakeRequest(s6, Opened, current);
    hide TakeRequest;
    RunOne(s3, l4);
    RunOne(s4, l5);
    RunOne(s5, l6);
    RunOne(s6, l6);
    hide Run;
    RunAppend(Initial(), [l1, l2, l3], s3, [l4], s4);
    RunAppend(Initial(), [l1, l2, l3] + [l4], s4, [l5], s5);
    RunAppend(Initial(), [l1, l2, l3] + [l4] + [l5], s5, [l6], s6);
    RunAppend(Initial(), [l1, l2, l3] + [l4] + [l5] + [l6], s6, [l6], s);
    labels := [l1, l2, l3] + [l4] + [l5] + [l6] + [l6];
  }

  lemma ThreeHandedIn(first: Request, cancel: Request, second: Request)
    requires first != second && first.kind.Action? && second.kind.Action? && cancel.kind.Cancel?
    ensures Run(Initial(), [FromCynara(first), FromCynara(cancel), FromCynara(second)],
                Initial().(incoming := [first, cancel, second], handed := {first, cancel, second}))
  {
    var s1 := HandIn(Initial(), first);
    var s2 := HandIn(s1, cancel);
    var s3 := HandIn(s2, second);
    assert s3 == Initial().(incoming := [first, cancel, second], handed := {first, cancel, second});
    RunOne(s2, FromCynara(second));
    assert Run(s1, [FromCynara(cancel), FromCynara(second)], s3);
  }

  lemma OpenedFirst(s: Agent, first: Request, cancel: Request, second: Request, ui: Instance) returns (s': Agent)
    requires s == Initial().(incoming := [first, cancel, second], handed := {first, cancel, second})
    requires first.kind.Action?
    ensures s' == TakeRequest(s, Opened, ui)
    ensures s'.incoming == [cancel, second] && s'.pending == map[first.id := first]
    ensures s'.uis == map[first.id := ui] && s'.registry == s'.uis && s'.windows == {ui}
    ensures s'.responses == [] && !s'.stopped
  {
    s' := TakeRequest(s, Opened, ui);
  }

  lemma RunNone(s: Agent)
    ensures Run(s, [], s)
  {
  }

  lemma RunOne(s: Agent, a: Label)
    requires Enabled(s, a)
    ensures Run(s, [a], Next(s, a))
  {
    assert Run(Next(s, a), [], Next(s, a));
  }

  lemma {:induction false} RunAppend(s: Agent, a: seq<Label>, s1: Agent, b: seq<Label>, s2: Agent)
    requires Run(s, a, s1) && Run(s1, b, s2)
    ensures Run(s, a + b, s2)
    decreases |a|
  {
    hide Next, Enabled;
    if a == [] {
      assert a + b == b;
    } else {
      RunAppend(Next(s, a[0]), a[1..], s1, b, s2);
      assert (a + b)[1..] == a[1..] + b;
    }
  }

  // ---- Shutting down ------------------------------------------------------------------------

  /** `finish`: the queue is deleted; if a window is left the process quits on the spot, otherwise
      whatever is pending is deleted too. `None` is the quick exit. */
  ghost function Finish(s: Agent, talkerStopped: bool): Option<Agent> {
    if !talkerStopped then None
    else
      var s1 := s.(deleted := s.deleted + Elements(s.incoming), incoming := []);
      if s1.uis != map[] then None
      else Some(s1.(deleted := s1.deleted + s1.pending.Values, pending := map[]))
  }

  /** An orderly end deletes everything that was ever handed in; and with the talker stopped the
      end is orderly exactly when nothing is pending. */
  lemma FinishDeletesEverything(labels: seq<Label>, s: Agent, talkerStopped: bool)
    requires Run(Initial(), labels, s)
    ensures Finish(s, talkerStopped).Some? <==> talkerStopped && s.pending == map[]
    ensures Finish(s, talkerStopped).Some? ==>
      Finish(s, talkerStopped).value == s.(incoming := [], pending := map[], deleted := s.handed)
  {
    assert Inv(Initial());
    RunInv(Initial(), labels, s);
    assert s.uis == map[] <==> s.pending == map[] by {
      assert s.uis.Keys == {} <==> s.uis == map[];
      assert s.pending.Keys == {} <==> s.pending == map[];
    }
    if Finish(s, talkerStopped).Some? {
      forall r ensures r in Finish(s, talkerStopped).value.deleted <==> r in s.handed {
      }
    }
  }
}
