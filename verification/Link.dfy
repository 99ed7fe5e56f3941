/** One connection between the daemon and a popup: the popup's state, the two FIFO channels, and
    what each side has done so far. */
module Link {
  import opened Types
  import opened Translator

  /** What the daemon puts on the socket. `withdrawn` names the request a dismiss was sent for;
      it is not on the wire and the popup never looks at it. */
  datatype Message = Frame(request: NotificationRequest) | Dismiss(withdrawn: NotificationRequest) | Ack

  /** Why a popup process ended. `Desync`: the bytes it read next were of a kind its state does
      not read at all, so that it parses garbage. */
  datatype Cause = Hangup | BadDismissFlag | BadAck | OverLimit | GuiError | Desync | Killed

  datatype Popup =
    | Idle
    | Asking(request: NotificationRequest)
    | AwaitingAck(request: NotificationRequest, answer: NResponseType)
    | Dead(cause: Cause)

  /** An answer to a request, as stripped of its user. */
  datatype Verdict = Verdict(request: NotificationRequest, answer: NResponseType)

  datatype Link = Link(
    user: string,
    open: bool,                         // the daemon's end
    popup: Popup,
    toPopup: seq<Message>,
    toDaemon: seq<NotificationResponse>,
    last: Option<NotificationRequest>,  // history: the request last sent on this connection
    sent: seq<Message>,                 // history: everything the daemon sent here
    asked: nat,                         // history: how much of that was read at the last answer
    given: seq<Verdict>,                // history: answers the user gave here
    handled: seq<Verdict>,              // history: answers the daemon accepted from here
    passed: seq<Verdict>)               // history: answers that got past the popup's ack check

  function Fresh(user: string): Link {
    Link(user, true, Idle, [], [], None, [], 0, [], [], [])
  }

  /** How many of the messages sent the popup has read. */
  function ReadSoFar(l: Link): nat {
    if |l.toPopup| <= |l.sent| then |l.sent| - |l.toPopup| else 0
  }

  // ---- The popup's moves --------------------------------------------------------------------

  /** The popup reads the next message in whichever state it is. */
  function Receive(l: Link): Link
    requires l.toPopup != [] && !l.popup.Dead?
  {
    var m, l' := l.toPopup[0], l.(toPopup := l.toPopup[1..]);
    match l.popup
    case Idle =>
      if m.Frame? then
        l'.(popup := if FrameSize(m.request) > SIZE_LIMIT then Dead(OverLimit) else Asking(m.request))
      else l'.(popup := Dead(Desync))
    case Asking(_) =>
      l'.(popup := if m.Dismiss? then Idle else if m.Ack? then Dead(BadDismissFlag) else Dead(Desync))
    case AwaitingAck(r, a) =>
      if m.Ack? then
        l'.(passed := l.passed + [Verdict(r, a)], popup := if a == Error then Dead(GuiError) else Idle)
      else l'.(popup := if m.Dismiss? then Dead(BadAck) else Dead(Desync))
    case Dead(_) => l'
  }

  /** The user presses a button, or the window could not be shown (`Error`). */
  function Answer(l: Link, a: NResponseType): Link
    requires l.popup.Asking? && a != NoAnswer
  {
    var l' := l.(given := l.given + [Verdict(l.popup.request, a)], asked := ReadSoFar(l));
    if l.open then
      l'.(popup := AwaitingAck(l.popup.request, a),
          toDaemon := l.toDaemon + [NotificationResponse(l.popup.request.id, a)])
    else l'.(popup := Dead(Hangup))
  }

  /** The popup sees the end of the stream. A poll for a dismiss leaves its byte at zero then. */
  function EndOfStream(l: Link): Link
    requires !l.open && !l.popup.Dead? && l.toPopup == []
  {
    l.(popup := Dead(if l.popup.Asking? then BadDismissFlag else Hangup))
  }

  function Kill(l: Link): Link {
    l.(popup := Dead(Killed))
  }

  // ---- The daemon's moves -------------------------------------------------------------------

  function Send(l: Link, m: Message): Link {
    l.(toPopup := l.toPopup + [m], sent := l.sent + [m])
  }

  function SendFrame(l: Link, r: NotificationRequest): Link {
    Send(l, Frame(r.Stripped())).(last := Some(r))
  }

  function SendDismiss(l: Link, r: NotificationRequest): Link {
    Send(l, Dismiss(r.Stripped()))
  }

  function SendAck(l: Link): Link {
    Send(l, Ack)
  }

  function Accept(l: Link, r: NotificationRequest, a: NResponseType): Link {
    l.(handled := l.handled + [Verdict(r.Stripped(), a)])
  }

  function TakeResponse(l: Link): Link
    requires l.toDaemon != []
  {
    l.(toDaemon := l.toDaemon[1..])
  }

  function Close(l: Link): Link {
    l.(open := false, toDaemon := [])
  }

  // ---- The joint invariant ------------------------------------------------------------------

  /** The daemon's half of a conversation: frames, each taken back by the dismiss that names it,
      and at the end possibly one that still stands. */
  ghost predicate Conversation(ms: seq<Message>, standing: Option<NotificationRequest>) {
    if ms == [] then standing == None
    else if |ms| == 1 then IsFrame(ms[0]) && standing == Some(ms[0].request)
    else IsFrame(ms[0]) && ms[1] == Dismiss(ms[0].request) && Conversation(ms[2..], standing)
  }

  predicate IsFrame(m: Message) {
    m.Frame? && m.request.data.user == ""
  }

  /** What a connection may look like, given the request the daemon takes it to be busy with. */
  ghost predicate LinkInv(l: Link, standing: Option<NotificationRequest>) {
    Unread(l) && Answering(l, standing) && PopupInv(l, standing)
  }

  /** The channel holds the last messages sent, those not read yet. */
  ghost predicate Unread(l: Link) {
    |l.toPopup| <= |l.sent| && l.toPopup == l.sent[ReadSoFar(l)..]
  }

  /** The channel to the daemon holds at most the last answer given. The frame it answers is on
      record, and what was sent from there on is a conversation about it. */
  ghost predicate Answering(l: Link, standing: Option<NotificationRequest>) {
    l.toDaemon != [] ==>
      && l.given != [] && 0 < l.asked <= |l.sent|
      && var g := l.given[|l.given| - 1];
      && l.toDaemon == [NotificationResponse(g.request.id, g.answer)]
      && l.sent[l.asked - 1] == Frame(g.request)
      && Conversation(l.sent[l.asked - 1..], standing)
  }

  ghost predicate PopupInv(l: Link, standing: Option<NotificationRequest>) {
    match l.popup
    case Idle => l.toDaemon == [] && l.passed == l.handled && Conversation(l.toPopup, standing)
    case Asking(r) =>
      && l.toDaemon == [] && l.passed == l.handled
      && 0 < ReadSoFar(l) <= |l.sent| && l.sent[ReadSoFar(l) - 1] == Frame(r)
      && Conversation([Frame(r)] + l.toPopup, standing)
    case AwaitingAck(r, a) =>
      || Undelivered(l, r, a, standing)
      || Acknowledged(l, r, a, standing)
      || Doomed(l, r)
    case Dead(cause) =>
      && l.passed <= l.handled
      && cause != Desync
      && (cause == BadDismissFlag ==> !l.open)
  }

  /** The answer is on its way to the daemon, or was lost with the connection. */
  ghost predicate Undelivered(l: Link, r: NotificationRequest, a: NResponseType,
                              standing: Option<NotificationRequest>) {
    && (l.open ==> l.toDaemon == [NotificationResponse(r.id, a)] && l.passed == l.handled)
    && l.passed <= l.handled
    && Conversation([Frame(r)] + l.toPopup, standing)
  }

  /** The daemon has accepted exactly this answer and its ack is next. */
  ghost predicate Acknowledged(l: Link, r: NotificationRequest, a: NResponseType,
                               standing: Option<NotificationRequest>) {
    && l.toDaemon == []
    && l.handled == l.passed + [Verdict(r, a)]
    && l.toPopup != [] && l.toPopup[0].Ack?
    && Conversation(l.toPopup[1..], standing)
  }

  /** The request was withdrawn while its answer was on the way: the popup will read the dismiss
      where it expects an ack, and end. */
  ghost predicate Doomed(l: Link, r: NotificationRequest) {
    && l.toDaemon == []
    && l.passed <= l.handled
    && l.toPopup != [] && l.toPopup[0] == Dismiss(r)
  }

  lemma {:induction false} ConversationFrame(ms: seq<Message>, r: NotificationRequest)
    requires Conversation(ms, None) && r.data.user == ""
    ensures Conversation(ms + [Frame(r)], Some(r))
  {
    if ms != [] {
      ConversationFrame(ms[2..], r);
      assert (ms + [Frame(r)])[2..] == ms[2..] + [Frame(r)];
    }
  }

  lemma {:induction false} ConversationDismiss(ms: seq<Message>, r: NotificationRequest)
    requires Conversation(ms, Some(r))
    ensures Conversation(ms + [Dismiss(r)], None)
  {
    if |ms| == 1 {
      assert (ms + [Dismiss(r)])[2..] == [];
    } else {
      ConversationDismiss(ms[2..], r);
      assert (ms + [Dismiss(r)])[2..] == ms[2..] + [Dismiss(r)];
    }
  }

  // ---- The record of what was sent ----------------------------------------------------------

  lemma SameUnread(l: Link, l': Link)
    requires l'.toPopup == l.toPopup && l'.sent == l.sent
    ensures Unread(l') == Unread(l) && ReadSoFar(l') == ReadSoFar(l)
  {
  }

  lemma ReadUnread(l: Link)
    requires l.toPopup != [] && Unread(l)
    ensures var l' := l.(toPopup := l.toPopup[1..]);
      && Unread(l') && ReadSoFar(l') == ReadSoFar(l) + 1
      && l.sent[ReadSoFar(l)] == l.toPopup[0]
  {
  }

  lemma SendUnread(l: Link, m: Message)
    requires Unread(l)
    ensures Unread(Send(l, m)) && ReadSoFar(Send(l, m)) == ReadSoFar(l)
  {
    var n := ReadSoFar(l);
    assert (l.sent + [m])[n..] == l.sent[n..] + [m];
  }

  /** A message that carries the conversation on, from `standing` to `standing'`. */
  ghost predicate CarriesOn(m: Message, standing: Option<NotificationRequest>, standing': Option<NotificationRequest>) {
    || (IsFrame(m) && standing == None && standing' == Some(m.request))
    || (m.Dismiss? && standing == Some(m.withdrawn) && standing' == None)
  }

  lemma ConversationSend(ms: seq<Message>, m: Message, standing: Option<NotificationRequest>,
                         standing': Option<NotificationRequest>)
    requires Conversation(ms, standing) && CarriesOn(m, standing, standing')
    ensures Conversation(ms + [m], standing')
  {
    if IsFrame(m) {
      ConversationFrame(ms, m.request);
    } else {
      ConversationDismiss(ms, m.withdrawn);
    }
  }

  lemma SendAnswering(l: Link, m: Message, standing: Option<NotificationRequest>,
                      standing': Option<NotificationRequest>)
    requires Answering(l, standing) && CarriesOn(m, standing, standing')
    ensures Answering(Send(l, m), standing')
  {
    hide Conversation, CarriesOn;
    if l.toDaemon != [] {
      var k := l.asked - 1;
      assert (l.sent + [m])[k..] == l.sent[k..] + [m];
      ConversationSend(l.sent[k..], m, standing, standing');
    }
  }

  /** The same for what the popup has still to read, in whichever state it is. */
  lemma SendPopupInv(l: Link, m: Message, standing: Option<NotificationRequest>, standing': Option<NotificationRequest>)
    requires Unread(l) && PopupInv(l, standing) && CarriesOn(m, standing, standing')
    ensures PopupInv(Send(l, m), standing')
  {
    hide Conversation, CarriesOn, Unread, Doomed;
    var l' := Send(l, m);
    SendUnread(l, m);
    match l.popup {
      case Idle => ConversationSend(l.toPopup, m, standing, standing');
      case Asking(q) => AboutSend(l, q, m, standing, standing');
      case AwaitingAck(q, a) =>
        if Undelivered(l, q, a, standing) {
          AboutSend(l, q, m, standing, standing');
        } else if Acknowledged(l, q, a, standing) {
          ConversationSend(l.toPopup[1..], m, standing, standing');
          assert l'.toPopup[1..] == l.toPopup[1..] + [m];
        } else {
          DoomedStays(l, q, m);
        }
      case Dead(_) =>
    }
  }

  lemma AboutSend(l: Link, q: NotificationRequest, m: Message, standing: Option<NotificationRequest>,
                  standing': Option<NotificationRequest>)
    requires Conversation([Frame(q)] + l.toPopup, standing) && CarriesOn(m, standing, standing')
    ensures Conversation([Frame(q)] + Send(l, m).toPopup, standing')
  {
    hide Conversation, CarriesOn;
    ConversationSend([Frame(q)] + l.toPopup, m, standing, standing');
    assert [Frame(q)] + Send(l, m).toPopup == [Frame(q)] + l.toPopup + [m];
  }

  lemma DoomedStays(l: Link, r: NotificationRequest, m: Message)
    requires Doomed(l, r)
    ensures Doomed(Send(l, m), r)
  {
  }

  // ---- Every move keeps it ------------------------------------------------------------------

  lemma FreshInv(user: string)
    ensures LinkInv(Fresh(user), None)
  {
  }

  lemma ReceiveInv(l: Link, standing: Option<NotificationRequest>)
    requires l.toPopup != [] && !l.popup.Dead? && LinkInv(l, standing)
    ensures LinkInv(Receive(l), standing)
  {
    hide Conversation, PopupInv, Unread;
    var l' := Receive(l);
    ReadUnread(l);
    SameUnread(l.(toPopup := l.toPopup[1..]), l');
    assert Answering(l', standing);
    hide Answering;
    ReceivePopupInv(l, standing);
  }

  lemma ReceivePopupInv(l: Link, standing: Option<NotificationRequest>)
    requires l.toPopup != [] && !l.popup.Dead? && PopupInv(l, standing)
    requires ReadSoFar(Receive(l)) == ReadSoFar(l) + 1 <= |l.sent| && l.sent[ReadSoFar(l)] == l.toPopup[0]
    ensures PopupInv(Receive(l), standing)
  {
    hide ReadSoFar;
    var l' := Receive(l);
    match l.popup {
      case Idle =>
        assert [Frame(l.toPopup[0].request)] + l'.toPopup == l.toPopup;
      case Asking(r) =>
        var ms := [Frame(r)] + l.toPopup;
        assert ms[1] == l.toPopup[0] && ms[2..] == l'.toPopup;
      case AwaitingAck(r, a) =>
        if Undelivered(l, r, a, standing) {
          assert ([Frame(r)] + l.toPopup)[1] == l.toPopup[0];
        }
    }
  }

  lemma AnswerInv(l: Link, a: NResponseType, standing: Option<NotificationRequest>)
    requires l.popup.Asking? && a != NoAnswer && LinkInv(l, standing)
    ensures LinkInv(Answer(l, a), standing)
  {
    hide Conversation;
    if l.open {
      var n, r := ReadSoFar(l), l.popup.request;
      assert l.sent[n - 1..] == [Frame(r)] + l.toPopup;
      assert Undelivered(Answer(l, a), r, a, standing);
    }
  }

  lemma EndInv(l: Link, standing: Option<NotificationRequest>)
    requires LinkInv(l, standing)
    ensures LinkInv(Kill(l), standing)
    ensures !l.open && !l.popup.Dead? && l.toPopup == [] ==> LinkInv(EndOfStream(l), standing)
    ensures LinkInv(Close(l), standing)
  {
    hide Conversation, Doomed;
    assert Answering(Kill(l), standing) && Answering(Close(l), standing);
    assert Unread(Kill(l)) && Unread(Close(l));
    hide Answering, Unread;
    ClosePopupInv(l, standing);
  }

  lemma ClosePopupInv(l: Link, standing: Option<NotificationRequest>)
    requires PopupInv(l, standing)
    ensures PopupInv(Close(l), standing)
    ensures l.passed <= l.handled
  {
    hide Conversation;
    match l.popup {
      case AwaitingAck(r, a) =>
        if Undelivered(l, r, a, standing) {
          assert Undelivered(Close(l), r, a, standing);
        }
      case _ =>
    }
  }

  lemma SendFrameInv(l: Link, r: NotificationRequest)
    requires LinkInv(l, None)
    ensures LinkInv(SendFrame(l, r), Some(r.Stripped()))
  {
    var m, s := Frame(r.Stripped()), Some(r.Stripped());
    var l' := Send(l, m);
    assert CarriesOn(m, None, s);
    hide CarriesOn;
    SendUnread(l, m);
    SendAnswering(l, m, None, s);
    SendPopupInv(l, m, None, s);
    assert LinkInv(l', s) ==> LinkInv(l'.(last := Some(r)), s);
  }

  lemma SendDismissInv(l: Link, r: NotificationRequest)
    requires LinkInv(l, Some(r.Stripped()))
    ensures LinkInv(SendDismiss(l, r), None)
  {
    var m, s := Dismiss(r.Stripped()), Some(r.Stripped());
    assert CarriesOn(m, s, None);
    hide CarriesOn, Unread, Answering, PopupInv;
    SendUnread(l, m);
    SendAnswering(l, m, s, None);
    SendPopupInv(l, m, s, None);
  }

  /** The daemon reads an answer that is not for its current head. */
  lemma StaleInv(l: Link, standing: Option<NotificationRequest>)
    requires l.open && l.toDaemon != [] && LinkInv(l, standing)
    requires standing.Some? ==> standing.value.id != l.toDaemon[0].id
    ensures LinkInv(TakeResponse(l), None)
  {
    assert TakeResponse(l).toDaemon == [];
    match l.popup {
      case AwaitingAck(r, a) =>
        var ms := [Frame(r)] + l.toPopup;
        if l.toPopup == [] {
          assert false;
        } else {
          assert ms[1] == l.toPopup[0];
          assert Doomed(TakeResponse(l), r);
        }
      case Dead(_) =>
      case Idle =>
      case Asking(_) =>
    }
  }

  /** The daemon reads an answer whose id is that of its head `q`, hands it on and acknowledges
      it. When it takes the connection to be busy with `q`, the answer is really for `q`. */
  lemma MatchInv(l: Link, q: NotificationRequest, standing: Option<NotificationRequest>)
    requires l.open && l.toDaemon != [] && LinkInv(l, standing)
    requires l.toDaemon[0].id == q.id
    requires standing.Some? ==> standing.value == q.Stripped()
    ensures LinkInv(SendAck(Accept(TakeResponse(l), q, l.toDaemon[0].response)), None)
    ensures LinkInv(Close(Accept(TakeResponse(l), q, l.toDaemon[0].response)), standing)
  {
    var l1 := Accept(TakeResponse(l), q, l.toDaemon[0].response);
    assert l1.toDaemon == [] && Unread(l1);
    SendUnread(l1, Ack);
    hide Unread;
    MatchPopupInv(l, q, standing);
  }

  lemma MatchPopupInv(l: Link, q: NotificationRequest, standing: Option<NotificationRequest>)
    requires l.open && l.toDaemon != [] && PopupInv(l, standing)
    requires l.toDaemon[0].id == q.id
    requires standing.Some? ==> standing.value == q.Stripped()
    ensures PopupInv(SendAck(Accept(TakeResponse(l), q, l.toDaemon[0].response)), None)
    ensures PopupInv(Close(Accept(TakeResponse(l), q, l.toDaemon[0].response)), standing)
  {
    var answer := l.toDaemon[0].response;
    var l1 := Accept(TakeResponse(l), q, answer);
    var l' := SendAck(l1);
    match l.popup {
      case AwaitingAck(r, a) =>
        var ms := [Frame(r)] + l.toPopup;
        if l.toPopup == [] {
          assert standing == Some(r);
          assert l'.toPopup[1..] == [];
          assert Acknowledged(l', r, a, None);
          assert Undelivered(Close(l1), r, a, standing);
        } else {
          assert ms[1] == l.toPopup[0];
          assert Doomed(l', r);
        }
      case Dead(_) =>
      case Idle =>
      case Asking(_) =>
    }
  }
}
