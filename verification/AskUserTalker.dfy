/** The popup process as it is written: a loop over the socket with early exits. */
module AskUserTalker {
  import opened Types
  import opened Translator
  import opened InputStream
  import opened Wire
  import L = Link

  /** A button, or the error that stands for a window that could not be shown. */
  type Pressed = a: NResponseType | a != NoAnswer witness Allow

  /** What the window does once it is shown: the user presses a button (and the daemon's end is
      still there to be written to, or not), or nobody does and the timer polls for a dismiss. */
  datatype Choice = Press(answer: Pressed, delivered: bool) | Wait

  /** What one turn of the loop meets: the choice, and what happens to follow the request in memory. */
  datatype Occasion = Occasion(choice: Choice, garbage: string)

  datatype Level = Level(app: string, privilege: string, level: string)

  /** A popup process: where it is, the bytes that will still reach it, what it has sent, what got
      past its ack check, and the security levels it has set. */
  datatype Session = Session(
    popup: L.Popup,
    incoming: string,
    sent: seq<NotificationResponse>,
    passed: seq<L.Verdict>,
    levels: seq<Level>)

  const APP_PREFIX: string := "User::App::"

  function DropPrefix(app: string): string {
    if APP_PREFIX <= app then app[|APP_PREFIX|..] else app
  }

  function ResponseToString(response: NResponseType): string {
    match response
    case Allow => "Allow"
    case Deny => "Deny once"
    case Never => "Deny"
    case Error => "Error"
    case NoAnswer => "None"
  }

  /** The security level an answer sets, if it sets one. */
  function LevelsOf(v: L.Verdict): seq<Level> {
    if v.answer.Allow? || v.answer.Never? then
      [Level(DropPrefix(v.request.data.client), v.request.data.privilege, ResponseToString(v.answer))]
    else []
  }

  // ---- The loop, as a function --------------------------------------------------------------

  /** One read, in whichever state the process is. At the end of the stream a poll for a dismiss
      finds its byte still zero. */
  function ReadOn(s: Session, garbage: string): Session
    requires !s.popup.Dead?
  {
    match ReadBytes(s.popup, s.incoming, garbage)
    case None => s.(popup := L.Dead(if s.popup.Asking? then L.BadDismissFlag else L.Hangup), incoming := "")
    case Some((p, rest)) =>
      var s' := s.(popup := p, incoming := rest);
      if s.popup.AwaitingAck? && s.incoming[0] == ACK_CODE then
        var v := L.Verdict(s.popup.request, s.popup.answer);
        s'.(passed := s.passed + [v], levels := s.levels + LevelsOf(v))
      else s'
  }

  /** A button is pressed, and the answer written. */
  function PressOn(s: Session, a: Pressed, delivered: bool): Session
    requires s.popup.Asking?
  {
    var r := s.popup.request;
    if delivered then
      s.(popup := L.AwaitingAck(r, a), sent := s.sent + [NotificationResponse(r.id, a)])
    else s.(popup := L.Dead(L.Hangup))
  }

  /** From the request on the screen to the end of the loop body. */
  function Show(s: Session, choice: Choice): Session
    requires s.popup.Asking?
  {
    match choice
    case Wait => ReadOn(s, "")
    case Press(a, delivered) =>
      var s' := PressOn(s, a, delivered);
      if delivered then ReadOn(s', "") else s'
  }

  function Turn(s: Session, o: Occasion): Session
    requires s.popup.Idle?
  {
    var s' := ReadOn(s, o.garbage);
    if s'.popup.Asking? then Show(s', o.choice) else s'
  }

  /** The loop, until it ends or is told to stop (no occasions are left). */
  function Turns(s: Session, os: seq<Occasion>): Session
    decreases |os|
  {
    if os == [] || !s.popup.Idle? then s else Turns(Turn(s, os[0]), os[1..])
  }

  // ---- What the loop keeps ------------------------------------------------------------------

  function Responses(passed: seq<L.Verdict>): seq<NotificationResponse> {
    seq(|passed|, i requires 0 <= i < |passed| => NotificationResponse(passed[i].request.id, passed[i].answer))
  }

  function Levels(passed: seq<L.Verdict>): seq<Level> {
    if passed == [] then [] else Levels(passed[..|passed| - 1]) + LevelsOf(passed[|passed| - 1])
  }

  /** Every answer that passed the ack check was sent, in the same order, and none but the last
      one sent can be missing: the one an ack is awaited for. The security levels set are those of
      the answers that passed, and no others. */
  ghost predicate Faithful(s: Session) {
    && s.levels == Levels(s.passed)
    && match s.popup
       case AwaitingAck(r, a) => s.sent == Responses(s.passed) + [NotificationResponse(r.id, a)]
       case Dead(_) => Responses(s.passed) <= s.sent && |s.sent| <= |s.passed| + 1
       case _ => s.sent == Responses(s.passed)
  }

  lemma OnePassed(passed: seq<L.Verdict>, v: L.Verdict)
    ensures Responses(passed + [v]) == Responses(passed) + [NotificationResponse(v.request.id, v.answer)]
    ensures Levels(passed + [v]) == Levels(passed) + LevelsOf(v)
  {
    assert (passed + [v])[..|passed|] == passed;
  }

  lemma ReadFaithful(s: Session, garbage: string)
    requires !s.popup.Dead? && Faithful(s)
    ensures Faithful(ReadOn(s, garbage))
  {
    hide Responses, Levels, DecodeNotification, FromLittleEndian;
    if s.popup.AwaitingAck? {
      OnePassed(s.passed, L.Verdict(s.popup.request, s.popup.answer));
    }
    assert |Responses(s.passed)| == |s.passed| by { CountResponses(s.passed); }
  }

  lemma CountResponses(passed: seq<L.Verdict>)
    ensures |Responses(passed)| == |passed|
  {
  }

  lemma PressFaithful(s: Session, a: Pressed, delivered: bool)
    requires s.popup.Asking? && Faithful(s)
    ensures Faithful(PressOn(s, a, delivered))
  {
    hide Levels;
  }

  /** However many popups are shown, however the user and the daemon behave: the levels set are
      exactly those of the acknowledged allow and never answers, in order. */
  lemma {:induction false} TurnsFaithful(s: Session, os: seq<Occasion>)
    requires Faithful(s)
    ensures Faithful(Turns(s, os))
    decreases |os|
  {
    hide Faithful, ReadOn, PressOn;
    if os != [] && s.popup.Idle? {
      var s' := ReadOn(s, os[0].garbage);
      ReadFaithful(s, os[0].garbage);
      if s'.popup.Asking? {
        ShowFaithful(s', os[0].choice);
      }
      TurnsFaithful(Turn(s, os[0]), os[1..]);
    }
  }

  lemma ShowFaithful(s: Session, choice: Choice)
    requires s.popup.Asking? && Faithful(s)
    ensures Faithful(Show(s, choice))
  {
    hide Faithful, ReadOn;
    match choice {
      case Wait => ReadFaithful(s, "");
      case Press(a, delivered) =>
        PressFaithful(s, a, delivered);
        if delivered {
          ReadFaithful(PressOn(s, a, delivered), "");
        }
    }
  }

  /** Every level set is one the policy store accepts, and "Allow" is only ever set for an app and
      a privilege the user allowed, "Deny" for ones the user denied for ever. */
  lemma {:induction false} LevelsAreAccepted(passed: seq<L.Verdict>, k: nat) returns (j: nat)
    requires k < |Levels(passed)|
    ensures j < |passed|
    ensures var r := passed[j].request.data;
      || (passed[j].answer == Allow && Levels(passed)[k] == Level(DropPrefix(r.client), r.privilege, "Allow"))
      || (passed[j].answer == Never && Levels(passed)[k] == Level(DropPrefix(r.client), r.privilege, "Deny"))
  {
    var n := |passed| - 1;
    if k < |Levels(passed[..n])| {
      j := LevelsAreAccepted(passed[..n], k);
    } else {
      j := n;
    }
  }

  /** `app` is what a client names: what follows "User::App::", or all of it if it does not begin so. */
  predicate NamesApp(client: string, app: string) {
    if |client| >= 11 && client[..11] == "User::App::" then client == "User::App::" + app else app == client
  }

  lemma DropPrefixNames(client: string)
    ensures NamesApp(client, DropPrefix(client))
  {
    assert |APP_PREFIX| == 11;
  }

  /** The level an allow or a never sets. */
  predicate Sets(v: L.Verdict, level: Level) {
    && NamesApp(v.request.data.client, level.app)
    && level.privilege == v.request.data.privilege
    && level.level == if v.answer == Allow then "Allow" else "Deny"
  }

  /** `at` lists, in order, where among the answers that passed there is an allow or a never. */
  ghost predicate Picks(passed: seq<L.Verdict>, at: seq<nat>) {
    && (forall k, m :: 0 <= k < m < |at| ==> at[k] < at[m])
    && (forall j :: j in at <==> 0 <= j < |passed| && (passed[j].answer == Allow || passed[j].answer == Never))
  }

  /** The levels set come from these, one each. */
  ghost predicate SetBy(passed: seq<L.Verdict>, at: seq<nat>) {
    && |at| == |Levels(passed)|
    && forall k :: 0 <= k < |at| ==> at[k] < |passed| && Sets(passed[at[k]], Levels(passed)[k])
  }

  lemma PicksMore(passed: seq<L.Verdict>, at: seq<nat>, v: L.Verdict)
    requires Picks(passed, at)
    ensures Picks(passed + [v], if v.answer == Allow || v.answer == Never then at + [|passed|] else at)
  {
    assert forall k :: 0 <= k < |at| ==> at[k] in at;
  }

  lemma SetByMore(passed: seq<L.Verdict>, at: seq<nat>, v: L.Verdict)
    requires SetBy(passed, at)
    ensures SetBy(passed + [v], if v.answer == Allow || v.answer == Never then at + [|passed|] else at)
  {
    hide NamesApp, DropPrefix;
    OnePassed(passed, v);
    hide Levels;
    DropPrefixNames(v.request.data.client);
  }

  lemma {:induction false} SomePicks(passed: seq<L.Verdict>) returns (at: seq<nat>)
    ensures Picks(passed, at) && SetBy(passed, at)
    decreases |passed|
  {
    at := [];
    if passed != [] {
      hide Picks, SetBy;
      var front, v := passed[..|passed| - 1], passed[|passed| - 1];
      at := SomePicks(front);
      assert passed == front + [v];
      PicksMore(front, at, v);
      SetByMore(front, at, v);
      at := if v.answer == Allow || v.answer == Never then at + [|front|] else at;
    }
  }

  /** The levels set are one for each allow and each never among the answers that passed, in the same
      order, and no others: `at` says where each comes from. An allow sets "Allow", a never "Deny",
      for the app the client names and the privilege asked for. */
  lemma LevelsAreExactly(passed: seq<L.Verdict>) returns (at: seq<nat>)
    ensures |at| == |Levels(passed)|
    ensures forall k, m :: 0 <= k < m < |at| ==> at[k] < at[m]
    ensures forall j :: j in at <==> 0 <= j < |passed| && (passed[j].answer == Allow || passed[j].answer == Never)
    ensures forall k :: 0 <= k < |at| ==>
      && at[k] < |passed|
      && var v, level := passed[at[k]], Levels(passed)[k];
         && NamesApp(v.request.data.client, level.app)
         && level.privilege == v.request.data.privilege
         && level.level == if v.answer == Allow then "Allow" else "Deny"
  {
    hide Levels, NamesApp;
    at := SomePicks(passed);
  }

  /** A turn, said of bytes. The frame of a request is at hand, and `rest` is what comes after it.
      Unanswered, the window polls: a dismiss (0xDE) ends it and the process goes on; anything else,
      also the end of the stream, ends the process. An answer that cannot be written ends it too. One
      that is written waits for a byte: the ack (0xAC) lets it pass, and only then is a level set; an
      error that passed ends the process; any other byte, and the end of the stream, end it. */
  lemma TurnOnBytes(s: Session, r: NotificationRequest, rest: string, o: Occasion)
    requires s.popup.Idle? && s.incoming == Bytes(L.Frame(r)) + rest
    requires r.data.user == "" && Sized(L.Frame(r)) && FrameSize(r) <= 8192
    ensures var s' := Turn(s, o);
      match o.choice
      case Wait =>
        && s'.sent == s.sent && s'.passed == s.passed && s'.levels == s.levels
        && s'.popup == (if rest != "" && rest[0] == '\U{DE}' then L.Idle else L.Dead(L.BadDismissFlag))
        && s'.incoming == (if rest == "" then "" else rest[1..])
      case Press(a, delivered) =>
        if !delivered then s' == s.(popup := L.Dead(L.Hangup), incoming := rest)
        else
          && s'.sent == s.sent + [NotificationResponse(r.id, a)]
          && s'.incoming == (if rest == "" then "" else rest[1..])
          && if rest == "" || rest[0] != '\U{AC}' then
               && s'.popup == L.Dead(if rest == "" then L.Hangup else L.BadAck)
               && s'.passed == s.passed && s'.levels == s.levels
             else
               && s'.popup == (if a == Error then L.Dead(L.GuiError) else L.Idle)
               && s'.passed == s.passed + [L.Verdict(r, a)]
               && if a == Allow || a == Never then
                    && |s'.levels| == |s.levels| + 1 && s'.levels[..|s.levels|] == s.levels
                    && var level := s'.levels[|s.levels|];
                       && NamesApp(r.data.client, level.app) && level.privilege == r.data.privilege
                       && level.level == if a == Allow then "Allow" else "Deny"
                  else s'.levels == s.levels
  {
    hide DecodeNotification, NotificationText, FromLittleEndian, LittleEndian, Bytes, NamesApp, DropPrefix;
    ReadFrame(r, rest, o.garbage);
    DropPrefixNames(r.data.client);
  }

  /** A frame over the limit, and the end of the stream, end an idle process. */
  lemma IdleEnds(s: Session, r: NotificationRequest, rest: string, o: Occasion)
    requires s.popup.Idle? && r.data.user == "" && Sized(L.Frame(r))
    ensures s.incoming == Bytes(L.Frame(r)) + rest && FrameSize(r) > 8192 ==>
      Turn(s, o) == s.(popup := L.Dead(L.OverLimit), incoming := NotificationText(r) + rest)
    ensures s.incoming == "" ==> Turn(s, o) == s.(popup := L.Dead(L.Hangup))
  {
    hide DecodeNotification, NotificationText, FromLittleEndian, LittleEndian, Bytes;
    ReadFrame(r, rest, o.garbage);
  }

  // ---- The process --------------------------------------------------------------------------

  class AskUserTalker {
    var incoming: string
    var sent: seq<NotificationResponse>
    var passed: seq<L.Verdict>
    var levels: seq<Level>

    ghost function View(popup: L.Popup): Session
      reads this
    {
      Session(popup, incoming, sent, passed, levels)
    }

    constructor (incoming: string)
      ensures View(L.Idle) == Session(L.Idle, incoming, [], [], [])
    {
      this.incoming := incoming;
      sent, passed, levels := [], [], [];
    }

    /** recv of exactly `n` bytes, or the end of the stream. */
    method Recv(n: nat) returns (ok: bool, bytes: string)
      modifies `incoming
      ensures ok == (n <= |old(incoming)|)
      ensures if ok then bytes == old(incoming)[..n] && incoming == old(incoming)[n..] else incoming == ""
    {
      ok, bytes := n <= |incoming|, "";
      if ok {
        bytes, incoming := incoming[..n], incoming[n..];
      } else {
        incoming := "";
      }
    }

    /** A size read from memory, byte by byte. */
    method Size(bytes: string) returns (n: nat)
      ensures n == FromLittleEndian(bytes)
    {
      n := 0;
      var i := |bytes|;
      while i > 0
        invariant 0 <= i <= |bytes|
        invariant n == FromLittleEndian(bytes[i..])
      {
        i := i - 1;
        assert bytes[i..][1..] == bytes[i + 1..];
        n := bytes[i] as nat + 256 * n;
      }
      assert bytes[0..] == bytes;
    }

    /** `shouldDismiss`. Nothing is read unless the poll has something; at the end of the stream it
        has, and the byte stays 0. An error is the exception. */
    method ShouldDismiss(ready: bool) returns (dismissed: Result<bool>)
      modifies `incoming
      ensures incoming == if ready && old(incoming) != "" then old(incoming)[1..] else old(incoming)
      ensures dismissed.Ok? && !dismissed.value <==> !ready
      ensures dismissed.Ok? && dismissed.value <==>
        ready && old(incoming) != "" && old(incoming)[0] == DISMISS_CODE
    {
      if !ready {
        return Ok(false);
      }
      var ok, bytes := Recv(1);
      var a := if ok then bytes[0] else '\0';
      dismissed := if a == DISMISS_CODE then Ok(true) else Err("Incorrect dismiss flag");
    }

    /** The window: a button, or no answer after a dismiss, or the exception of a poll. */
    method PopupRun(choice: Choice) returns (response: Result<NResponseType>)
      modifies `incoming
      ensures choice.Press? ==> response == Ok(choice.answer) && incoming == old(incoming)
      ensures choice.Wait? ==> incoming == if old(incoming) == "" then "" else old(incoming)[1..]
      ensures choice.Wait? ==>
        if old(incoming) != "" && old(incoming)[0] == DISMISS_CODE then response == Ok(NoAnswer) else response.Err?
    {
      match choice
      case Press(answer, _) => response := Ok(answer);
      case Wait =>
        var dismissed := ShouldDismiss(true);
        response := if dismissed.Ok? then Ok(NoAnswer) else Err(dismissed.reason);
    }

    /** From the request on the screen to the end of the loop body. */
    method ShowRequest(request: NotificationRequest, choice: Choice) returns (popup: L.Popup)
      modifies this
      ensures View(popup) == Show(old(View(L.Asking(request))), choice)
    {
      var answer := PopupRun(choice);
      if answer.Err? {
        return L.Dead(L.BadDismissFlag);
      }
      var response := answer.value;
      if response == NoAnswer {
        return L.Idle;
      }
      if !choice.delivered {
        return L.Dead(L.Hangup);
      }
      sent := sent + [NotificationResponse(request.id, response)];
      var ok, ack := Recv(1);
      if !ok {
        return L.Dead(L.Hangup);
      }
      if ack[0] != ACK_CODE {
        return L.Dead(L.BadAck);
      }
      passed := passed + [L.Verdict(request, response)];
      if response == Error {
        popup := L.Dead(L.GuiError);
      } else {
        if response == Allow || response == Never {
          var app := DropPrefix(request.data.client);
          levels := levels + [Level(app, request.data.privilege, ResponseToString(response))];
        }
        popup := L.Idle;
      }
    }

    /** One turn of the loop. */
    method RunOnce(o: Occasion) returns (popup: L.Popup)
      modifies this
      ensures View(popup) == Turn(old(View(L.Idle)), o)
    {
      hide Show, DecodeNotification, FromLittleEndian;
      var ok, head := Recv(SIZE_BYTES);
      if !ok {
        return L.Dead(L.Hangup);
      }
      var size := Size(head);
      if size > SIZE_LIMIT {
        return L.Dead(L.OverLimit);
      }
      var ok', buffer := Recv(size);
      if !ok' {
        return L.Dead(L.Hangup);
      }
      var request := DataToNotificationRequest(buffer + o.garbage);
      match request
      case None => popup := L.Dead(L.Desync);
      case Some(r) => popup := ShowRequest(r, o.choice);
    }

    /** `run`: one occasion for every popup shown, until the loop ends or is stopped. */
    method Run(os: seq<Occasion>) returns (popup: L.Popup)
      modifies this
      ensures View(popup) == Turns(old(View(L.Idle)), os)
      ensures old(Faithful(View(L.Idle))) ==> Faithful(View(popup))
    {
      hide Turn, Faithful;
      popup := L.Idle;
      var i := 0;
      ghost var start := View(L.Idle);
      while i < |os| && popup.Idle?
        invariant 0 <= i <= |os|
        invariant Turns(View(popup), os[i..]) == Turns(start, os)
      {
        assert os[i..][0] == os[i] && os[i..][1..] == os[i + 1..];
        popup := RunOnce(os[i]);
        i := i + 1;
      }
      if Faithful(start) {
        TurnsFaithful(start, os);
      }
    }
  }
}
