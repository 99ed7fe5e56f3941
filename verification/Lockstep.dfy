/** The popup process, reading bytes, against the popups of the protocol, reading messages: along
    every run they stay in step, so what is proved of the one holds of the other. */
module Lockstep {
  import opened Types
  import opened Translator
  import opened World
  import opened Protocol
  import opened Steps
  import opened Safety
  import opened Wire
  import opened AskUserTalker
  import L = Link

  // ---- What the process does, act by act ----------------------------------------------------

  datatype Act = Reading(garbage: string) | Pressing(answer: Pressed, delivered: bool) | Killing

  function Acts(s: Session, acts: seq<Act>): Session
    decreases |acts|
  {
    if acts == [] then s
    else Acts(Do(s, acts[0]), acts[1..])
  }

  function Do(s: Session, a: Act): Session {
    match a
    case Reading(garbage) => if s.popup.Dead? then s else ReadOn(s, garbage)
    case Pressing(answer, delivered) => if s.popup.Asking? then PressOn(s, answer, delivered) else s
    case Killing => s.(popup := L.Dead(L.Killed))
  }

  /** What a process can do: it reads once it has nothing to decide, and answers what it shows. */
  predicate Possible(s: Session, a: Act) {
    match a
    case Reading(garbage) => !s.popup.Dead? && (s.popup.Idle? || garbage == "")
    case Pressing(_, _) => s.popup.Asking?
    case Killing => true
  }

  predicate Valid(s: Session, acts: seq<Act>)
    decreases |acts|
  {
    acts != [] ==> Possible(s, acts[0]) && Valid(Do(s, acts[0]), acts[1..])
  }

  lemma {:induction false} ValidAppend(s: Session, a: seq<Act>, b: seq<Act>)
    requires Valid(s, a) && Valid(Acts(s, a), b)
    ensures Valid(s, a + b)
    decreases |a|
  {
    hide Do, Possible;
    if a == [] {
      assert a + b == b;
    } else {
      assert (a + b)[1..] == a[1..] + b;
      ValidAppend(Do(s, a[0]), a[1..], b);
    }
  }

  /** The acts of one turn of the loop. */
  function TurnActs(s: Session, o: Occasion): seq<Act>
    requires s.popup.Idle?
  {
    [Reading(o.garbage)]
    + if !ReadOn(s, o.garbage).popup.Asking? then []
      else match o.choice
           case Wait => [Reading("")]
           case Press(a, delivered) => [Pressing(a, delivered)] + if delivered then [Reading("")] else []
  }

  function TurnsActs(s: Session, os: seq<Occasion>): seq<Act>
    decreases |os|
  {
    if os == [] || !s.popup.Idle? then [] else TurnActs(s, os[0]) + TurnsActs(Turn(s, os[0]), os[1..])
  }

  lemma {:induction false} ActsAppend(s: Session, a: seq<Act>, b: seq<Act>)
    ensures Acts(s, a + b) == Acts(Acts(s, a), b)
    decreases |a|
  {
    hide Do;
    if a == [] {
      assert a + b == b;
    } else {
      assert (a + b)[1..] == a[1..] + b;
      ActsAppend(Do(s, a[0]), a[1..], b);
    }
  }

  lemma TurnIsActs(s: Session, o: Occasion)
    requires s.popup.Idle?
    ensures Acts(s, TurnActs(s, o)) == Turn(s, o)
  {
    hide ReadOn;
    var read, s1 := [Reading(o.garbage)], ReadOn(s, o.garbage);
    OneAct(s, Reading(o.garbage));
    if s1.popup.Asking? {
      match o.choice {
        case Wait =>
          ActsAppend(s, read, [Reading("")]);
          OneAct(s1, Reading(""));
        case Press(a, delivered) =>
          OneAct(s1, Pressing(a, delivered));
          OneAct(PressOn(s1, a, delivered), Reading(""));
          ActsAppend(s1, [Pressing(a, delivered)], [Reading("")]);
          ActsAppend(s, read, [Pressing(a, delivered)] + if delivered then [Reading("")] else []);
          assert [Pressing(a, delivered)] + [] == [Pressing(a, delivered)];
      }
    } else {
      assert read + [] == read;
    }
  }

  lemma OneAct(s: Session, a: Act)
    ensures Acts(s, [a]) == Do(s, a)
  {
    hide Do;
    assert [a][1..] == [];
    assert Acts(Do(s, a), []) == Do(s, a);
  }

  /** The loop does nothing but such acts. */
  lemma {:induction false} TurnsAreActs(s: Session, os: seq<Occasion>)
    ensures Acts(s, TurnsActs(s, os)) == Turns(s, os)
    decreases |os|
  {
    hide Turn, TurnActs, Do;
    if os != [] && s.popup.Idle? {
      TurnIsActs(s, os[0]);
      TurnsAreActs(Turn(s, os[0]), os[1..]);
      ActsAppend(s, TurnActs(s, os[0]), TurnsActs(Turn(s, os[0]), os[1..]));
    }
  }

  // ---- In step ------------------------------------------------------------------------------

  /** A process in the state of a popup, whose bytes still to come are those of the messages not
      read yet: of the ones sent so far, and of the ones that will be sent, `all` in the end. */
  ghost predicate InStep(s: Session, l: L.Link, all: seq<L.Message>) {
    && l.sent <= all && L.Unread(l)
    && s.popup == l.popup && s.passed == l.passed && s.levels == Levels(l.passed)
    && (!l.popup.Dead? ==> s.incoming == Stream(all[L.ReadSoFar(l)..]))
  }

  /** What the process does when the popup of connection `i` takes this step. What follows a
      request in memory matters only where one is read. */
  ghost function OwnAct(w: World, a: Label, i: nat, garbage: string): seq<Act>
    requires i < |w.links|
  {
    if a == PopupReads(i) then [Reading(if w.links[i].popup.Idle? then garbage else "")]
    else if a == PopupSeesEnd(i) then [Reading("")]
    else if a == PopupDies(i) then [Killing]
    else if a.PopupAnswers? && a.i == i && a.answer != NoAnswer then [Pressing(a.answer, w.links[i].open)]
    else []
  }

  ghost function OwnActs(w: World, labels: seq<Label>, i: nat, garbage: seq<string>): seq<Act>
    requires Wired(w) && i < |w.links| && |garbage| == |labels|
    decreases |labels|
  {
    if labels == [] || !Enabled(w, labels[0]) then []
    else
      NextLink(w, labels[0], i);
      OwnAct(w, labels[0], i, garbage[0]) + OwnActs(Next(w, labels[0]), labels[1..], i, garbage[1..])
  }

  /** Steps of the daemon, and of other popups, leave the process where it is. */
  lemma DaemonInStep(s: Session, l: L.Link, m: Move, all: seq<L.Message>)
    requires InStep(s, l, all) && Can(l, m) && !m.Reads? && !m.Answers? && !m.SeesEnd? && !m.Dies?
    requires After(l, m).sent <= all
    ensures InStep(s, After(l, m), all)
  {
    hide Stream, Levels, L.Unread;
    if m.Sends? {
      SentInStep(l, L.Frame(m.request.Stripped()), After(l, m));
    } else if m.Dismisses? {
      SentInStep(l, L.Dismiss(m.request.Stripped()), After(l, m));
    } else if m.Accepts? {
      SentInStep(l, L.Ack, After(l, m));
    } else {
      L.SameUnread(l, After(l, m));
    }
  }

  lemma SentInStep(l: L.Link, m: L.Message, l': L.Link)
    requires L.Unread(l) && l'.toPopup == l.toPopup + [m] && l'.sent == l.sent + [m]
    ensures L.Unread(l') && L.ReadSoFar(l') == L.ReadSoFar(l)
  {
    hide L.Unread;
    L.SendUnread(l, m);
    L.SameUnread(L.Send(l, m), l');
  }

  lemma ReadInStep(w: World, i: nat, s: Session, all: seq<L.Message>, garbage: string)
    requires Reachable(w) && Enabled(w, PopupReads(i)) && InStep(s, w.links[i], all)
    requires Sized(w.links[i].toPopup[0])
    ensures InStep(ReadOn(s, garbage), L.Receive(w.links[i]), all)
  {
    hide Reachable, ReadBytes, Levels, Stream, L.Unread, L.ReadSoFar;
    var l := w.links[i];
    var l', later := L.Receive(l), all[|l.sent|..];
    L.ReadUnread(l);
    L.SameUnread(l.(toPopup := l.toPopup[1..]), l');
    StillToRead(l, all);
    BytesFollowMessages(w, i, Stream(later), garbage);
    OverLimitIsDead(l');
    if l.popup.AwaitingAck? && l.toPopup[0].Ack? {
      OnePassed(l.passed, L.Verdict(l.popup.request, l.popup.answer));
    }
    ReadMeans(l);
    hide L.Receive, Enabled;
  }

  lemma OverLimitIsDead(l: L.Link)
    ensures l.popup == L.Dead(L.OverLimit) ==> l.popup.Dead?
  {
  }

  /** What a read changes besides the popup's state. */
  lemma ReadMeans(l: L.Link)
    requires l.toPopup != [] && !l.popup.Dead?
    ensures var l' := L.Receive(l);
      && l'.sent == l.sent
      && l'.passed == if l.popup.AwaitingAck? && l.toPopup[0].Ack?
                      then l.passed + [L.Verdict(l.popup.request, l.popup.answer)] else l.passed
  {
  }

  /** The bytes to come are those of what is on the channel, and then of what will be sent. */
  lemma StillToRead(l: L.Link, all: seq<L.Message>)
    requires L.Unread(l) && l.toPopup != [] && l.sent <= all
    ensures var n, later := L.ReadSoFar(l), Stream(all[|l.sent|..]);
      && n + 1 <= |all| && Stream(all[n..]) == Stream(l.toPopup) + later
      && Stream(all[n + 1..]) == Stream(l.toPopup[1..]) + later
  {
    hide Stream;
    var n, later := L.ReadSoFar(l), all[|l.sent|..];
    assert all[n..] == l.toPopup + later;
    assert all[n + 1..] == l.toPopup[1..] + later;
    StreamAppend(l.toPopup, later);
    StreamAppend(l.toPopup[1..], later);
  }

  lemma EndInStep(s: Session, l: L.Link, all: seq<L.Message>)
    requires InStep(s, l, all) && !l.open && !l.popup.Dead? && l.toPopup == [] && all == l.sent
    ensures InStep(ReadOn(s, ""), L.EndOfStream(l), all)
  {
    hide DecodeNotification, FromLittleEndian, Levels;
    assert all[L.ReadSoFar(l)..] == [];
  }

  lemma PressInStep(s: Session, l: L.Link, all: seq<L.Message>, a: NResponseType)
    requires InStep(s, l, all) && l.popup.Asking? && a != NoAnswer
    ensures InStep(PressOn(s, a, l.open), L.Answer(l, a), all)
  {
    hide Stream, Levels;
  }

  lemma NextInStep(w: World, a: Label, i: nat, s: Session, all: seq<L.Message>, garbage: string)
    requires Reachable(w) && Enabled(w, a) && i < |w.links| && InStep(s, w.links[i], all)
    requires forall k :: 0 <= k < |all| ==> Sized(all[k])
    requires a == PopupSeesEnd(i) ==> all == w.links[i].sent
    requires i < |Next(w, a).links| && Next(w, a).links[i].sent <= all
    ensures InStep(Acts(s, OwnAct(w, a, i, garbage)), Next(w, a).links[i], all)
    ensures Valid(s, OwnAct(w, a, i, garbage))
  {
    hide Reachable, Next, InStep, ReadOn, PressOn, DaemonMoveOf, Wired, Sized;
    var l := w.links[i];
    ValidNow(w, a, i, s, all, garbage);
    NextLink(w, a, i);
    SameSession(s, l, all);
    if a == PopupReads(i) {
      FirstUnread(l, all);
      var after := if l.popup.Idle? then garbage else "";
      ReadInStep(w, i, s, all, after);
      OneAct(s, Reading(after));
    } else if a == PopupSeesEnd(i) {
      EndInStep(s, l, all);
      OneAct(s, Reading(""));
    } else if a == PopupDies(i) {
      KillInStep(s, l, all);
      OneAct(s, Killing);
    } else if a.PopupAnswers? && a.i == i {
      PressInStep(s, l, all, a.answer);
      OneAct(s, Pressing(a.answer, l.open));
    } else {
      OtherMoves(w, a, i);
      DaemonInStep(s, l, MoveOf(w, a, i), all);
    }
  }

  lemma KillInStep(s: Session, l: L.Link, all: seq<L.Message>)
    requires InStep(s, l, all)
    ensures InStep(s.(popup := L.Dead(L.Killed)), L.Kill(l), all)
  {
    hide Stream, Levels;
  }

  /** The popup's step is one the process can take. */
  lemma ValidNow(w: World, a: Label, i: nat, s: Session, all: seq<L.Message>, garbage: string)
    requires Wired(w) && Enabled(w, a) && i < |w.links| && InStep(s, w.links[i], all)
    ensures Valid(s, OwnAct(w, a, i, garbage))
  {
    hide Wired, Do, Stream, Levels, L.Unread;
    if OwnAct(w, a, i, garbage) != [] {
      NothingLeft(s, OwnAct(w, a, i, garbage));
    }
  }

  lemma NothingLeft(s: Session, acts: seq<Act>)
    requires |acts| == 1
    ensures Valid(s, acts) <==> Possible(s, acts[0])
  {
    hide Do, Possible;
    assert acts[1..] == [];
  }

  lemma SameSession(s: Session, l: L.Link, all: seq<L.Message>)
    requires InStep(s, l, all)
    ensures s.popup == l.popup && s.passed == l.passed && L.Unread(l) && l.sent <= all
  {
  }

  lemma FirstUnread(l: L.Link, all: seq<L.Message>)
    requires L.Unread(l) && l.toPopup != [] && l.sent <= all
    requires forall k :: 0 <= k < |all| ==> Sized(all[k])
    ensures Sized(l.toPopup[0])
  {
    hide Sized;
    assert l.toPopup[0] == all[L.ReadSoFar(l)];
  }

  lemma OtherMoves(w: World, a: Label, i: nat)
    requires Wired(w) && Enabled(w, a) && i < |w.links|
    requires a != PopupReads(i) && a != PopupSeesEnd(i) && a != PopupDies(i) && !(a.PopupAnswers? && a.i == i)
    ensures var m := MoveOf(w, a, i); !m.Reads? && !m.Answers? && !m.SeesEnd? && !m.Dies?
  {
    hide Wired;
  }

  /** What was sent stays sent. */
  lemma {:induction false} RunSent(w: World, labels: seq<Label>, w': World, i: nat)
    requires Wired(w) && Run(w, labels, w') && i < |w.links|
    ensures i < |w'.links| && w.links[i].sent <= w'.links[i].sent
    decreases |labels|
  {
    hide Next, Enabled, Wired, MoveOf, After, Can;
    if labels != [] {
      NextLink(w, labels[0], i);
      AfterSent(w.links[i], MoveOf(w, labels[0], i));
      RunSent(Next(w, labels[0]), labels[1..], w', i);
    }
  }

  lemma AfterSent(l: L.Link, m: Move)
    requires Can(l, m)
    ensures l.sent <= After(l, m).sent
  {
  }

  /** Along every run of daemon and popups, whatever the daemon does in between, the process that
      makes its popup's moves on the bytes sent to it stays in that popup's state. */
  lemma {:induction false} RunInStep(w: World, labels: seq<Label>, w': World, i: nat, s: Session, garbage: seq<string>)
    requires Reachable(w) && Run(w, labels, w') && i < |w.links| && |garbage| == |labels|
    requires i < |w'.links| && InStep(s, w.links[i], w'.links[i].sent)
    requires forall k :: 0 <= k < |w'.links[i].sent| ==> Sized(w'.links[i].sent[k])
    ensures InStep(Acts(s, OwnActs(w, labels, i, garbage)), w'.links[i], w'.links[i].sent)
    ensures Valid(s, OwnActs(w, labels, i, garbage))
    decreases |labels|
  {
    hide Reachable, Next, Enabled, InStep, Wired, OwnAct, Sized, Do;
    if labels != [] {
      var a, w1, all := labels[0], Next(w, labels[0]), w'.links[i].sent;
      NextLink(w, a, i);
      ReachableNext(w, a);
      RunSent(w1, labels[1..], w', i);
      if a == PopupSeesEnd(i) {
        EndIsFinal(w, labels, w', i);
      }
      NextInStep(w, a, i, s, all, garbage[0]);
      var act := OwnAct(w, a, i, garbage[0]);
      RunInStep(w1, labels[1..], w', i, Acts(s, act), garbage[1..]);
      ActsAppend(s, act, OwnActs(w1, labels[1..], i, garbage[1..]));
      ValidAppend(s, act, OwnActs(w1, labels[1..], i, garbage[1..]));
    }
  }

  lemma EndIsFinal(w: World, labels: seq<Label>, w': World, i: nat)
    requires Wired(w) && Run(w, labels, w') && i < |w.links|
    requires labels != [] && labels[0] == PopupSeesEnd(i)
    ensures i < |w'.links| && w'.links[i].sent == w.links[i].sent
  {
    hide Wired, Next;
    RunClosed(w, labels, w', i);
  }

  // ---- What the process achieves ------------------------------------------------------------

  /** Where the process is in step, the security levels it has set are exactly those of answers
      the daemon had handed on from this connection before, in the same order. */
  lemma LevelsWereHandled(w: World, i: nat, s: Session, all: seq<L.Message>)
    requires Reachable(w) && i < |w.links| && InStep(s, w.links[i], all)
    ensures s.levels == Levels(s.passed) && s.passed <= HandledOn(w.log, i)
  {
    hide Reachable, Levels, Stream;
    Agreement(w, i);
  }

  /** A turn that has begun and not come to its end: a request is on the screen, or an ack awaited. */
  predicate Begun(s: Session, part: seq<Act>) {
    part == []
    || (s.popup.Idle? && part[0].Reading? && ReadOn(s, part[0].garbage).popup.Asking?
        && (|part| == 1 || (|part| == 2 && part[1].Pressing? && part[1].delivered)))
  }

  predicate Kills(acts: seq<Act>) {
    forall k :: 0 <= k < |acts| ==> acts[k].Killing?
  }

  /** The acts of a process, taken apart: whole turns of its loop, perhaps a turn that has begun,
      and perhaps its violent end. */
  ghost predicate TakenApart(s: Session, acts: seq<Act>, os: seq<Occasion>, part: seq<Act>, kills: seq<Act>) {
    && acts == TurnsActs(s, os) + part + kills
    && Begun(Turns(s, os), part) && Kills(kills)
  }

  lemma {:induction false} DeadOnlyDies(s: Session, acts: seq<Act>)
    requires s.popup.Dead? && Valid(s, acts)
    ensures Kills(acts)
    decreases |acts|
  {
    hide ReadOn, PressOn;
    if acts != [] {
      DeadOnlyDies(Do(s, acts[0]), acts[1..]);
      assert forall k :: 1 <= k < |acts| ==> acts[k] == acts[1..][k - 1];
    }
  }

  /** From a popup that shows nothing one read leads to a request on the screen, or to the end;
      from one that asks or awaits an ack, back to showing nothing, or to the end. */
  lemma ReadLeads(s: Session, garbage: string)
    requires !s.popup.Dead?
    ensures var p := ReadOn(s, garbage).popup;
      p.Dead? || (if s.popup.Idle? then p.Asking? else p.Idle?)
  {
    hide DecodeNotification, FromLittleEndian;
  }

  /** Everything a process can do is turns of the loop, but for where it is interrupted. */
  lemma {:induction false} ActsAreTurns(s: Session, acts: seq<Act>)
    returns (os: seq<Occasion>, part: seq<Act>, kills: seq<Act>)
    requires (s.popup.Idle? || s.popup.Dead?) && Valid(s, acts)
    ensures TakenApart(s, acts, os, part, kills)
    decreases |acts|
  {
    hide ReadOn, PressOn;
    if s.popup.Dead? || acts == [] || acts[0].Killing? {
      os, part, kills := [], [], acts;
      if acts != [] {
        DeadOnlyDies(s.(popup := L.Dead(L.Killed)), if acts[0].Killing? then acts[1..] else []);
        if s.popup.Dead? {
          DeadOnlyDies(s, acts);
        } else {
          assert forall k :: 1 <= k < |acts| ==> acts[k] == acts[1..][k - 1];
        }
      }
      assert [] + [] + acts == acts;
    } else {
      var o, n := FirstTurn(s, acts);
      if o.None? {
        os, part, kills := [], acts[..n], acts[n..];
        assert [] + acts[..n] + acts[n..] == acts;
      } else {
        ReadLeads(s, o.value.garbage);
        var rest;
        rest, part, kills := ActsAreTurns(Turn(s, o.value), acts[n..]);
        os := [o.value] + rest;
        OneMoreTurn(s, acts, o.value, n, rest, part, kills);
      }
    }
  }

  lemma OneMoreTurn(s: Session, acts: seq<Act>, o: Occasion, n: nat, rest: seq<Occasion>, part: seq<Act>,
                    kills: seq<Act>)
    requires s.popup.Idle? && n <= |acts| && acts[..n] == TurnActs(s, o)
    requires TakenApart(Turn(s, o), acts[n..], rest, part, kills)
    ensures TakenApart(s, acts, [o] + rest, part, kills)
  {
    hide Turn, TurnActs, Begun;
    var os := [o] + rest;
    assert os[0] == o && os[1..] == rest;
    assert TurnsActs(s, os) == TurnActs(s, o) + TurnsActs(Turn(s, o), rest);
    assert Turns(s, os) == Turns(Turn(s, o), rest);
    hide TurnsActs, Turns;
    assert acts == acts[..n] + acts[n..];
    assert acts == TurnActs(s, o) + (TurnsActs(Turn(s, o), rest) + part + kills);
  }

  /** The first turn, if it comes to its end within these acts; otherwise where it is cut short. */
  lemma FirstTurn(s: Session, acts: seq<Act>) returns (o: Option<Occasion>, n: nat)
    requires s.popup.Idle? && Valid(s, acts) && acts != [] && !acts[0].Killing?
    ensures 0 < n <= |acts|
    ensures o.None? ==> Begun(s, acts[..n]) && Kills(acts[n..])
    ensures o.Some? ==> acts[..n] == TurnActs(s, o.value) && Valid(Turn(s, o.value), acts[n..])
    ensures o.Some? ==> Turn(s, o.value).popup.Idle? || Turn(s, o.value).popup.Dead?
  {
    hide ReadOn, PressOn;
    var g := acts[0].garbage;
    var s1, rest := ReadOn(s, g), acts[1..];
    ReadLeads(s, g);
    if !s1.popup.Asking? {
      o, n := Some(Occasion(Wait, g)), 1;
      assert acts[..1] == [Reading(g)] + [];
    } else if rest == [] || rest[0].Killing? {
      o, n := None, 1;
      if rest != [] {
        DeadOnlyDies(s1.(popup := L.Dead(L.Killed)), rest[1..]);
        assert forall k :: 1 <= k < |rest| ==> rest[k] == rest[1..][k - 1];
      }
    } else if rest[0].Reading? {
      o, n := Some(Occasion(Wait, g)), 2;
      ReadLeads(s1, "");
      assert acts[..2] == [Reading(g)] + [Reading("")];
      assert acts[2..] == rest[1..];
    } else {
      o, n := AnsweredTurn(s, acts);
    }
  }

  /** The same where the user has answered. */
  lemma AnsweredTurn(s: Session, acts: seq<Act>) returns (o: Option<Occasion>, n: nat)
    requires s.popup.Idle? && Valid(s, acts) && |acts| >= 2 && acts[0].Reading? && acts[1].Pressing?
    requires ReadOn(s, acts[0].garbage).popup.Asking?
    ensures 0 < n <= |acts|
    ensures o.None? ==> Begun(s, acts[..n]) && Kills(acts[n..])
    ensures o.Some? ==> acts[..n] == TurnActs(s, o.value) && Valid(Turn(s, o.value), acts[n..])
    ensures o.Some? ==> Turn(s, o.value).popup.Idle? || Turn(s, o.value).popup.Dead?
  {
    hide ReadOn;
    var g, a, delivered := acts[0].garbage, acts[1].answer, acts[1].delivered;
    var s1 := ReadOn(s, g);
    var s2, rest := PressOn(s1, a, delivered), acts[2..];
    assert acts[1..][0] == acts[1] && acts[1..][1..] == rest;
    assert Valid(s2, rest);
    if !delivered {
      o, n := Some(Occasion(Press(a, false), g)), 2;
      assert acts[..2] == [Reading(g)] + ([Pressing(a, false)] + []);
    } else if rest == [] || rest[0].Killing? {
      o, n := None, 2;
      if rest != [] {
        DeadOnlyDies(s2.(popup := L.Dead(L.Killed)), rest[1..]);
        assert forall k :: 1 <= k < |rest| ==> rest[k] == rest[1..][k - 1];
      }
    } else {
      o, n := Some(Occasion(Press(a, true), g)), 3;
      ReadLeads(s2, "");
      assert acts[..3] == [Reading(g)] + ([Pressing(a, true)] + [Reading("")]);
      assert acts[3..] == rest[1..];
    }
  }

  /** A turn that has begun has set no level yet, and being killed sets none. */
  lemma BegunSetsNothing(s: Session, part: seq<Act>, kills: seq<Act>)
    requires Begun(s, part) && Kills(kills)
    ensures var s' := Acts(s, part + kills); s'.passed == s.passed && s'.levels == s.levels
    ensures Acts(s, part + kills).popup == if kills == [] then Acts(s, part).popup else L.Dead(L.Killed)
  {
    hide DecodeNotification, FromLittleEndian;
    ActsAppend(s, part, kills);
    PartSetsNothing(s, part);
    KillsSetNothing(Acts(s, part), kills);
  }

  lemma PartSetsNothing(s: Session, part: seq<Act>)
    requires Begun(s, part)
    ensures Acts(s, part).passed == s.passed && Acts(s, part).levels == s.levels
  {
    hide ReadBytes;
    if |part| == 1 {
      OneAct(s, part[0]);
      assert part == [part[0]];
    } else if |part| == 2 {
      assert part == [part[0]] + [part[1]];
      ActsAppend(s, [part[0]], [part[1]]);
      OneAct(s, part[0]);
      OneAct(ReadOn(s, part[0].garbage), part[1]);
    }
  }

  lemma {:induction false} KillsSetNothing(s: Session, kills: seq<Act>)
    requires Kills(kills)
    ensures var s' := Acts(s, kills);
      s'.passed == s.passed && s'.levels == s.levels && (kills != [] ==> s'.popup == L.Dead(L.Killed))
    decreases |kills|
  {
    if kills != [] {
      KillsSetNothing(Do(s, kills[0]), kills[1..]);
    }
  }

  /** The whole life of a popup process. Over every run, from its connection on, what its popup does
      is turns of the loop, read off the bytes sent to it; then perhaps a turn that has begun, and
      perhaps being killed. After these turns it has set exactly the levels of a prefix of the
      answers handed on from this connection, and it is where its popup is unless that is in the
      middle of a turn or was killed. */
  lemma EveryLifeIsTurns(w: World, labels: seq<Label>, w': World, i: nat, garbage: seq<string>)
    returns (os: seq<Occasion>, part: seq<Act>, kills: seq<Act>)
    requires Reachable(w) && Run(w, labels, w') && i < |w.links| && |garbage| == |labels|
    requires w.links[i] == L.Fresh(w.links[i].user) && i < |w'.links|
    requires forall k :: 0 <= k < |w'.links[i].sent| ==> Sized(w'.links[i].sent[k])
    ensures var s := Session(L.Idle, Stream(w'.links[i].sent), [], [], []);
      var t := Turns(s, os);
      && TakenApart(s, OwnActs(w, labels, i, garbage), os, part, kills)
      && t.passed == w'.links[i].passed && t.levels == Levels(t.passed) && t.passed <= HandledOn(w'.log, i)
      && w'.links[i].popup == if kills == [] then Acts(t, part).popup else L.Dead(L.Killed)
  {
    hide Reachable, Enabled, Next, Wired, Turns, Acts, OwnActs, TurnsActs, Sized, Begun, Kills, Valid;
    var s := Session(L.Idle, Stream(w'.links[i].sent), [], [], []);
    FreshInStep(s, w.links[i], w'.links[i].sent);
    RunInStep(w, labels, w', i, s, garbage);
    var acts := OwnActs(w, labels, i, garbage);
    os, part, kills := ActsAreTurns(s, acts);
    var t := Turns(s, os);
    TurnsAreActs(s, os);
    assert acts == TurnsActs(s, os) + (part + kills);
    ActsAppend(s, TurnsActs(s, os), part + kills);
    BegunSetsNothing(t, part, kills);
    RunReachable(w, labels, w');
    LevelsWereHandled(w', i, Acts(s, acts), w'.links[i].sent);
    SameSession(Acts(s, acts), w'.links[i], w'.links[i].sent);
  }

  lemma FreshInStep(s: Session, l: L.Link, all: seq<L.Message>)
    requires l == L.Fresh(l.user) && s == Session(L.Idle, Stream(all), [], [], [])
    ensures InStep(s, l, all)
  {
    hide Stream;
    assert all[0..] == all;
  }

  lemma {:induction false} RunReachable(w: World, labels: seq<Label>, w': World)
    requires Reachable(w) && Run(w, labels, w')
    ensures Reachable(w')
    decreases |labels|
  {
    hide Reachable, Enabled, Next;
    if labels != [] {
      ReachableNext(w, labels[0]);
      RunReachable(Next(w, labels[0]), labels[1..], w');
    }
  }
}
