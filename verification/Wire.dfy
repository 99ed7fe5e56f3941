/** The bytes on the socket. Nothing in them says which kind of message comes next; that the popup
    still reads what the daemon meant is what synchronisation buys. */
module Wire {
  import opened Types
  import opened Translator
  import opened World
  import opened Safety
  import L = Link

  const SIZE_BYTES: nat := 8
  const DISMISS_CODE: char := '\U{DE}'
  const ACK_CODE: char := '\U{AC}'

  function Pow256(k: nat): (p: nat)
    ensures 0 < p
  {
    if k == 0 then 1 else 256 * Pow256(k - 1)
  }

  /** A size as it lies in memory: `k` bytes, least significant first. */
  function LittleEndian(n: nat, k: nat): (s: string)
    ensures |s| == k
  {
    if k == 0 then [] else [(n % 256) as char] + LittleEndian(n / 256, k - 1)
  }

  function FromLittleEndian(s: string): nat {
    if s == [] then 0 else s[0] as nat + 256 * FromLittleEndian(s[1..])
  }

  lemma {:induction false} LittleEndianRoundTrip(n: nat, k: nat)
    requires n < Pow256(k)
    ensures FromLittleEndian(LittleEndian(n, k)) == n
    decreases k
  {
    if k > 0 {
      assert n / 256 < Pow256(k - 1);
      LittleEndianRoundTrip(n / 256, k - 1);
      assert LittleEndian(n, k)[1..] == LittleEndian(n / 256, k - 1);
    }
  }

  /** A size_t holds every length a string can have. */
  ghost predicate Sized(m: L.Message) {
    m.Frame? ==> FrameSize(m.request) < Pow256(SIZE_BYTES)
  }

  function Bytes(m: L.Message): string {
    match m
    case Frame(r) => LittleEndian(FrameSize(r), SIZE_BYTES) + NotificationText(r)
    case Dismiss(_) => [DISMISS_CODE]
    case Ack => [ACK_CODE]
  }

  function Stream(ms: seq<L.Message>): string {
    if ms == [] then [] else Bytes(ms[0]) + Stream(ms[1..])
  }

  /** One read of the popup, byte for byte: a size and that many bytes when it is idle, one byte in
      every other state. The buffer a request is decoded from is not terminated; `garbage` is what
      happens to follow it. The result is the popup's next state and the unread bytes; `None` when
      the bytes it wants are not there. */
  function ReadBytes(p: L.Popup, s: string, garbage: string): Option<(L.Popup, string)> {
    match p
    case Idle =>
      if |s| < SIZE_BYTES then None else
        var size, rest := FromLittleEndian(s[..SIZE_BYTES]), s[SIZE_BYTES..];
        if size > SIZE_LIMIT then Some((L.Dead(L.OverLimit), rest))
        else if |rest| < size then None
        else
          (match DecodeNotification(rest[..size] + garbage)
           case None => Some((L.Dead(L.Desync), rest[size..]))
           case Some(request) => Some((L.Asking(request), rest[size..])))
    case Asking(_) =>
      if s == [] then None
      else Some((if s[0] == DISMISS_CODE then L.Idle else L.Dead(L.BadDismissFlag), s[1..]))
    case AwaitingAck(_, a) =>
      if s == [] then None
      else Some((if s[0] != ACK_CODE then L.Dead(L.BadAck)
                 else if a == Error then L.Dead(L.GuiError) else L.Idle, s[1..]))
    case Dead(_) => None
  }

  lemma ReadFrame(r: NotificationRequest, tail: string, garbage: string)
    requires Sized(L.Frame(r)) && r.data.user == ""
    ensures var s := Bytes(L.Frame(r)) + tail;
      if FrameSize(r) > SIZE_LIMIT
      then ReadBytes(L.Idle, s, garbage) == Some((L.Dead(L.OverLimit), NotificationText(r) + tail))
      else ReadBytes(L.Idle, s, garbage) == Some((L.Asking(r), tail))
  {
    hide DecodeNotification, NotificationText, FromLittleEndian, LittleEndian;
    var head, text := LittleEndian(FrameSize(r), SIZE_BYTES), NotificationText(r);
    var s := Bytes(L.Frame(r)) + tail;
    LittleEndianRoundTrip(FrameSize(r), SIZE_BYTES);
    assert s == head + (text + tail);
    assert s[..SIZE_BYTES] == head && s[SIZE_BYTES..] == text + tail;
    assert FrameSize(r) == |text|;
    assert (text + tail)[..|text|] == text && (text + tail)[|text|..] == tail;
    NotificationRoundTrip(r, garbage);
    assert r.Stripped() == r;
  }

  /** In every reachable state, reading raw bytes off the channel takes the popup to the state the
      message at its front is meant to take it to, and, unless the frame is over the limit and ends
      it, leaves exactly the bytes of the messages behind it, and whatever is sent after them. */
  lemma BytesFollowMessages(w: World, i: nat, more: string, garbage: string)
    requires Reachable(w) && i < |w.links| && !w.links[i].popup.Dead?
    requires w.links[i].toPopup != [] && Sized(w.links[i].toPopup[0])
    ensures var l := w.links[i];
      var read := ReadBytes(l.popup, Stream(l.toPopup) + more, garbage);
      && read.Some?
      && read.value.0 == L.Receive(l).popup
      && (L.Receive(l).popup != L.Dead(L.OverLimit) ==> read.value.1 == Stream(l.toPopup[1..]) + more)
      && (l.popup.AwaitingAck? ==>
            && Stream(l.toPopup) != []
            && (Stream(l.toPopup)[0] == ACK_CODE <==> l.toPopup[0].Ack?))
  {
    hide Reachable, DecodeNotification, LittleEndian, FromLittleEndian, NotificationText;
    var l := w.links[i];
    Synchronised(w, i);
    var m, tail := l.toPopup[0], Stream(l.toPopup[1..]) + more;
    assert Stream(l.toPopup) == Bytes(m) + Stream(l.toPopup[1..]);
    assert Stream(l.toPopup) + more == Bytes(m) + tail;
    if l.popup.Idle? {
      ReadFrame(m.request, tail, garbage);
    } else {
      assert (Bytes(m) + tail)[1..] == tail;
      assert DISMISS_CODE != ACK_CODE;
    }
  }

  lemma {:induction false} StreamAppend(a: seq<L.Message>, b: seq<L.Message>)
    ensures Stream(a + b) == Stream(a) + Stream(b)
  {
    if a == [] {
      assert a + b == b;
    } else {
      assert (a + b)[1..] == a[1..] + b;
      StreamAppend(a[1..], b);
    }
  }
}
