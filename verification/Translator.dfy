/** Translator: the length-prefixed wire formats and the stream parsers that read them. */
module Translator {
  import opened Types
  import opened Decimal

  const SEPARATOR: string := " "
  const ERROR_MSG: string := "ERROR"
  const TIMEOUT_MSG: string := "TIMEOUT"
  const SIZE_LIMIT: nat := 8192

  // ---- Printers -----------------------------------------------------------------------------

  /** One field: its length, a separator, the bytes, a separator. */
  function Field(f: string): string {
    ToText(|f|) + SEPARATOR + f + SEPARATOR
  }

  function Fields(fs: seq<string>): string {
    if fs == [] then "" else Field(fs[0]) + Fields(fs[1..])
  }

  function RequestToData(client: string, user: string, privilege: string): string {
    ToText(|client|) + SEPARATOR + client + SEPARATOR
    + ToText(|user|) + SEPARATOR + user + SEPARATOR
    + ToText(|privilege|) + SEPARATOR + privilege + SEPARATOR
  }

  function NotificationRequestToData(id: RequestId, client: string, privilege: string): string {
    ToText(id) + SEPARATOR
    + ToText(|client|) + SEPARATOR + client + SEPARATOR
    + ToText(|privilege|) + SEPARATOR + privilege + SEPARATOR + SEPARATOR
  }

  function NotificationText(request: NotificationRequest): string {
    NotificationRequestToData(request.id, request.data.client, request.data.privilege)
  }

  // ---- Parsers, as functions on the unread part of the stream --------------------------------

  predicate IsSpace(c: char) {
    c == ' ' || '\t' <= c <= '\r'
  }

  function SkipSpace(s: string): (r: string)
    ensures |r| <= |s| && r == s[|s| - |r|..]
    ensures r == [] || !IsSpace(r[0])
  {
    if s != [] && IsSpace(s[0]) then SkipSpace(s[1..]) else s
  }

  /** operator>> into an unsigned number: skip whitespace, take the longest digit run. `None` is
      the stream's failed state. */
  function ReadNumber(s: string): Option<(nat, string)> {
    var t := SkipSpace(s);
    var n := DigitRun(t);
    if n == 0 then None else Some((Value(t[..n]), t[n..]))
  }

  /** A number, one separator byte of any kind, then that many bytes. */
  function ReadField(s: string): Option<(string, string)> {
    match ReadNumber(s)
    case None => None
    case Some((size, rest)) =>
      if |rest| < 1 + size then None else Some((rest[1..1 + size], rest[1 + size..]))
  }

  function ReadFields(s: string, n: nat): (r: Option<(seq<string>, string)>)
    ensures r.Some? ==> |r.value.0| == n
    decreases n
  {
    if n == 0 then Some(([], s)) else
      match ReadField(s)
      case None => None
      case Some((f, rest)) =>
        match ReadFields(rest, n - 1)
        case None => None
        case Some((fs, tail)) => Some(([f] + fs, tail))
  }

  function DecodeRequest(data: string): Option<RequestData> {
    match ReadFields(data, 3)
    case None => None
    case Some((fs, _)) => Some(RequestData(fs[0], fs[1], fs[2]))
  }

  function DecodeNotification(data: string): Option<NotificationRequest> {
    match ReadNumber(data)
    case None => None
    case Some((id, rest)) =>
      if rest == [] then None else
      match ReadFields(rest[1..], 2)
      case None => None
      case Some((fs, _)) => Some(NotificationRequest(id, RequestData(fs[0], "", fs[1])))
  }

  // ---- Round trips --------------------------------------------------------------------------

  predicate AllSpace(s: string) {
    forall i :: 0 <= i < |s| ==> IsSpace(s[i])
  }

  lemma {:induction false} SkipSpaceStops(pad: string, s: string)
    requires AllSpace(pad) && s != [] && !IsSpace(s[0])
    ensures SkipSpace(pad + s) == s
  {
    if pad == [] {
      assert pad + s == s;
    } else {
      assert (pad + s)[1..] == pad[1..] + s;
      SkipSpaceStops(pad[1..], s);
    }
  }

  lemma ReadNumberRoundTrip(pad: string, n: nat, rest: string)
    requires AllSpace(pad)
    requires rest == [] || !IsDigit(rest[0])
    ensures ReadNumber(pad + ToText(n) + rest) == Some((n, rest))
  {
    var text := ToText(n);
    assert !IsSpace((text + rest)[0]) by { assert IsDigit(text[0]); }
    assert pad + text + rest == pad + (text + rest);
    SkipSpaceStops(pad, text + rest);
    DigitRunStops(text, rest);
    ValueOfText(n);
    assert (text + rest)[..|text|] == text && (text + rest)[|text|..] == rest;
  }

  lemma ReadFieldRoundTrip(pad: string, f: string, rest: string)
    requires AllSpace(pad)
    ensures ReadField(pad + Field(f) + rest) == Some((f, SEPARATOR + rest))
  {
    hide ReadNumber, ToText;
    var after := SEPARATOR + f + SEPARATOR + rest;
    assert pad + Field(f) + rest == pad + ToText(|f|) + after;
    ReadNumberRoundTrip(pad, |f|, after);
    assert after[1..1 + |f|] == f;
    assert after[1 + |f|..] == SEPARATOR + rest;
  }

  /** Any number of fields, holding any bytes at all, is read back field by field; what follows
      the last field is left in the stream. */
  lemma {:induction false} FieldsRoundTrip(pad: string, fs: seq<string>, rest: string)
    requires AllSpace(pad)
    ensures ReadFields(pad + Fields(fs) + rest, |fs|)
         == Some((fs, (if fs == [] then pad else SEPARATOR) + rest))
    decreases |fs|
  {
    hide ReadField, Field;
    if fs == [] {
      assert pad + Fields(fs) + rest == pad + rest;
    } else {
      var f, others := fs[0], fs[1..];
      var tail := Fields(others) + rest;
      assert Fields(fs) == Field(f) + Fields(others);
      hide Fields, ReadFields, AllSpace;
      Regroup(pad, Field(f), Fields(others), rest);
      ReadFieldRoundTrip(pad, f, tail);
      assert SEPARATOR + tail == SEPARATOR + Fields(others) + rest;
      assert AllSpace(SEPARATOR) by { SeparatorIsSpace(); }
      FieldsRoundTrip(SEPARATOR, others, rest);
      assert fs == [f] + others;
      ReadFieldsStep(pad + Field(f) + tail, f, SEPARATOR + tail, others, SEPARATOR + rest);
    }
  }

  lemma SeparatorIsSpace()
    ensures AllSpace(SEPARATOR)
  {
  }

  lemma Regroup(a: string, b: string, c: string, d: string)
    ensures a + (b + c) + d == a + b + (c + d)
  {
  }

  lemma ReadFieldsStep(s: string, f: string, next: string, fs: seq<string>, tail: string)
    requires ReadField(s) == Some((f, next))
    requires ReadFields(next, |fs|) == Some((fs, tail))
    ensures ReadFields(s, |fs| + 1) == Some(([f] + fs, tail))
  {
    hide ReadField;
  }

  lemma FieldsOfTwo(a: string, b: string)
    ensures Fields([a, b]) == Field(a) + Field(b)
  {
    assert [a, b][1..] == [b] && [b][1..] == [];
    assert Fields([b]) == Field(b) + "" == Field(b);
  }

  lemma FieldsOfThree(a: string, b: string, c: string)
    ensures Fields([a, b, c]) == Field(a) + Field(b) + Field(c)
  {
    assert [a, b, c][1..] == [b, c];
    FieldsOfTwo(b, c);
    assert Field(a) + (Field(b) + Field(c)) == Field(a) + Field(b) + Field(c);
  }

  /** `dataToRequest` undoes `requestToData` for all strings, whatever bytes they hold. */
  lemma RequestRoundTrip(client: string, user: string, privilege: string)
    ensures DecodeRequest(RequestToData(client, user, privilege))
         == Some(RequestData(client, user, privilege))
  {
    hide ReadField, ToText, Field, RequestToData;
    var fs := [client, user, privilege];
    FieldsOfThree(client, user, privilege);
    RequestShape(client, user, privilege);
    assert "" + Fields(fs) + "" == Fields(fs);
    FieldsRoundTrip("", fs, "");
  }

  lemma AppendFour(x: string, a: string, b: string, c: string, d: string)
    ensures x + a + b + c + d == x + (a + b + c + d)
  {
  }

  lemma RequestShape(client: string, user: string, privilege: string)
    ensures RequestToData(client, user, privilege) == Field(client) + Field(user) + Field(privilege)
  {
    hide ToText;
    AppendFour(Field(client), ToText(|user|), SEPARATOR, user, SEPARATOR);
    AppendFour(Field(client) + Field(user), ToText(|privilege|), SEPARATOR, privilege, SEPARATOR);
  }

  /** `dataToNotificationRequest` returns the id, client and privilege that were sent, with an
      empty user, and is not disturbed by whatever bytes follow. */
  lemma NotificationRoundTrip(request: NotificationRequest, tail: string)
    ensures DecodeNotification(NotificationText(request) + tail) == Some(request.Stripped())
  {
    hide ReadField, ReadNumber, Field, ToText;
    var client, privilege := request.data.client, request.data.privilege;
    var fs := [client, privilege];
    var body := Fields(fs) + (SEPARATOR + tail);
    var data := NotificationText(request) + tail;
    assert data == ToText(request.id) + (SEPARATOR + body) by {
      FieldsOfTwo(client, privilege);
      NotificationShape(request, tail);
    }
    assert data == "" + ToText(request.id) + (SEPARATOR + body);
    ReadNumberRoundTrip("", request.id, SEPARATOR + body);
    assert (SEPARATOR + body)[1..] == body;
    assert body == "" + Fields(fs) + (SEPARATOR + tail);
    FieldsRoundTrip("", fs, SEPARATOR + tail);
  }

  lemma NotificationShape(request: NotificationRequest, tail: string)
    ensures NotificationText(request) + tail
         == ToText(request.id)
            + (SEPARATOR + (Field(request.data.client) + Field(request.data.privilege) + (SEPARATOR + tail)))
  {
    hide ToText;
    var head, client, privilege := ToText(request.id) + SEPARATOR, request.data.client, request.data.privilege;
    AppendFour(head, ToText(|client|), SEPARATOR, client, SEPARATOR);
    AppendFour(head + Field(client), ToText(|privilege|), SEPARATOR, privilege, SEPARATOR);
    assert NotificationText(request) == head + Field(client) + Field(privilege) + SEPARATOR;
    hide Field, NotificationText;
    Nest(ToText(request.id), SEPARATOR, Field(client), Field(privilege), SEPARATOR, tail);
  }

  lemma Nest(a: string, b: string, c: string, d: string, e: string, f: string)
    ensures a + b + c + d + e + f == a + (b + (c + d + (e + f)))
  {
    var g := c + d;
    assert a + b + c + d == a + (b + g);
    assert a + (b + g) + e + f == a + (b + g) + (e + f);
    assert a + (b + g) + (e + f) == a + (b + (g + (e + f)));
  }

  /** The formats, by example. */
  lemma TextExamples()
    ensures RequestToData("ab", "c", "def") == "2 ab 1 c 3 def "
    ensures NotificationRequestToData(7, "ab", "c") == "7 2 ab 1 c  "
  {
    assert ToText(7) == "7" && ToText(3) == "3" && ToText(2) == "2" && ToText(1) == "1";
  }

  /** Two requests with the same bytes are the same request. */
  lemma RequestToDataInjective(a: RequestData, b: RequestData)
    requires RequestToData(a.client, a.user, a.privilege) == RequestToData(b.client, b.user, b.privilege)
    ensures a == b
  {
    RequestRoundTrip(a.client, a.user, a.privilege);
    RequestRoundTrip(b.client, b.user, b.privilege);
  }

  // ---- Frame size ---------------------------------------------------------------------------

  function FrameSize(request: NotificationRequest): nat {
    |NotificationText(request)|
  }

  /** Five digits of id and 8173 bytes of names always fit the receiver's limit; one byte more
      does not fit once both names take four digits and the id takes five. */
  lemma FrameFits(request: NotificationRequest)
    ensures request.id < 100_000 && |request.data.client| + |request.data.privilege| <= 8173
        ==> FrameSize(request) <= SIZE_LIMIT
    ensures |ToText(request.id)| == 5 && |ToText(|request.data.client|)| == 4
            && |ToText(|request.data.privilege|)| == 4
        ==> (FrameSize(request) <= SIZE_LIMIT <==>
             |request.data.client| + |request.data.privilege| <= 8173)
  {
    var c, p := |request.data.client|, |request.data.privilege|;
    assert FrameSize(request) == c + p + |ToText(request.id)| + |ToText(c)| + |ToText(p)| + 6;
    assert Pow10(5) == 100_000 && Pow10(4) == 10_000 by {
      assert Pow10(1) == 10 && Pow10(2) == 100 && Pow10(3) == 1000;
    }
    if request.id < 100_000 && c + p <= 8173 {
      TextLength(request.id, 5, 100_000);
      TextLength(c, 4, 10_000);
      TextLength(p, 4, 10_000);
    }
  }

  // ---- Answers ------------------------------------------------------------------------------

  function AnswerToData(answer: nat, errMsg: string): string {
    if errMsg == "" then ToText(answer) else errMsg
  }

  /** The integer std::stoll reads before its range check: whitespace, an optional sign, a digit
      run; anything after it is ignored. */
  function SignedNumber(s: string): Option<int> {
    var t := SkipSpace(s);
    var sign := t != [] && (t[0] == '-' || t[0] == '+');
    var digits := if sign then t[1..] else t;
    var n := DigitRun(digits);
    if n == 0 then None else
      var v: int := Value(digits[..n]);
      Some(if sign && t[0] == '-' then -v else v)
  }

  const LLONG_MIN: int := -0x8000_0000_0000_0000
  const LLONG_MAX: int := 0x7fff_ffff_ffff_ffff

  /** The upper bound is checked; the cast to the unsigned policy type wraps. */
  function DataToAnswer(types: PolicyTypes, data: string): Result<nat> {
    if data == ERROR_MSG || data == TIMEOUT_MSG then Ok(types.deny) else
      match SignedNumber(data)
      case None => Err("Could not convert response to PolicyType")
      case Some(v) =>
        if v < LLONG_MIN || LLONG_MAX < v then Err("Could not convert response to PolicyType")
        else if v > types.max then Err("Value of response exceeds max value of PolicyType")
        else
          var wrapped: nat := v % (types.max + 1);
          Ok(wrapped)
  }

  lemma SignedNumberOfDigits(text: string)
    requires text != [] && AllDigits(text)
    ensures SignedNumber(text) == Some(Value(text))
  {
    assert SkipSpace(text) == text;
    assert text + "" == text;
    DigitRunStops(text, "");
    assert text[..|text|] == text;
  }

  lemma SignedNumberOfNegative(minus: string, text: string)
    requires text != [] && AllDigits(text) && minus == ['-'] + text
    ensures SignedNumber(minus) == Some(-(Value(text) as int))
  {
    assert SkipSpace(minus) == minus;
    assert minus[1..] == text;
    assert text + "" == text;
    DigitRunStops(text, "");
    assert text[..|text|] == text;
  }

  lemma TextIsNotAnErrorMessage(s: string)
    requires s != [] && (IsDigit(s[0]) || s[0] == '-')
    ensures s != ERROR_MSG && s != TIMEOUT_MSG
  {
    assert ERROR_MSG[0] == 'E' && TIMEOUT_MSG[0] == 'T';
  }

  lemma DataToAnswerOfNumber(types: PolicyTypes, data: string, v: int)
    requires types.Valid() && data != ERROR_MSG && data != TIMEOUT_MSG
    requires SignedNumber(data) == Some(v) && LLONG_MIN <= v <= types.max
    ensures DataToAnswer(types, data) == Ok(v % (types.max + 1))
  {
    hide SignedNumber;
  }

  /** Every policy type survives the trip from the agent to the plugin, and both error texts
      arrive as a refusal. */
  lemma AnswerRoundTrip(types: PolicyTypes, answer: nat)
    requires types.Valid() && answer <= types.max
    ensures DataToAnswer(types, AnswerToData(answer, "")) == Ok(answer)
    ensures DataToAnswer(types, AnswerToData(answer, ERROR_MSG)) == Ok(types.deny)
    ensures DataToAnswer(types, AnswerToData(answer, TIMEOUT_MSG)) == Ok(types.deny)
  {
    hide SignedNumber;
    var text := ToText(answer);
    SignedNumberOfDigits(text);
    ValueOfText(answer);
    TextIsNotAnErrorMessage(text);
    DataToAnswerOfNumber(types, text, answer);
    Modulo(answer, types.max + 1);
    assert AnswerToData(answer, "") == text;
    assert ERROR_MSG != "" && TIMEOUT_MSG != "";
  }

  /** For a text that holds a number no larger than the policy type allows, the conversion yields
      that number exactly when the number is not negative: the lower bound is never checked. */
  lemma AnswerIsTheNumberIffNotNegative(types: PolicyTypes, data: string)
    requires types.Valid() && data != ERROR_MSG && data != TIMEOUT_MSG
    requires SignedNumber(data).Some? && LLONG_MIN <= SignedNumber(data).value <= types.max
    ensures DataToAnswer(types, data).Ok? && DataToAnswer(types, data).value <= types.max
    ensures DataToAnswer(types, data).value as int == SignedNumber(data).value
            <==> 0 <= SignedNumber(data).value
  {
    hide SignedNumber;
    var v := SignedNumber(data).value;
    DataToAnswerOfNumber(types, data, v);
    if 0 <= v {
      Modulo(v, types.max + 1);
    }
  }

  lemma Modulo(v: int, m: int)
    requires 0 <= v < m
    ensures v % m == v
  {
  }

  /** White space, an optional sign, digits, and then anything that does not go on with a digit. */
  predicate IsNumberText(data: string, pad: string, sign: string, digits: string, rest: string) {
    && data == pad + (sign + (digits + rest))
    && AllSpace(pad) && (sign == "" || sign == "-" || sign == "+")
    && digits != "" && AllDigits(digits) && (rest != "" ==> !IsDigit(rest[0]))
  }

  lemma SignAndBody(sign: string, body: string)
    requires sign == "" || sign == "-" || sign == "+"
    requires body != "" && IsDigit(body[0])
    ensures var t := sign + body;
      && t != "" && !IsSpace(t[0]) && ((t[0] == '-' || t[0] == '+') <==> sign != "")
      && (sign == "" ==> t == body) && (sign != "" ==> t[0] == sign[0] && t[1..] == body)
  {
  }

  lemma FirstDigit(digits: string, rest: string)
    requires digits != "" && AllDigits(digits)
    ensures digits + rest != "" && IsDigit((digits + rest)[0]) && (digits + rest)[..|digits|] == digits
  {
  }

  lemma SignedNumberReads(data: string, pad: string, sign: string, digits: string, rest: string)
    requires IsNumberText(data, pad, sign, digits, rest)
    ensures SignedNumber(data) == Some(if sign == "-" then -(Value(digits) as int) else Value(digits))
  {
    hide Value, SkipSpace, DigitRun, AllDigits, AllSpace, IsSpace, IsDigit;
    FirstDigit(digits, rest);
    SignAndBody(sign, digits + rest);
    SkipSpaceStops(pad, sign + (digits + rest));
    DigitRunStops(digits, rest);
  }

  /** What the conversion makes of a number: an error if it is above the largest policy type, or not
      a long long at all, and otherwise the number cast to the width of the policy type. */
  lemma NumberConverts(types: PolicyTypes, data: string, pad: string, sign: string, digits: string, rest: string)
    requires types.Valid() && IsNumberText(data, pad, sign, digits, rest)
    ensures var v: int := if sign == "-" then -(Value(digits) as int) else Value(digits);
      if v > types.max || v < -0x8000_0000_0000_0000 then DataToAnswer(types, data).Err?
      else DataToAnswer(types, data) == Ok(v % (types.max + 1))
  {
    hide SignedNumber, Value;
    SignedNumberReads(data, pad, sign, digits, rest);
    assert data != ERROR_MSG && data != TIMEOUT_MSG by {
      NumbersAreNotMessages(data, pad, sign, digits, rest);
    }
  }

  lemma NumbersAreNotMessages(data: string, pad: string, sign: string, digits: string, rest: string)
    requires IsNumberText(data, pad, sign, digits, rest)
    ensures data != ERROR_MSG && data != TIMEOUT_MSG
  {
    assert data[0] == if pad != "" then pad[0] else if sign != "" then sign[0] else digits[0];
    assert ERROR_MSG[0] == 'E' && TIMEOUT_MSG[0] == 'T';
  }

  /** Nothing else converts: data that do are one of the two error texts, or begin with a number. */
  lemma ConversionNeedsANumber(types: PolicyTypes, data: string)
    returns (pad: string, sign: string, digits: string, rest: string)
    requires types.Valid() && DataToAnswer(types, data).Ok?
    ensures data == "ERROR" || data == "TIMEOUT" || IsNumberText(data, pad, sign, digits, rest)
    ensures data == "ERROR" || data == "TIMEOUT" ==> DataToAnswer(types, data) == Ok(types.deny)
  {
    hide SignedNumber, IsNumberText;
    pad, sign, digits, rest := "", "", "", "";
    if data != ERROR_MSG && data != TIMEOUT_MSG {
      assert SignedNumber(data).Some?;
      hide DataToAnswer;
      pad, sign, digits, rest := NumberParts(data);
    }
  }

  lemma NumberParts(data: string) returns (pad: string, sign: string, digits: string, rest: string)
    requires SignedNumber(data).Some?
    ensures IsNumberText(data, pad, sign, digits, rest)
  {
    hide Value, AllSpace, AllDigits, IsDigit;
    var t := SkipSpace(data);
    SkipsSpace(data);
    hide SkipSpace;
    var signed := t != "" && (t[0] == '-' || t[0] == '+');
    var unsigned := if signed then t[1..] else t;
    var n := DigitRun(unsigned);
    assert n != 0;
    hide SignedNumber, DigitRun;
    pad, sign := data[..|data| - |t|], if signed then t[..1] else "";
    digits, rest := unsigned[..n], unsigned[n..];
    Rejoin(data, t, signed, n);
  }

  lemma Rejoin(data: string, t: string, signed: bool, n: nat)
    requires |t| <= |data| && t == data[|data| - |t|..] && (signed ==> t != "")
    requires n <= |if signed then t[1..] else t|
    ensures var unsigned := if signed then t[1..] else t;
      data == data[..|data| - |t|] + ((if signed then t[..1] else "") + (unsigned[..n] + unsigned[n..]))
  {
    var unsigned := if signed then t[1..] else t;
    assert unsigned == unsigned[..n] + unsigned[n..];
    assert t == (if signed then t[..1] else "") + unsigned;
    assert data == data[..|data| - |t|] + t;
  }

  lemma {:induction false} SkipsSpace(s: string)
    ensures AllSpace(s[..|s| - |SkipSpace(s)|])
    decreases |s|
  {
    if s != "" && IsSpace(s[0]) {
      SkipsSpace(s[1..]);
      var t := SkipSpace(s[1..]);
      assert s[..|s| - |t|] == [s[0]] + s[1..][..|s| - 1 - |t|];
    }
  }

  /** What a negative number turns into: it wraps around the width of the policy type. */
  lemma NegativeAnswerWraps(types: PolicyTypes, data: string, k: nat)
    requires types.Valid() && data != ERROR_MSG && data != TIMEOUT_MSG
    requires 0 < k <= types.max && SignedNumber(data) == Some(-(k as int))
    ensures DataToAnswer(types, data) == Ok(types.max + 1 - k)
  {
    hide SignedNumber;
    DataToAnswerOfNumber(types, data, -(k as int));
    WrapNegative(k, types.max + 1);
  }

  lemma WrapNegative(k: nat, m: nat)
    requires 0 < k < m
    ensures -(k as int) % m == m - k
  {
  }

  /** The input that shows it: a negative text is taken as "allow for life". */
  lemma NegativeTextAllowsForLife(types: PolicyTypes, data: string)
    requires types.Valid()
    requires data == ['-'] + ToText(types.max + 1 - ALLOW_PER_LIFE)
    ensures DataToAnswer(types, data) == Ok(ALLOW_PER_LIFE)
  {
    hide SignedNumber, DataToAnswer;
    var k: nat := types.max + 1 - ALLOW_PER_LIFE;
    var text := ToText(k);
    SignedNumberOfNegative(data, text);
    ValueOfText(k);
    TextIsNotAnErrorMessage(data);
    NegativeAnswerWraps(types, data, k);
  }
}
