/** The stream the decoders advance, and the decoders as the loops they are. */
module InputStream {
  import opened Types
  import opened Decimal
  import opened Translator

  /** A string stream open for reading: the text, the read position and the fail bit. */
  class StringStream {
    const text: string
    var pos: nat
    var failed: bool

    ghost predicate Valid()
      reads this
    {
      pos <= |text|
    }

    function Rest(): string
      requires Valid()
      reads this
    {
      text[pos..]
    }

    constructor (text: string)
      ensures Valid() && !failed && Rest() == text
    {
      this.text := text;
      pos, failed := 0, false;
    }

    method SkipSpaces()
      requires Valid()
      modifies this
      ensures Valid() && failed == old(failed)
      ensures Rest() == SkipSpace(old(Rest()))
    {
      while pos < |text| && IsSpace(text[pos])
        invariant Valid() && failed == old(failed)
        invariant SkipSpace(Rest()) == SkipSpace(old(Rest()))
        decreases |text| - pos
      {
        assert Rest()[1..] == text[pos + 1..];
        pos := pos + 1;
      }
    }

    method TakeDigits() returns (n: nat, count: nat)
      requires Valid()
      modifies this
      ensures Valid() && failed == old(failed)
      ensures count == DigitRun(old(Rest())) && n == Value(old(Rest())[..count])
      ensures Rest() == old(Rest())[count..]
    {
      n, count := 0, 0;
      ghost var all := Rest();
      while pos < |text| && IsDigit(text[pos])
        invariant Valid() && failed == old(failed)
        invariant count <= |all| && Rest() == all[count..]
        invariant AllDigits(all[..count]) && n == Value(all[..count])
        decreases |text| - pos
      {
        assert Rest()[0] == text[pos] == all[count];
        assert all[..count + 1][..count] == all[..count];
        n := 10 * n + DigitValue(text[pos]);
        pos, count := pos + 1, count + 1;
      }
      assert all == all[..count] + all[count..];
      DigitRunStops(all[..count], all[count..]);
    }

    /** operator>> into an unsigned number. */
    method ExtractNumber() returns (n: nat)
      requires Valid()
      modifies this
      ensures Valid() && (old(failed) ==> failed)
      ensures !old(failed) ==>
        match ReadNumber(old(Rest()))
        case None => failed
        case Some((value, rest)) => !failed && n == value && Rest() == rest
    {
      hide SkipSpace, DigitRun, Value;
      n := 0;
      if !failed {
        SkipSpaces();
        var count;
        n, count := TakeDigits();
        failed := count == 0;
      }
    }

    /** read(): exactly `n` bytes, or the fail bit. */
    method Read(n: nat) returns (bytes: string)
      requires Valid()
      modifies this
      ensures Valid() && (old(failed) ==> failed)
      ensures !old(failed) ==>
        if |old(Rest())| < n then failed
        else !failed && bytes == old(Rest())[..n] && Rest() == old(Rest())[n..]
    {
      bytes := [];
      if failed {
        return;
      }
      assert Rest() == text[pos..];
      if |text| - pos < n {
        failed := true;
      } else {
        bytes := text[pos..pos + n];
        pos := pos + n;
      }
    }

    /** One pass of the member loop: a size, a separator, the bytes. */
    method ExtractMember() returns (member: string)
      requires Valid()
      modifies this
      ensures Valid() && (old(failed) ==> failed)
      ensures !old(failed) ==>
        match ReadField(old(Rest()))
        case None => failed
        case Some((field, rest)) => !failed && member == field && Rest() == rest
    {
      hide ReadNumber, Rest;
      var size := ExtractNumber();
      var _ := Read(1);
      member := Read(size);
    }
  }

  /** Reading one more field at the end of a list of fields. */
  lemma {:induction false} ReadFieldsSnoc(s: string, n: nat)
    ensures ReadFields(s, n).None? ==> ReadFields(s, n + 1).None?
    ensures ReadFields(s, n).Some? ==>
      var (fs, rest) := ReadFields(s, n).value;
      ReadFields(s, n + 1) == match ReadField(rest)
                              case None => None
                              case Some((f, tail)) => Some((fs + [f], tail))
    decreases n
  {
    hide ReadField;
    if n == 0 {
      if ReadField(s).Some? {
        var (f, rest) := ReadField(s).value;
        assert ReadFields(rest, 0) == Some(([], rest));
        assert [f] + [] == [] + [f];
      }
    } else if ReadField(s).Some? {
      var (f, rest) := ReadField(s).value;
      ReadFieldsSnoc(rest, n - 1);
      if ReadFields(rest, n - 1).Some? {
        var (fs, tail) := ReadFields(rest, n - 1).value;
        if ReadField(tail).Some? {
          assert [f] + (fs + [ReadField(tail).value.0]) == ([f] + fs) + [ReadField(tail).value.0];
        }
      }
    }
  }

  /** The member loop of both decoders, for any number of members. */
  method ExtractMembers(stream: StringStream, count: nat) returns (members: seq<string>)
    requires stream.Valid() && !stream.failed
    modifies stream
    ensures stream.Valid()
    ensures stream.failed <==> ReadFields(old(stream.Rest()), count).None?
    ensures !stream.failed ==> ReadFields(old(stream.Rest()), count) == Some((members, stream.Rest()))
  {
    hide ReadField;
    members := [];
    ghost var data := stream.Rest();
    for i := 0 to count
      invariant stream.Valid()
      invariant stream.failed <==> ReadFields(data, i).None?
      invariant !stream.failed ==> ReadFields(data, i) == Some((members, stream.Rest()))
    {
      ReadFieldsSnoc(data, i);
      var member := stream.ExtractMember();
      members := members + [member];
    }
  }

  /** `Agent::dataToRequest`; `None` stands for a stream that failed on the way. */
  method DataToRequest(data: string) returns (request: Option<RequestData>)
    ensures request == DecodeRequest(data)
  {
    var stream := new StringStream(data);
    var members := ExtractMembers(stream, 3);
    request := if stream.failed then None else Some(RequestData(members[0], members[1], members[2]));
  }

  /** `Gui::dataToNotificationRequest`. */
  method DataToNotificationRequest(data: string) returns (request: Option<NotificationRequest>)
    ensures request == DecodeNotification(data)
  {
    var stream := new StringStream(data);
    var id := stream.ExtractNumber();
    var _ := stream.Read(1);
    if stream.failed {
      return None;
    }
    var members := ExtractMembers(stream, 2);
    request := if stream.failed then None
               else Some(NotificationRequest(id, RequestData(members[0], "", members[1])));
  }
}
