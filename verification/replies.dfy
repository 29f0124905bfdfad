/** How the session reads the instrument's replies: the identity string,
    the error register, and the month token of the date command. */
module Replies {
  import opened Wrappers
  import opened Text

  /** The four identity fields kept by the session. */
  datatype Identity = Identity(manufacturer: string, productType: string, seriesNumber: string, softwareVersion: string)

  const Comma: string := ","

  /** The identity as the instrument lists it: four comma-separated fields. */
  function IdentityText(id: Identity): string
  {
    Join([id.manufacturer, id.productType, id.seriesNumber, id.softwareVersion], Comma)
  }

  predicate CommaFree(s: string)
  {
    forall k :: 0 <= k < |s| ==> s[k] != ','
  }

  predicate IdentityCommaFree(id: Identity)
  {
    CommaFree(id.manufacturer) && CommaFree(id.productType)
    && CommaFree(id.seriesNumber) && CommaFree(id.softwareVersion)
  }

  /** Reads the reply to `*IDN?`: the first four comma-separated fields,
      ignoring any further ones; `None` stands for the index fault raised
      when there are fewer than four. Nothing is trimmed, so the last
      field keeps the reply's line terminator. */
  function ParseIdentity(reply: string): (r: Option<Identity>)
    ensures r.None? <==> CountChar(reply, ',') < 3
    ensures r.Some? ==> IdentityCommaFree(r.value)
    ensures r.Some? ==> reply == IdentityText(r.value) || IdentityText(r.value) + Comma <= reply
  {
    var fields := Split(reply, Comma);
    SplitCount(reply, ',');
    if |fields| < 4 then None
    else
      var id := Identity(fields[0], fields[1], fields[2], fields[3]);
      IdentityLeadsReply(reply, id);
      Some(id)
  }

  /** The first four fields, joined back, are where the reply starts. */
  lemma IdentityLeadsReply(reply: string, id: Identity)
    requires |Split(reply, Comma)| >= 4
    requires id == Identity(Split(reply, Comma)[0], Split(reply, Comma)[1], Split(reply, Comma)[2], Split(reply, Comma)[3])
    ensures IdentityCommaFree(id)
    ensures reply == IdentityText(id) || IdentityText(id) + Comma <= reply
  {
    var fields := Split(reply, Comma);
    CommaFieldsCommaFree(reply);
    JoinSplit(reply, Comma);
    assert fields[..4] == [id.manufacturer, id.productType, id.seriesNumber, id.softwareVersion];
    if |fields| > 4 {
      JoinAt(fields, 4, Comma);
    } else {
      assert fields == fields[..4];
    }
  }

  /** No field of a comma split holds a comma. */
  lemma CommaFieldsCommaFree(reply: string)
    ensures forall i | 0 <= i < |Split(reply, Comma)| :: CommaFree(Split(reply, Comma)[i])
  {
    var fields := Split(reply, Comma);
    SplitFieldsFree(reply, Comma);
    forall i | 0 <= i < |fields|
      ensures CommaFree(fields[i])
    {
      forall k | 0 <= k < |fields[i]|
        ensures fields[i][k] != ','
      {
        if fields[i][k] == ',' {
          assert fields[i][k..k + 1] == Comma;
          assert OccursAt(fields[i], Comma, k);
        }
      }
    }
  }

  /** The partner of `ParseIdentity`: an identity listed with any further
      fields after it is read back exactly. */
  lemma ParseIdentityText(id: Identity, tail: string)
    requires IdentityCommaFree(id)
    requires tail == "" || tail[0] == ','
    ensures ParseIdentity(IdentityText(id) + tail) == Some(id)
  {
    IdentityTextFields(id, tail);
    LeadingFields(id.manufacturer, id.productType, id.seriesNumber, id.softwareVersion, tail);
  }

  /** Splitting four comma-free fields, followed by nothing or by a comma,
      gives those fields first. */
  lemma LeadingFields(m: string, p: string, n: string, v: string, tail: string)
    requires CommaFree(m) && CommaFree(p) && CommaFree(n) && CommaFree(v)
    requires tail == "" || tail[0] == ','
    ensures var fields := Split(m + Comma + (p + Comma + (n + Comma + (v + tail))), Comma);
      |fields| >= 4 && fields[0] == m && fields[1] == p && fields[2] == n && fields[3] == v
  {
    var s3 := v + tail;
    var s2 := n + Comma + s3;
    var s1 := p + Comma + s2;
    var s0 := m + Comma + s1;
    var f3 := Split(s3, Comma);
    LastFieldBeforeTail(v, tail);
    SplitAfterFreePrefix(n, Comma, s3);
    var f2 := Split(s2, Comma);
    assert f2 == [n] + f3;
    SplitAfterFreePrefix(p, Comma, s2);
    var f1 := Split(s1, Comma);
    assert f1 == [p] + f2;
    SplitAfterFreePrefix(m, Comma, s1);
    var fields := Split(s0, Comma);
    assert fields == [m] + f1;
  }

  /** At most one comma-free identity begins a reply as a whole field
      list: the contract of `ParseIdentity` determines its result. */
  lemma IdentityDetermined(reply: string, a: Identity, b: Identity)
    requires IdentityCommaFree(a) && (reply == IdentityText(a) || IdentityText(a) + Comma <= reply)
    requires IdentityCommaFree(b) && (reply == IdentityText(b) || IdentityText(b) + Comma <= reply)
    ensures a == b
  {
    var ta := reply[|IdentityText(a)|..];
    var tb := reply[|IdentityText(b)|..];
    assert reply == IdentityText(a) + ta;
    assert reply == IdentityText(b) + tb;
    ParseIdentityText(a, ta);
    ParseIdentityText(b, tb);
  }

  lemma IdentityTextFields(id: Identity, tail: string)
    ensures IdentityText(id) + tail
         == id.manufacturer + Comma + (id.productType + Comma + (id.seriesNumber + Comma + (id.softwareVersion + tail)))
  {
    var m, p, n, v := id.manufacturer, id.productType, id.seriesNumber, id.softwareVersion;
    assert Join([n, v], Comma) == n + Comma + v;
    assert Join([p, n, v], Comma) == p + Comma + (n + Comma + v);
    assert IdentityText(id) == m + Comma + (p + Comma + (n + Comma + v));
  }

  lemma LastFieldBeforeTail(v: string, tail: string)
    requires CommaFree(v)
    requires tail == "" || tail[0] == ','
    ensures Split(v + tail, Comma)[0] == v
  {
    if tail == "" {
      assert v + tail == v;
      SplitJoin([v], ',');
    } else {
      assert v + tail == v + Comma + tail[1..];
      SplitAfterFreePrefix(v, Comma, tail[1..]);
    }
  }

  /** An example reply: the software version keeps the newline. */
  lemma ParseIdentityExample()
    ensures ParseIdentity("Siglent,SDS1104,SN123,1.0\n")
         == Some(Identity("Siglent", "SDS1104", "SN123", "1.0\n"))
  {
    var id := Identity("Siglent", "SDS1104", "SN123", "1.0\n");
    var fields := [id.manufacturer, id.productType, id.seriesNumber, id.softwareVersion];
    assert Join(fields[3..], Comma) == "1.0\n";
    assert Join(fields[2..], Comma) == "SN123,1.0\n";
    assert Join(fields[1..], Comma) == "SDS1104,SN123,1.0\n";
    assert IdentityText(id) + "" == "Siglent,SDS1104,SN123,1.0\n";
    assert IdentityCommaFree(id) by {
      assert CommaFree(id.manufacturer) && CommaFree(id.productType);
      assert CommaFree(id.seriesNumber) && CommaFree(id.softwareVersion);
    }
    ParseIdentityText(id, "");
  }

  /** The separator between the code and the message of the error
      register: two spaces. */
  const ErrorSeparator: string := "  "

  /** What `check_error` makes of the error register before it raises:
      code `0` is no error; any other code either comes with a message,
      whose last character is dropped, or has no second field at all. */
  datatype ErrorReport = NoError | Reported(code: string, message: string) | MissingMessage(code: string)

  function ParseErrorReply(reply: string): (r: ErrorReport)
    ensures r.NoError? <==> reply == "0" || "0  " <= reply
    ensures r.MissingMessage? <==> reply != "0" && !Contains(reply, ErrorSeparator)
    ensures r.Reported? ==> r.code + ErrorSeparator <= reply && !Contains(r.code, ErrorSeparator)
    ensures r.MissingMessage? ==> r.code == reply
    ensures r.Reported? ==> Find(reply, ErrorSeparator) == Some(|r.code|)
    ensures r.Reported? ==>
      r.message == DropLast(FirstField(reply[|r.code| + |ErrorSeparator|..], ErrorSeparator))
  {
    var fields := Split(reply, ErrorSeparator);
    ErrorCodeField(reply);
    if fields[0] == "0" then NoError
    else if |fields| < 2 then
      SplitFirstField(reply, ErrorSeparator);
      MissingMessage(fields[0])
    else
      SplitTwoFields(reply, ErrorSeparator);
      Reported(fields[0], DropLast(fields[1]))
  }

  /** The first field of the error reply, and when it reads `0`. */
  lemma ErrorCodeField(reply: string)
    ensures var fields := Split(reply, ErrorSeparator);
      && (fields[0] == "0" <==> reply == "0" || "0  " <= reply)
      && (|fields| < 2 <==> !Contains(reply, ErrorSeparator))
      && (|fields| >= 2 ==> fields[0] + ErrorSeparator <= reply && !Contains(fields[0], ErrorSeparator))
  {
    var fields := Split(reply, ErrorSeparator);
    match Find(reply, ErrorSeparator)
    case None =>
      if "0  " <= reply {
        assert OccursAt(reply, ErrorSeparator, 1);
      }
    case Some(i) =>
      assert fields[0] == reply[..i];
      assert |fields| >= 2;
      PrefixBeforeFirstIsFree(reply, ErrorSeparator, i);
      assert reply[..i] + ErrorSeparator == reply[..i + 2];
      if "0  " <= reply {
        assert OccursAt(reply, ErrorSeparator, 1);
        assert reply[0] == '0';
        assert !OccursAt(reply, ErrorSeparator, 0);
        assert i == 1;
      }
      if reply[..i] == "0" {
        assert reply[..3] == "0  ";
      }
  }

  predicate SpaceFree(s: string)
  {
    forall k :: 0 <= k < |s| ==> s[k] != ' '
  }

  /** The partner of `ParseErrorReply`: a register line `<code>  <message>`
      ending in a newline gives back the code and the message. */
  lemma ParseErrorText(code: string, message: string)
    requires SpaceFree(code) && code != "0"
    requires !Contains(message, ErrorSeparator)
    ensures ParseErrorReply(code + ErrorSeparator + message + "\n") == Reported(code, message)
  {
    var reply := code + ErrorSeparator + (message + "\n");
    assert code + ErrorSeparator + message + "\n" == reply;
    SplitAfterFreePrefix(code, ErrorSeparator, message + "\n");
    NewlineKeepsSeparatorOut(message);
    SplitWithoutSeparator(message + "\n", ErrorSeparator);
    assert DropLast(message + "\n") == message;
  }

  lemma NewlineKeepsSeparatorOut(message: string)
    requires !Contains(message, ErrorSeparator)
    ensures !Contains(message + "\n", ErrorSeparator)
  {
    var s := message + "\n";
    forall j | 0 <= j <= |s|
      ensures !OccursAt(s, ErrorSeparator, j)
    {
      if j + 2 <= |message| {
        assert s[j..j + 2] == message[j..j + 2];
        assert !OccursAt(message, ErrorSeparator, j);
      } else if j + 2 == |s| {
        assert s[j..j + 2][1] == s[|message|];
      }
    }
  }

  /** Two space-free words joined by one space hold no separator. */
  lemma OneSpaceNoSeparator(a: string, b: string)
    requires SpaceFree(a) && SpaceFree(b) && |b| > 0
    ensures !Contains(a + " " + b, ErrorSeparator)
  {
    var s := a + " " + b;
    forall j | 0 <= j <= |s|
      ensures !OccursAt(s, ErrorSeparator, j)
    {
      if j + 2 <= |s| {
        if j < |a| {
          assert s[j..j + 2][0] == a[j];
        } else {
          assert s[j..j + 2][1] == b[j + 1 - |a| - 1];
        }
      }
    }
  }

  /** A message that itself holds two spaces is cut at them, and the cut
      piece still loses its last character. */
  lemma ErrorMessageCutAtSeparator(code: string, first: string, rest: string)
    requires SpaceFree(code) && code != "0"
    requires SpaceFree(first)
    ensures ParseErrorReply(code + ErrorSeparator + first + ErrorSeparator + rest) == Reported(code, DropLast(first))
  {
    var reply := code + ErrorSeparator + (first + ErrorSeparator + rest);
    assert code + ErrorSeparator + first + ErrorSeparator + rest == reply;
    SplitAfterFreePrefix(code, ErrorSeparator, first + ErrorSeparator + rest);
    SplitAfterFreePrefix(first, ErrorSeparator, rest);
  }

  /** Example replies from the error register. */
  lemma ParseErrorExamples()
    ensures ParseErrorReply("0  ") == NoError
    ensures ParseErrorReply("201  Invalid command\n") == Reported("201", "Invalid command")
  {
    assert "0  " <= "0  ";
    assert "201  Invalid command\n" == "201" + ErrorSeparator + "Invalid command" + "\n";
    assert "Invalid command" == "Invalid" + " " + "command";
    OneSpaceNoSeparator("Invalid", "command");
    ParseErrorText("201", "Invalid command");
  }

  /** The month abbreviations the instrument's date command expects. */
  const Months: seq<string> := ["JAN", "FEB", "MAR", "APR", "MAY", "JUN", "JUL", "AUG", "SEP", "OCT", "NOV", "DEC"]

  /** The month token of `change_datetime`: a chain of comparisons that
      starts from `JAN`, so a month outside 1..12 also yields `JAN`. */
  function MonthToken(month: int): (token: string)
    ensures 1 <= month <= 12 ==> token == Months[month - 1]
    ensures !(1 <= month <= 12) ==> token == "JAN"
  {
    if month == 1 then "JAN"
    else if month == 2 then "FEB"
    else if month == 3 then "MAR"
    else if month == 4 then "APR"
    else if month == 5 then "MAY"
    else if month == 6 then "JUN"
    else if month == 7 then "JUL"
    else if month == 8 then "AUG"
    else if month == 9 then "SEP"
    else if month == 10 then "OCT"
    else if month == 11 then "NOV"
    else if month == 12 then "DEC"
    else "JAN"
  }

  /** The month a token stands for: its position in the table, from 1. */
  function MonthNumber(token: string): Option<int>
  {
    MonthNumberFrom(token, 0)
  }

  function MonthNumberFrom(token: string, i: nat): Option<int>
    requires i <= |Months|
    decreases |Months| - i
  {
    if i == |Months| then None
    else if Months[i] == token then Some(i + 1)
    else MonthNumberFrom(token, i + 1)
  }

  /** Within 1..12 the token determines the month. */
  lemma MonthTokenRoundTrip(month: int)
    requires 1 <= month <= 12
    ensures MonthNumber(MonthToken(month)) == Some(month)
  {
  }
}
