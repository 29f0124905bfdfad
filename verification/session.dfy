/** The oscilloscope session of SDS1104.py: construction, the error check,
    and one wrapper per instrument feature. Each operation maps the
    transport state and its arguments to the new transport state together
    with either its result or the exception it raises. */
module Session {
  import opened Wrappers
  import opened Transport
  import opened Commands
  import opened Replies
  import Text
  import Decimal

  /** The instrument's SCPI socket port. */
  const InstrumentPort: int := 5025

  /** Exceptions that escape a session operation. */
  datatype Fault =
    | Socket(cause: SocketFault)                // raised by the transport
    | SdsException(code: int, message: string)  // the session's own exception class
    | AttributeError(name: string)              // lookup of an attribute the class lacks
    | IndexError                                // a reply with too few fields

  /** The state after an operation, with its result or its exception. */
  datatype Outcome<T> = Done(scpi: Scpi, value: T) | Raised(scpi: Scpi, fault: Fault)

  /** The calendar fields `change_datetime` is given. */
  datatype DateTime = DateTime(year: int, month: int, day: int, hour: int, minute: int, second: int)

  /** The coupling names `coupling_mode` accepts. */
  const CouplingModes: seq<string> := ["A1M", "D1M", "D50", "A50", "GND", "AC", "DC"]

  const CouplingErrorCode: int := 666
  const CouplingErrorMessage: string :=
    "Invalid Coupling Type must select from ['A1M', 'D1M', 'D50', 'A50', 'GND', 'AC', 'DC']"

  /** The exception class `check_error` refers to, which the session does
      not define. */
  const MissingExceptionClass: string := "SPD3303Exception"

  /** Default arguments of `to_csv` and `get_waveform`. */
  const DefaultDepth: string := "MAX"
  const DefaultSection: string := "ALL"

  // ---------------------------------------------------------------------
  // What an exchange with the instrument looks like, stated on the trace.

  /** The text the next default-sized read returns. */
  ghost function NextReply(pending: seq<string>): string
    requires |pending| > 0
  {
    pending[0][..Min(DefaultRecvSize, |pending[0]|)]
  }

  /** A write-only exchange: the command is framed onto the log and no
      reply is read; on an unusable link nothing is written. */
  ghost predicate Posts(s: Scpi, cmd: string, r: Outcome<()>)
  {
    if s.link == Connected then r == Done(s.(writes := s.writes + Frames([cmd])), ())
    else r == Raised(s, Socket(LinkFault(s.link)))
  }

  /** A query exchange: the command is framed onto the log, then exactly
      one bounded read returns the next reply, unaltered. */
  ghost predicate Answers(s: Scpi, cmd: string, r: Outcome<string>)
  {
    if s.link != Connected then r == Raised(s, Socket(LinkFault(s.link)))
    else if s.pending == [] then r == Raised(s.(writes := s.writes + Frames([cmd])), Socket(TimedOut))
    else
      && r.Done?
      && r.scpi == s.(writes := s.writes + Frames([cmd]), pending := r.scpi.pending)
      && r.value == NextReply(s.pending)
      && Delivered(s.pending, DefaultRecvSize, r.value, r.scpi.pending)
  }

  /** The error check after `cmds` were written: `SYSTem:ERRor?` is the
      last command on the log, one reply is read, and only a register
      whose code field is `0` lets the call return. */
  ghost predicate ErrorChecked<T>(s: Scpi, cmds: seq<string>, r: Outcome<T>)
  {
    var sent := s.(writes := s.writes + Frames(cmds + ["SYSTem:ERRor?"]));
    if s.link != Connected then r == Raised(s, Socket(LinkFault(s.link)))
    else if s.pending == [] then r == Raised(sent, Socket(TimedOut))
    else
      && r.scpi == sent.(pending := r.scpi.pending)
      && Delivered(s.pending, DefaultRecvSize, NextReply(s.pending), r.scpi.pending)
      && match ParseErrorReply(NextReply(s.pending))
         case NoError => r.Done?
         case MissingMessage(_) => r.Raised? && r.fault == IndexError
         case Reported(_, _) => r.Raised? && r.fault == AttributeError(MissingExceptionClass)
  }

  // ---------------------------------------------------------------------
  // Building blocks: one command written, or written and answered.

  function Write(s: Scpi, c: Command): (r: Outcome<()>)
    ensures Posts(s, Render(c), r)
  {
    match Send(s, Render(c))
    case Failure(e) => Raised(s, Socket(e))
    case Success(s') => Done(s', ())
  }

  function Ask(s: Scpi, c: Command): (r: Outcome<string>)
    ensures Answers(s, Render(c), r)
  {
    match Send(s, Render(c))
    case Failure(e) => Raised(s, Socket(e))
    case Success(s') =>
      match Recv(s', DefaultRecvSize)
      case Failure(e) => Raised(s', Socket(e))
      case Success((s'', reply)) =>
        DeliveredReply(s'.pending, reply, s''.pending);
        Done(s'', reply)
  }

  lemma DeliveredReply(before: seq<string>, reply: string, after: seq<string>)
    requires Delivered(before, DefaultRecvSize, reply, after)
    ensures reply == NextReply(before)
  {
    if |before[0]| <= DefaultRecvSize {
      DeliveredWhole(before, DefaultRecvSize, reply, after);
    } else {
      DeliveredCut(before, DefaultRecvSize, reply, after);
    }
  }

  // ---------------------------------------------------------------------
  // The operations of the session.

  /** `check_error`: query the error register; code `0` returns false.
      Any other code raises: an index fault when the reply has no second
      field, otherwise the failed lookup of the undefined exception class
      (after the message's last character has been dropped). */
  function CheckError(s: Scpi): (r: Outcome<bool>)
    ensures ErrorChecked(s, [], r)
    ensures r.Done? ==> r.value == false
  {
    match Ask(s, ErrorQuery)
    case Raised(s', f) => Raised(s', f)
    case Done(s', reply) =>
      match ParseErrorReply(reply)
      case NoError => Done(s', false)
      case MissingMessage(_) => Raised(s', IndexError)
      case Reported(code, message) => Raised(s', AttributeError(MissingExceptionClass))
  }

  /** `__send_cmd`: write a command, then run the error check. */
  function SendChecked(s: Scpi, c: Command): (r: Outcome<()>)
    ensures ErrorChecked(s, [Render(c)], r)
  {
    match Write(s, c)
    case Raised(s', f) => Raised(s', f)
    case Done(s', _) =>
      FramesAppend([Render(c)], ["SYSTem:ERRor?"]);
      match CheckError(s')
      case Raised(s'', f) => Raised(s'', f)
      case Done(s'', _) => Done(s'', ())
  }

  /** `__get_product_info`: ask `*IDN?` and keep the first four fields. */
  function GetProductInfo(s: Scpi): (r: Outcome<Identity>)
    ensures s.link == Connected ==> r.scpi == s.(writes := s.writes + Frames(["*IDN?"]), pending := r.scpi.pending)
    ensures s.link != Connected ==> r == Raised(s, Socket(LinkFault(s.link)))
    ensures s.link == Connected && s.pending == [] ==> r.Raised? && r.fault == Socket(TimedOut)
    ensures s.link == Connected && s.pending != [] ==>
      && Delivered(s.pending, DefaultRecvSize, NextReply(s.pending), r.scpi.pending)
      && (r.Done? <==> Text.CountChar(NextReply(s.pending), ',') >= 3)
      && (r.Raised? ==> r.fault == IndexError)
      && (r.Done? ==> IdentityCommaFree(r.value))
      && (r.Done? ==> NextReply(s.pending) == IdentityText(r.value)
                      || IdentityText(r.value) + Comma <= NextReply(s.pending))
  {
    match Ask(s, Identify)
    case Raised(s', f) => Raised(s', f)
    case Done(s', reply) =>
      match ParseIdentity(reply)
      case None => Raised(s', IndexError)
      case Some(id) => Done(s', id)
  }

  /** `xy_display`: switch the XY display on or off. */
  function XyDisplay(s: Scpi, state: bool): (r: Outcome<()>)
    ensures Posts(s, if state then "XY_DISPLAY ON" else "XY_DISPLAY OFF", r)
  {
    assert Render(Commands.XyDisplay(state)) == if state then "XY_DISPLAY ON" else "XY_DISPLAY OFF";
    Write(s, Commands.XyDisplay(state))
  }

  /** `buzz`: read the buzzer state, discard it, then switch the buzzer. */
  function Buzz(s: Scpi, state: bool): (r: Outcome<()>)
    ensures s.link != Connected ==> r == Raised(s, Socket(LinkFault(s.link)))
    ensures s.link == Connected && s.pending == [] ==>
      r == Raised(s.(writes := s.writes + Frames(["BUZZER?"])), Socket(TimedOut))
    ensures s.link == Connected && s.pending != [] ==>
      && r.Done?
      && r.scpi == s.(writes := s.writes + Frames(["BUZZER?", if state then "BUZZ ON" else "BUZZ OFF"]),
                      pending := r.scpi.pending)
      && Delivered(s.pending, DefaultRecvSize, NextReply(s.pending), r.scpi.pending)
  {
    match Ask(s, BuzzerQuery)
    case Raised(s', f) => Raised(s', f)
    case Done(s', _) =>
      assert Render(Commands.Buzz(state)) == if state then "BUZZ ON" else "BUZZ OFF";
      FramesAppend(["BUZZER?"], [Render(Commands.Buzz(state))]);
      assert ["BUZZER?"] + [Render(Commands.Buzz(state))] == ["BUZZER?", Render(Commands.Buzz(state))];
      Write(s', Commands.Buzz(state))
  }

  /** `coupling_mode`: reject a mode outside the accepted list before
      anything is written, map the aliases AC and DC to A1M and D1M, and
      write the coupling command. */
  function CouplingMode(s: Scpi, channel: int, mode: string): (r: Outcome<()>)
    ensures mode !in CouplingModes ==> r == Raised(s, SdsException(CouplingErrorCode, CouplingErrorMessage))
    ensures mode == "AC" ==> Posts(s, "C" + Decimal.IntToString(channel) + ": CPL " + "A1M", r)
    ensures mode == "DC" ==> Posts(s, "C" + Decimal.IntToString(channel) + ": CPL " + "D1M", r)
    ensures mode in CouplingModes && mode != "AC" && mode != "DC" ==>
      Posts(s, "C" + Decimal.IntToString(channel) + ": CPL " + mode, r)
  {
    if mode !in CouplingModes then Raised(s, SdsException(CouplingErrorCode, CouplingErrorMessage))
    else
      var canonical := if mode == "AC" then "A1M" else if mode == "DC" then "D1M" else mode;
      CouplingRendered(channel, canonical);
      Write(s, Coupling(channel, canonical))
  }

  /** The coupling command's text, as one concatenation. */
  lemma CouplingRendered(channel: int, mode: string)
    ensures Render(Coupling(channel, mode)) == "C" + Decimal.IntToString(channel) + ": CPL " + mode
  {
    var n := Decimal.IntToString(channel);
    assert Render(Coupling(channel, mode)) == ("C" + n + ": ") + ("CPL " + mode);
  }

  /** `time_div`: write the time base as given, without checking it. */
  function TimeDiv(s: Scpi, value: string): (r: Outcome<()>)
    ensures Posts(s, "TDIV " + value, r)
  {
    Write(s, Commands.TimeDiv(value))
  }

  /** `to_csv`: the flag is inverted on the wire, `save` true writes
      `SAVE,OFF` and false writes `SAVE,ON`. */
  function ToCsv(s: Scpi, depth: string, save: bool): (r: Outcome<()>)
    ensures Posts(s, "CSV_SAVE DD," + depth + (if save then ",SAVE,OFF" else ",SAVE,ON"), r)
  {
    assert Render(CsvSave(depth, !save)) == "CSV_SAVE DD," + depth + (if save then ",SAVE,OFF" else ",SAVE,ON");
    Write(s, CsvSave(depth, !save))
  }

  /** `display_channel`: show or hide one channel's trace. */
  function DisplayChannel(s: Scpi, channel: int, state: bool): (r: Outcome<()>)
    ensures Posts(s, "C" + Decimal.IntToString(channel) + (if state then ": TRA ON" else ": TRA OFF"), r)
  {
    assert Render(Trace(channel, state))
        == "C" + Decimal.IntToString(channel) + (if state then ": TRA ON" else ": TRA OFF");
    Write(s, Trace(channel, state))
  }

  /** `get_waveform`: request one channel's waveform section and return the
      single read's text as it came. */
  function GetWaveform(s: Scpi, channel: int, section: string): (r: Outcome<string>)
    ensures Answers(s, "C" + Decimal.IntToString(channel) + ": WF? " + section, r)
  {
    assert Render(Waveform(channel, section)) == "C" + Decimal.IntToString(channel) + ": WF? " + section;
    Ask(s, Waveform(channel, section))
  }

  /** `preform_internal_calibration`: write `*CAL?`; its reply is not read. */
  function PerformInternalCalibration(s: Scpi): (r: Outcome<()>)
    ensures Posts(s, "*CAL?", r)
  {
    Write(s, Calibrate)
  }

  /** `get_datetime`: the date reply as raw text. */
  function GetDatetime(s: Scpi): (r: Outcome<string>)
    ensures Answers(s, "DATE?", r)
  {
    Ask(s, DateQuery)
  }

  /** `change_datetime`: the month token is worked out, but the command
      that would carry it is never written. */
  function ChangeDatetime(s: Scpi, date: DateTime): (r: Outcome<()>)
    ensures r == Done(s, ())
  {
    var month := MonthToken(date.month);
    Done(s, ())
  }

  /** `check_version`. */
  function CheckVersion(s: Scpi): (r: Outcome<string>)
    ensures Answers(s, "SYSTem:VERSion?", r)
  {
    Ask(s, VersionQuery)
  }

  /** `check_status`. */
  function CheckStatus(s: Scpi): (r: Outcome<string>)
    ensures Answers(s, "SYSTem:STATus?", r)
  {
    Ask(s, StatusQuery)
  }

  /** `assign_ip_addr`: write, then run the error check. */
  function AssignIpAddr(s: Scpi, ip: string): (r: Outcome<()>)
    ensures ErrorChecked(s, ["IPaddr " + ip], r)
  {
    SendChecked(s, SetIp(ip))
  }

  /** `query_ip_addr`. */
  function QueryIpAddr(s: Scpi): (r: Outcome<string>)
    ensures Answers(s, "IPaddr?", r)
  {
    Ask(s, IpQuery)
  }

  /** `assign_subnet_mask`: write, then run the error check. */
  function AssignSubnetMask(s: Scpi, mask: string): (r: Outcome<()>)
    ensures ErrorChecked(s, ["MASKaddr " + mask], r)
  {
    SendChecked(s, SetMask(mask))
  }

  /** `query_subnet_mask` as the class ends up defining it: the second
      definition under that name replaces the first, so the gateway
      address is asked for. */
  function QuerySubnetMask(s: Scpi): (r: Outcome<string>)
    ensures Answers(s, "GATEaddr?", r)
  {
    Ask(s, GateQuery)
  }

  /** `assign_gate_address`: write, then run the error check. */
  function AssignGateAddress(s: Scpi, gate: string): (r: Outcome<()>)
    ensures ErrorChecked(s, ["GATEaddr " + gate], r)
  {
    SendChecked(s, SetGate(gate))
  }

  /** `dhcp`: switch the DHCP client on or off. */
  function SetDhcp(s: Scpi, state: bool): (r: Outcome<()>)
    ensures Posts(s, if state then "DHCP ON" else "DHCP OFF", r)
  {
    assert Render(Dhcp(state)) == if state then "DHCP ON" else "DHCP OFF";
    Write(s, Dhcp(state))
  }

  /** `query_dhcp`. */
  function QueryDhcp(s: Scpi): (r: Outcome<string>)
    ensures Answers(s, "DHCP?", r)
  {
    Ask(s, DhcpQuery)
  }

  /** `close`: close the transport; it never raises. */
  function CloseSession(s: Scpi): (r: Outcome<()>)
    ensures r.Done? && r.scpi.link == Closed
    ensures r.scpi.writes == s.writes && r.scpi.pending == s.pending
  {
    Done(Transport.Close(s), ())
  }

  /** `SDS1104(ip)`: open the transport on the instrument port, read the
      identity, then run `change_datetime` with the current time. The
      only command written is `*IDN?`. The result, when it returns, is the
      session: its transport state and its identity fields. */
  function Init(host: string, reachable: bool, replies: seq<string>, now: DateTime): (r: Outcome<Identity>)
    ensures r.scpi.host == host && r.scpi.port == InstrumentPort
    ensures !reachable ==> r.Raised? && r.fault == Socket(NotConnected) && r.scpi.writes == []
    ensures reachable ==> r.scpi.writes == Frames(["*IDN?"])
    ensures reachable && replies == [] ==> r.Raised? && r.fault == Socket(TimedOut)
    ensures reachable && replies != [] ==>
      && r.scpi.link == Connected
      && Delivered(replies, DefaultRecvSize, NextReply(replies), r.scpi.pending)
      && (r.Done? <==> Text.CountChar(NextReply(replies), ',') >= 3)
      && (r.Raised? ==> r.fault == IndexError)
      && (r.Done? ==> IdentityCommaFree(r.value))
      && (r.Done? ==> NextReply(replies) == IdentityText(r.value)
                      || IdentityText(r.value) + Comma <= NextReply(replies))
  {
    var scpi := Connect(host, InstrumentPort, reachable, replies);
    match GetProductInfo(scpi)
    case Raised(s, f) => Raised(s, f)
    case Done(s, id) =>
      match ChangeDatetime(s, now)
      case Raised(s', f) => Raised(s', f)
      case Done(s', _) => Done(s', id)
  }
}
