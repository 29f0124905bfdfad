/** The instrument's command vocabulary as the session writes it on the
    wire, and a decoder showing that the text of every command identifies
    the command and its arguments. */
module Commands {
  import opened Wrappers
  import Text
  import Decimal

  /** One logical command line. Channel numbers, coupling modes, values,
      depths, sections and addresses are carried as the caller gave them. */
  datatype Command =
    | Identify                                // *IDN?
    | XyDisplay(on: bool)                     // XY_DISPLAY ON|OFF
    | BuzzerQuery                             // BUZZER?
    | Buzz(on: bool)                          // BUZZ ON|OFF
    | Coupling(channel: int, mode: string)    // C<n>: CPL <mode>
    | TimeDiv(value: string)                  // TDIV <value>
    | CsvSave(depth: string, on: bool)        // CSV_SAVE DD,<depth>,SAVE,ON|OFF
    | Trace(channel: int, on: bool)           // C<n>: TRA ON|OFF
    | Waveform(channel: int, section: string) // C<n>: WF? <section>
    | Calibrate                               // *CAL?
    | DateQuery                               // DATE?
    | ErrorQuery                              // SYSTem:ERRor?
    | VersionQuery                            // SYSTem:VERSion?
    | StatusQuery                             // SYSTem:STATus?
    | SetIp(ip: string)                       // IPaddr <ip>
    | IpQuery                                 // IPaddr?
    | SetMask(mask: string)                   // MASKaddr <mask>
    | MaskQuery                               // MASKaddr?
    | SetGate(gate: string)                   // GATEaddr <gate>
    | GateQuery                               // GATEaddr?
    | Dhcp(on: bool)                          // DHCP ON|OFF
    | DhcpQuery                               // DHCP?

  function OnOff(on: bool): string
  {
    if on then "ON" else "OFF"
  }

  /** The channel prefix `C<n>: ` of per-channel commands. */
  function ChannelPrefix(channel: int): (s: string)
    ensures LineFree(s)
  {
    "C" + Decimal.IntToString(channel) + ": "
  }

  /** No newline in `x`: the text stays one line on the wire. */
  predicate LineFree(x: string)
  {
    '\n' !in x
  }

  /** Every text argument the caller supplied is one line. */
  predicate ArgumentsLineFree(c: Command)
  {
    match c
    case Coupling(_, mode) => LineFree(mode)
    case TimeDiv(value) => LineFree(value)
    case CsvSave(depth, _) => LineFree(depth)
    case Waveform(_, section) => LineFree(section)
    case SetIp(ip) => LineFree(ip)
    case SetMask(mask) => LineFree(mask)
    case SetGate(gate) => LineFree(gate)
    case _ => true
  }

  /** The exact text of a command, without its terminator. */
  function Render(c: Command): (s: string)
    ensures |s| > 0
  {
    match c
    case Identify => "*IDN?"
    case XyDisplay(on) => "XY_DISPLAY " + OnOff(on)
    case BuzzerQuery => "BUZZER?"
    case Buzz(on) => "BUZZ " + OnOff(on)
    case Coupling(n, mode) => ChannelPrefix(n) + ("CPL " + mode)
    case TimeDiv(value) => "TDIV " + value
    case CsvSave(depth, on) => "CSV_SAVE DD," + depth + ",SAVE," + OnOff(on)
    case Trace(n, on) => ChannelPrefix(n) + ("TRA " + OnOff(on))
    case Waveform(n, section) => ChannelPrefix(n) + ("WF? " + section)
    case Calibrate => "*CAL?"
    case DateQuery => "DATE?"
    case ErrorQuery => "SYSTem:ERRor?"
    case VersionQuery => "SYSTem:VERSion?"
    case StatusQuery => "SYSTem:STATus?"
    case SetIp(ip) => "IPaddr " + ip
    case IpQuery => "IPaddr?"
    case SetMask(mask) => "MASKaddr " + mask
    case MaskQuery => "MASKaddr?"
    case SetGate(gate) => "GATEaddr " + gate
    case GateQuery => "GATEaddr?"
    case Dhcp(on) => "DHCP " + OnOff(on)
    case DhcpQuery => "DHCP?"
  }

  /** A command is a single line whenever the caller's arguments are: the
      library adds no newline of its own inside a command. */
  lemma RenderLineFree(c: Command)
    requires ArgumentsLineFree(c)
    ensures LineFree(Render(c))
  {
  }

  /** The text after prefix `p`, if `s` starts with it. */
  function Strip(p: string, s: string): Option<string>
  {
    if p <= s then Some(s[|p|..]) else None
  }

  /** The text before suffix `q`, if `s` ends with it. */
  function StripSuffix(s: string, q: string): Option<string>
  {
    if |q| <= |s| && s[|s| - |q|..] == q then Some(s[..|s| - |q|]) else None
  }

  /** Decodes `<depth>,SAVE,ON|OFF`. */
  function ParseCsvTail(rest: string): Option<Command>
  {
    match StripSuffix(rest, ",SAVE,ON")
    case Some(depth) => Some(CsvSave(depth, true))
    case None =>
      match StripSuffix(rest, ",SAVE,OFF")
      case Some(depth) => Some(CsvSave(depth, false))
      case None => None
  }

  /** Decodes what follows `C<n>: `. */
  function ParseChannelTail(n: int, t: string): Option<Command>
  {
    if t == "TRA ON" then Some(Trace(n, true))
    else if t == "TRA OFF" then Some(Trace(n, false))
    else match Strip("CPL ", t)
      case Some(mode) => Some(Coupling(n, mode))
      case None =>
        match Strip("WF? ", t)
        case Some(section) => Some(Waveform(n, section))
        case None => None
  }

  /** Decodes `<n>: <tail>`, the text after the leading `C`. */
  function ParseChannelCommand(body: string): Option<Command>
  {
    match Text.Find(body, ":")
    case None => None
    case Some(i) =>
      match Decimal.ParseInt(body[..i])
      case None => None
      case Some(n) =>
        var after := body[i + 1..];
        if |after| == 0 || after[0] != ' ' then None
        else ParseChannelTail(n, after[1..])
  }

  /** Decodes a command line; `None` for text the session never writes. */
  function Parse(s: string): Option<Command>
  {
    if |s| == 0 then None
    else match s[0]
      case '*' =>
        if s == "*IDN?" then Some(Identify)
        else if s == "*CAL?" then Some(Calibrate)
        else None
      case 'X' =>
        if s == "XY_DISPLAY ON" then Some(XyDisplay(true))
        else if s == "XY_DISPLAY OFF" then Some(XyDisplay(false))
        else None
      case 'B' =>
        if s == "BUZZER?" then Some(BuzzerQuery)
        else if s == "BUZZ ON" then Some(Buzz(true))
        else if s == "BUZZ OFF" then Some(Buzz(false))
        else None
      case 'T' =>
        (match Strip("TDIV ", s)
         case Some(value) => Some(TimeDiv(value))
         case None => None)
      case 'D' =>
        if s == "DATE?" then Some(DateQuery)
        else if s == "DHCP ON" then Some(Dhcp(true))
        else if s == "DHCP OFF" then Some(Dhcp(false))
        else if s == "DHCP?" then Some(DhcpQuery)
        else None
      case 'S' =>
        if s == "SYSTem:ERRor?" then Some(ErrorQuery)
        else if s == "SYSTem:VERSion?" then Some(VersionQuery)
        else if s == "SYSTem:STATus?" then Some(StatusQuery)
        else None
      case 'I' =>
        if s == "IPaddr?" then Some(IpQuery)
        else (match Strip("IPaddr ", s)
          case Some(ip) => Some(SetIp(ip))
          case None => None)
      case 'M' =>
        if s == "MASKaddr?" then Some(MaskQuery)
        else (match Strip("MASKaddr ", s)
          case Some(mask) => Some(SetMask(mask))
          case None => None)
      case 'G' =>
        if s == "GATEaddr?" then Some(GateQuery)
        else (match Strip("GATEaddr ", s)
          case Some(gate) => Some(SetGate(gate))
          case None => None)
      case 'C' =>
        (match Strip("CSV_SAVE DD,", s)
         case Some(rest) => ParseCsvTail(rest)
         case None => ParseChannelCommand(s[1..]))
      case _ => None
  }

  lemma StripOwn(p: string, x: string)
    ensures Strip(p, p + x) == Some(x)
  {
  }

  lemma StripSuffixOwn(x: string, q: string)
    ensures StripSuffix(x + q, q) == Some(x)
  {
  }

  /** A channel command decodes to its channel and tail. */
  lemma ParseChannelPrefix(n: int, t: string)
    ensures ParseChannelCommand(Decimal.IntToString(n) + ": " + t) == ParseChannelTail(n, t)
  {
    var dec := Decimal.IntToString(n);
    var body := dec + ": " + t;
    assert body == dec + ":" + (" " + t);
    Text.FindAfterFreePrefix(dec, ":", " " + t);
    assert body[..|dec|] == dec;
    Decimal.ParseIntToString(n);
    assert body[|dec| + 1..] == " " + t;
    assert (" " + t)[1..] == t;
  }

  lemma ParseCsvSave(depth: string, on: bool)
    ensures ParseCsvTail(depth + ",SAVE," + OnOff(on)) == Some(CsvSave(depth, on))
  {
    var rest := depth + ",SAVE," + OnOff(on);
    if on {
      assert rest == depth + ",SAVE,ON";
      StripSuffixOwn(depth, ",SAVE,ON");
    } else {
      assert rest == depth + ",SAVE,OFF";
      assert rest[|rest| - 1] == 'F';
      assert StripSuffix(rest, ",SAVE,ON").None?;
      StripSuffixOwn(depth, ",SAVE,OFF");
    }
  }

  /** Every command the session writes decodes back to itself, so the
      write log determines which instrument commands were issued. */
  lemma ParseRender(c: Command)
    ensures Parse(Render(c)) == Some(c)
  {
    match c
    case Coupling(n, mode) => ParseRenderChannel(c);
    case Trace(n, on) => ParseRenderChannel(c);
    case Waveform(n, section) => ParseRenderChannel(c);
    case TimeDiv(value) => ParseRenderArgument(c);
    case CsvSave(depth, on) => ParseRenderArgument(c);
    case SetIp(ip) => ParseRenderArgument(c);
    case SetMask(mask) => ParseRenderArgument(c);
    case SetGate(gate) => ParseRenderArgument(c);
    case Buzz(on) =>
      assert Render(c)[4] == ' ';
    case _ =>
  }

  lemma ParseRenderChannel(c: Command)
    requires c.Coupling? || c.Trace? || c.Waveform?
    ensures Parse(Render(c)) == Some(c)
  {
    match c
    case Coupling(n, mode) => ParseRenderCoupling(n, mode);
    case Trace(n, on) => ParseRenderTrace(n, on);
    case Waveform(n, section) => ParseRenderWaveform(n, section);
  }

  lemma ParseRenderCoupling(n: int, mode: string)
    ensures Parse(Render(Coupling(n, mode))) == Some(Coupling(n, mode))
  {
    ChannelRendered(n, "CPL " + mode);
    ParseCouplingTail(n, mode);
  }

  lemma ParseRenderTrace(n: int, on: bool)
    ensures Parse(Render(Trace(n, on))) == Some(Trace(n, on))
  {
    var t := if on then "TRA ON" else "TRA OFF";
    assert Render(Trace(n, on)) == ChannelPrefix(n) + t;
    assert ParseChannelTail(n, t) == Some(Trace(n, on));
    ChannelRendered(n, t);
  }

  lemma ParseRenderWaveform(n: int, section: string)
    ensures Parse(Render(Waveform(n, section))) == Some(Waveform(n, section))
  {
    ChannelRendered(n, "WF? " + section);
    ParseWaveformTail(n, section);
  }

  lemma ParseCouplingTail(n: int, mode: string)
    ensures ParseChannelTail(n, "CPL " + mode) == Some(Coupling(n, mode))
  {
    var t := "CPL " + mode;
    assert t[0] == 'C';
    StripOwn("CPL ", mode);
  }

  lemma ParseWaveformTail(n: int, section: string)
    ensures ParseChannelTail(n, "WF? " + section) == Some(Waveform(n, section))
  {
    var t := "WF? " + section;
    assert t[0] == 'W';
    assert Strip("CPL ", t).None?;
    StripOwn("WF? ", section);
  }

  lemma ParseRenderArgument(c: Command)
    requires c.TimeDiv? || c.CsvSave? || c.SetIp? || c.SetMask? || c.SetGate?
    ensures Parse(Render(c)) == Some(c)
  {
    var s := Render(c);
    match c
    case TimeDiv(value) =>
      StripOwn("TDIV ", value);
    case CsvSave(depth, on) =>
      ParseRenderCsv(depth, on);
    case SetIp(ip) =>
      assert s[6] == ' ';
      StripOwn("IPaddr ", ip);
    case SetMask(mask) =>
      assert s[8] == ' ';
      StripOwn("MASKaddr ", mask);
    case SetGate(gate) =>
      assert s[8] == ' ';
      StripOwn("GATEaddr ", gate);
  }

  lemma ParseRenderCsv(depth: string, on: bool)
    ensures Parse(Render(CsvSave(depth, on))) == Some(CsvSave(depth, on))
  {
    var s := Render(CsvSave(depth, on));
    assert s == "CSV_SAVE DD," + (depth + ",SAVE," + OnOff(on));
    StripOwn("CSV_SAVE DD,", depth + ",SAVE," + OnOff(on));
    ParseCsvSave(depth, on);
  }

  /** A per-channel command is not mistaken for `CSV_SAVE` and decodes
      through its channel number. */
  lemma ChannelRendered(n: int, t: string)
    ensures Parse(ChannelPrefix(n) + t) == ParseChannelTail(n, t)
  {
    var dec := Decimal.IntToString(n);
    var s := ChannelPrefix(n) + t;
    assert s == "C" + (dec + ": " + t);
    assert s[0] == 'C';
    assert s[1] == dec[0];
    assert s[1] != 'S' by {
      assert Decimal.IsDigit(dec[0]) || dec[0] == '-';
    }
    assert !("CSV_SAVE DD," <= s) by {
      assert "CSV_SAVE DD,"[1] == 'S';
    }
    assert s[1..] == dec + ": " + t;
    ParseChannelPrefix(n, t);
  }
}
