/** Properties of the session that relate several operations: what a
    query returns, how an over-long reply spills into the next query,
    which operations read replies or run the error check, and worked
    examples on sample replies. */
module Protocol {
  import opened Wrappers
  import opened Transport
  import opened Replies
  import opened Session
  import Decimal
  import Commands
  import Text

  /** A reply that fits the default bound is returned whole and removed. */
  lemma AnswerIsWholeReply(s: Scpi, cmd: string, r: Outcome<string>)
    requires Answers(s, cmd, r)
    requires s.link == Connected && s.pending != [] && |s.pending[0]| <= DefaultRecvSize
    ensures r == Done(s.(writes := s.writes + Frames([cmd]), pending := s.pending[1..]), s.pending[0])
  {
    DeliveredWhole(s.pending, DefaultRecvSize, r.value, r.scpi.pending);
  }

  /** There is no second read: when a waveform reply is longer than the
      bound, the next query returns the waveform's continuation instead of
      its own answer. */
  lemma LongWaveformSpillsIntoNextQuery(s: Scpi, channel: int, section: string)
    requires s.link == Connected && s.pending != [] && |s.pending[0]| > DefaultRecvSize
    ensures GetWaveform(s, channel, section).Done?
    ensures var w := GetWaveform(s, channel, section);
      && w.value == s.pending[0][..DefaultRecvSize]
      && CheckVersion(w.scpi).Done?
      && CheckVersion(w.scpi).value == NextReply([s.pending[0][DefaultRecvSize..]])
  {
  }

  /** An operation of the session together with its arguments. */
  datatype Op =
    | XyDisplayOp(state: bool)
    | BuzzOp(state: bool)
    | CouplingOp(channel: int, mode: string)
    | TimeDivOp(value: string)
    | ToCsvOp(depth: string, save: bool)
    | DisplayChannelOp(channel: int, state: bool)
    | GetWaveformOp(channel: int, section: string)
    | CalibrateOp
    | GetDatetimeOp
    | ChangeDatetimeOp(date: DateTime)
    | CheckErrorOp
    | CheckVersionOp
    | CheckStatusOp
    | AssignIpOp(ip: string)
    | QueryIpOp
    | AssignMaskOp(mask: string)
    | QueryMaskOp
    | AssignGateOp(gate: string)
    | DhcpOp(state: bool)
    | QueryDhcpOp
    | CloseOp

  /** The transport state an operation leaves and whether it returned. */
  datatype Effect = Effect(scpi: Scpi, returned: bool)

  function EffectOf<T>(o: Outcome<T>): Effect
  {
    Effect(o.scpi, o.Done?)
  }

  function Run(s: Scpi, op: Op): Effect
  {
    match op
    case XyDisplayOp(state) => EffectOf(XyDisplay(s, state))
    case BuzzOp(state) => EffectOf(Buzz(s, state))
    case CouplingOp(channel, mode) => EffectOf(CouplingMode(s, channel, mode))
    case TimeDivOp(value) => EffectOf(TimeDiv(s, value))
    case ToCsvOp(depth, save) => EffectOf(ToCsv(s, depth, save))
    case DisplayChannelOp(channel, state) => EffectOf(DisplayChannel(s, channel, state))
    case GetWaveformOp(channel, section) => EffectOf(GetWaveform(s, channel, section))
    case CalibrateOp => EffectOf(PerformInternalCalibration(s))
    case GetDatetimeOp => EffectOf(GetDatetime(s))
    case ChangeDatetimeOp(date) => EffectOf(ChangeDatetime(s, date))
    case CheckErrorOp => EffectOf(CheckError(s))
    case CheckVersionOp => EffectOf(CheckVersion(s))
    case CheckStatusOp => EffectOf(CheckStatus(s))
    case AssignIpOp(ip) => EffectOf(AssignIpAddr(s, ip))
    case QueryIpOp => EffectOf(QueryIpAddr(s))
    case AssignMaskOp(mask) => EffectOf(AssignSubnetMask(s, mask))
    case QueryMaskOp => EffectOf(QuerySubnetMask(s))
    case AssignGateOp(gate) => EffectOf(AssignGateAddress(s, gate))
    case DhcpOp(state) => EffectOf(SetDhcp(s, state))
    case QueryDhcpOp => EffectOf(QueryDhcp(s))
    case CloseOp => EffectOf(CloseSession(s))
  }

  /** Operations that read exactly one reply: the queries, `buzz`, and
      everything that runs the error check. */
  predicate ReadsReply(op: Op)
  {
    op.BuzzOp? || op.GetWaveformOp? || op.GetDatetimeOp? || op.CheckErrorOp?
    || op.CheckVersionOp? || op.CheckStatusOp? || op.QueryIpOp? || op.QueryMaskOp?
    || op.QueryDhcpOp? || RunsErrorCheck(op)
  }

  /** Operations that write `SYSTem:ERRor?` after their own command. */
  predicate RunsErrorCheck(op: Op)
  {
    op.AssignIpOp? || op.AssignMaskOp? || op.AssignGateOp?
  }

  /** Operations that write nothing at all. */
  predicate WritesNothing(op: Op)
  {
    op.ChangeDatetimeOp? || op.CloseOp? || (op.CouplingOp? && op.mode !in CouplingModes)
  }

  /** On a connected transport whose next reply fits the read bound: an
      operation consumes that reply exactly when it is a query, `buzz` or
      an error-checked assignment; only the assignments end with the error
      query, and apart from `check_error` no other operation writes it;
      and nothing else touches the queue of replies. */
  lemma ReadsAndChecks(s: Scpi, op: Op)
    requires s.link == Connected && s.pending != [] && |s.pending[0]| <= DefaultRecvSize
    ensures ReadsReply(op) ==> Run(s, op).scpi.pending == s.pending[1..]
    ensures !ReadsReply(op) ==> Run(s, op).scpi.pending == s.pending
    ensures RunsErrorCheck(op) ==>
      Run(s, op).scpi.writes == s.writes + Frames([Run(s, op).scpi.writes[|s.writes|], "SYSTem:ERRor?"])
    ensures !RunsErrorCheck(op) && !op.CheckErrorOp? ==> NoErrorQuery(s.writes, Run(s, op).scpi.writes)
    ensures WritesNothing(op) ==> Run(s, op).scpi.writes == s.writes
    ensures !WritesNothing(op) ==> |Run(s, op).scpi.writes| > |s.writes|
  {
    if !RunsErrorCheck(op) && !op.CheckErrorOp? {
      OnlyChecksWriteErrorQuery(s, op);
    }
    if ReadsReply(op) {
      if RunsErrorCheck(op) {
        CheckingOpsReadOne(s, op);
      } else {
        QueryOpsReadOne(s, op);
      }
    } else {
      OtherOpsReadNothing(s, op);
    }
  }

  lemma QueryOpsReadOne(s: Scpi, op: Op)
    requires s.link == Connected && s.pending != [] && |s.pending[0]| <= DefaultRecvSize
    requires ReadsReply(op) && !RunsErrorCheck(op)
    ensures Run(s, op).scpi.pending == s.pending[1..]
    ensures !WritesNothing(op) && |Run(s, op).scpi.writes| > |s.writes|
  {
  }

  lemma CheckingOpsReadOne(s: Scpi, op: Op)
    requires s.link == Connected && s.pending != [] && |s.pending[0]| <= DefaultRecvSize
    requires RunsErrorCheck(op)
    ensures Run(s, op).scpi.pending == s.pending[1..]
    ensures Run(s, op).scpi.writes == s.writes + Frames([Run(s, op).scpi.writes[|s.writes|], "SYSTem:ERRor?"])
    ensures !WritesNothing(op) && |Run(s, op).scpi.writes| > |s.writes|
  {
  }

  lemma OtherOpsReadNothing(s: Scpi, op: Op)
    requires s.link == Connected
    requires !ReadsReply(op)
    ensures Run(s, op).scpi.pending == s.pending
    ensures WritesNothing(op) ==> Run(s, op).scpi.writes == s.writes
    ensures !WritesNothing(op) ==> |Run(s, op).scpi.writes| > |s.writes|
  {
  }

  /** The write log decodes into whole commands, and `after` keeps every
      command of `before` in place, possibly followed by more. */
  ghost predicate LogGrows(before: seq<string>, after: seq<string>)
  {
    && Unframe(before).Some?
    && Unframe(after).Some?
    && Unframe(before).value <= Unframe(after).value
  }

  lemma FramedOnto(w: seq<string>, cmds: seq<string>)
    requires Unframe(w).Some?
    ensures LogGrows(w, w + Frames(cmds))
  {
    UnframeAppend(w, cmds);
  }

  lemma PostsGrowsLog(s: Scpi, cmd: string, r: Outcome<()>)
    requires Posts(s, cmd, r) && Unframe(s.writes).Some?
    ensures LogGrows(s.writes, r.scpi.writes)
  {
    FramedOnto(s.writes, if s.link == Connected then [cmd] else []);
  }

  lemma AnswersGrowsLog(s: Scpi, cmd: string, r: Outcome<string>)
    requires Answers(s, cmd, r) && Unframe(s.writes).Some?
    ensures LogGrows(s.writes, r.scpi.writes)
  {
    FramedOnto(s.writes, if s.link == Connected then [cmd] else []);
  }

  lemma CheckedGrowsLog(s: Scpi, cmd: string, r: Outcome<()>)
    requires ErrorChecked(s, [cmd], r) && Unframe(s.writes).Some?
    ensures LogGrows(s.writes, r.scpi.writes)
  {
    FramedOnto(s.writes, if s.link == Connected then [cmd, "SYSTem:ERRor?"] else []);
  }

  /** Every operation keeps the write log a sequence of newline-framed
      commands and only ever appends to it: no operation leaves half a
      command on the wire or rewrites what was already sent. */
  lemma OperationsKeepLogFramed(s: Scpi, op: Op)
    requires Unframe(s.writes).Some?
    ensures LogGrows(s.writes, Run(s, op).scpi.writes)
  {
    if op.GetWaveformOp? || op.GetDatetimeOp? || op.CheckVersionOp? || op.CheckStatusOp?
       || op.QueryIpOp? || op.QueryMaskOp? || op.QueryDhcpOp? {
      QueriesKeepLogFramed(s, op);
    } else if op.XyDisplayOp? || op.CouplingOp? || op.TimeDivOp? || op.ToCsvOp?
       || op.DisplayChannelOp? || op.CalibrateOp? || op.DhcpOp? {
      SettingsKeepLogFramed(s, op);
    } else {
      OthersKeepLogFramed(s, op);
    }
  }

  lemma QueriesKeepLogFramed(s: Scpi, op: Op)
    requires Unframe(s.writes).Some?
    requires op.GetWaveformOp? || op.GetDatetimeOp? || op.CheckVersionOp? || op.CheckStatusOp?
       || op.QueryIpOp? || op.QueryMaskOp? || op.QueryDhcpOp?
    ensures LogGrows(s.writes, Run(s, op).scpi.writes)
  {
    match op
    case GetWaveformOp(channel, section) =>
      AnswersGrowsLog(s, "C" + Decimal.IntToString(channel) + ": WF? " + section, GetWaveform(s, channel, section));
    case GetDatetimeOp => AnswersGrowsLog(s, "DATE?", GetDatetime(s));
    case CheckVersionOp => AnswersGrowsLog(s, "SYSTem:VERSion?", CheckVersion(s));
    case CheckStatusOp => AnswersGrowsLog(s, "SYSTem:STATus?", CheckStatus(s));
    case QueryIpOp => AnswersGrowsLog(s, "IPaddr?", QueryIpAddr(s));
    case QueryMaskOp => AnswersGrowsLog(s, "GATEaddr?", QuerySubnetMask(s));
    case QueryDhcpOp => AnswersGrowsLog(s, "DHCP?", QueryDhcp(s));
  }

  lemma SettingsKeepLogFramed(s: Scpi, op: Op)
    requires Unframe(s.writes).Some?
    requires op.XyDisplayOp? || op.CouplingOp? || op.TimeDivOp? || op.ToCsvOp?
       || op.DisplayChannelOp? || op.CalibrateOp? || op.DhcpOp?
    ensures LogGrows(s.writes, Run(s, op).scpi.writes)
  {
    match op
    case XyDisplayOp(state) => PostsGrowsLog(s, if state then "XY_DISPLAY ON" else "XY_DISPLAY OFF", XyDisplay(s, state));
    case CouplingOp(channel, mode) =>
      if mode !in CouplingModes {
        FramedOnto(s.writes, []);
      } else if mode == "AC" {
        PostsGrowsLog(s, "C" + Decimal.IntToString(channel) + ": CPL " + "A1M", CouplingMode(s, channel, mode));
      } else if mode == "DC" {
        PostsGrowsLog(s, "C" + Decimal.IntToString(channel) + ": CPL " + "D1M", CouplingMode(s, channel, mode));
      } else {
        PostsGrowsLog(s, "C" + Decimal.IntToString(channel) + ": CPL " + mode, CouplingMode(s, channel, mode));
      }
    case TimeDivOp(value) => PostsGrowsLog(s, "TDIV " + value, TimeDiv(s, value));
    case ToCsvOp(depth, save) =>
      PostsGrowsLog(s, "CSV_SAVE DD," + depth + (if save then ",SAVE,OFF" else ",SAVE,ON"), ToCsv(s, depth, save));
    case DisplayChannelOp(channel, state) =>
      PostsGrowsLog(s, "C" + Decimal.IntToString(channel) + (if state then ": TRA ON" else ": TRA OFF"),
                    DisplayChannel(s, channel, state));
    case CalibrateOp => PostsGrowsLog(s, "*CAL?", PerformInternalCalibration(s));
    case DhcpOp(state) => PostsGrowsLog(s, if state then "DHCP ON" else "DHCP OFF", SetDhcp(s, state));
  }

  lemma OthersKeepLogFramed(s: Scpi, op: Op)
    requires Unframe(s.writes).Some?
    requires op.BuzzOp? || op.ChangeDatetimeOp? || op.CheckErrorOp? || op.AssignIpOp?
       || op.AssignMaskOp? || op.AssignGateOp? || op.CloseOp?
    ensures LogGrows(s.writes, Run(s, op).scpi.writes)
  {
    match op
    case BuzzOp(state) =>
      var queries := if s.link != Connected then []
        else if s.pending == [] then ["BUZZER?"]
        else ["BUZZER?", if state then "BUZZ ON" else "BUZZ OFF"];
      FramedOnto(s.writes, queries);
    case ChangeDatetimeOp(_) => FramedOnto(s.writes, []);
    case CheckErrorOp => FramedOnto(s.writes, if s.link == Connected then ["SYSTem:ERRor?"] else []);
    case AssignIpOp(ip) => CheckedGrowsLog(s, "IPaddr " + ip, AssignIpAddr(s, ip));
    case AssignMaskOp(mask) => CheckedGrowsLog(s, "MASKaddr " + mask, AssignSubnetMask(s, mask));
    case AssignGateOp(gate) => CheckedGrowsLog(s, "GATEaddr " + gate, AssignGateAddress(s, gate));
    case CloseOp => FramedOnto(s.writes, []);
  }

  /** No write made after `before` is the error query. */
  ghost predicate NoErrorQuery(before: seq<string>, after: seq<string>)
  {
    forall k | |before| <= k < |after| :: after[k] != "SYSTem:ERRor?"
  }

  lemma FramedWithoutErrorQuery(w: seq<string>, cmds: seq<string>)
    requires forall i | 0 <= i < |cmds| :: cmds[i] != "SYSTem:ERRor?"
    ensures NoErrorQuery(w, w + Frames(cmds))
  {
    forall k | |w| <= k < |w + Frames(cmds)|
      ensures (w + Frames(cmds))[k] != "SYSTem:ERRor?"
    {
      var j := k - |w|;
      var i := j / 2;
      assert j == 2 * i || j == 2 * i + 1;
      assert i < |cmds|;
      FramesAt(cmds, i);
      assert (w + Frames(cmds))[k] == Frames(cmds)[j];
      if j == 2 * i {
        assert Frames(cmds)[j] == cmds[i];
      } else {
        assert Frames(cmds)[j] == Newline;
      }
    }
  }

  lemma PostsNoErrorQuery(s: Scpi, cmd: string, r: Outcome<()>)
    requires Posts(s, cmd, r) && cmd != "SYSTem:ERRor?"
    ensures NoErrorQuery(s.writes, r.scpi.writes)
  {
    FramedWithoutErrorQuery(s.writes, if s.link == Connected then [cmd] else []);
  }

  lemma AnswersNoErrorQuery(s: Scpi, cmd: string, r: Outcome<string>)
    requires Answers(s, cmd, r) && cmd != "SYSTem:ERRor?"
    ensures NoErrorQuery(s.writes, r.scpi.writes)
  {
    FramedWithoutErrorQuery(s.writes, if s.link == Connected then [cmd] else []);
  }

  /** Only `check_error` and the three error-checked assignments write the
      error query: every other operation, whatever its arguments and
      however it ends, writes something else or nothing. */
  lemma OnlyChecksWriteErrorQuery(s: Scpi, op: Op)
    requires !RunsErrorCheck(op) && !op.CheckErrorOp?
    ensures NoErrorQuery(s.writes, Run(s, op).scpi.writes)
  {
    if op.GetWaveformOp? || op.GetDatetimeOp? || op.CheckVersionOp? || op.CheckStatusOp?
       || op.QueryIpOp? || op.QueryMaskOp? || op.QueryDhcpOp? {
      QueriesWriteNoErrorQuery(s, op);
    } else {
      SettingsWriteNoErrorQuery(s, op);
    }
  }

  lemma QueriesWriteNoErrorQuery(s: Scpi, op: Op)
    requires op.GetWaveformOp? || op.GetDatetimeOp? || op.CheckVersionOp? || op.CheckStatusOp?
       || op.QueryIpOp? || op.QueryMaskOp? || op.QueryDhcpOp?
    ensures NoErrorQuery(s.writes, Run(s, op).scpi.writes)
  {
    match op
    case GetWaveformOp(channel, section) =>
      var cmd := "C" + Decimal.IntToString(channel) + ": WF? " + section;
      assert cmd[0] == 'C';
      AnswersNoErrorQuery(s, cmd, GetWaveform(s, channel, section));
    case GetDatetimeOp => AnswersNoErrorQuery(s, "DATE?", GetDatetime(s));
    case CheckVersionOp => AnswersNoErrorQuery(s, "SYSTem:VERSion?", CheckVersion(s));
    case CheckStatusOp => AnswersNoErrorQuery(s, "SYSTem:STATus?", CheckStatus(s));
    case QueryIpOp => AnswersNoErrorQuery(s, "IPaddr?", QueryIpAddr(s));
    case QueryMaskOp => AnswersNoErrorQuery(s, "GATEaddr?", QuerySubnetMask(s));
    case QueryDhcpOp => AnswersNoErrorQuery(s, "DHCP?", QueryDhcp(s));
  }

  lemma SettingsWriteNoErrorQuery(s: Scpi, op: Op)
    requires op.XyDisplayOp? || op.BuzzOp? || op.CouplingOp? || op.TimeDivOp? || op.ToCsvOp?
       || op.DisplayChannelOp? || op.CalibrateOp? || op.ChangeDatetimeOp? || op.DhcpOp? || op.CloseOp?
    ensures NoErrorQuery(s.writes, Run(s, op).scpi.writes)
  {
    match op
    case XyDisplayOp(state) => PostsNoErrorQuery(s, if state then "XY_DISPLAY ON" else "XY_DISPLAY OFF", XyDisplay(s, state));
    case BuzzOp(state) =>
      FramedWithoutErrorQuery(s.writes,
        if s.link != Connected then []
        else if s.pending == [] then ["BUZZER?"]
        else ["BUZZER?", if state then "BUZZ ON" else "BUZZ OFF"]);
    case CouplingOp(channel, mode) =>
      var prefix := "C" + Decimal.IntToString(channel) + ": CPL ";
      assert prefix[0] == 'C';
      if mode !in CouplingModes {
        FramedWithoutErrorQuery(s.writes, []);
      } else if mode == "AC" {
        assert (prefix + "A1M")[0] == 'C';
        PostsNoErrorQuery(s, prefix + "A1M", CouplingMode(s, channel, mode));
      } else if mode == "DC" {
        assert (prefix + "D1M")[0] == 'C';
        PostsNoErrorQuery(s, prefix + "D1M", CouplingMode(s, channel, mode));
      } else {
        assert (prefix + mode)[0] == 'C';
        PostsNoErrorQuery(s, prefix + mode, CouplingMode(s, channel, mode));
      }
    case TimeDivOp(value) =>
      assert ("TDIV " + value)[0] == 'T';
      PostsNoErrorQuery(s, "TDIV " + value, TimeDiv(s, value));
    case ToCsvOp(depth, save) =>
      var cmd := "CSV_SAVE DD," + depth + (if save then ",SAVE,OFF" else ",SAVE,ON");
      assert cmd[0] == 'C';
      PostsNoErrorQuery(s, cmd, ToCsv(s, depth, save));
    case DisplayChannelOp(channel, state) =>
      var cmd := "C" + Decimal.IntToString(channel) + (if state then ": TRA ON" else ": TRA OFF");
      assert cmd[0] == 'C';
      PostsNoErrorQuery(s, cmd, DisplayChannel(s, channel, state));
    case CalibrateOp => PostsNoErrorQuery(s, "*CAL?", PerformInternalCalibration(s));
    case ChangeDatetimeOp(_) => FramedWithoutErrorQuery(s.writes, []);
    case DhcpOp(state) => PostsNoErrorQuery(s, if state then "DHCP ON" else "DHCP OFF", SetDhcp(s, state));
    case CloseOp => FramedWithoutErrorQuery(s.writes, []);
  }

  /** End to end: commands whose arguments are single lines come back out
      of the byte stream the transport writes, cut at its newlines, and
      each piece decodes to the command that produced it. */
  lemma CommandsSurviveTheWire(cs: seq<Commands.Command>, cmds: seq<string>)
    requires |cmds| == |cs|
    requires forall i | 0 <= i < |cs| :: cmds[i] == Commands.Render(cs[i]) && Commands.ArgumentsLineFree(cs[i])
    ensures Text.Split(Concat(Frames(cmds)), Newline) == cmds + [""]
    ensures forall i | 0 <= i < |cs| :: Commands.Parse(Text.Split(Concat(Frames(cmds)), Newline)[i]) == Some(cs[i])
  {
    forall i, k | 0 <= i < |cmds| && 0 <= k < |cmds[i]|
      ensures cmds[i][k] != '\n'
    {
      Commands.RenderLineFree(cs[i]);
      assert cmds[i][k] in cmds[i];
    }
    WireSplitsIntoCommands(cmds);
    forall i | 0 <= i < |cs|
      ensures Commands.Parse(Text.Split(Concat(Frames(cmds)), Newline)[i]) == Some(cs[i])
    {
      Commands.ParseRender(cs[i]);
    }
  }

  /** The modes the instrument itself names; `AC` and `DC` are accepted
      only as aliases for the first two. */
  const CanonicalCouplingModes: seq<string> := CouplingModes[..5]

  /** What `coupling_mode` writes decodes as a coupling command for the
      same channel, and its mode is always one the instrument names: an
      alias never reaches the wire. */
  lemma CouplingWritesCanonicalMode(s: Scpi, channel: int, mode: string)
    requires s.link == Connected && mode in CouplingModes
    ensures var r := CouplingMode(s, channel, mode);
      && r.Done?
      && |r.scpi.writes| == |s.writes| + 2
      && r.scpi.writes[|s.writes| + 1] == Newline
      && Commands.Parse(r.scpi.writes[|s.writes|]).Some?
      && var c := Commands.Parse(r.scpi.writes[|s.writes|]).value;
      && c.Coupling? && c.channel == channel
      && c.mode in CanonicalCouplingModes
      && (mode in CanonicalCouplingModes ==> c.mode == mode)
      && (mode == "AC" ==> c.mode == "A1M")
      && (mode == "DC" ==> c.mode == "D1M")
  {
    var m := if mode == "AC" then "A1M" else if mode == "DC" then "D1M" else mode;
    var cmd := Commands.Coupling(channel, m);
    assert Commands.Render(cmd) == "C" + Decimal.IntToString(channel) + ": CPL " + m;
    assert Frames([Commands.Render(cmd)]) == [Commands.Render(cmd), Newline];
    var r := CouplingMode(s, channel, mode);
    assert r == Done(s.(writes := s.writes + [Commands.Render(cmd), Newline]), ());
    Commands.ParseRender(cmd);
    assert CanonicalCouplingModes == ["A1M", "D1M", "D50", "A50", "GND"];
  }

  /** A waveform request on channel 4 that leaves `section` at its default. */
  lemma WaveformDefaultCommand(s: Scpi)
    requires s.link == Connected
    ensures GetWaveform(s, 4, DefaultSection).scpi.writes == s.writes + ["C4: WF? ALL", "\n"]
  {
    assert Decimal.IntToString(4) == "4";
    assert "C" + "4" + ": WF? " + DefaultSection == "C4: WF? ALL";
    assert Frames(["C4: WF? ALL"]) == ["C4: WF? ALL", "\n"];
  }

  /** `to_csv()` with its defaults writes `SAVE,ON`. */
  lemma ToCsvDefaultCommand(s: Scpi)
    requires s.link == Connected
    ensures ToCsv(s, DefaultDepth, false).scpi.writes == s.writes + ["CSV_SAVE DD,MAX,SAVE,ON", "\n"]
  {
    assert "CSV_SAVE DD," + DefaultDepth + ",SAVE,ON" == "CSV_SAVE DD,MAX,SAVE,ON";
    assert Frames(["CSV_SAVE DD,MAX,SAVE,ON"]) == ["CSV_SAVE DD,MAX,SAVE,ON", "\n"];
  }

  /** The error check on the example reply `0  `: it returns false after
      writing the error query and consuming the reply. */
  lemma CheckErrorCleanExample(s: Scpi)
    requires s.link == Connected
    ensures CheckError(s.(pending := ["0  "])) == Done(s.(writes := s.writes + ["SYSTem:ERRor?", "\n"], pending := []), false)
  {
  }

  /** The error check on the example reply `201  Invalid command`: it ends
      in the failed lookup of the undefined exception class rather than in
      an exception carrying code and message. */
  lemma CheckErrorReportedExample(s: Scpi)
    requires s.link == Connected
    ensures var r := CheckError(s.(pending := ["201  Invalid command\n"]));
      r.Raised? && r.fault == AttributeError("SPD3303Exception")
  {
    ParseErrorExamples();
    CheckErrorOnReport(s, "201  Invalid command\n");
  }

  /** A register holding a code and a message makes the error check fail
      on the undefined exception class. */
  lemma CheckErrorOnReport(s: Scpi, reply: string)
    requires s.link == Connected && |reply| <= DefaultRecvSize
    requires ParseErrorReply(reply).Reported?
    ensures var r := CheckError(s.(pending := [reply]));
      r.Raised? && r.fault == AttributeError("SPD3303Exception")
  {
    assert NextReply([reply]) == reply;
  }

  /** Construction against an example identity reply. */
  lemma InitExample(host: string, now: DateTime)
    ensures var r := Init(host, true, ["Siglent,SDS1104,SN123,1.0\n"], now);
      && r.Done?
      && r.value == Identity("Siglent", "SDS1104", "SN123", "1.0\n")
      && r.scpi.writes == ["*IDN?", "\n"]
      && r.scpi.pending == []
  {
    ParseIdentityExample();
    var reply := "Siglent,SDS1104,SN123,1.0\n";
    var r := Init(host, true, [reply], now);
    assert NextReply([reply]) == reply;
    DeliveredWhole([reply], DefaultRecvSize, reply, r.scpi.pending);
  }
}
