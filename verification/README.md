# SDS1104X-E session model

A Dafny model of the Python client that drives a Siglent SDS1104X-E
oscilloscope over SCPI (Standard Commands for Programmable Instruments) on
TCP port 5025. It covers the two classes of the library:

- `SCPI` (SCPI.py): the transport. It is modelled as a trace. `writes` logs every
  socket write in order. `pending` holds the instrument's replies, oldest first.
  The link is `Unconnected`, `Connected` or `Closed`.
- `SDS1104` (SDS1104.py): the session. Every method is a pure function from the
  transport state and its arguments to an `Outcome`. An outcome is either `Done`
  (the new state and the method's result) or `Raised` (the state at the moment of
  the exception, and the exception).

Files and modules:

| file | module | contents |
|---|---|---|
| wrappers.dfy | `Wrappers` | `Option`, `Result` |
| text.dfy | `Text` | Python `str.split(sep)`, `sep.join`, `s[:-1]`, and their laws |
| decimal.dfy | `Decimal` | Python `str(int)` and the numeral parser that inverts it |
| transport.dfy | `Transport` | `SCPI`: connect, framed send, bounded recv, close |
| commands.dfy | `Commands` | the command vocabulary, its wire text, and a decoder for it |
| replies.dfy | `Replies` | the `*IDN?` parser, the error-register parser, the month table |
| session.dfy | `Session` | every `SDS1104` method and the constructor |
| protocol.dfy | `Protocol` | properties that span several operations, and worked examples on sample replies |

The identity reply follows the `*IDN?` response of IEEE 488.2, section 10.14:
four comma-separated fields (manufacturer, model, serial number, firmware
version).

The code's behaviour is kept as written, including where it is evidently not
what was meant:

- `check_error` with a non-zero code never returns normally. It drops the last
  character of the message and then looks up `self.SPD3303Exception`, which the
  class does not define. The result is an `AttributeError`, not an exception
  carrying the code and message. A reply with no two-space separator fails
  earlier, with an index fault. The comments at SDS1104.py:186 and 188 say the
  newline is removed and an exception carrying the code and message is raised.
  The model follows the code.
- `query_subnet_mask` is defined twice. The second definition replaces the first,
  so the method writes `GATEaddr?`.
- `change_datetime` works out the month token but writes nothing: the line that
  would send `DATE ...` is commented out. Construction therefore writes only
  `*IDN?`.
- `to_csv(save=True)` writes `SAVE,OFF`, and `save=False` writes `SAVE,ON`.
- `buzz` reads the `BUZZER?` reply and throws it away.
- `preform_internal_calibration` writes `*CAL?` and never reads the reply.
- Only `assign_ip_addr`, `assign_subnet_mask` and `assign_gate_address` run the
  error check after writing.
- A message that itself holds two spaces is cut at them (`Replies.ErrorMessageCutAtSeparator`).

`recv(size)` makes one read of at most `size` bytes (2048 by default). Each element of the
reply queue stands for what one read can deliver. A reply no longer than the bound is
returned whole. A longer one is cut at the bound, and its unread tail stays first
in line, so the next query receives it (`Protocol.LongWaveformSpillsIntoNextQuery`).

## Model

| member | source | states |
|---|---|---|
| Text.Find | SDS1104.py:182 | finds the leftmost occurrence of the separator, and says whether there is none |
| Text.Split | SDS1104.py:34 | `split(sep)` always returns at least one field |
| Text.SplitFirstField | SDS1104.py:182 | `split(sep)` cuts at the leftmost occurrence: the first field ends where `sep` first occurs, the rest is the split of what follows it, and the result is the text alone exactly when `sep` does not occur |
| Text.SplitTwoFields | SDS1104.py:182-187 | when `sep` occurs, the second field is the text between its leftmost occurrence and the next one (or the end) |
| Text.JoinSplit | SDS1104.py:182 | joining the fields of `split(sep)` with `sep` gives back the original text |
| Text.SplitFieldsFree | SDS1104.py:182 | no field returned by `split(sep)` contains the separator |
| Text.SplitJoin | SDS1104.py:34 | splitting on one character undoes joining fields that do not contain it |
| Text.SplitCount | SDS1104.py:34 | `split(c)` returns one more field than there are occurrences of `c` |
| Text.DropLast | SDS1104.py:187 | `s[:-1]` removes exactly the last character, and leaves an empty string empty |
| Decimal.NatToString | SDS1104.py:83 | the digits of a non-negative channel are all decimal digits, start with `0` exactly when the value is 0, and have no leading zero otherwise |
| Decimal.IntToString | SDS1104.py:83 | `str(channel)` is a non-empty numeral of digits with an optional leading minus, starts with a digit exactly when the value is non-negative, and has no leading zero except in `0` itself |
| Decimal.ParseIntToString | SDS1104.py:83 | the channel numeral reads back as the channel number |
| Decimal.IntToStringInjective | SDS1104.py:83 | distinct channel numbers print as distinct numerals |
| Transport.Connect | SCPI.py:10-18 | opening never raises; the link is connected exactly when the host is reachable, and the log starts empty |
| Transport.Frames | SCPI.py:24-26 | every command costs two writes on the socket, so the log holds twice as many writes as commands |
| Transport.Send | SCPI.py:20-26 | succeeds exactly on a connected link and appends the payload and then a separate lone newline; otherwise it fails with the link's fault and writes nothing |
| Transport.FramesAt | SCPI.py:24-26 | in the write log, payload `i` is at position `2i` and a newline-only write follows it |
| Transport.UnframeFrames | SCPI.py:24-26 | the write log determines the sequence of commands that produced it |
| Transport.UnframeAppend | SCPI.py:20-26 | sending more commands onto a log that decodes into whole commands extends what it decodes to, leaving the earlier commands in place |
| Transport.WireSplitsIntoCommands | SCPI.py:24-26 | cutting the byte stream at newlines gives back each command, as long as no command contains a newline |
| Transport.Recv | SCPI.py:28-33 | negative size, unusable link and empty queue each fail; otherwise one read returns at most `size` bytes, and the bytes returned plus the bytes left equal the bytes that were pending |
| Transport.DeliveredWhole | SCPI.py:28-33 | a reply no longer than the bound is returned whole and removed from the queue |
| Transport.DeliveredCut | SCPI.py:28-33 | a longer reply is cut at the bound, and its tail stays first in the queue |
| Transport.Close | SCPI.py:36-41 | close moves any state to closed and keeps the log and the queue |
| Transport.ClosedRefusesTraffic | SCPI.py:36-41 | closing is idempotent, and after close every send and recv fails with a bad-descriptor fault |
| Commands.Render | SDS1104.py:48-262 | the text of every command the wrappers format is non-empty; `ParseRender` shows that it determines the command and its arguments |
| Commands.RenderLineFree | SDS1104.py:48-262 | the formatted command adds no newline of its own, so it is one line whenever the caller's arguments are |
| Commands.ParseRender | SDS1104.py:48-262 | every command string the session writes decodes back to the same command and arguments |
| Replies.ParseIdentity | SDS1104.py:32-38 | fails exactly when the reply has fewer than three commas; otherwise the four fields are comma-free and the reply starts with them, comma-joined, followed by nothing or a comma |
| Replies.IdentityDetermined | SDS1104.py:34-38 | at most one comma-free identity begins a reply that way, so the identity contracts of `ParseIdentity`, `GetProductInfo` and `Init` fix all four fields |
| Replies.ParseIdentityText | SDS1104.py:34-38 | four comma-free fields, followed by any further comma-separated fields, are read back exactly |
| Replies.ParseIdentityExample | SDS1104.py:34-38 | `Siglent,SDS1104,SN123,1.0\n` gives those four fields, and the version keeps its newline |
| Replies.ParseErrorReply | SDS1104.py:182-187 | no error exactly when the reply is `0` or starts with `0` and two spaces; the index fault exactly when a reply other than `0` has no two-space separator, with the whole reply as the code; a reported code is the text before the leftmost separator, and the message is the text up to the next separator (or the end) with its last character dropped |
| Replies.ParseErrorText | SDS1104.py:182-187 | `<code>  <message>\n` gives back the code and the message without the newline |
| Replies.ErrorMessageCutAtSeparator | SDS1104.py:182-187 | a message containing two spaces is cut there, and the cut part still loses its last character |
| Replies.ParseErrorExamples | SDS1104.py:182-187 | `0  ` is no error; `201  Invalid command\n` reports code `201` and message `Invalid command` |
| Replies.MonthToken | SDS1104.py:148-172 | months 1..12 map to the table JAN..DEC, and any other value maps to JAN |
| Replies.MonthTokenRoundTrip | SDS1104.py:148-172 | within 1..12 the token determines the month |
| Session.Write | SCPI.py:20-26 | a write-only exchange frames the command onto the log, or writes nothing on an unusable link |
| Session.Ask | SCPI.py:20-33 | a query exchange frames the command, then returns exactly the next reply's first 2048 bytes, and the queue keeps what was not read |
| Session.CheckError | SDS1104.py:176-189 | writes `SYSTem:ERRor?` and reads one reply; returns false exactly when the code field is `0`; otherwise raises the index fault or the attribute fault, never returns true |
| Session.SendChecked | SDS1104.py:40-46 | the command, then `SYSTem:ERRor?`, with the error check's outcome |
| Session.GetProductInfo | SDS1104.py:28-38 | writes only `*IDN?`, reads one reply, and keeps host, port and link as they were; returns when the reply has at least three commas (else the index fault); the identity is the reply's comma-free first four fields |
| Session.XyDisplay | SDS1104.py:48-55 | writes `XY_DISPLAY ON` exactly when `state`, else `XY_DISPLAY OFF`, and reads nothing |
| Session.Buzz | SDS1104.py:57-70 | writes `BUZZER?`, consumes one reply, then writes `BUZZ ON` or `BUZZ OFF`; with no reply it times out after the first write |
| Session.CouplingMode | SDS1104.py:72-83 | a mode outside the seven names raises code 666 before anything is written; AC becomes A1M, DC becomes D1M, the others are kept; writes `C<channel>: CPL <mode>` |
| Session.TimeDiv | SDS1104.py:85-90 | writes `TDIV <value>` unchecked |
| Session.ToCsv | SDS1104.py:92-99 | `save` true writes `SAVE,OFF` and false writes `SAVE,ON` after `CSV_SAVE DD,<depth>` |
| Session.DisplayChannel | SDS1104.py:101-108 | writes `C<channel>: TRA ON` exactly when `state`, else `TRA OFF` |
| Session.GetWaveform | SDS1104.py:110-123 | writes `C<channel>: WF? <section>` and returns exactly the one reply read |
| Session.PerformInternalCalibration | SDS1104.py:126-130 | writes `*CAL?` and reads nothing |
| Session.GetDatetime | SDS1104.py:132-140 | writes `DATE?` and returns the raw reply |
| Session.ChangeDatetime | SDS1104.py:142-174 | leaves the transport exactly as it was and returns normally |
| Session.CheckVersion | SDS1104.py:191-196 | writes `SYSTem:VERSion?` and returns the raw reply |
| Session.CheckStatus | SDS1104.py:198-203 | writes `SYSTem:STATus?` and returns the raw reply |
| Session.AssignIpAddr | SDS1104.py:205-210 | writes `IPaddr <ip>` and then runs the error check |
| Session.QueryIpAddr | SDS1104.py:212-217 | writes `IPaddr?` and returns the raw reply |
| Session.AssignSubnetMask | SDS1104.py:219-224 | writes `MASKaddr <mask>` and then runs the error check |
| Session.QuerySubnetMask | SDS1104.py:240-246 | the surviving definition writes `GATEaddr?` and returns the raw reply |
| Session.AssignGateAddress | SDS1104.py:233-238 | writes `GATEaddr <gate>` and then runs the error check |
| Session.SetDhcp | SDS1104.py:248-255 | writes `DHCP ON` exactly when `state`, else `DHCP OFF` |
| Session.QueryDhcp | SDS1104.py:257-262 | writes `DHCP?` and returns the raw reply |
| Session.CloseSession | SDS1104.py:264-268 | never raises; the link ends closed, and the log and the queue are kept |
| Session.Init | SDS1104.py:270-276 | opens port 5025; an unreachable host fails with the not-connected socket fault at the first write; otherwise the only write is `*IDN?` and one reply is read; construction succeeds exactly when that reply has at least three commas (else the index fault), the link stays connected, and the identity is the reply's comma-free first four fields |
| Protocol.AnswerIsWholeReply | SCPI.py:28-33 | a query whose reply fits in 2048 bytes returns that reply and removes it from the queue |
| Protocol.LongWaveformSpillsIntoNextQuery | SDS1104.py:110-123 | a waveform reply longer than 2048 bytes is cut, and the next query returns its continuation |
| Protocol.ReadsAndChecks | SDS1104.py:40-262 | the queries, `buzz`, `check_error` and the three assignments each consume exactly one reply, and the others consume none; the three assignments end with the error query, and no operation other than them and `check_error` writes it; only `change_datetime`, `close` and a rejected coupling write nothing |
| Protocol.CommandsSurviveTheWire | SCPI.py:20-26 | the bytes of the framed commands, cut at newlines, give back each command text followed by one empty piece, and each piece decodes to the command that produced it, provided the caller's arguments are single lines |
| Protocol.OnlyChecksWriteErrorQuery | SDS1104.py:40-262 | for every argument and link state, no operation other than `check_error` and the three error-checked assignments writes `SYSTem:ERRor?` |
| Protocol.OperationsKeepLogFramed | SDS1104.py:40-262 | whatever an operation does, including failing midway, the write log still decodes into whole newline-framed commands and the commands already sent stay as they were |
| Protocol.CouplingWritesCanonicalMode | SDS1104.py:72-83 | an accepted coupling mode writes one command that decodes as a coupling command for the same channel, and its mode is one of the five instrument names, never the alias AC or DC |
| Protocol.WaveformDefaultCommand | SDS1104.py:110-123 | `get_waveform(4)`, with `section` left at its default, writes exactly `C4: WF? ALL` and then a newline |
| Protocol.ToCsvDefaultCommand | SDS1104.py:92-99 | `to_csv()` writes exactly `CSV_SAVE DD,MAX,SAVE,ON` and then a newline |
| Protocol.CheckErrorCleanExample | SDS1104.py:176-185 | the example reply `0  ` makes `check_error` return false after writing the error query and consuming the reply |
| Protocol.CheckErrorOnReport | SDS1104.py:180-189 | when the one queued reply fits in a 2048-byte read, has a code other than `0` and carries a message after the two-space separator, `check_error` raises the attribute fault for `SPD3303Exception` |
| Protocol.CheckErrorReportedExample | SDS1104.py:176-189 | the example reply `201  Invalid command\n` ends in the attribute fault for `SPD3303Exception` |
| Protocol.InitExample | SDS1104.py:270-276 | construction against `Siglent,SDS1104,SN123,1.0\n` succeeds, keeps those four fields, writes only `*IDN?` and the newline, and consumes the reply |

## Left out

- Real socket I/O, the 10-second timeout and blocking (SCPI.py:8, 15-16, 25-26, 32). They are replaced by the write log and the reply queue. A missing reply is the timeout fault.
- The `print` that reports a failed connection (SCPI.py:18): it is console output only. The failure itself is kept as the `Unconnected` link.
- One read returning the bytes of two queued replies together. A real TCP read can, when both have already arrived, for example after the unread `*CAL?` reply (SDS1104.py:126-130). In the model each element of the reply queue stands for what one read can deliver, so a read never crosses from one element into the next.
- The exact `OSError` variants. The socket faults are labels, one per cause: `NotConnected` covers the error a never-connected socket raises (EPIPE from `sendall`, ENOTCONN from `recv` on Linux), `BadDescriptor` the EBADF after close.
- Arguments that contain a newline. Neither `send` nor the wrappers check for one, so such an argument would split its command in two on the wire. `Protocol.CommandsSurviveTheWire` is stated only for single-line arguments.
- The one-second sleep in `close` (SCPI.py:41): it is timing only.
- The class-level socket that every `SCPI` instance shares (SCPI.py:8). The model gives each session its own transport, so reconnecting after a close is not modelled.
- The clock read by `datetime.datetime.now()` (SDS1104.py:276). It is the `now` parameter of `Session.Init`.
- The `print` calls in `get_waveform` and the commented-out template queries (SDS1104.py:114-121). They do not touch the instrument.
- The first `query_subnet_mask` (SDS1104.py:226-231). The second definition replaces it, so it cannot be called.
- The text of the commented-out `DATE` command (SDS1104.py:174). It is never built or written.
- `SDSException.__str__` (SDS1104.py:18-19): only message formatting.
- UTF-8 encoding and decoding. Strings are sequences of ASCII characters, so a multi-byte character cut by the read bound is not modelled.
- Default argument values (`depth='MAX'`, `save=False`, `section='ALL'`, `size=2048`). They appear as the constants `DefaultDepth`, `DefaultSection` and `DefaultRecvSize`, which callers pass.
- Argument types. `mode`, `value`, `depth`, `section` and the addresses are strings, and channels are integers. The model does not cover Python accepting other types.
- The identity fields assigned before an index fault (SDS1104.py:35-38). The exception ends construction, so they cannot be observed.
- main.py: it is a demonstration script.
- What the instrument does with the commands: the coupling freeze, the DHCP precondition on address assignment, and the meaning of replies.
