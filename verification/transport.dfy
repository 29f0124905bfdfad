/** The SCPI transport: one TCP connection to the instrument, seen as a
    trace. Every write the client makes is appended to `writes`; the
    instrument's replies wait in `pending`, oldest first, and each `recv`
    takes a bounded prefix of the oldest pending reply. */
module Transport {
  import opened Wrappers
  import Text

  /** Lifecycle of the socket. */
  datatype Link = Unconnected | Connected | Closed

  /** The ways a socket call fails. These are labels of the model, one per
      cause, not Python exception classes: `NotConnected` stands for the
      `OSError` a socket whose connect failed raises (on Linux `sendall`
      reports EPIPE and `recv` ENOTCONN), `BadDescriptor` for the `OSError`
      (EBADF) after close, `TimedOut` for `socket.timeout`, and
      `NegativeBufferSize` for the `ValueError` of a negative `recv` size. */
  datatype SocketFault =
    | NotConnected        // write or read on a socket whose connect failed
    | BadDescriptor       // write or read after close
    | TimedOut            // no reply arrived within the read timeout
    | NegativeBufferSize  // recv asked for a negative number of bytes

  /** One transport: the address it was opened on, its lifecycle state,
      the log of writes made so far and the replies not yet read. */
  datatype Scpi = Scpi(host: string, port: int, link: Link, writes: seq<string>, pending: seq<string>)

  /** The terminator written after every command. */
  const Newline: string := "\n"

  /** The read bound `recv` uses when the caller gives none. */
  const DefaultRecvSize: int := 2048

  /** How many bytes one read returns: the bound, or fewer when less is
      pending. */
  function Min(a: int, b: int): int
  {
    if a <= b then a else b
  }

  /** The fault a socket call reports when the link is not usable. */
  function LinkFault(link: Link): SocketFault
    requires link != Connected
  {
    if link == Closed then BadDescriptor else NotConnected
  }

  /** The bytes of several writes, or several replies, in order. */
  function Concat(chunks: seq<string>): string
  {
    if |chunks| == 0 then "" else chunks[0] + Concat(chunks[1..])
  }

  lemma {:induction false} ConcatAppend(a: seq<string>, b: seq<string>)
    ensures Concat(a + b) == Concat(a) + Concat(b)
    decreases |a|
  {
    if |a| == 0 {
      assert a + b == b;
    } else {
      ConcatAppend(a[1..], b);
      assert (a + b)[1..] == a[1..] + b;
    }
  }

  /** The writes a sequence of commands produces: each payload, then a
      separate write holding only the newline. */
  function Frames(cmds: seq<string>): (w: seq<string>)
    ensures |w| == 2 * |cmds|
  {
    if |cmds| == 0 then [] else [cmds[0], Newline] + Frames(cmds[1..])
  }

  /** The write log alternates: payload `i` sits at position `2 i` and
      the lone newline that ends it right after. */
  lemma {:induction false} FramesAt(cmds: seq<string>, i: nat)
    requires i < |cmds|
    ensures Frames(cmds)[2 * i] == cmds[i] && Frames(cmds)[2 * i + 1] == Newline
    decreases i
  {
    if i > 0 {
      FramesAt(cmds[1..], i - 1);
      assert Frames(cmds)[2..] == Frames(cmds[1..]);
    }
  }

  /** Recovers the commands from a write log: writes come in pairs, a
      payload followed by a lone newline. */
  function Unframe(w: seq<string>): Option<seq<string>>
    decreases |w|
  {
    if |w| == 0 then Some([])
    else if |w| == 1 || w[1] != Newline then None
    else match Unframe(w[2..])
      case None => None
      case Some(rest) => Some([w[0]] + rest)
  }

  lemma {:induction false} FramesAppend(a: seq<string>, b: seq<string>)
    ensures Frames(a + b) == Frames(a) + Frames(b)
    decreases |a|
  {
    if |a| == 0 {
      assert a + b == b;
    } else {
      FramesAppend(a[1..], b);
      assert (a + b)[1..] == a[1..] + b;
      calc {
        Frames(a + b);
        [a[0], Newline] + Frames(a[1..] + b);
        [a[0], Newline] + (Frames(a[1..]) + Frames(b));
        ([a[0], Newline] + Frames(a[1..])) + Frames(b);
      }
    }
  }

  /** The write log determines the commands that produced it. */
  lemma {:induction false} UnframeFrames(cmds: seq<string>)
    ensures Unframe(Frames(cmds)) == Some(cmds)
    decreases |cmds|
  {
    if |cmds| > 0 {
      var w := Frames(cmds);
      UnframeFrames(cmds[1..]);
      assert w[2..] == Frames(cmds[1..]);
      assert [w[0]] + cmds[1..] == cmds;
    }
  }

  /** Framing more commands onto a well-framed log extends the commands it
      decodes to and leaves the earlier ones as they were. */
  lemma {:induction false} UnframeAppend(w: seq<string>, cmds: seq<string>)
    requires Unframe(w).Some?
    ensures Unframe(w + Frames(cmds)) == Some(Unframe(w).value + cmds)
    decreases |w|
  {
    if |w| == 0 {
      assert w + Frames(cmds) == Frames(cmds);
      assert Unframe(w).value + cmds == cmds;
      UnframeFrames(cmds);
    } else {
      UnframeAppend(w[2..], cmds);
      assert (w + Frames(cmds))[2..] == w[2..] + Frames(cmds);
      assert (w + Frames(cmds))[..2] == w[..2];
      assert [w[0]] + (Unframe(w[2..]).value + cmds) == ([w[0]] + Unframe(w[2..]).value) + cmds;
    }
  }

  /** On the wire the framed commands are newline-terminated lines. */
  lemma {:induction false} WireIsLines(cmds: seq<string>)
    ensures Concat(Frames(cmds)) == Text.Join(cmds + [""], Newline)
    decreases |cmds|
  {
    if |cmds| == 0 {
      assert cmds + [""] == [""];
    } else {
      WireIsLines(cmds[1..]);
      var f := Frames(cmds);
      var parts := cmds + [""];
      assert f == [cmds[0], Newline] + Frames(cmds[1..]);
      assert f[1..] == [Newline] + Frames(cmds[1..]);
      assert f[1..][1..] == Frames(cmds[1..]);
      assert Concat(f) == cmds[0] + (Newline + Concat(Frames(cmds[1..])));
      assert parts[1..] == cmds[1..] + [""];
      assert |parts| >= 2;
      assert Text.Join(parts, Newline) == parts[0] + Newline + Text.Join(parts[1..], Newline);
    }
  }

  /** A receiver that cuts the byte stream at newlines gets back exactly
      the commands that were sent, as long as none of them contains a
      newline itself. */
  lemma WireSplitsIntoCommands(cmds: seq<string>)
    requires forall i, k :: 0 <= i < |cmds| && 0 <= k < |cmds[i]| ==> cmds[i][k] != '\n'
    ensures Text.Split(Concat(Frames(cmds)), Newline) == cmds + [""]
  {
    WireIsLines(cmds);
    var parts := cmds + [""];
    forall i, k | 0 <= i < |parts| && 0 <= k < |parts[i]|
      ensures parts[i][k] != '\n'
    {
      assert i < |cmds|;
    }
    Text.SplitJoin(parts, '\n');
  }

  /** Opening the transport never raises: a connection failure leaves a
      transport that is simply not connected. */
  function Connect(host: string, port: int, reachable: bool, replies: seq<string>): (s: Scpi)
    ensures s.link == Connected <==> reachable
    ensures s.link != Closed
    ensures s.host == host && s.port == port
    ensures s.writes == [] && s.pending == replies
  {
    Scpi(host, port, if reachable then Connected else Unconnected, [], replies)
  }

  /** `send(cmd)`: the payload, then the newline as a write of its own. */
  function Send(s: Scpi, cmd: string): (r: Result<Scpi, SocketFault>)
    ensures r.Success? <==> s.link == Connected
    ensures r.Success? ==> r.value == s.(writes := s.writes + Frames([cmd]))
    ensures r.Failure? ==> r.error == LinkFault(s.link)
  {
    if s.link != Connected then Failure(LinkFault(s.link))
    else Success(s.(writes := s.writes + [cmd] + [Newline]))
  }

  /** What one bounded read does to the reply stream: `reply` is the first
      min(size, |head|) bytes of the oldest pending reply, nothing is lost
      or reordered, a reply that fits is consumed whole, and the unread
      tail of a longer one stays first in line. */
  ghost predicate Delivered(before: seq<string>, size: nat, reply: string, after: seq<string>)
  {
    && |before| > 0
    && |reply| == Min(size, |before[0]|)
    && reply + Concat(after) == Concat(before)
    && (|before[0]| <= size ==> after == before[1..])
    && (|before[0]| > size ==> |after| == |before| && after[1..] == before[1..])
  }

  /** `recv(size)`: one bounded read, with no loop to gather a reply that
      is longer than the bound. */
  function Recv(s: Scpi, size: int): (r: Result<(Scpi, string), SocketFault>)
    ensures size < 0 ==> r == Failure(NegativeBufferSize)
    ensures size >= 0 && s.link != Connected ==> r == Failure(LinkFault(s.link))
    ensures size >= 0 && s.link == Connected && s.pending == [] ==> r == Failure(TimedOut)
    ensures size >= 0 && s.link == Connected && s.pending != [] ==> r.Success?
    ensures r.Success? ==> r.value.0 == s.(pending := r.value.0.pending)
    ensures r.Success? ==> Delivered(s.pending, size, r.value.1, r.value.0.pending)
  {
    if size < 0 then Failure(NegativeBufferSize)
    else if s.link != Connected then Failure(LinkFault(s.link))
    else if |s.pending| == 0 then Failure(TimedOut)
    else
      var head := s.pending[0];
      if |head| <= size then
        Success((s.(pending := s.pending[1..]), head))
      else
        var after := [head[size..]] + s.pending[1..];
        assert after[1..] == s.pending[1..];
        assert head == head[..size] + head[size..];
        Success((s.(pending := after), head[..size]))
  }

  /** A reply no longer than the bound is returned whole. */
  lemma DeliveredWhole(before: seq<string>, size: nat, reply: string, after: seq<string>)
    requires Delivered(before, size, reply, after)
    requires |before[0]| <= size
    ensures reply == before[0] && after == before[1..]
  {
    assert Concat(before) == before[0] + Concat(after);
    assert (reply + Concat(after))[..|reply|] == reply;
    assert (before[0] + Concat(after))[..|before[0]|] == before[0];
  }

  /** A longer reply is cut at the bound and its tail is read next. */
  lemma DeliveredCut(before: seq<string>, size: nat, reply: string, after: seq<string>)
    requires Delivered(before, size, reply, after)
    requires |before[0]| > size
    ensures reply == before[0][..size] && after == [before[0][size..]] + before[1..]
  {
    var head := before[0];
    var rest := Concat(before[1..]);
    assert Concat(before) == head + rest;
    assert Concat(after) == after[0] + rest;
    assert reply + after[0] + rest == head + rest;
    assert (reply + after[0] + rest)[..|head|] == reply + after[0];
    assert (head + rest)[..|head|] == head;
    assert head == reply + after[0];
    assert head[..size] == reply;
    assert head[size..] == after[0];
    assert after == [after[0]] + after[1..];
  }

  /** `close()`: the socket is closed whatever state it was in. */
  function Close(s: Scpi): (r: Scpi)
    ensures r.link == Closed
    ensures r.writes == s.writes && r.pending == s.pending
    ensures r.host == s.host && r.port == s.port
  {
    s.(link := Closed)
  }

  /** Closing twice is closing once, and a closed transport refuses all
      traffic without touching the log. */
  lemma ClosedRefusesTraffic(s: Scpi, cmd: string, size: nat)
    ensures Close(Close(s)) == Close(s)
    ensures Send(Close(s), cmd) == Failure(BadDescriptor)
    ensures Recv(Close(s), size) == Failure(BadDescriptor)
  {
  }
}
