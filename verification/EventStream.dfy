/** The query event stream: the frames the server writes, and the reader that cuts them out of chunks. */
module EventStream {
  import opened Results
  import opened Lines

  // ----- The reader -----

  /** Where the first blank-line separator of `s` begins, or its length. */
  function FrameEnd(s: string): (n: nat)
    ensures n <= |s|
    ensures n < |s| ==> n + 2 <= |s| && s[n] == s[n + 1] == '\n'
  {
    if |s| < 2 then |s| else if s[0] == s[1] == '\n' then 0 else 1 + FrameEnd(s[1..])
  }

  /** The complete frames of `s`: all pieces of `s.split("\n\n")` but the last. */
  function Frames(s: string): seq<string>
    decreases |s|
  {
    if FrameEnd(s) == |s| then [] else [s[..FrameEnd(s)]] + Frames(s[FrameEnd(s) + 2..])
  }

  /** What is left after the last separator. */
  function Rest(s: string): string
    decreases |s|
  {
    if FrameEnd(s) == |s| then s else Rest(s[FrameEnd(s) + 2..])
  }

  const PREFIX := "data: "

  function LineFeedAt(s: string): (n: nat)
    ensures n <= |s| && (n < |s| ==> s[n] == '\n')
  {
    if s == "" || s[0] == '\n' then 0 else 1 + LineFeedAt(s[1..])
  }

  /** The rest of the first line of the frame that starts with the prefix. */
  function DataOf(frame: string): Option<string>
    decreases |frame|
  {
    if PREFIX <= frame then Some(frame[|PREFIX|..LineFeedAtFrom(frame)])
    else if LineFeedAt(frame) == |frame| then None
    else DataOf(frame[LineFeedAt(frame) + 1..])
  }

  function LineFeedAtFrom(frame: string): (n: nat)
    requires PREFIX <= frame
    ensures |PREFIX| <= n <= |frame|
  {
    |PREFIX| + LineFeedAt(frame[|PREFIX|..])
  }

  function Payloads(frames: seq<string>): seq<string> {
    if frames == [] then []
    else (if DataOf(frames[0]).Some? then [DataOf(frames[0]).value] else []) + Payloads(frames[1..])
  }

  /** What the reader delivers of a whole stream. */
  function Messages(stream: string): seq<string> {
    Payloads(Frames(stream))
  }

  /** The loop of `streamQuery`: each decoded chunk extends the buffer, and complete frames leave it. */
  method StreamQuery(chunks: seq<string>) returns (delivered: seq<string>)
    ensures delivered == Messages(Concat(chunks))
  {
    delivered := [];
    var buffer := "";
    var i := 0;
    ghost var read := "";
    while i < |chunks|
      invariant 0 <= i <= |chunks|
      invariant Concat(chunks) == read + Concat(chunks[i..])
      invariant delivered == Messages(read) && buffer == Rest(read)
    {
      assert chunks[i..] == [chunks[i]] + chunks[i + 1..];
      ReadMore(read, chunks[i]);
      FirstChunk(read, chunks[i], chunks[i + 1..]);
      buffer := buffer + chunks[i];
      delivered := delivered + Payloads(Frames(buffer));
      buffer := Rest(buffer);
      read := read + chunks[i];
      i := i + 1;
    }
    assert chunks[i..] == [] && read + "" == read;
  }

  lemma FirstChunk(read: string, chunk: string, chunks: seq<string>)
    ensures read + Concat([chunk] + chunks) == (read + chunk) + Concat(chunks)
  {
    assert ([chunk] + chunks)[1..] == chunks;
  }

  lemma {:induction false} FrameEndStays(a: string, b: string)
    requires FrameEnd(a) < |a|
    ensures FrameEnd(a + b) == FrameEnd(a)
  {
    if FrameEnd(a) > 0 {
      assert (a + b)[1..] == a[1..] + b;
      FrameEndStays(a[1..], b);
    }
  }

  lemma FrameSplit(a: string, b: string)
    requires FrameEnd(a) < |a|
    ensures var n := FrameEnd(a);
            && Frames(a) == [a[..n]] + Frames(a[n + 2..])
            && Frames(a + b) == [a[..n]] + Frames(a[n + 2..] + b)
            && Rest(a) == Rest(a[n + 2..])
            && Rest(a + b) == Rest(a[n + 2..] + b)
  {
    var n := FrameEnd(a);
    FrameEndStays(a, b);
    assert (a + b)[n + 2..] == a[n + 2..] + b;
    assert (a + b)[..n] == a[..n];
  }

  /** Reading on from the rest is reading on from the start. */
  predicate ReadsOn(a: string, b: string) {
    Frames(a + b) == Frames(a) + Frames(Rest(a) + b) && Rest(a + b) == Rest(Rest(a) + b)
  }

  lemma Chained(frame: string, frames: seq<string>, later: seq<string>)
    ensures [frame] + (frames + later) == [frame] + frames + later
  {
  }

  lemma ReadsOnStep(a: string, b: string)
    requires FrameEnd(a) < |a| && ReadsOn(a[FrameEnd(a) + 2..], b)
    ensures ReadsOn(a, b)
  {
    var frame, tail := a[..FrameEnd(a)], a[FrameEnd(a) + 2..];
    FrameSplit(a, b);
    Chained(frame, Frames(tail), Frames(Rest(tail) + b));
  }

  lemma ReadsOnBase(a: string, b: string)
    requires FrameEnd(a) == |a|
    ensures ReadsOn(a, b)
  {
    assert [] + Frames(a + b) == Frames(a + b);
  }

  /** A separator may straddle two chunks: what was left over and the next chunk are read together. */
  lemma {:induction false} ReadOn(a: string, b: string)
    ensures ReadsOn(a, b)
    decreases |a|
  {
    hide ReadsOn;
    if FrameEnd(a) < |a| {
      ReadOn(a[FrameEnd(a) + 2..], b);
      ReadsOnStep(a, b);
    } else {
      ReadsOnBase(a, b);
    }
  }

  lemma {:induction false} PayloadsConcat(xs: seq<string>, ys: seq<string>)
    ensures Payloads(xs + ys) == Payloads(xs) + Payloads(ys)
  {
    hide DataOf;
    if xs == [] {
      assert xs + ys == ys;
    } else {
      assert (xs + ys)[1..] == xs[1..] + ys;
      PayloadsConcat(xs[1..], ys);
    }
  }

  lemma ReadMore(read: string, chunk: string)
    ensures Messages(read + chunk) == Messages(read) + Payloads(Frames(Rest(read) + chunk))
    ensures Rest(read + chunk) == Rest(Rest(read) + chunk)
  {
    ReadOn(read, chunk);
    PayloadsConcat(Frames(read), Frames(Rest(read) + chunk));
  }

  // ----- The writer -----

  /** A queued message: its JSON text, which holds no raw line feed, and whether it ends the stream. */
  datatype Message = Message(terminal: bool, payload: string)

  predicate OneLine(s: string) {
    forall i :: 0 <= i < |s| ==> s[i] != '\n'
  }

  function FrameOf(payload: string): string {
    PREFIX + payload + "\n\n"
  }

  function Written(payloads: seq<string>): string {
    if payloads == [] then "" else FrameOf(payloads[0]) + Written(payloads[1..])
  }

  /** The messages sent: up to and including the first terminal one. */
  function Sent(queue: seq<Message>): seq<Message> {
    if queue == [] then []
    else [queue[0]] + if queue[0].terminal then [] else Sent(queue[1..])
  }

  function PayloadsOf(messages: seq<Message>): seq<string> {
    if messages == [] then [] else [messages[0].payload] + PayloadsOf(messages[1..])
  }

  /** The generator of `query_stream`: it drains the queue until a terminal message. */
  method WriteStream(queue: seq<Message>) returns (chunks: seq<string>)
    ensures Concat(chunks) == Written(PayloadsOf(Sent(queue)))
  {
    hide FrameOf;
    chunks := [];
    var i := 0;
    ghost var all := WrittenOf(queue);
    assert queue[0..] == queue && "" + all == all;
    while i < |queue|
      invariant 0 <= i <= |queue|
      invariant all == Concat(chunks) + WrittenOf(queue[i..])
    {
      var message := queue[i];
      assert queue[i..] == [message] + queue[i + 1..];
      SendOne(Concat(chunks), message, queue[i + 1..]);
      ConcatAppend(chunks, FrameOf(message.payload));
      chunks := chunks + [FrameOf(message.payload)];
      i := i + 1;
      if message.terminal {
        return;
      }
    }
  }

  /** The stream a queue makes. */
  function WrittenOf(queue: seq<Message>): string {
    Written(PayloadsOf(Sent(queue)))
  }

  lemma SendOne(written: string, message: Message, rest: seq<Message>)
    ensures written + WrittenOf([message] + rest)
         == (written + FrameOf(message.payload)) + if message.terminal then "" else WrittenOf(rest)
  {
    assert ([message] + rest)[1..] == rest;
    var sent, later := Sent([message] + rest), if message.terminal then [] else Sent(rest);
    assert sent == [message] + later && sent[1..] == later;
    assert PayloadsOf(sent) == [message.payload] + PayloadsOf(later);
    assert PayloadsOf(sent)[1..] == PayloadsOf(later);
    var frame, after := FrameOf(message.payload), Written(PayloadsOf(later));
    assert written + (frame + after) == written + frame + after;
  }

  lemma {:induction false} ConcatAppend(chunks: seq<string>, chunk: string)
    ensures Concat(chunks + [chunk]) == Concat(chunks) + chunk
  {
    if chunks == [] {
      assert chunks + [chunk] == [chunk] && [chunk][1..] == [];
      assert chunk + "" == chunk;
    } else {
      assert (chunks + [chunk])[1..] == chunks[1..] + [chunk];
      ConcatAppend(chunks[1..], chunk);
      assert chunks[0] + (Concat(chunks[1..]) + chunk) == chunks[0] + Concat(chunks[1..]) + chunk;
    }
  }

  // ----- The round trip -----

  lemma {:induction false} FrameEndOf(line: string, rest: string)
    requires OneLine(line)
    ensures FrameEnd(line + "\n\n" + rest) == |line|
  {
    var s := line + "\n\n" + rest;
    if line == "" {
      assert s[0] == '\n' && s[1] == '\n';
    } else {
      assert s[1..] == line[1..] + "\n\n" + rest;
      assert s[0] == line[0];
      assert OneLine(line[1..]) by { assert forall i :: 0 <= i < |line[1..]| ==> line[1..][i] == line[i + 1]; }
      FrameEndOf(line[1..], rest);
    }
  }

  lemma {:induction false} LineFeedNone(s: string)
    requires OneLine(s)
    ensures LineFeedAt(s) == |s|
  {
    if s != "" {
      assert OneLine(s[1..]) by { assert forall i :: 0 <= i < |s[1..]| ==> s[1..][i] == s[i + 1]; }
      LineFeedNone(s[1..]);
    }
  }

  lemma DataOfFrame(payload: string)
    requires OneLine(payload)
    ensures DataOf(PREFIX + payload) == Some(payload)
  {
    var frame := PREFIX + payload;
    assert frame[|PREFIX|..] == payload;
    LineFeedNone(payload);
    assert frame[|PREFIX|..|frame|] == payload;
  }

  lemma FirstFrame(line: string, rest: string)
    requires OneLine(line)
    ensures Frames(line + "\n\n" + rest) == [line] + Frames(rest)
    ensures Rest(line + "\n\n" + rest) == Rest(rest)
  {
    hide FrameEnd;
    var s := line + "\n\n" + rest;
    FrameEndOf(line, rest);
    assert s[..|line|] == line && s[|line| + 2..] == rest;
  }

  lemma {:induction false} ReadWritten(payloads: seq<string>)
    requires forall i :: 0 <= i < |payloads| ==> OneLine(payloads[i])
    ensures Messages(Written(payloads)) == payloads && Rest(Written(payloads)) == ""
  {
    hide DataOf;
    if payloads != [] {
      var line, rest := PREFIX + payloads[0], Written(payloads[1..]);
      assert forall i :: 0 <= i < |payloads[1..]| ==> payloads[1..][i] == payloads[i + 1];
      ReadWritten(payloads[1..]);
      PrefixIsOneLine(payloads[0]);
      FirstFrame(line, rest);
      assert Written(payloads) == line + "\n\n" + rest;
      DataOfFrame(payloads[0]);
      PayloadsConcat([line], Frames(rest));
      assert Payloads([line]) == [payloads[0]] + Payloads([line][1..]);
      assert payloads == [payloads[0]] + payloads[1..];
    }
  }

  lemma PrefixIsOneLine(payload: string)
    requires OneLine(payload)
    ensures OneLine(PREFIX + payload)
  {
  }

  lemma {:induction false} SentPayloads(queue: seq<Message>)
    requires forall i :: 0 <= i < |queue| ==> OneLine(queue[i].payload)
    ensures forall i :: 0 <= i < |PayloadsOf(Sent(queue))| ==> OneLine(PayloadsOf(Sent(queue))[i])
  {
    if queue != [] {
      assert forall i :: 0 <= i < |queue[1..]| ==> queue[1..][i] == queue[i + 1];
      SentPayloads(queue[1..]);
      var sent := Sent(queue);
      assert sent[1..] == if queue[0].terminal then [] else Sent(queue[1..]);
    }
  }

  /**
   However the stream is cut into chunks, the reader delivers exactly the payloads the server sent,
   once each and in order.
   */
  lemma StreamRoundTrip(queue: seq<Message>, chunks: seq<string>)
    requires forall i :: 0 <= i < |queue| ==> OneLine(queue[i].payload)
    requires Concat(chunks) == Written(PayloadsOf(Sent(queue)))
    ensures Messages(Concat(chunks)) == PayloadsOf(Sent(queue))
  {
    SentPayloads(queue);
    ReadWritten(PayloadsOf(Sent(queue)));
  }

  /** A stream that breaks off has delivered a prefix of what the whole stream would have. */
  lemma BrokenStreamDeliversPrefix(stream: string, n: nat)
    requires n <= |stream|
    ensures Messages(stream[..n]) <= Messages(stream)
  {
    assert stream == stream[..n] + stream[n..];
    ReadMore(stream[..n], stream[n..]);
  }

  /** `sent` is what goes out of `queue`: a prefix that ends with the first terminal message. */
  predicate EndsWithTerminal(queue: seq<Message>, sent: seq<Message>) {
    && sent <= queue && sent != [] && sent[|sent| - 1].terminal
    && forall i :: 0 <= i < |sent| - 1 ==> !sent[i].terminal
  }

  lemma TerminalCons(first: Message, queue: seq<Message>, sent: seq<Message>)
    requires !first.terminal && EndsWithTerminal(queue, sent)
    ensures EndsWithTerminal([first] + queue, [first] + sent)
  {
    var all := [first] + sent;
    assert forall j :: 1 <= j < |all| ==> all[j] == sent[j - 1];
  }

  /** Of a queue that gets a terminal message, the sent part ends with its first one. */
  lemma {:induction false} SentEndsWithTerminal(queue: seq<Message>)
    requires exists i :: 0 <= i < |queue| && queue[i].terminal
    ensures EndsWithTerminal(queue, Sent(queue))
  {
    hide EndsWithTerminal;
    assert queue == [queue[0]] + queue[1..];
    if queue[0].terminal {
      OneTerminal(queue);
    } else {
      var i :| 0 <= i < |queue| && queue[i].terminal;
      assert queue[1..][i - 1].terminal;
      SentEndsWithTerminal(queue[1..]);
      TerminalCons(queue[0], queue[1..], Sent(queue[1..]));
    }
  }

  lemma OneTerminal(queue: seq<Message>)
    requires queue != [] && queue[0].terminal
    ensures EndsWithTerminal(queue, Sent(queue))
  {
    assert Sent(queue) == [queue[0]];
  }

  /** A queue that never gets a terminal message is sent whole. */
  lemma {:induction false} SentWhole(queue: seq<Message>)
    requires forall i :: 0 <= i < |queue| ==> !queue[i].terminal
    ensures Sent(queue) == queue
  {
    if queue != [] {
      assert queue == [queue[0]] + queue[1..];
      SentWhole(queue[1..]);
    }
  }

  // ----- What frames and their data are -----

  /** No two line feeds follow one another in the text. */
  predicate NoSeparator(s: string) {
    forall k :: 0 <= k < |s| - 1 ==> !PairAt(s, k)
  }

  predicate PairAt(s: string, k: nat)
    requires k + 1 < |s|
  {
    s[k] == '\n' && s[k + 1] == '\n'
  }

  /** The frames with their separators, and what follows the last. */
  function Framed(frames: seq<string>, rest: string): string {
    if frames == [] then rest else frames[0] + "\n\n" + Framed(frames[1..], rest)
  }

  lemma {:induction false} FrameEndIsFirst(s: string)
    ensures var n := FrameEnd(s);
            if n == |s| then NoSeparator(s) else NoSeparator(s[..n] + "\n")
  {
    if |s| >= 2 && !(s[0] == s[1] == '\n') {
      FrameEndIsFirst(s[1..]);
      var n := FrameEnd(s);
      var whole := if n == |s| then s else s[..n] + "\n";
      var later := if n == |s| then s[1..] else s[1..][..n - 1] + "\n";
      assert whole == [s[0]] + later;
      forall k | 0 <= k < |whole| - 1 ensures !PairAt(whole, k) {
        if k > 0 { assert !PairAt(later, k - 1); } else { assert whole[1] == later[0]; }
      }
    } else if |s| >= 2 {
      assert s[..0] + "\n" == "\n";
    }
  }

  /** The stream is cut at the leftmost separators, and nowhere else. */
  lemma {:induction false} FramesExact(stream: string)
    ensures stream == Framed(Frames(stream), Rest(stream)) && NoSeparator(Rest(stream))
    ensures forall i :: 0 <= i < |Frames(stream)| ==> NoSeparator(Frames(stream)[i] + "\n")
    decreases |stream|
  {
    hide FrameEnd, NoSeparator;
    FrameEndIsFirst(stream);
    var n := FrameEnd(stream);
    if n < |stream| {
      FramesExact(stream[n + 2..]);
      assert stream == stream[..n] + "\n\n" + stream[n + 2..];
      assert Frames(stream)[1..] == Frames(stream[n + 2..]);
    }
  }

  predicate LineStart(frame: string, k: nat) {
    k <= |frame| && (k == 0 || frame[k - 1] == '\n')
  }

  /** At the start of a line, the frame has the prefix and then `data`, to the end of that line. */
  predicate DataAt(frame: string, k: nat, data: string) {
    && LineStart(frame, k) && PREFIX + data <= frame[k..] && OneLine(data)
    && var end := k + |PREFIX| + |data|;
       end == |frame| || frame[end] == '\n'
  }

  predicate PrefixedLine(frame: string, k: nat) {
    LineStart(frame, k) && PREFIX <= frame[k..]
  }

  lemma {:induction false} LineFeedIsFirst(s: string)
    ensures OneLine(s[..LineFeedAt(s)])
  {
    if s != "" && s[0] != '\n' {
      LineFeedIsFirst(s[1..]);
      assert s[..LineFeedAt(s)] == [s[0]] + s[1..][..LineFeedAt(s[1..])];
    }
  }

  /** The first line of the frame that has the prefix is the one at `k`. */
  predicate FirstDataAt(frame: string, k: nat, data: string) {
    DataAt(frame, k, data) && forall j: nat :: j < k ==> !PrefixedLine(frame, j)
  }

  /** A frame without the prefix has it nowhere in its first line. */
  lemma FirstLinePlain(frame: string, k: nat)
    requires !(PREFIX <= frame) && k <= LineFeedAt(frame)
    ensures !PrefixedLine(frame, k)
  {
    hide LineFeedAt;
    LineFeedIsFirst(frame);
    assert frame[0..] == frame;
    if k > 0 { assert frame[..LineFeedAt(frame)][k - 1] == frame[k - 1]; }
  }

  /** The lines after the first are those of the text after its line feed. */
  lemma LaterLine(frame: string, n: nat, k: nat, data: string)
    requires n < |frame| && frame[n] == '\n'
    ensures PrefixedLine(frame, n + 1 + k) <==> PrefixedLine(frame[n + 1..], k)
    ensures DataAt(frame[n + 1..], k, data) ==> DataAt(frame, n + 1 + k, data)
  {
    var rest := frame[n + 1..];
    if k <= |rest| {
      assert frame[n + 1 + k..] == rest[k..];
      assert k > 0 ==> frame[n + k] == rest[k - 1];
    }
  }

  /** What the reader takes from a frame is the first line that has the prefix, without it. */
  lemma {:induction false} DataExact(frame: string)
    ensures DataOf(frame).None? ==> forall k: nat :: !PrefixedLine(frame, k)
    ensures DataOf(frame).Some? ==> exists k: nat :: FirstDataAt(frame, k, DataOf(frame).value)
    decreases |frame|
  {
    hide LineFeedAt, PrefixedLine, DataAt;
    var n := LineFeedAt(frame);
    if PREFIX <= frame {
      PrefixedStart(frame);
      assert FirstDataAt(frame, 0, DataOf(frame).value);
    } else if n == |frame| {
      forall k: nat ensures !PrefixedLine(frame, k) {
        if k <= n { FirstLinePlain(frame, k); } else { PastEnd(frame, k); }
      }
    } else {
      var rest := frame[n + 1..];
      DataExact(rest);
      if DataOf(frame).Some? {
        var k: nat :| FirstDataAt(rest, k, DataOf(frame).value);
        LaterLine(frame, n, k, DataOf(frame).value);
        forall j: nat | j < n + 1 + k ensures !PrefixedLine(frame, j) {
          if j <= n { FirstLinePlain(frame, j); } else { LaterLine(frame, n, j - n - 1, ""); }
        }
        assert FirstDataAt(frame, n + 1 + k, DataOf(frame).value);
      } else {
        forall k: nat ensures !PrefixedLine(frame, k) {
          if k <= n { FirstLinePlain(frame, k); } else { LaterLine(frame, n, k - n - 1, ""); }
        }
      }
    }
  }

  lemma PastEnd(frame: string, k: nat)
    requires k > |frame|
    ensures !PrefixedLine(frame, k)
  {
  }

  lemma PrefixedStart(frame: string)
    requires PREFIX <= frame
    ensures DataAt(frame, 0, DataOf(frame).value)
  {
    hide LineFeedAt;
    assert frame[0..] == frame;
    LineFeedIsFirst(frame[|PREFIX|..]);
    var data := frame[|PREFIX|..LineFeedAtFrom(frame)];
    assert data == frame[|PREFIX|..][..LineFeedAt(frame[|PREFIX|..])];
  }

  /** The server's stream is one frame for each payload, its one line the payload after the prefix. */
  lemma {:induction false} WrittenFrames(payloads: seq<string>)
    requires forall i :: 0 <= i < |payloads| ==> OneLine(payloads[i])
    ensures Rest(Written(payloads)) == "" && |Frames(Written(payloads))| == |payloads|
    ensures forall i :: 0 <= i < |payloads| ==> Frames(Written(payloads))[i] == "data: " + payloads[i]
  {
    if payloads != [] {
      var line, rest := PREFIX + payloads[0], Written(payloads[1..]);
      assert forall i :: 0 <= i < |payloads[1..]| ==> payloads[1..][i] == payloads[i + 1];
      WrittenFrames(payloads[1..]);
      PrefixIsOneLine(payloads[0]);
      FirstFrame(line, rest);
      assert Written(payloads) == line + "\n\n" + rest;
    }
  }
}
