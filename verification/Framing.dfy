/**
Length-prefixed messages over a byte stream that reads and writes as little as it likes at a time.

The stream's behaviour is a script: one answer per low-level call, after which it cooperates. Reading a frame
retries a would-block from the start of the header, so the bytes of a header that was part-way read are lost;
the lemmas say exactly which scripts are harmless.
 */
module Framing {
  import opened Prelude

  /** `Chunk(extra)` moves `extra + 1` bytes, or fewer if fewer are wanted or left. */
  datatype Answer = Chunk(extra: nat) | Interrupted | WouldBlock | Broken

  datatype Wire = Wire(data: Bytes, script: seq<Answer>)

  datatype ReadResult = Data(bytes: Bytes) | ReadInterrupted | ReadWouldBlock | ReadBroken

  datatype RecvError = RecvIo | RecvDisconnected

  function Min(a: nat, b: nat): nat {
    if a < b then a else b
  }

  /** One low-level read of at most `k` bytes; no bytes at all means the end of the stream. */
  function LowRead(w: Wire, k: nat): (Wire, ReadResult) {
    if w.script == [] then
      var n := Min(k, |w.data|);
      (w.(data := w.data[n..]), Data(w.data[..n]))
    else
      var rest := w.(script := w.script[1..]);
      match w.script[0]
      case Chunk(extra) =>
        var n := Min(Min(extra + 1, k), |w.data|);
        (rest.(data := w.data[n..]), Data(w.data[..n]))
      case Interrupted => (rest, ReadInterrupted)
      case WouldBlock => (rest, ReadWouldBlock)
      case Broken => (rest, ReadBroken)
  }

  // -- Reading --

  datatype ExactResult = Exact(bytes: Bytes) | ExactWouldBlock | ExactEof | ExactBroken

  /** Reads `k` more bytes after `got`. An error part-way forgets what was read. */
  function ReadExact(w: Wire, got: Bytes, k: nat): (r: (Wire, ExactResult))
    ensures |r.0.script| <= |w.script|
    ensures r.1.ExactWouldBlock? ==> |r.0.script| < |w.script|
    ensures |r.0.data| <= |w.data|
    ensures r.1.Exact? ==> |r.0.data| + k == |w.data| && |r.1.bytes| == |got| + k
    decreases |w.script| + k
  {
    if k == 0 then (w, Exact(got))
    else
      match LowRead(w, k)
      case (w', Data(bytes)) => if bytes == [] then (w', ExactEof) else ReadExact(w', got + bytes, k - |bytes|)
      case (w', ReadInterrupted) => ReadExact(w', got, k)
      case (w', ReadWouldBlock) => (w', ExactWouldBlock)
      case (w', ReadBroken) => (w', ExactBroken)
  }

  function ReadHeader(w: Wire): (Wire, Result<nat, RecvError>)
    decreases |w.script|
  {
    match ReadExact(w, [], 4)
    case (w', Exact(bytes)) => (w', Ok(FromBigEndian(bytes)))
    case (w', ExactWouldBlock) => ReadHeader(w')
    case (w', ExactEof) => (w', Err(RecvIo))
    case (w', ExactBroken) => (w', Err(RecvIo))
  }

  /** Reads the `k` missing bytes of a body of which `got` is there. */
  function ReadBody(w: Wire, got: Bytes, k: nat): (Wire, Result<Bytes, RecvError>)
    decreases |w.script| + k
  {
    if k == 0 then (w, Ok(got))
    else
      match LowRead(w, k)
      case (w', Data(bytes)) =>
        if bytes == [] then (w', Err(RecvDisconnected)) else ReadBody(w', got + bytes, k - |bytes|)
      case (w', ReadInterrupted) => ReadBody(w', got, k)
      case (w', ReadWouldBlock) => ReadBody(w', got, k)
      case (w', ReadBroken) => (w', Err(RecvIo))
  }

  function ReadFrame(w: Wire): (Wire, Result<Bytes, RecvError>) {
    match ReadHeader(w)
    case (w', Ok(length)) => ReadBody(w', [], length)
    case (w', Err(e)) => (w', Err(e))
  }

  /** Reads frames until `count` of them are there or one fails. */
  function ReadFrames(w: Wire, count: nat): (Wire, seq<Bytes>, Option<RecvError>)
    decreases count
  {
    if count == 0 then (w, [], None)
    else
      match ReadFrame(w)
      case (w', Err(e)) => (w', [], Some(e))
      case (w', Ok(m)) =>
        var (w'', rest, e) := ReadFrames(w', count - 1);
        (w'', [m] + rest, e)
  }

  // -- Frames --

  const LENGTH_LIMIT: nat := 0x1_0000_0000

  /** The last digit first split off, then the one before it, and so on. */
  function BigEndian(n: nat): (r: Bytes)
    requires n < LENGTH_LIMIT
    ensures |r| == 4 && FromBigEndian(r) == n
  {
    var upper3 := n / 256;
    var upper2 := upper3 / 256;
    [upper2 / 256, upper2 % 256, upper3 % 256, n % 256]
  }

  function FromBigEndian(b: Bytes): nat
    requires |b| == 4
  {
    (((b[0] as int) * 256 + b[1]) * 256 + b[2]) * 256 + b[3]
  }

  /** The length goes first, as four bytes, the most significant first. */
  lemma HeaderIsBigEndian(m: Bytes)
    requires |m| < LENGTH_LIMIT
    ensures
      var p := Pack(m);
      && |p| == 4 + |m| && p[4..] == m
      && 0x100_0000 * (p[0] as int) + 0x1_0000 * (p[1] as int) + 0x100 * (p[2] as int) + (p[3] as int) == |m|
  {
  }

  lemma FourBytesStayBelowLimit(b: Bytes)
    requires |b| == 4
    ensures FromBigEndian(b) < LENGTH_LIMIT
  {
  }

  /** The length is cast to 32 bits. */
  function Pack(m: Bytes): Bytes {
    BigEndian(|m| % LENGTH_LIMIT) + m
  }

  function Stream(messages: seq<Bytes>): Bytes {
    if messages == [] then [] else Pack(messages[0]) + Stream(messages[1..])
  }

  // -- Scripts --

  /** What is left of the script after a header of which `got` bytes are there, unless bytes get lost or it breaks. */
  function AfterHeader(script: seq<Answer>, got: nat): Option<seq<Answer>>
    requires got <= 4
  {
    if got == 4 || script == [] then Some(script)
    else
      match script[0]
      case Chunk(extra) => AfterHeader(script[1..], got + Min(extra + 1, 4 - got))
      case Interrupted => AfterHeader(script[1..], got)
      case WouldBlock => if got == 0 then AfterHeader(script[1..], 0) else None
      case Broken => None
  }

  function AfterBody(script: seq<Answer>, k: nat): Option<seq<Answer>> {
    if k == 0 || script == [] then Some(script)
    else
      match script[0]
      case Chunk(extra) => AfterBody(script[1..], k - Min(extra + 1, k))
      case Interrupted => AfterBody(script[1..], k)
      case WouldBlock => AfterBody(script[1..], k)
      case Broken => None
  }

  function AfterFrame(script: seq<Answer>, length: nat): Option<seq<Answer>> {
    match AfterHeader(script, 0)
    case Some(rest) => AfterBody(rest, length)
    case None => None
  }

  /** No header of these frames is torn by a would-block, and nothing breaks. */
  predicate Spares(script: seq<Answer>, messages: seq<Bytes>)
    decreases |messages|
  {
    messages == [] ||
    (AfterFrame(script, |messages[0]|).Some? && Spares(AfterFrame(script, |messages[0]|).value, messages[1..]))
  }

  // -- Reading back what was written --

  lemma SplitChunk(got: Bytes, data: Bytes, n: nat, k: nat)
    requires n <= k <= |data|
    ensures got + data[..k] == (got + data[..n]) + data[n..][..k - n]
    ensures data[n..][k - n..] == data[k..]
  {
    assert data[..k] == data[..n] + data[n..][..k - n];
  }

  /** The header is read, or, before its first byte, there was a would-block. */
  ghost predicate HeaderOrBlocked(w: Wire, got: Bytes, k: nat, rest: seq<Answer>, out: (Wire, ExactResult))
    requires k <= |w.data|
  {
    || out == (Wire(w.data[k..], rest), Exact(got + w.data[..k]))
    || (got == [] && out.1 == ExactWouldBlock && out.0.data == w.data && AfterHeader(out.0.script, 0) == Some(rest))
  }

  lemma {:induction false} ExactReads(w: Wire, got: Bytes, k: nat, rest: seq<Answer>)
    requires |got| + k == 4 && k <= |w.data| && AfterHeader(w.script, |got|) == Some(rest)
    ensures HeaderOrBlocked(w, got, k, rest, ReadExact(w, got, k))
    decreases |w.script| + k
  {
    if k == 0 {
      assert got + w.data[..0] == got;
    } else {
      match LowRead(w, k)
      case (w', Data(bytes)) =>
        var k' := k - |bytes|;
        assert AfterHeader(w'.script, |got + bytes|) == Some(rest);
        ExactReads(w', got + bytes, k', rest);
        SplitChunk(got, w.data, |bytes|, k);
      case (w', ReadInterrupted) => ExactReads(w', got, k, rest);
      case (w', _) =>
    }
  }

  lemma {:induction false} HeaderReads(w: Wire)
    requires 4 <= |w.data| && AfterHeader(w.script, 0).Some?
    ensures ReadHeader(w) == (Wire(w.data[4..], AfterHeader(w.script, 0).value), Ok(FromBigEndian(w.data[..4])))
    decreases |w.script|
  {
    ExactReads(w, [], 4, AfterHeader(w.script, 0).value);
    var (w', r) := ReadExact(w, [], 4);
    assert [] + w.data[..4] == w.data[..4];
    if r.ExactWouldBlock? {
      HeaderReads(w');
    }
  }

  /** A body that is all there is read; would-blocks do not matter here. */
  lemma {:induction false} BodyReads(w: Wire, got: Bytes, k: nat)
    requires k <= |w.data| && AfterBody(w.script, k).Some?
    ensures ReadBody(w, got, k) == (Wire(w.data[k..], AfterBody(w.script, k).value), Ok(got + w.data[..k]))
    decreases |w.script| + k
  {
    if k == 0 {
      assert got + w.data[..0] == got;
    } else {
      match LowRead(w, k)
      case (w', Data(bytes)) =>
        SplitChunk(got, w.data, |bytes|, k);
        BodyReads(w', got + bytes, k - |bytes|);
      case (w', ReadInterrupted) => BodyReads(w', got, k);
      case (w', ReadWouldBlock) => BodyReads(w', got, k);
      case (w', ReadBroken) => assert false;
    }
  }

  lemma FrameLayout(m: Bytes, rest: Bytes)
    ensures
      var data := Pack(m) + rest;
      && |data| == 4 + |m| + |rest|
      && FromBigEndian(data[..4]) == |m| % LENGTH_LIMIT
      && data[4..] == m + rest
  {
    assert (Pack(m) + rest)[..4] == BigEndian(|m| % LENGTH_LIMIT);
  }

  /** A stream that starts with a length and that many bytes gives those bytes. */
  lemma LaidOutFrameReads(w: Wire, m: Bytes, rest: Bytes)
    requires 4 <= |w.data| && FromBigEndian(w.data[..4]) == |m| && w.data[4..] == m + rest
    requires AfterFrame(w.script, |m|).Some?
    ensures ReadFrame(w) == (Wire(rest, AfterFrame(w.script, |m|).value), Ok(m))
  {
    HeaderReads(w);
    BodyReads(Wire(m + rest, AfterHeader(w.script, 0).value), [], |m|);
    assert [] + (m + rest)[..|m|] == m && (m + rest)[|m|..] == rest;
  }

  /** One frame, followed by anything, comes back whole and leaves what followed. */
  lemma FrameReads(m: Bytes, rest: Bytes, script: seq<Answer>)
    requires |m| < LENGTH_LIMIT && AfterFrame(script, |m|).Some?
    ensures ReadFrame(Wire(Pack(m) + rest, script)) == (Wire(rest, AfterFrame(script, |m|).value), Ok(m))
  {
    FrameLayout(m, rest);
    LaidOutFrameReads(Wire(Pack(m) + rest, script), m, rest);
  }

  lemma Regroup(a: Bytes, b: Bytes, c: Bytes)
    ensures (a + b) + c == a + (b + c)
  {
  }

  /** Reading `messages` from `w` succeeds and leaves `rest`. */
  ghost predicate ReadsThrough(w: Wire, messages: seq<Bytes>, rest: Bytes) {
    var (w', read, e) := ReadFrames(w, |messages|);
    w'.data == rest && read == messages && e == None
  }

  lemma ReadsThroughStep(w: Wire, m: Bytes, w': Wire, tail: seq<Bytes>, rest: Bytes)
    requires ReadFrame(w) == (w', Ok(m)) && ReadsThrough(w', tail, rest)
    ensures ReadsThrough(w, [m] + tail, rest)
  {
  }

  /** Repeated reads return exactly the messages that were written, however the stream is chopped up. */
  lemma {:induction false} StreamReads(messages: seq<Bytes>, rest: Bytes, script: seq<Answer>)
    requires (forall m <- messages :: |m| < LENGTH_LIMIT) && Spares(script, messages)
    ensures ReadsThrough(Wire(Stream(messages) + rest, script), messages, rest)
    decreases |messages|
  {
    if messages == [] {
      assert Stream(messages) + rest == rest;
    } else {
      var m, tail := messages[0], messages[1..];
      var after, script' := Stream(tail) + rest, AfterFrame(script, |m|).value;
      Regroup(Pack(m), Stream(tail), rest);
      FrameReads(m, after, script);
      StreamReads(tail, rest, script');
      ReadsThroughStep(Wire(Pack(m) + after, script), m, Wire(after, script'), tail, rest);
      assert messages == [m] + tail;
    }
  }

  // -- Streams that end early --

  /** Without four bytes there is no header, whatever the script does. */
  lemma {:induction false} HeaderNeedsData(w: Wire)
    requires |w.data| < 4
    ensures ReadHeader(w).1 == Err(RecvIo)
    decreases |w.script|
  {
    var (w', r) := ReadExact(w, [], 4);
    if r.ExactWouldBlock? {
      HeaderNeedsData(w');
    }
  }

  lemma {:induction false} BodyNeedsData(w: Wire, got: Bytes, k: nat)
    requires |w.data| < k && Broken !in w.script
    ensures ReadBody(w, got, k).1 == Err(RecvDisconnected)
    decreases |w.script| + k
  {
    match LowRead(w, k)
    case (w', Data(bytes)) =>
      if bytes != [] {
        BodyNeedsData(w', got + bytes, k - |bytes|);
      }
    case (w', ReadBroken) => assert false;
    case (w', _) => BodyNeedsData(w', got, k);
  }

  lemma {:induction false} RestIsUnbroken(script: seq<Answer>, got: nat, k: nat)
    requires got <= 4 && Broken !in script
    ensures AfterHeader(script, got).Some? ==> Broken !in AfterHeader(script, got).value
    ensures AfterBody(script, k).Some? ==> Broken !in AfterBody(script, k).value
    decreases |script|
  {
    if script != [] {
      var tail := script[1..];
      match script[0]
      case Chunk(extra) => RestIsUnbroken(tail, got + Min(extra + 1, 4 - got), k - Min(extra + 1, k));
      case Interrupted => RestIsUnbroken(tail, got, k);
      case WouldBlock => RestIsUnbroken(tail, got, k);
      case Broken => assert false;
    }
  }

  lemma LaidOutCutFrame(w: Wire, length: nat)
    requires 4 <= |w.data| < 4 + length && FromBigEndian(w.data[..4]) == length
    requires Broken !in w.script && AfterHeader(w.script, 0).Some?
    ensures ReadFrame(w).1 == Err(RecvDisconnected)
  {
    HeaderReads(w);
    RestIsUnbroken(w.script, 0, 0);
    BodyNeedsData(Wire(w.data[4..], AfterHeader(w.script, 0).value), [], length);
  }

  /** A frame cut short is an error, never a message: disconnected in the body, an I/O error in the header. */
  lemma CutFrame(m: Bytes, n: nat, script: seq<Answer>)
    requires |m| < LENGTH_LIMIT && n < |Pack(m)| && Broken !in script && AfterHeader(script, 0).Some?
    ensures ReadFrame(Wire(Pack(m)[..n], script)).1 == Err(if n < 4 then RecvIo else RecvDisconnected)
  {
    var w := Wire(Pack(m)[..n], script);
    if n < 4 {
      HeaderNeedsData(w);
    } else {
      FrameLayout(m, []);
      assert w.data[..4] == (Pack(m) + [])[..4];
      LaidOutCutFrame(w, |m|);
    }
  }

  /** A stream that breaks is an I/O error, in the header and in the body alike, if all the data is there. */
  lemma {:induction false} BrokenStreamIsIo(w: Wire, got: Bytes, k: nat)
    requires k <= |w.data| && AfterBody(w.script, k).None?
    ensures ReadBody(w, got, k).1 == Err(RecvIo)
    decreases |w.script| + k
  {
    match LowRead(w, k)
    case (w', Data(bytes)) => BrokenStreamIsIo(w', got + bytes, k - |bytes|);
    case (w', ReadInterrupted) => BrokenStreamIsIo(w', got, k);
    case (w', ReadWouldBlock) => BrokenStreamIsIo(w', got, k);
    case (w', ReadBroken) =>
  }

  lemma {:induction false} HeaderErrorIsIo(w: Wire)
    ensures ReadHeader(w).1.Err? ==> ReadHeader(w).1 == Err(RecvIo)
    decreases |w.script|
  {
    var (w', r) := ReadExact(w, [], 4);
    if r.ExactWouldBlock? {
      HeaderErrorIsIo(w');
    }
  }

  /** `read` is the whole frames among the first `n` bytes, and `e` the error that fits where the cut is. */
  ghost predicate WholeFrames(messages: seq<Bytes>, n: nat, read: seq<Bytes>, e: Option<RecvError>) {
    && |read| < |messages| && read == messages[..|read|]
    && |Stream(read)| <= n < |Stream(messages[..|read| + 1])|
    && e == Some(if n - |Stream(read)| < 4 then RecvIo else RecvDisconnected)
  }

  /** A stream cut anywhere yields exactly the whole frames before the cut, and then the error that fits the cut. */
  lemma {:induction false} CutStream(messages: seq<Bytes>, n: nat, script: seq<Answer>)
    requires (forall m <- messages :: |m| < LENGTH_LIMIT) && Spares(script, messages) && Broken !in script
    requires n < |Stream(messages)|
    ensures
      var (_, read, e) := ReadFrames(Wire(Stream(messages)[..n], script), |messages|);
      WholeFrames(messages, n, read, e)
    decreases |messages|
  {
    var m, tail := messages[0], messages[1..];
    var w := Wire(Stream(messages)[..n], script);
    if n < |Pack(m)| {
      assert w.data == Pack(m)[..n];
      CutFrame(m, n, script);
      CutInFirst(messages, n);
    } else {
      var n', script' := n - |Pack(m)|, AfterFrame(script, |m|).value;
      assert w.data == Pack(m) + Stream(tail)[..n'];
      FrameReads(m, Stream(tail)[..n'], script);
      RestIsUnbroken(script, 0, 0);
      RestIsUnbroken(AfterHeader(script, 0).value, 0, |m|);
      CutStream(tail, n', script');
      var (_, read, e) := ReadFrames(Wire(Stream(tail)[..n'], script'), |tail|);
      assert ReadFrames(w, |messages|).1 == [m] + read && ReadFrames(w, |messages|).2 == e;
      CutAfterFirst(m, tail, read, n', e);
      assert messages == [m] + tail;
    }
  }

  lemma CutInFirst(messages: seq<Bytes>, n: nat)
    requires messages != [] && n < |Pack(messages[0])|
    ensures WholeFrames(messages, n, [], Some(if n < 4 then RecvIo else RecvDisconnected))
  {
    StreamCons(messages[0], []);
    assert messages[..1] == [messages[0]] + [];
  }

  lemma CutAfterFirst(m: Bytes, tail: seq<Bytes>, read: seq<Bytes>, n: nat, e: Option<RecvError>)
    requires WholeFrames(tail, n, read, e)
    ensures WholeFrames([m] + tail, |Pack(m)| + n, [m] + read, e)
  {
    StreamCons(m, read);
    StreamCons(m, tail[..|read| + 1]);
    assert ([m] + tail)[..|read| + 1] == [m] + read;
    assert ([m] + tail)[..|read| + 2] == [m] + tail[..|read| + 1];
  }

  lemma StreamCons(m: Bytes, rest: seq<Bytes>)
    ensures Stream([m] + rest) == Pack(m) + Stream(rest)
  {
    assert ([m] + rest)[1..] == rest;
  }

  // -- What every successful read consumes --

  lemma {:induction false} HeaderConsumes(w: Wire)
    ensures
      var (w', r) := ReadHeader(w);
      r.Ok? ==> |w'.data| + 4 <= |w.data| && r.value < LENGTH_LIMIT
    decreases |w.script|
  {
    var (w', r) := ReadExact(w, [], 4);
    if r.ExactWouldBlock? {
      HeaderConsumes(w');
    } else if r.Exact? {
      FourBytesStayBelowLimit(r.bytes);
    }
  }

  lemma {:induction false} BodyConsumes(w: Wire, got: Bytes, k: nat)
    ensures
      var (w', r) := ReadBody(w, got, k);
      r.Ok? ==> |w'.data| + k == |w.data| && |r.value| == |got| + k
    decreases |w.script| + k
  {
    if k != 0 {
      match LowRead(w, k)
      case (w', Data(bytes)) =>
        if bytes != [] {
          BodyConsumes(w', got + bytes, k - |bytes|);
        }
      case (w', ReadInterrupted) => BodyConsumes(w', got, k);
      case (w', ReadWouldBlock) => BodyConsumes(w', got, k);
      case (w', ReadBroken) =>
    }
  }

  lemma FrameConsumes(w: Wire)
    ensures
      var (w', r) := ReadFrame(w);
      r.Ok? ==> |w'.data| + 4 + |r.value| <= |w.data| && |r.value| < LENGTH_LIMIT
  {
    HeaderConsumes(w);
    match ReadHeader(w)
    case (w', Ok(length)) => BodyConsumes(w', [], length);
    case (_, Err(_)) =>
  }

  lemma {:induction false} FramesConsume(w: Wire, count: nat)
    ensures
      var (w', read, e) := ReadFrames(w, count);
      e == None ==> |read| == count && |Stream(read)| + |w'.data| <= |w.data|
    decreases count
  {
    if count != 0 {
      FrameConsumes(w);
      match ReadFrame(w)
      case (_, Err(_)) =>
      case (w', Ok(m)) =>
        FramesConsume(w', count - 1);
        StreamCons(m, ReadFrames(w', count - 1).1);
    }
  }

  // -- Headers torn by a would-block --

  /** A torn header either has not begun, so nothing is lost yet, or loses at least one byte. */
  lemma {:induction false} TornHeaderLosesBytes(w: Wire, got: Bytes, k: nat)
    requires |got| + k == 4 && k <= |w.data| && AfterHeader(w.script, |got|).None?
    ensures
      var (w', r) := ReadExact(w, got, k);
      || r == ExactBroken
      || (&& r == ExactWouldBlock
          && (|w'.data| < |w.data| + |got| || (w'.data == w.data && got == [] && AfterHeader(w'.script, 0).None?)))
    decreases |w.script| + k
  {
    match LowRead(w, k)
    case (w', Data(bytes)) => TornHeaderLosesBytes(w', got + bytes, k - |bytes|);
    case (w', ReadInterrupted) => TornHeaderLosesBytes(w', got, k);
    case (w', ReadWouldBlock) =>
    case (w', ReadBroken) =>
  }

  /** If a length comes out of a torn header at all, more than four bytes went into it. */
  lemma {:induction false} TornHeaderReadsShort(w: Wire)
    requires 4 <= |w.data| && AfterHeader(w.script, 0).None?
    ensures
      var (w', r) := ReadHeader(w);
      r.Ok? ==> |w'.data| + 4 < |w.data|
    decreases |w.script|
  {
    TornHeaderLosesBytes(w, [], 4);
    var (w', r) := ReadExact(w, [], 4);
    if r.ExactWouldBlock? {
      if |w'.data| < |w.data| {
        HeaderConsumes(w');
      } else {
        TornHeaderReadsShort(w');
      }
    }
  }

  lemma {:induction false} BodyBreaks(w: Wire, got: Bytes, k: nat)
    requires k <= |w.data| && AfterBody(w.script, k).None?
    ensures ReadBody(w, got, k).1.Err?
    decreases |w.script| + k
  {
    match LowRead(w, k)
    case (w', Data(bytes)) => BodyBreaks(w', got + bytes, k - |bytes|);
    case (w', ReadInterrupted) => BodyBreaks(w', got, k);
    case (w', ReadWouldBlock) => BodyBreaks(w', got, k);
    case (w', ReadBroken) =>
  }

  /** A frame that is not spared can come back as its message only by eating into what follows it. */
  lemma UnsparedFrameReadsShort(w: Wire, m: Bytes, rest: Bytes)
    requires 4 <= |w.data| && FromBigEndian(w.data[..4]) == |m| && w.data[4..] == m + rest
    requires AfterFrame(w.script, |m|).None?
    ensures
      var (w', r) := ReadFrame(w);
      r == Ok(m) ==> |w'.data| < |rest|
  {
    if AfterHeader(w.script, 0).None? {
      TornHeaderReadsShort(w);
      match ReadHeader(w)
      case (w', Ok(length)) => BodyConsumes(w', [], length);
      case (_, Err(_)) =>
    } else {
      HeaderReads(w);
      BodyBreaks(Wire(m + rest, AfterHeader(w.script, 0).value), [], |m|);
    }
  }

  /** Exactly when one frame reads back: its length fits the cast, no would-block tears its header, nothing breaks. */
  lemma FrameReadsBackIff(m: Bytes, script: seq<Answer>)
    ensures ReadFrame(Wire(Pack(m), script)).1 == Ok(m) <==> |m| < LENGTH_LIMIT && AfterFrame(script, |m|).Some?
  {
    var w := Wire(Pack(m), script);
    FrameConsumes(w);
    FrameLayout(m, []);
    assert Pack(m) + [] == Pack(m);
    if |m| < LENGTH_LIMIT {
      if AfterFrame(script, |m|).Some? {
        FrameReads(m, [], script);
      } else {
        UnsparedFrameReadsShort(w, m, []);
      }
    }
  }

  /** Exactly which would-blocks are harmless, message by message: those before the header's first byte. */
  lemma WouldBlockIsHarmlessIff(m: Bytes, script: seq<Answer>)
    requires |m| < LENGTH_LIMIT && Broken !in script
    ensures ReadFrame(Wire(Pack(m), script)).1 == Ok(m) <==> AfterHeader(script, 0).Some?
  {
    FrameReadsBackIff(m, script);
    if AfterHeader(script, 0).Some? {
      RestIsUnbroken(script, 0, 0);
      UnbrokenBodyEnds(AfterHeader(script, 0).value, |m|);
    }
  }

  /** Such a script exists: one byte and then a would-block lose every message. */
  lemma TornHeaderLosesTheMessage(m: Bytes)
    requires |m| < LENGTH_LIMIT
    ensures ReadFrame(Wire(Pack(m), [Chunk(0), WouldBlock])).1 != Ok(m)
  {
    var script := [Chunk(0), WouldBlock];
    assert script[1..] == [WouldBlock];
    assert AfterHeader([WouldBlock], 1).None?;
    assert AfterHeader(script, 0) == AfterHeader(script[1..], 1);
    FrameReadsBackIff(m, script);
  }

  lemma {:induction false} UnbrokenBodyEnds(script: seq<Answer>, k: nat)
    requires Broken !in script
    ensures AfterBody(script, k).Some?
  {
    if script != [] && k != 0 {
      match script[0]
      case Chunk(extra) => UnbrokenBodyEnds(script[1..], k - Min(extra + 1, k));
      case Interrupted => UnbrokenBodyEnds(script[1..], k);
      case WouldBlock => UnbrokenBodyEnds(script[1..], k);
      case Broken => assert false;
    }
  }

  ghost predicate ReadsBack(messages: seq<Bytes>, script: seq<Answer>) {
    var (_, read, e) := ReadFrames(Wire(Stream(messages), script), |messages|);
    read == messages && e == None
  }

  ghost predicate Survives(messages: seq<Bytes>, script: seq<Answer>) {
    (forall m <- messages :: |m| < LENGTH_LIMIT) && Spares(script, messages)
  }

  lemma HeadAndTail(a: Bytes, more: seq<Bytes>, b: Bytes, bs: seq<Bytes>)
    ensures [a] + more == [b] + bs <==> a == b && more == bs
  {
    assert ([a] + more)[0] == a && ([a] + more)[1..] == more;
    assert ([b] + bs)[0] == b && ([b] + bs)[1..] == bs;
  }

  lemma ReadsBackStep(m: Bytes, tail: seq<Bytes>, script: seq<Answer>)
    requires |m| < LENGTH_LIMIT
    ensures
      ReadsBack([m] + tail, script)
      <==> AfterFrame(script, |m|).Some? && ReadsBack(tail, AfterFrame(script, |m|).value)
  {
    var messages, after := [m] + tail, Stream(tail);
    StreamCons(m, tail);
    var w := Wire(Pack(m) + after, script);
    FrameLayout(m, after);
    match ReadFrame(w)
    case (_, Err(_)) =>
      if AfterFrame(script, |m|).Some? {
        FrameReads(m, after, script);
      }
    case (w', Ok(first)) =>
      var (_, read, e) := ReadFrames(w', |tail|);
      assert ReadFrames(w, |messages|).1 == [first] + read && ReadFrames(w, |messages|).2 == e;
      HeadAndTail(first, read, m, tail);
      if AfterFrame(script, |m|).Some? {
        FrameReads(m, after, script);
      } else {
        UnsparedFrameReadsShort(w, m, after);
        FramesConsume(w', |tail|);
      }
  }

  /**
  Exactly when a whole stream reads back, for every stream and every script: each length fits the cast, and no
  header is torn by a would-block. A byte lost anywhere is never made up for later.
   */
  lemma {:induction false} StreamReadsBackIff(messages: seq<Bytes>, script: seq<Answer>)
    ensures ReadsBack(messages, script) <==> Survives(messages, script)
    decreases |messages|
  {
    if messages != [] {
      var m, tail := messages[0], messages[1..];
      assert messages == [m] + tail;
      if |m| < LENGTH_LIMIT {
        ReadsBackStep(m, tail, script);
        if AfterFrame(script, |m|).Some? {
          StreamReadsBackIff(tail, AfterFrame(script, |m|).value);
        }
      } else {
        FrameConsumes(Wire(Stream(messages), script));
      }
    }
  }

  // -- Writing --

  datatype SendError = SendIo | SendWouldBlock

  /** `Zero` is a write that takes nothing without an error. */
  datatype WriteAnswer = Took(extra: nat) | WriteInterrupted | WriteWouldBlock | Zero | WriteBroken

  datatype Flush = Flushed | FlushWouldBlock | FlushBroken

  /** Writes `packed` after `out`; a script that runs out means the rest is taken at once. */
  function WriteAll(packed: Bytes, out: Bytes, script: seq<WriteAnswer>): (Bytes, Option<SendError>)
    decreases |packed| + |script|
  {
    if packed == [] then (out, None)
    else if script == [] then (out + packed, None)
    else
      match script[0]
      case Took(extra) =>
        var n := Min(extra + 1, |packed|);
        WriteAll(packed[n..], out + packed[..n], script[1..])
      case WriteInterrupted => WriteAll(packed, out, script[1..])
      case WriteWouldBlock => WriteAll(packed, out, script[1..])
      case Zero => (out, Some(SendIo))
      case WriteBroken => (out, Some(SendIo))
  }

  function Write(m: Bytes, out: Bytes, script: seq<WriteAnswer>, flush: Flush): (Bytes, Option<SendError>) {
    match WriteAll(Pack(m), out, script)
    case (out', Some(e)) => (out', Some(e))
    case (out', None) =>
      (out', match flush
             case Flushed => None
             case FlushWouldBlock => Some(SendWouldBlock)
             case FlushBroken => Some(SendIo))
  }

  /** How many of `n` bytes the stream takes before the script fails it; interrupts and would-blocks do not. */
  function BytesTaken(script: seq<WriteAnswer>, n: nat): nat {
    if n == 0 || script == [] then n
    else
      match script[0]
      case Took(extra) => Min(extra + 1, n) + BytesTaken(script[1..], n - Min(extra + 1, n))
      case WriteInterrupted => BytesTaken(script[1..], n)
      case WriteWouldBlock => BytesTaken(script[1..], n)
      case Zero => 0
      case WriteBroken => 0
  }

  /** All `n` bytes go out: nothing fails before they are used up. */
  predicate GoesOut(script: seq<WriteAnswer>, n: nat) {
    BytesTaken(script, n) == n
  }

  lemma {:induction false} AtMostAllIsTaken(script: seq<WriteAnswer>, n: nat)
    ensures BytesTaken(script, n) <= n
    decreases |script|
  {
    if n != 0 && script != [] {
      AtMostAllIsTaken(script[1..], if script[0].Took? then n - Min(script[0].extra + 1, n) else n);
    }
  }

  /** Exactly what a write loop leaves on the stream, and exactly when it fails. */
  lemma {:induction false} WriteAllWritesInOrder(packed: Bytes, out: Bytes, script: seq<WriteAnswer>)
    ensures BytesTaken(script, |packed|) <= |packed|
    ensures
      WriteAll(packed, out, script)
      == (out + packed[..BytesTaken(script, |packed|)], if GoesOut(script, |packed|) then None else Some(SendIo))
    decreases |packed| + |script|
  {
    AtMostAllIsTaken(script, |packed|);
    if packed == [] || script == [] {
      assert packed[..|packed|] == packed && out + [] == out;
    } else {
      match script[0]
      case Took(extra) =>
        var n := Min(extra + 1, |packed|);
        WriteAllWritesInOrder(packed[n..], out + packed[..n], script[1..]);
        var k := BytesTaken(script[1..], |packed| - n);
        assert (out + packed[..n]) + packed[n..][..k] == out + packed[..n + k];
      case WriteInterrupted => WriteAllWritesInOrder(packed, out, script[1..]);
      case WriteWouldBlock => WriteAllWritesInOrder(packed, out, script[1..]);
      case Zero => assert out + packed[..0] == out;
      case WriteBroken => assert out + packed[..0] == out;
    }
  }

  /**
  Exactly when a write of a frame fails, and with what: the script decides whether the frame goes out, and then the
  flush. The mesh takes a would-block to mean that nothing was taken; here it comes iff the flush would block after the
  whole frame went out, so that reading of it is wrong every time.
   */
  lemma WriteAddsTheFrame(m: Bytes, out: Bytes, script: seq<WriteAnswer>, flush: Flush)
    ensures
      var (out', e) := Write(m, out, script, flush);
      var written := GoesOut(script, 4 + |m|);
      && (e == None <==> written && flush == Flushed)
      && (e == Some(SendWouldBlock) <==> written && flush == FlushWouldBlock)
      && (e == Some(SendIo) <==> !written || flush == FlushBroken)
      && (written ==> out' == out + Pack(m) && out' != out)
      && BytesTaken(script, 4 + |m|) <= 4 + |m| == |Pack(m)|
      && out' == out + Pack(m)[..BytesTaken(script, 4 + |m|)]
      && out <= out' <= out + Pack(m)
  {
    WriteAllWritesInOrder(Pack(m), out, script);
    assert Pack(m)[..|Pack(m)|] == Pack(m);
  }

  /** What that costs: a caller that retries after a would-block puts the frame on the stream twice. */
  lemma RetryAfterFlushDuplicates(m: Bytes, out: Bytes, first: seq<WriteAnswer>, second: seq<WriteAnswer>)
    requires Write(m, out, first, FlushWouldBlock).1 == Some(SendWouldBlock)
    requires Write(m, Write(m, out, first, FlushWouldBlock).0, second, Flushed).1 == None
    ensures Write(m, Write(m, out, first, FlushWouldBlock).0, second, Flushed).0 == out + Pack(m) + Pack(m)
  {
    WriteAddsTheFrame(m, out, first, FlushWouldBlock);
    WriteAddsTheFrame(m, out + Pack(m), second, Flushed);
  }

  /** The mesh's retries: every attempt but the last ends in a would-block from the flush. */
  function WriteRetrying(m: Bytes, out: Bytes, attempts: seq<seq<WriteAnswer>>): (Bytes, Option<SendError>)
    decreases |attempts|
  {
    if attempts == [] then (out, Some(SendWouldBlock))
    else
      match Write(m, out, attempts[0], if |attempts| == 1 then Flushed else FlushWouldBlock)
      case (out', Some(SendWouldBlock)) => WriteRetrying(m, out', attempts[1..])
      case (out', e) => (out', e)
  }

  /** One message after the other, each with its own attempts. */
  function WriteMessages(messages: seq<Bytes>, out: Bytes, attempts: seq<seq<seq<WriteAnswer>>>)
    : (Bytes, Option<SendError>)
    requires |attempts| == |messages|
    decreases |messages|
  {
    if messages == [] then (out, None)
    else
      match WriteRetrying(messages[0], out, attempts[0])
      case (out', Some(e)) => (out', Some(e))
      case (out', None) => WriteMessages(messages[1..], out', attempts[1..])
  }

  function Times(m: Bytes, n: nat): seq<Bytes> {
    if n == 0 then [] else [m] + Times(m, n - 1)
  }

  /** Every message as often as it was attempted. */
  function Repeated(messages: seq<Bytes>, attempts: seq<seq<seq<WriteAnswer>>>): seq<Bytes>
    requires |attempts| == |messages|
  {
    if messages == [] then [] else Times(messages[0], |attempts[0]|) + Repeated(messages[1..], attempts[1..])
  }

  predicate AllAttempted(attempts: seq<seq<seq<WriteAnswer>>>) {
    forall i | 0 <= i < |attempts| :: |attempts[i]| > 0
  }

  /** No flush would have blocked. */
  predicate OneAttemptEach(attempts: seq<seq<seq<WriteAnswer>>>) {
    forall i | 0 <= i < |attempts| :: |attempts[i]| == 1
  }

  /** Every attempt at every message goes out, and there is at least one. */
  predicate AllGoOut(messages: seq<Bytes>, attempts: seq<seq<seq<WriteAnswer>>>)
    requires |attempts| == |messages|
  {
    && AllAttempted(attempts)
    && forall i, j | 0 <= i < |messages| && 0 <= j < |attempts[i]| :: GoesOut(attempts[i][j], 4 + |messages[i]|)
  }

  lemma {:induction false} RetriesSucceedIff(m: Bytes, out: Bytes, attempts: seq<seq<WriteAnswer>>)
    ensures
      WriteRetrying(m, out, attempts).1 == None
      <==> attempts != [] && forall j | 0 <= j < |attempts| :: GoesOut(attempts[j], 4 + |m|)
    decreases |attempts|
  {
    if attempts != [] {
      var rest := attempts[1..];
      WriteAddsTheFrame(m, out, attempts[0], if |attempts| == 1 then Flushed else FlushWouldBlock);
      assert forall j | 0 <= j < |rest| :: rest[j] == attempts[j + 1];
      if |attempts| > 1 && GoesOut(attempts[0], 4 + |m|) {
        RetriesSucceedIff(m, out + Pack(m), rest);
        assert forall j | 0 < j < |attempts| :: attempts[j] == rest[j - 1];
      }
    }
  }

  /** Exactly when all messages are written. */
  lemma {:induction false} MessagesGoOutIff(messages: seq<Bytes>, out: Bytes, attempts: seq<seq<seq<WriteAnswer>>>)
    requires |attempts| == |messages|
    ensures WriteMessages(messages, out, attempts).1 == None <==> AllGoOut(messages, attempts)
    decreases |messages|
  {
    if messages != [] {
      var tail, rest := messages[1..], attempts[1..];
      RetriesSucceedIff(messages[0], out, attempts[0]);
      assert forall i | 0 <= i < |tail| :: tail[i] == messages[i + 1] && rest[i] == attempts[i + 1];
      assert forall i | 0 < i < |messages| :: messages[i] == tail[i - 1] && attempts[i] == rest[i - 1];
      if WriteRetrying(messages[0], out, attempts[0]).1 == None {
        MessagesGoOutIff(tail, WriteRetrying(messages[0], out, attempts[0]).0, rest);
      }
    }
  }

  lemma {:induction false} StreamJoins(a: seq<Bytes>, b: seq<Bytes>)
    ensures Stream(a + b) == Stream(a) + Stream(b)
  {
    if a == [] {
      assert a + b == b;
    } else {
      StreamJoins(a[1..], b);
      StreamCons(a[0], a[1..] + b);
      assert a + b == [a[0]] + (a[1..] + b);
      Regroup(Pack(a[0]), Stream(a[1..]), Stream(b));
    }
  }

  lemma {:induction false} RetriesRepeatTheFrame(m: Bytes, out: Bytes, attempts: seq<seq<WriteAnswer>>)
    ensures
      var (out', e) := WriteRetrying(m, out, attempts);
      e == None ==> attempts != [] && out' == out + Stream(Times(m, |attempts|))
    decreases |attempts|
  {
    if attempts != [] {
      var flush := if |attempts| == 1 then Flushed else FlushWouldBlock;
      WriteAddsTheFrame(m, out, attempts[0], flush);
      StreamCons(m, Times(m, |attempts| - 1));
      if |attempts| > 1 {
        RetriesRepeatTheFrame(m, out + Pack(m), attempts[1..]);
        Regroup(out, Pack(m), Stream(Times(m, |attempts| - 1)));
      } else {
        assert Stream(Times(m, 1)) == Pack(m) + [] == Pack(m);
      }
    }
  }

  lemma {:induction false} MessagesAreWrittenInOrder(messages: seq<Bytes>, out: Bytes,
                                                     attempts: seq<seq<seq<WriteAnswer>>>)
    requires |attempts| == |messages|
    ensures
      var (out', e) := WriteMessages(messages, out, attempts);
      e == None ==> AllAttempted(attempts) && out' == out + Stream(Repeated(messages, attempts))
    decreases |messages|
  {
    if messages == [] {
      assert out + Stream([]) == out;
    } else {
      var m, tail := messages[0], messages[1..];
      var first, rest := Stream(Times(m, |attempts[0]|)), Stream(Repeated(tail, attempts[1..]));
      RetriesRepeatTheFrame(m, out, attempts[0]);
      StreamJoins(Times(m, |attempts[0]|), Repeated(tail, attempts[1..]));
      MessagesAreWrittenInOrder(tail, out + first, attempts[1..]);
      Regroup(out, first, rest);
    }
  }

  lemma {:induction false} TimesLength(m: Bytes, n: nat)
    ensures |Times(m, n)| == n
  {
    if n != 0 {
      TimesLength(m, n - 1);
    }
  }

  /** Without repetition every message is there once; with any, there are too many. */
  lemma {:induction false} RepeatedIffRetried(messages: seq<Bytes>, attempts: seq<seq<seq<WriteAnswer>>>)
    requires |attempts| == |messages| && AllAttempted(attempts)
    ensures |Repeated(messages, attempts)| >= |messages|
    ensures |Repeated(messages, attempts)| == |messages| <==> OneAttemptEach(attempts)
    ensures Repeated(messages, attempts) == messages <==> OneAttemptEach(attempts)
    decreases |messages|
  {
    if messages != [] {
      var m, tail := messages[0], messages[1..];
      assert attempts == [attempts[0]] + attempts[1..];
      TimesLength(m, |attempts[0]|);
      RepeatedIffRetried(tail, attempts[1..]);
      if |attempts[0]| == 1 {
        assert Times(m, 1) == [m] && messages == [m] + tail;
      }
    }
  }

  /** All frames that were written, read until there are no more. */
  function Received(messages: seq<Bytes>, attempts: seq<seq<seq<WriteAnswer>>>, chunks: seq<Answer>)
    : (seq<Bytes>, Option<RecvError>)
    requires |attempts| == |messages|
  {
    var (_, read, e) :=
      ReadFrames(Wire(WriteMessages(messages, [], attempts).0, chunks), |Repeated(messages, attempts)|);
    (read, e)
  }

  /**
  The round trip, and exactly when it holds: if nothing breaks the writes, however they are split and interrupted, the
  reader gets what was written, message by message, iff every length fits the cast and no header is torn; and that is
  the messages themselves iff no flush would have blocked.
   */
  lemma RoundTrip(messages: seq<Bytes>, attempts: seq<seq<seq<WriteAnswer>>>, chunks: seq<Answer>)
    requires |attempts| == |messages| && AllGoOut(messages, attempts)
    ensures
      var written := Repeated(messages, attempts);
      && WriteMessages(messages, [], attempts) == (Stream(written), None)
      && (Received(messages, attempts, chunks) == (written, None) <==> Survives(written, chunks))
      && (written == messages <==> OneAttemptEach(attempts))
  {
    MessagesGoOutIff(messages, [], attempts);
    MessagesAreWrittenInOrder(messages, [], attempts);
    var written := Repeated(messages, attempts);
    assert [] + Stream(written) == Stream(written);
    StreamReadsBackIff(written, chunks);
    RepeatedIffRetried(messages, attempts);
  }
}
