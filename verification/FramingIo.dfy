/** Framing as it is written: loops over a shrinking slice of a buffer, proved against `Framing`. */
module FramingIo {
  import opened Prelude
  import opened Framing

  datatype LowResult = Count(n: nat) | LowInterrupted | LowWouldBlock | LowBroken

  /** What the call answered, with the bytes it put into the buffer. */
  ghost function Answered(r: LowResult, bytes: Bytes): ReadResult {
    match r
    case Count(_) => Data(bytes)
    case LowInterrupted => ReadInterrupted
    case LowWouldBlock => ReadWouldBlock
    case LowBroken => ReadBroken
  }

  class Reader {
    var data: Bytes
    var script: seq<Answer>

    constructor (data: Bytes, script: seq<Answer>)
      ensures State() == Wire(data, script)
    {
      this.data, this.script := data, script;
    }

    ghost function State(): Wire
      reads this
    {
      Wire(data, script)
    }

    /** Fills part of the buffer from `start` on and says how much. */
    method ReadInto(buffer: array<Byte>, start: nat) returns (r: LowResult, ghost bytes: Bytes)
      requires start <= buffer.Length
      modifies this, buffer
      ensures (State(), Answered(r, bytes)) == LowRead(old(State()), buffer.Length - start)
      ensures start + |bytes| <= buffer.Length && r.Count? == (r == Count(|bytes|)) && (!r.Count? ==> bytes == [])
      ensures buffer[..start + |bytes|] == old(buffer[..start]) + bytes
    {
      bytes := [];
      var wanted := buffer.Length - start;
      var n := Min(wanted, |data|);
      if script != [] {
        var answer := script[0];
        script := script[1..];
        match answer {
          case Chunk(extra) => n := Min(Min(extra + 1, wanted), |data|);
          case Interrupted => return LowInterrupted, [];
          case WouldBlock => return LowWouldBlock, [];
          case Broken => return LowBroken, [];
        }
      }
      bytes := data[..n];
      forall i | 0 <= i < n {
        buffer[start + i] := data[i];
      }
      assert buffer[..start + n] == old(buffer[..start]) + bytes;
      data := data[n..];
      r := Count(n);
    }
  }

  lemma ReadExactGoesOn(w: Wire, got: Bytes, k: nat, w': Wire, low: ReadResult)
    requires k != 0 && LowRead(w, k) == (w', low)
    ensures low.Data? && low.bytes != [] ==>
              |low.bytes| <= k && ReadExact(w, got, k) == ReadExact(w', got + low.bytes, k - |low.bytes|)
    ensures low == Data([]) ==> ReadExact(w, got, k) == (w', ExactEof)
    ensures low == ReadInterrupted ==> ReadExact(w, got, k) == ReadExact(w', got, k) && |w'.script| < |w.script|
    ensures low == ReadWouldBlock ==> ReadExact(w, got, k) == (w', ExactWouldBlock)
    ensures low == ReadBroken ==> ReadExact(w, got, k) == (w', ExactBroken)
  {
  }

  lemma ReadBodyGoesOn(w: Wire, got: Bytes, k: nat, w': Wire, low: ReadResult)
    requires k != 0 && LowRead(w, k) == (w', low)
    ensures low.Data? && low.bytes != [] ==>
              |low.bytes| <= k && ReadBody(w, got, k) == ReadBody(w', got + low.bytes, k - |low.bytes|)
    ensures low == Data([]) ==> ReadBody(w, got, k) == (w', Err(RecvDisconnected))
    ensures low in {ReadInterrupted, ReadWouldBlock} ==>
              ReadBody(w, got, k) == ReadBody(w', got, k) && |w'.script| < |w.script|
    ensures low == ReadBroken ==> ReadBody(w, got, k) == (w', Err(RecvIo))
  {
  }

  /** One low-level read towards a full buffer: either that ends it, or more of the buffer is filled. */
  method FillSome(reader: Reader, buffer: array<Byte>, filled: nat) returns (end: Option<ExactResult>, now: nat)
    requires filled < buffer.Length
    modifies reader, buffer
    ensures filled <= now <= buffer.Length
    ensures end.None? ==> |reader.script| - now < old(|reader.script|) - filled
    ensures end.Some? ==>
              ReadExact(old(reader.State()), old(buffer[..filled]), buffer.Length - filled)
              == (reader.State(), end.value)
    ensures end.None? ==>
              ReadExact(old(reader.State()), old(buffer[..filled]), buffer.Length - filled)
              == ReadExact(reader.State(), buffer[..now], buffer.Length - now)
  {
    ghost var w, got, k := reader.State(), buffer[..filled], buffer.Length - filled;
    var low, bytes := reader.ReadInto(buffer, filled);
    ReadExactGoesOn(w, got, k, reader.State(), Answered(low, bytes));
    match low {
      case Count(n) =>
        if n == 0 {
          return Some(ExactEof), filled;
        }
        return None, filled + n;
      case LowInterrupted =>
        assert buffer[..filled] == got;
        return None, filled;
      case LowWouldBlock => return Some(ExactWouldBlock), filled;
      case LowBroken => return Some(ExactBroken), filled;
    }
  }

  lemma FullBufferEnds(w: Wire, got: Bytes)
    ensures ReadExact(w, got, 0) == (w, Exact(got))
  {
  }

  /** Fills the whole buffer or fails; what was read before a failure is gone from the stream. */
  method ReadExactly(reader: Reader, buffer: array<Byte>) returns (r: ExactResult)
    modifies reader, buffer
    ensures (reader.State(), r) == ReadExact(old(reader.State()), [], buffer.Length)
  {
    var filled := 0;
    assert buffer[..0] == [];
    while filled < buffer.Length
      invariant 0 <= filled <= buffer.Length
      invariant ReadExact(reader.State(), buffer[..filled], buffer.Length - filled)
                == ReadExact(old(reader.State()), [], buffer.Length)
      decreases |reader.script| + buffer.Length - filled
    {
      var end;
      end, filled := FillSome(reader, buffer, filled);
      if end.Some? {
        return end.value;
      }
    }
    assert buffer[..filled] == buffer[..];
    FullBufferEnds(reader.State(), buffer[..]);
    return Exact(buffer[..]);
  }

  method ReadLength(reader: Reader) returns (r: Result<nat, RecvError>)
    modifies reader
    ensures (reader.State(), r) == ReadHeader(old(reader.State()))
  {
    while true
      invariant ReadHeader(reader.State()) == ReadHeader(old(reader.State()))
      decreases |reader.script|
    {
      var header := new Byte[4];
      var exact := ReadExactly(reader, header);
      match exact {
        case ExactWouldBlock =>
        case ExactEof => return Err(RecvIo);
        case ExactBroken => return Err(RecvIo);
        case Exact(bytes) => return Ok(FromBigEndian(bytes));
      }
    }
  }

  datatype Progress = Going(filled: nat) | EndOfStream | Failing

  /** One low-level read towards a full body; a would-block is no more than a reason to try again. */
  method ReadSome(reader: Reader, buffer: array<Byte>, filled: nat) returns (p: Progress)
    requires filled < buffer.Length
    modifies reader, buffer
    ensures p.Going? ==>
              filled <= p.filled <= buffer.Length && |reader.script| - p.filled < old(|reader.script|) - filled
    ensures p.Going? ==>
              ReadBody(old(reader.State()), old(buffer[..filled]), buffer.Length - filled)
              == ReadBody(reader.State(), buffer[..p.filled], buffer.Length - p.filled)
    ensures p.EndOfStream? ==>
              ReadBody(old(reader.State()), old(buffer[..filled]), buffer.Length - filled)
              == (reader.State(), Err(RecvDisconnected))
    ensures p.Failing? ==>
              ReadBody(old(reader.State()), old(buffer[..filled]), buffer.Length - filled)
              == (reader.State(), Err(RecvIo))
  {
    ghost var w, got, k := reader.State(), buffer[..filled], buffer.Length - filled;
    var low, bytes := reader.ReadInto(buffer, filled);
    ReadBodyGoesOn(w, got, k, reader.State(), Answered(low, bytes));
    match low {
      case Count(n) =>
        if n == 0 {
          return EndOfStream;
        }
        return Going(filled + n);
      case LowInterrupted =>
        assert buffer[..filled] == got;
        return Going(filled);
      case LowWouldBlock =>
        assert buffer[..filled] == got;
        return Going(filled);
      case LowBroken => return Failing;
    }
  }

  lemma FullBodyEnds(w: Wire, got: Bytes)
    ensures ReadBody(w, got, 0) == (w, Ok(got))
  {
  }

  method Read(reader: Reader) returns (r: Result<Bytes, RecvError>)
    modifies reader
    ensures (reader.State(), r) == ReadFrame(old(reader.State()))
  {
    var length := ReadLength(reader);
    if length.Err? {
      return Err(length.error);
    }
    var buffer := new Byte[length.value];
    var filled := 0;
    assert buffer[..0] == [];
    while filled < buffer.Length
      invariant 0 <= filled <= buffer.Length
      invariant ReadBody(reader.State(), buffer[..filled], buffer.Length - filled) == ReadFrame(old(reader.State()))
      decreases |reader.script| + buffer.Length - filled
    {
      var progress := ReadSome(reader, buffer, filled);
      match progress {
        case Going(now) => filled := now;
        case EndOfStream => return Err(RecvDisconnected);
        case Failing => return Err(RecvIo);
      }
    }
    assert buffer[..filled] == buffer[..];
    FullBodyEnds(reader.State(), buffer[..]);
    return Ok(buffer[..]);
  }

  class Writer {
    var out: Bytes
    var script: seq<WriteAnswer>

    constructor (script: seq<WriteAnswer>)
      ensures out == [] && this.script == script
    {
      out, this.script := [], script;
    }
  }

  method PackMessage(buffer: Bytes) returns (packed: Bytes)
    ensures packed == Pack(buffer)
  {
    packed := BigEndian(|buffer| % LENGTH_LIMIT);
    packed := packed + buffer;
  }

  method WriteFrame(writer: Writer, message: Bytes, flush: Flush) returns (r: Option<SendError>)
    modifies writer
    ensures (writer.out, r) == Write(message, old(writer.out), old(writer.script), flush)
  {
    var packed := PackMessage(message);
    while packed != []
      invariant WriteAll(packed, writer.out, writer.script)
                == WriteAll(Pack(message), old(writer.out), old(writer.script))
      decreases |packed| + |writer.script|
    {
      if writer.script == [] {
        writer.out, packed := writer.out + packed, [];
      } else {
        var answer := writer.script[0];
        writer.script := writer.script[1..];
        match answer {
          case Took(extra) =>
            var n := Min(extra + 1, |packed|);
            writer.out := writer.out + packed[..n];
            packed := packed[n..];
          case WriteInterrupted =>
          case WriteWouldBlock =>
          case Zero => return Some(SendIo);
          case WriteBroken => return Some(SendIo);
        }
      }
    }
    match flush {
      case Flushed => return None;
      case FlushWouldBlock => return Some(SendWouldBlock);
      case FlushBroken => return Some(SendIo);
    }
  }
}
