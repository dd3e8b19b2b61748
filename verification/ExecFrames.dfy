/** The exec stream (internal/agentproto/agentproto.go, cmd/hopbox-agent/main.go):
    frames [type:1][len:4][payload], two multiplexed output streams and a signed exit code. */
module ExecFrames {
  import opened Common

  type Byte = x: int | 0 <= x < 256
  type Int32 = x: int | -0x8000_0000 <= x < 0x8000_0000

  const STDOUT: Byte := 1
  const STDERR: Byte := 2
  const EXIT: Byte := 3
  const MAX_FRAME := 65536
  const EXEC_CHUNK := 32768

  // ---- big-endian words ----

  function PutU32(n: nat): (b: seq<Byte>)
    requires n < 0x1_0000_0000
    ensures |b| == 4
  {
    [n / 256 / 256 / 256, n / 256 / 256 % 256, n / 256 % 256, n % 256]
  }

  function Word(hi: nat, lo: nat): nat {
    hi * 256 + lo
  }

  function U32(b: seq<Byte>): nat
    requires |b| == 4
  {
    Word(Word(Word(b[0], b[1]), b[2]), b[3])
  }

  lemma U32RoundTrip(n: nat)
    requires n < 0x1_0000_0000
    ensures U32(PutU32(n)) == n
  {
    assert Word(n / 256, n % 256) == n;
    assert Word(n / 256 / 256, n / 256 % 256) == n / 256;
    assert Word(n / 256 / 256 / 256, n / 256 / 256 % 256) == n / 256 / 256;
  }

  lemma WordParts(hi: nat, lo: nat)
    requires lo < 256
    ensures Word(hi, lo) / 256 == hi && Word(hi, lo) % 256 == lo
  {
  }

  lemma PutU32RoundTrip(b: seq<Byte>)
    requires |b| == 4
    ensures U32(b) < 0x1_0000_0000 && PutU32(U32(b)) == b
  {
    var b1 := Word(b[0], b[1]);
    var b2 := Word(b1, b[2]);
    WordParts(b[0], b[1]);
    WordParts(b1, b[2]);
    WordParts(b2, b[3]);
  }

  /** uint32(code): two's complement. */
  function Unsigned(code: Int32): nat {
    if code < 0 then code + 0x1_0000_0000 else code
  }

  /** int32(u) */
  function Signed(u: nat): Int32
    requires u < 0x1_0000_0000
  {
    if u >= 0x8000_0000 then u - 0x1_0000_0000 else u
  }

  // ---- one frame ----

  datatype Frame = Data(typ: Byte, data: seq<Byte>) | Exit(code: Int32)

  /** What a writer may frame: any type but exit's, a payload within the cap. */
  predicate Valid(f: Frame) {
    f.Data? ==> f.typ != EXIT && |f.data| <= MAX_FRAME
  }

  function Header(typ: Byte, len: nat): (h: seq<Byte>)
    requires len <= MAX_FRAME
    ensures |h| == 5
  {
    [typ] + PutU32(len)
  }

  function Encode(f: Frame): seq<Byte>
    requires Valid(f)
  {
    match f
    case Data(typ, data) => Header(typ, |data|) + data
    case Exit(code) => Header(EXIT, 4) + PutU32(Unsigned(code))
  }

  datatype Read = Stopped | Got(frame: Frame, rest: seq<Byte>)

  /** ReadExecFrame on the bytes still to come; every failure reads as one kind of error. */
  function Decode(b: seq<Byte>): Read {
    if |b| < 5 then Stopped
    else
      var n := U32(b[1..5]);
      if n > MAX_FRAME || |b| - 5 < n then Stopped
      else if b[0] == EXIT then
        (if n != 4 then Stopped else (PutU32RoundTrip(b[5..9]); Got(Exit(Signed(U32(b[5..9]))), b[9..])))
      else Got(Data(b[0], b[5..5 + n]), b[5 + n..])
  }

  lemma HeaderFields(typ: Byte, len: nat, tail: seq<Byte>)
    requires len <= MAX_FRAME
    ensures var b := Header(typ, len) + tail;
            |b| >= 5 && b[0] == typ && U32(b[1..5]) == len && b[5..] == tail
  {
    var b := Header(typ, len) + tail;
    assert b[1..5] == PutU32(len);
    U32RoundTrip(len);
  }

  /** What was framed is what is read, whatever follows. */
  lemma DecodeEncode(f: Frame, rest: seq<Byte>)
    requires Valid(f)
    ensures Decode(Encode(f) + rest) == Got(f, rest)
  {
    match f {
      case Data(typ, data) =>
        var b := Header(typ, |data|) + (data + rest);
        Associative(Header(typ, |data|), data, rest);
        HeaderFields(typ, |data|, data + rest);
        assert b[5..5 + |data|] == data && b[5 + |data|..] == rest;
        hide Header, U32;
      case Exit(code) =>
        var w := PutU32(Unsigned(code));
        var b := Header(EXIT, 4) + (w + rest);
        Associative(Header(EXIT, 4), w, rest);
        HeaderFields(EXIT, 4, w + rest);
        assert b[5..9] == w && b[9..] == rest;
        U32RoundTrip(Unsigned(code));
        hide Header, U32, PutU32;
    }
  }

  /** The reader accepts nothing else: what it read is exactly the encoding of what it returns. */
  lemma EncodeDecode(b: seq<Byte>)
    requires Decode(b).Got?
    ensures Valid(Decode(b).frame) && b == Encode(Decode(b).frame) + Decode(b).rest
  {
    hide Header, U32, PutU32;
    var n := U32(b[1..5]);
    HeaderIs(b);
    if b[0] == EXIT {
      PutU32RoundTrip(b[5..9]);
      SignedRoundTrip(U32(b[5..9]));
      ThreeParts(b, b[..5], b[5..9], b[9..]);
    } else {
      ThreeParts(b, b[..5], b[5..5 + n], b[5 + n..]);
    }
  }

  lemma SignedRoundTrip(u: nat)
    requires u < 0x1_0000_0000
    ensures Unsigned(Signed(u)) == u
  {
  }

  lemma HeaderIs(b: seq<Byte>)
    requires |b| >= 5 && U32(b[1..5]) <= MAX_FRAME
    ensures Header(b[0], U32(b[1..5])) == b[..5]
  {
    PutU32RoundTrip(b[1..5]);
    hide U32, PutU32;
  }

  // ---- a stream of frames ----

  predicate AllValid(fs: seq<Frame>) {
    forall i :: 0 <= i < |fs| ==> Valid(fs[i])
  }

  function EncodeAll(fs: seq<Frame>): seq<Byte>
    requires AllValid(fs)
  {
    if fs == [] then [] else Encode(fs[0]) + EncodeAll(fs[1..])
  }

  /** The frames read until the first error. */
  function DecodeAll(b: seq<Byte>): seq<Frame>
    decreases |b|
  {
    match Decode(b)
    case Stopped => []
    case Got(f, rest) => if |rest| < |b| then [f] + DecodeAll(rest) else []
  }

  lemma EncodeNonEmpty(f: Frame)
    requires Valid(f)
    ensures |Encode(f)| >= 5
  {
  }

  lemma DecodeAllCons(f: Frame, rest: seq<Byte>)
    requires Valid(f)
    ensures DecodeAll(Encode(f) + rest) == [f] + DecodeAll(rest)
  {
    EncodeNonEmpty(f);
    DecodeEncode(f, rest);
    hide Encode, Decode;
  }

  /** A frame cut short reads as an error. */
  lemma CutFrameStops(f: Frame, k: nat)
    requires Valid(f) && k < |Encode(f)|
    ensures Decode(Encode(f)[..k]) == Stopped
  {
    var b := Encode(f)[..k];
    if k >= 5 {
      var n := if f.Data? then |f.data| else 4;
      var payload := if f.Data? then f.data else PutU32(Unsigned(f.code));
      HeaderFields(if f.Data? then f.typ else EXIT, n, payload);
      assert b[1..5] == Encode(f)[1..5];
      hide Header, U32, PutU32;
    }
  }

  /** Cut after k bytes, the stream reads as its first j frames: the ones that fit whole. */
  ghost predicate ReadsAs(fs: seq<Frame>, k: nat, j: nat)
    requires AllValid(fs) && k <= |EncodeAll(fs)| && j <= |fs|
  {
    && DecodeAll(EncodeAll(fs)[..k]) == fs[..j]
    && |EncodeAll(fs[..j])| <= k && (j < |fs| ==> k < |EncodeAll(fs[..j + 1])|)
  }

  lemma CutInHead(fs: seq<Frame>, k: nat)
    requires AllValid(fs) && fs != [] && k < |Encode(fs[0])|
    ensures k <= |EncodeAll(fs)| && ReadsAs(fs, k, 0)
  {
    CutFrameStops(fs[0], k);
    TakeLeft(Encode(fs[0]), EncodeAll(fs[1..]), k);
    EncodeAllOne(fs[0]);
    hide Encode, Decode;
    assert fs[..1] == [fs[0]] && fs[..0] == [];
  }

  lemma CutInTail(fs: seq<Frame>, k: nat, j: nat)
    requires AllValid(fs) && fs != [] && |Encode(fs[0])| <= k <= |EncodeAll(fs)| && j <= |fs[1..]|
    requires ReadsAs(fs[1..], k - |Encode(fs[0])|, j)
    ensures ReadsAs(fs, k, j + 1)
  {
    hide Encode, Decode, DecodeAll;
    var e, tail := Encode(fs[0]), EncodeAll(fs[1..]);
    TakeRight(e, tail, k);
    DecodeAllCons(fs[0], tail[..k - |e|]);
    PrefixCons(fs, j);
    if j < |fs[1..]| {
      PrefixCons(fs, j + 1);
    }
  }

  /** Any cut of the byte stream decodes to the frames that fit whole before the cut, and then an error. */
  lemma {:induction false} CutDecodesToPrefix(fs: seq<Frame>, k: nat) returns (j: nat)
    requires AllValid(fs) && k <= |EncodeAll(fs)|
    ensures j <= |fs| && ReadsAs(fs, k, j)
  {
    j := 0;
    if fs == [] {
      assert fs[..0] == [] && EncodeAll(fs)[..k] == [];
    } else if k < |Encode(fs[0])| {
      CutInHead(fs, k);
    } else {
      hide Encode, ReadsAs;
      var i := CutDecodesToPrefix(fs[1..], k - |Encode(fs[0])|);
      CutInTail(fs, k, i);
      j := i + 1;
    }
  }

  lemma EncodeAllOne(f: Frame)
    requires Valid(f)
    ensures EncodeAll([f]) == Encode(f)
  {
    assert [f][1..] == [];
  }

  lemma PrefixCons(fs: seq<Frame>, j: nat)
    requires AllValid(fs) && fs != [] && j <= |fs[1..]|
    ensures fs[..j + 1] == [fs[0]] + fs[1..][..j]
    ensures |EncodeAll(fs[..j + 1])| == |Encode(fs[0])| + |EncodeAll(fs[1..][..j])|
  {
    assert fs[..j + 1][1..] == fs[1..][..j];
  }

  /** The whole stream reads back frame by frame. */
  lemma {:induction false} StreamRoundTrip(fs: seq<Frame>)
    requires AllValid(fs)
    ensures DecodeAll(EncodeAll(fs)) == fs
  {
    if fs != [] {
      StreamRoundTrip(fs[1..]);
      DecodeAllCons(fs[0], EncodeAll(fs[1..]));
    }
  }

  // ---- what the agent writes ----

  /** The frames execWriter makes of one Write. */
  function Chunks(typ: Byte, p: seq<Byte>): seq<Frame>
    decreases |p|
  {
    if p == [] then []
    else if |p| <= EXEC_CHUNK then [Data(typ, p)]
    else [Data(typ, p[..EXEC_CHUNK])] + Chunks(typ, p[EXEC_CHUNK..])
  }

  datatype Output = Output(typ: Byte, data: seq<Byte>)

  /** The frames of a run: interleaved Writes to the two outputs, then the exit code. */
  function Session(ws: seq<Output>, code: Int32): seq<Frame> {
    if ws == [] then [Exit(code)] else Chunks(ws[0].typ, ws[0].data) + Session(ws[1..], code)
  }

  /** Everything framed for output typ, in order. */
  function Collected(fs: seq<Frame>, typ: Byte): seq<Byte> {
    if fs == [] then []
    else (if fs[0].Data? && fs[0].typ == typ then fs[0].data else []) + Collected(fs[1..], typ)
  }

  function Written(ws: seq<Output>, typ: Byte): seq<Byte> {
    if ws == [] then []
    else (if ws[0].typ == typ then ws[0].data else []) + Written(ws[1..], typ)
  }

  lemma {:induction false} CollectedConcat(fs: seq<Frame>, gs: seq<Frame>, typ: Byte)
    ensures Collected(fs + gs, typ) == Collected(fs, typ) + Collected(gs, typ)
  {
    if fs == [] {
      assert fs + gs == gs;
    } else {
      assert (fs + gs)[1..] == fs[1..] + gs;
      CollectedConcat(fs[1..], gs, typ);
      Associative(if fs[0].Data? && fs[0].typ == typ then fs[0].data
                  else [], Collected(fs[1..], typ), Collected(gs, typ));
    }
  }

  /** Chunking loses nothing, adds nothing, and stays under the cap. */
  lemma {:induction false} ChunksCarry(typ: Byte, p: seq<Byte>, other: Byte)
    requires typ != EXIT
    ensures AllValid(Chunks(typ, p))
    ensures forall f :: f in Chunks(typ, p) ==> f.Data? && f.typ == typ && 0 < |f.data| <= EXEC_CHUNK < MAX_FRAME
    ensures Collected(Chunks(typ, p), other) == if other == typ then p else []
    decreases |p|
  {
    if |p| > EXEC_CHUNK {
      var f := Data(typ, p[..EXEC_CHUNK]);
      ChunksCarry(typ, p[EXEC_CHUNK..], other);
      assert ([f] + Chunks(typ, p[EXEC_CHUNK..]))[1..] == Chunks(typ, p[EXEC_CHUNK..]);
      assert p == p[..EXEC_CHUNK] + p[EXEC_CHUNK..];
    } else if p != [] {
      assert [Data(typ, p)][1..] == [];
    }
  }

  ghost predicate Outputs(ws: seq<Output>) {
    forall i :: 0 <= i < |ws| ==> ws[i].typ == STDOUT || ws[i].typ == STDERR
  }

  /** A session is data frames and, last, the exit frame. */
  lemma {:induction false} SessionShape(ws: seq<Output>, code: Int32)
    requires Outputs(ws)
    ensures var fs := Session(ws, code);
            AllValid(fs) && fs != [] && fs[|fs| - 1] == Exit(code) && forall i :: 0 <= i < |fs| - 1 ==> fs[i].Data?
  {
    if ws != [] {
      var head, tail := Chunks(ws[0].typ, ws[0].data), Session(ws[1..], code);
      ChunksCarry(ws[0].typ, ws[0].data, STDOUT);
      SessionShape(ws[1..], code);
      hide Chunks, Collected, Session;
      assert forall i :: 0 <= i < |head| ==> head[i] in head;
      assert AllValid(head + tail);
    }
  }

  lemma {:induction false} SessionCarries(ws: seq<Output>, code: Int32, typ: Byte)
    requires Outputs(ws)
    ensures Collected(Session(ws, code), typ) == Written(ws, typ)
  {
    if ws == [] {
      assert [Exit(code)][1..] == [];
    } else {
      ChunksCarry(ws[0].typ, ws[0].data, typ);
      SessionCarries(ws[1..], code, typ);
      CollectedConcat(Chunks(ws[0].typ, ws[0].data), Session(ws[1..], code), typ);
      hide Chunks, Collected;
    }
  }

  /** For any interleaving of stdout and stderr writes of any length, then the exit frame, the reader
      recovers exactly the concatenated stdout, the concatenated stderr and the code. */
  lemma ExecRoundTrip(ws: seq<Output>, code: Int32)
    requires Outputs(ws)
    ensures AllValid(Session(ws, code))
    ensures var fs := DecodeAll(EncodeAll(Session(ws, code)));
            && Collected(fs, STDOUT) == Written(ws, STDOUT) && Collected(fs, STDERR) == Written(ws, STDERR)
            && fs != [] && fs[|fs| - 1] == Exit(code) && forall i :: 0 <= i < |fs| - 1 ==> fs[i].Data?
  {
    SessionShape(ws, code);
    SessionCarries(ws, code, STDOUT);
    SessionCarries(ws, code, STDERR);
    StreamRoundTrip(Session(ws, code));
  }

  // ---- the writers and the reader ----

  /** A connection that takes `room` more bytes before it breaks. */
  class Conn {
    var sent: seq<Byte>
    var room: nat

    method Write(p: seq<Byte>) returns (ok: bool)
      modifies this
      ensures ok <==> |p| <= old(room)
      ensures var n := if ok then |p| else old(room);
              sent == old(sent) + p[..n] && room == old(room) - n
    {
      var n := if |p| <= room then |p| else room;
      sent := sent + p[..n];
      room := room - n;
      return n == |p|;
    }

    /** Every byte of e was sent, or as many as there was room for. */
    twostate predicate Sent(e: seq<Byte>, ok: bool)
      reads this
    {
      && (ok <==> |e| <= old(room))
      && var n := if ok then |e| else old(room);
         n <= |e| && sent == old(sent) + e[..n] && room == old(room) - n
    }
  }

  method WriteExecData(w: Conn, typ: Byte, data: seq<Byte>) returns (ok: bool)
    requires typ != EXIT
    modifies w
    ensures |data| > MAX_FRAME ==> !ok && w.sent == old(w.sent) && w.room == old(w.room)
    ensures |data| <= MAX_FRAME ==> w.Sent(Encode(Data(typ, data)), ok)
  {
    if |data| > MAX_FRAME {
      return false;
    }
    var h := Header(typ, |data|);
    hide Header;
    ok := w.Write(h);
    if ok {
      ok := w.Write(data);
      ghost var n := if ok then |data| else old(w.room) - 5;
      TakeRight(h, data, 5 + n);
      assert h[..5] == h;
      Associative(old(w.sent), h, data[..n]);
    } else {
      TakeLeft(h, data, old(w.room));
    }
  }

  method WriteExecExit(w: Conn, code: Int32) returns (ok: bool)
    modifies w
    ensures w.Sent(Encode(Exit(code)), ok)
  {
    ok := w.Write(Header(EXIT, 4) + PutU32(Unsigned(code)));
  }

  /** execWriter.Write: p goes out as chunk frames, in order, until the connection breaks. */
  method ExecWrite(w: Conn, typ: Byte, p: seq<Byte>) returns (total: nat, ok: bool)
    requires typ != EXIT
    modifies w
    ensures AllValid(Chunks(typ, p)) && w.Sent(EncodeAll(Chunks(typ, p)), ok)
    ensures total <= |p| && (ok <==> total == |p|)
  {
    hide Encode, Chunks, EncodeAll;
    ChunksCarry(typ, p, typ);
    var q := p;
    total, ok := 0, true;
    ghost var out := EncodeAll(Chunks(typ, p));
    ghost var m: nat := 0;
    NothingYet(typ);
    assert out[0..] == out && out[..0] == [];
    while q != []
      invariant total + |q| == |p|
      invariant AllValid(Chunks(typ, q)) && m <= |out| && out[m..] == EncodeAll(Chunks(typ, q))
      invariant m <= old(w.room) && w.sent == old(w.sent) + out[..m] && w.room == old(w.room) - m
      decreases |q|
    {
      var n := if |q| > EXEC_CHUNK then EXEC_CHUNK else |q|;
      ghost var e := Encode(Data(typ, q[..n]));
      ChunkStep(typ, q, n);
      ok := WriteExecData(w, typ, q[..n]);
      ghost var j := if ok then |e| else old(w.room) - m;
      TakeMore(out, m, e, EncodeAll(Chunks(typ, q[n..])), j);
      Associative(old(w.sent), out[..m], e[..j]);
      if !ok {
        return;
      }
      m := m + |e|;
      total := total + n;
      q := q[n..];
    }
    assert m == |out|;
  }

  lemma NothingYet(typ: Byte)
    ensures EncodeAll(Chunks(typ, [])) == []
  {
  }

  lemma ChunkStep(typ: Byte, q: seq<Byte>, n: nat)
    requires typ != EXIT && q != [] && n == if |q| > EXEC_CHUNK then EXEC_CHUNK else |q|
    ensures AllValid(Chunks(typ, q)) && AllValid(Chunks(typ, q[n..]))
    ensures Valid(Data(typ, q[..n]))
    ensures EncodeAll(Chunks(typ, q)) == Encode(Data(typ, q[..n])) + EncodeAll(Chunks(typ, q[n..]))
  {
    ChunksCarry(typ, q, typ);
    ChunksCarry(typ, q[n..], typ);
    assert n == |q| ==> q[..n] == q;
    assert Chunks(typ, q) == [Data(typ, q[..n])] + Chunks(typ, q[n..]);
    assert ([Data(typ, q[..n])] + Chunks(typ, q[n..]))[1..] == Chunks(typ, q[n..]);
  }

  /** The receiving end of a connection. */
  class Incoming {
    var rest: seq<Byte>

    method ReadFull(n: nat) returns (r: Option<seq<Byte>>)
      modifies this
      ensures r.Some? <==> n <= |old(rest)|
      ensures r.Some? ==> r.value == old(rest)[..n] && rest == old(rest)[n..]
    {
      if n > |rest| {
        rest := [];
        return None;
      }
      r := Some(rest[..n]);
      rest := rest[n..];
    }

    method ReadExecFrame() returns (r: Option<Frame>)
      modifies this
      ensures r.None? <==> Decode(old(rest)) == Stopped
      ensures r.Some? ==> Decode(old(rest)) == Got(r.value, rest)
    {
      var h := ReadFull(5);
      if h.None? {
        return None;
      }
      var typ, n := h.value[0], U32(h.value[1..5]);
      assert h.value[1..5] == old(rest)[1..5];
      hide U32;
      if n > MAX_FRAME {
        return None;
      }
      var payload := ReadFull(n);
      if payload.None? {
        return None;
      }
      assert payload.value == old(rest)[5..5 + n] && rest == old(rest)[5 + n..];
      if typ == EXIT {
        if n != 4 {
          return None;
        }
        PutU32RoundTrip(payload.value);
        return Some(Exit(Signed(U32(payload.value))));
      }
      return Some(Data(typ, payload.value));
    }
  }

  // ---- the read loop of runTask (internal/mcp/engine_backend.go) ----

  datatype Task = Task(out: seq<Byte>, code: Int32)

  /** Output of both streams in arrival order up to the exit frame, and its code (0 without one). */
  function TaskOf(fs: seq<Frame>): Task {
    if fs == [] then Task([], 0)
    else match fs[0]
      case Exit(code) => Task([], code)
      case Data(typ, data) =>
        var t := TaskOf(fs[1..]);
        if typ == STDOUT || typ == STDERR then t.(out := data + t.out) else t
  }

  function AllOutput(ws: seq<Output>): seq<Byte> {
    if ws == [] then [] else ws[0].data + AllOutput(ws[1..])
  }

  lemma {:induction false} TaskOfChunks(typ: Byte, p: seq<Byte>, fs: seq<Frame>)
    requires typ == STDOUT || typ == STDERR
    ensures TaskOf(Chunks(typ, p) + fs) == Task(p + TaskOf(fs).out, TaskOf(fs).code)
    decreases |p|
  {
    if p == [] {
      assert Chunks(typ, p) + fs == fs && p + TaskOf(fs).out == TaskOf(fs).out;
    } else {
      var n := if |p| <= EXEC_CHUNK then |p| else EXEC_CHUNK;
      var f, tail := Data(typ, p[..n]), Chunks(typ, p[n..]);
      ChunkHead(typ, p, n);
      TaskOfChunks(typ, p[n..], fs);
      assert (Chunks(typ, p) + fs)[0] == f && (Chunks(typ, p) + fs)[1..] == tail + fs;
      Associative(p[..n], p[n..], TaskOf(fs).out);
      assert p[..n] + p[n..] == p;
      hide Chunks;
    }
  }

  lemma ChunkHead(typ: Byte, p: seq<Byte>, n: nat)
    requires p != [] && n == if |p| <= EXEC_CHUNK then |p| else EXEC_CHUNK
    ensures Chunks(typ, p) == [Data(typ, p[..n])] + Chunks(typ, p[n..])
  {
    assert n == |p| ==> p[..n] == p && p[n..] == [];
  }

  /** runTask sees all output, in the order it was written, and the exit code. */
  lemma {:induction false} TaskOfSession(ws: seq<Output>, code: Int32)
    requires Outputs(ws)
    ensures TaskOf(Session(ws, code)) == Task(AllOutput(ws), code)
  {
    if ws != [] {
      TaskOfSession(ws[1..], code);
      TaskOfChunks(ws[0].typ, ws[0].data, Session(ws[1..], code));
    }
  }

  method ReadTask(inp: Incoming) returns (task: Task)
    modifies inp
    ensures task == TaskOf(DecodeAll(old(inp.rest)))
  {
    var out: seq<Byte> := [];
    while true
      invariant Joined(out, TaskOf(DecodeAll(inp.rest))) == TaskOf(DecodeAll(old(inp.rest)))
      decreases |inp.rest|
    {
      ghost var b := inp.rest;
      var got := inp.ReadExecFrame();
      if got.None? {
        return Task(out, 0);
      }
      DecodeShrinks(b);
      match got.value {
        case Exit(code) => return Task(out, code);
        case Data(typ, data) =>
          if typ == STDOUT || typ == STDERR {
            Associative(out, data, TaskOf(DecodeAll(inp.rest)).out);
            out := out + data;
          }
      }
    }
  }

  function Joined(out: seq<Byte>, t: Task): Task {
    t.(out := out + t.out)
  }

  lemma DecodeShrinks(b: seq<Byte>)
    requires Decode(b).Got?
    ensures |Decode(b).rest| < |b|
    ensures DecodeAll(b) == [Decode(b).frame] + DecodeAll(Decode(b).rest)
  {
    hide U32;
  }

  // ---- the bytes themselves ----

  /** Four bytes as a number, the first one the most significant. */
  function Big(a: int, b: int, c: int, d: int): int {
    a * 16777216 + b * 65536 + c * 256 + d
  }

  /** Words are big-endian. */
  lemma BigEndian(n: nat, b: seq<Byte>)
    requires n < 0x1_0000_0000 && |b| == 4
    ensures U32(b) == Big(b[0], b[1], b[2], b[3])
    ensures PutU32(n) == b <==> n == Big(b[0], b[1], b[2], b[3])
  {
    U32RoundTrip(n);
    PutU32RoundTrip(b);
    hide PutU32;
  }

  /** A frame is its type, the length of its payload, and the payload; an exit frame is type 3 with the code in two's
      complement. */
  lemma FrameBytes(f: Frame)
    requires Valid(f)
    ensures var e := Encode(f);
            && |e| >= 5
            && e[0] == (if f.Exit? then 3 else f.typ)
            && (|e| - 5) == Big(e[1], e[2], e[3], e[4])
            && (f.Data? ==> e[5..] == f.data)
            && (f.Exit? ==>
                  |e| == 9
                  && (Big(e[5], e[6], e[7], e[8])
                      == if f.code < 0 then f.code + 4294967296 else f.code))
  {
    var len := if f.Data? then |f.data| else 4;
    var w := PutU32(len);
    BigEndian(len, w);
    if f.Exit? {
      BigEndian(Unsigned(f.code), PutU32(Unsigned(f.code)));
    }
    hide PutU32, U32;
  }

  /** What the reader accepts, byte by byte: a whole payload of at most 65536 bytes, of four for an exit frame. */
  lemma ReadsIff(b: seq<Byte>)
    ensures Decode(b).Got? <==>
              |b| >= 5
              && var n := Big(b[1], b[2], b[3], b[4]);
                 n <= 65536 && |b| >= 5 + n && (b[0] == 3 ==> n == 4)
  {
    if |b| >= 5 {
      BigEndian(0, b[1..5]);
    }
    hide U32;
  }

  /** Every chunk but the last holds 32768 bytes, the last what is left. */
  lemma {:induction false} ChunkSizes(typ: Byte, p: seq<Byte>, i: nat)
    requires i < |Chunks(typ, p)|
    ensures |p| > 32768 * i
    ensures Chunks(typ, p)[i] == Data(typ, p[32768 * i..if |p| > 32768 * (i + 1) then 32768 * (i + 1) else |p|])
    ensures i + 1 == |Chunks(typ, p)| <==> |p| <= 32768 * (i + 1)
    decreases i
  {
    if i > 0 {
      var q := p[EXEC_CHUNK..];
      ChunkSizes(typ, q, i - 1);
      SliceOfRest(p, EXEC_CHUNK, 32768 * (i - 1), if |q| > 32768 * i then 32768 * i else |q|);
    } else if |p| > EXEC_CHUNK {
      assert Chunks(typ, p[EXEC_CHUNK..]) != [];
    }
  }

  lemma SliceOfRest(p: seq<Byte>, e: nat, x: nat, y: nat)
    requires x <= y && e + y <= |p|
    ensures p[e..][x..y] == p[e + x..e + y]
  {
  }

  // ---- a stream that stops early ----

  /** Data frames before gs add their output, and nothing else, to what runTask collects. */
  lemma {:induction false} TaskOfConcat(fs: seq<Frame>, gs: seq<Frame>)
    requires forall i :: 0 <= i < |fs| ==> fs[i].Data?
    ensures TaskOf(fs + gs) == Task(TaskOf(fs).out + TaskOf(gs).out, TaskOf(gs).code) && TaskOf(fs).code == 0
  {
    if fs == [] {
      assert fs + gs == gs;
    } else {
      assert (fs + gs)[1..] == fs[1..] + gs;
      TaskOfConcat(fs[1..], gs);
      if fs[0].typ == STDOUT || fs[0].typ == STDERR {
        Associative(fs[0].data, TaskOf(fs[1..]).out, TaskOf(gs).out);
      }
    }
  }

  /** What runTask collects is the data of types 1 and 2, and nothing of any other type. */
  lemma TaskTakesBoth(p: seq<Byte>, q: seq<Byte>, typ: Byte, x: seq<Byte>, code: Int32)
    requires typ != 1 && typ != 2
    ensures TaskOf([Data(1, p), Data(typ, x), Data(2, q), Exit(code)]) == Task(p + q, code)
  {
    var f1, f2, f3, f4 := [Data(1, p), Data(typ, x), Data(2, q), Exit(code)], [Data(typ, x), Data(2, q), Exit(code)],
                          [Data(2, q), Exit(code)], [Exit(code)];
    assert f1[1..] == f2 && f2[1..] == f3 && f3[1..] == f4;
    assert TaskOf(f4) == Task([], code);
    assert TaskOf(f3) == Task(q, code) by { assert q + [] == q; }
    assert TaskOf(f2) == Task(q, code);
  }

  /** A session cut anywhere before its end reads as code 0, whatever the exit code was, with a prefix of the output. */
  lemma CutTask(ws: seq<Output>, code: Int32, k: nat)
    requires Outputs(ws) && AllValid(Session(ws, code)) && k < |EncodeAll(Session(ws, code))|
    ensures var t := TaskOf(DecodeAll(EncodeAll(Session(ws, code))[..k]));
            t.code == 0 && t.out <= AllOutput(ws)
  {
    hide Session, EncodeAll, DecodeAll, TaskOf, AllValid, AllOutput;
    var fs := Session(ws, code);
    SessionShape(ws, code);
    var j := CutDecodesToPrefix(fs, k);
    assert fs[..|fs|] == fs;
    assert fs == fs[..j] + fs[j..];
    TaskOfConcat(fs[..j], fs[j..]);
    TaskOfSession(ws, code);
  }
}
