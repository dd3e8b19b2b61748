/** How the control plane opens a stream to the agent and how the agent serves it
    (internal/agenthub/agenthub.go, internal/agentproto/agentproto.go, cmd/hopbox-agent/main.go):
    a length-prefixed open frame, a header of the requested kind, then the stream itself; for exec,
    stdin frames until a close. The JSON text of a frame is a codec given from outside. */
module Streams {
  import opened Common
  import opened ExecFrames

  const STDIN: Byte := 4
  const STDIN_CLOSE: Byte := 5

  const SHELL := "shell"
  const FORWARD := "forward"
  const EXEC := "exec"
  const SSH := "ssh"

  datatype Request = Shell(cmd: string, cols: nat, rows: nat) | Forward(port: nat) | Exec(argv: seq<string>) | Ssh

  datatype Codec = Codec(
    kind: string -> seq<Byte>, readKind: seq<Byte> -> Option<string>,
    header: Request -> seq<Byte>,
    readShell: seq<Byte> -> Option<Request>, readForward: seq<Byte> -> Option<Request>,
    readExec: seq<Byte> -> Option<Request>)

  function KindOf(r: Request): string {
    match r case Shell(_, _, _) => SHELL case Forward(_) => FORWARD case Exec(_) => EXEC case Ssh => SSH
  }

  /** What JSON gives: the reader of a header's own type gives the header back. */
  predicate Faithful(j: Codec, r: Request) {
    && j.readKind(j.kind(KindOf(r))) == Some(KindOf(r))
    && match r
       case Shell(_, _, _) => j.readShell(j.header(r)) == Some(r)
       case Forward(_) => j.readForward(j.header(r)) == Some(r)
       case Exec(_) => j.readExec(j.header(r)) == Some(r)
       case Ssh => true
  }

  // ---- length-prefixed frames ----

  function Sized(b: seq<Byte>): seq<Byte>
    requires |b| <= MAX_FRAME
  {
    PutU32(|b|) + b
  }

  datatype Piece = Broken | Piece(body: seq<Byte>, rest: seq<Byte>)

  /** readFrame on the bytes still to come, before the JSON is read. */
  function Unsized(b: seq<Byte>): Piece {
    if |b| < 4 then Broken
    else
      var n := U32(b[..4]);
      if n > MAX_FRAME || |b| - 4 < n then Broken else Piece(b[4..4 + n], b[4 + n..])
  }

  lemma UnsizedSized(b: seq<Byte>, rest: seq<Byte>)
    requires |b| <= MAX_FRAME
    ensures Unsized(Sized(b) + rest) == Piece(b, rest)
  {
  }

  /** The reader accepts nothing else. */
  lemma SizedUnsized(b: seq<Byte>)
    requires Unsized(b).Piece?
    ensures |Unsized(b).body| <= MAX_FRAME && b == Sized(Unsized(b).body) + Unsized(b).rest
  {
  }

  // ---- opening and serving ----

  predicate Fits(j: Codec, r: Request) {
    |j.kind(KindOf(r))| <= MAX_FRAME && (r.Ssh? || |j.header(r)| <= MAX_FRAME)
  }

  /** The bytes OpenShell, OpenForward, OpenExec or OpenSSH puts on a new stream. */
  function Opening(j: Codec, r: Request): seq<Byte>
    requires Fits(j, r)
  {
    Sized(j.kind(KindOf(r))) + if r.Ssh? then [] else Sized(j.header(r))
  }

  datatype Served = Dropped | Serves(request: Request, rest: seq<Byte>)

  function ServedWith(read: seq<Byte> -> Option<Request>, b: seq<Byte>): Served {
    match Unsized(b)
    case Broken => Dropped
    case Piece(body, rest) => match read(body) case None => Dropped case Some(r) => Serves(r, rest)
  }

  /** handleStream: an unknown kind is served as a shell. */
  function ServedAs(j: Codec, b: seq<Byte>): Served {
    match Unsized(b)
    case Broken => Dropped
    case Piece(body, rest) =>
      match j.readKind(body)
      case None => Dropped
      case Some(kind) =>
        if kind == FORWARD then ServedWith(j.readForward, rest)
        else if kind == EXEC then ServedWith(j.readExec, rest)
        else if kind == SSH then Serves(Ssh, rest)
        else ServedWith(j.readShell, rest)
  }

  /** The agent serves exactly the request that was opened, on exactly the bytes that follow it. */
  lemma OpenedIsServed(j: Codec, r: Request, rest: seq<Byte>)
    requires Fits(j, r) && Faithful(j, r)
    ensures ServedAs(j, Opening(j, r) + rest) == Serves(r, rest)
  {
    hide Sized, Unsized;
    var kind := j.kind(KindOf(r));
    if r.Ssh? {
      assert Sized(kind) + [] == Sized(kind);
      UnsizedSized(kind, rest);
    } else {
      Associative(Sized(kind), Sized(j.header(r)), rest);
      UnsizedSized(kind, Sized(j.header(r)) + rest);
      UnsizedSized(j.header(r), rest);
    }
  }

  // ---- stdin ----

  function Concat(msgs: seq<seq<Byte>>): seq<Byte> {
    if msgs == [] then [] else msgs[0] + Concat(msgs[1..])
  }

  /** The frames the control plane's stdin pump sends: one a message, then the close; a message over the
      cap ends the pump without one. */
  function StdinFrames(msgs: seq<seq<Byte>>): seq<Frame> {
    if msgs == [] then [Data(STDIN_CLOSE, [])]
    else if |msgs[0]| > MAX_FRAME then []
    else [Data(STDIN, msgs[0])] + StdinFrames(msgs[1..])
  }

  /** What the command is fed, and whether a close frame ended it. */
  datatype Fed = Fed(bytes: seq<Byte>, closed: bool)

  /** The agent's stdin pump, for a command whose stdin takes `room` bytes before it breaks. */
  function FedBy(fs: seq<Frame>, room: nat): Fed {
    if fs == [] then Fed([], false)
    else match fs[0]
      case Exit(_) => FedBy(fs[1..], room)
      case Data(typ, data) =>
        if typ == STDIN_CLOSE then Fed([], true)
        else if typ != STDIN then FedBy(fs[1..], room)
        else if |data| > room then Fed(data[..room], false)
        else FedMore(data, FedBy(fs[1..], room - |data|))
  }

  function FedMore(bytes: seq<Byte>, f: Fed): Fed {
    f.(bytes := bytes + f.bytes)
  }

  /** What handleExec makes of a request: an empty command is answered with exit code 2 and fed nothing. */
  datatype Ran = Rejected(code: Int32) | Runs(argv: seq<string>, fed: Fed)

  function ExecServed(argv: seq<string>, fs: seq<Frame>, room: nat): Ran {
    if argv == [] then Rejected(2) else Runs(argv, FedBy(fs, room))
  }

  predicate Small(msgs: seq<seq<Byte>>) {
    forall i :: 0 <= i < |msgs| ==> |msgs[i]| <= MAX_FRAME
  }

  /** The bytes of the messages before the first one over the cap. */
  function Sendable(msgs: seq<seq<Byte>>): seq<Byte> {
    if msgs == [] || |msgs[0]| > MAX_FRAME then [] else msgs[0] + Sendable(msgs[1..])
  }

  function UpTo(b: seq<Byte>, room: nat): seq<Byte> {
    if |b| <= room then b else b[..room]
  }

  lemma UpToConcat(a: seq<Byte>, b: seq<Byte>, room: nat)
    ensures UpTo(a + b, room) == if |a| <= room then a + UpTo(b, room - |a|) else a[..room]
  {
    if |a| > room {
      TakeLeft(a, b, room);
    } else if |a| + |b| > room {
      TakeRight(a, b, room);
    }
  }

  /** The command is fed the messages before the first one over the cap, as far as its stdin takes them, and is
      told of the end exactly when no message is over the cap and all of them were taken. */
  lemma {:induction false} StdinCarries(msgs: seq<seq<Byte>>, room: nat)
    ensures AllValid(StdinFrames(msgs))
    ensures FedBy(StdinFrames(msgs), room) == Fed(UpTo(Sendable(msgs), room), Small(msgs) && |Sendable(msgs)| <= room)
    ensures Small(msgs) ==> Sendable(msgs) == Concat(msgs)
  {
    if msgs == [] {
      assert [Data(STDIN_CLOSE, [])][0] == Data(STDIN_CLOSE, []);
    } else if |msgs[0]| <= MAX_FRAME {
      StdinStep(msgs, room);
      hide FedBy, StdinFrames, Sendable, UpTo, Small, AllValid, Concat;
      var head, tail := msgs[0], msgs[1..];
      StdinCarries(tail, if |head| <= room then room - |head| else 0);
      UpToConcat(head, Sendable(tail), room);
    }
  }

  lemma StdinStep(msgs: seq<seq<Byte>>, room: nat)
    requires msgs != [] && |msgs[0]| <= MAX_FRAME
    ensures var head, tail := msgs[0], msgs[1..];
            && (AllValid(StdinFrames(tail)) ==> AllValid(StdinFrames(msgs)))
            && FedBy(StdinFrames(msgs), room)
               == (if |head| > room then Fed(head[..room], false)
                   else FedMore(head, FedBy(StdinFrames(tail), room - |head|)))
            && Sendable(msgs) == head + Sendable(tail) && Concat(msgs) == head + Concat(tail)
            && (Small(msgs) <==> Small(tail))
  {
    SmallCons(msgs);
    AllValidCons(Data(STDIN, msgs[0]), StdinFrames(msgs[1..]));
    hide Small, AllValid;
    FedByCons(msgs[0], StdinFrames(msgs[1..]), room);
    hide FedBy;
  }

  lemma AllValidCons(f: Frame, fs: seq<Frame>)
    requires Valid(f)
    ensures AllValid(fs) ==> AllValid([f] + fs)
  {
  }

  lemma FedByCons(data: seq<Byte>, fs: seq<Frame>, room: nat)
    ensures FedBy([Data(STDIN, data)] + fs, room)
         == if |data| > room then Fed(data[..room], false) else FedMore(data, FedBy(fs, room - |data|))
  {
    var all := [Data(STDIN, data)] + fs;
    assert all[0] == Data(STDIN, data) && all[1..] == fs;
  }

  lemma SmallCons(msgs: seq<seq<Byte>>)
    requires msgs != []
    ensures Small(msgs) <==> |msgs[0]| <= MAX_FRAME && Small(msgs[1..])
  {
    assert forall i :: 1 <= i < |msgs| ==> msgs[i] == msgs[1..][i - 1];
  }

  /** An exec stream end to end: the agent runs the command asked for and feeds it exactly the stdin sent, or
      rejects an empty command. */
  lemma ExecInput(j: Codec, argv: seq<string>, msgs: seq<seq<Byte>>, room: nat)
    requires Fits(j, Exec(argv)) && Faithful(j, Exec(argv)) && Small(msgs) && |Concat(msgs)| <= room
    ensures AllValid(StdinFrames(msgs))
    ensures var s := ServedAs(j, Opening(j, Exec(argv)) + EncodeAll(StdinFrames(msgs)));
            s.Serves? && s.request == Exec(argv)
            && ExecServed(argv, DecodeAll(s.rest), room)
               == if argv == [] then Rejected(2) else Runs(argv, Fed(Concat(msgs), true))
  {
    StdinCarries(msgs, room);
    StreamRoundTrip(StdinFrames(msgs));
    OpenedIsServed(j, Exec(argv), EncodeAll(StdinFrames(msgs)));
  }

  // ---- the writers and the readers ----

  method WriteBoth(w: Conn, a: seq<Byte>, b: seq<Byte>) returns (ok: bool)
    modifies w
    ensures w.Sent(a + b, ok)
  {
    ok := w.Write(a);
    if ok {
      ok := w.Write(b);
      ghost var n := if ok then |b| else old(w.room) - |a|;
      TakeRight(a, b, |a| + n);
      assert a[..|a|] == a;
      Associative(old(w.sent), a, b[..n]);
    } else {
      TakeLeft(a, b, old(w.room));
    }
  }

  method WriteFrame(w: Conn, b: seq<Byte>) returns (ok: bool)
    modifies w
    ensures |b| > MAX_FRAME ==> !ok && w.sent == old(w.sent) && w.room == old(w.room)
    ensures |b| <= MAX_FRAME ==> w.Sent(Sized(b), ok)
  {
    if |b| > MAX_FRAME {
      return false;
    }
    ok := WriteBoth(w, PutU32(|b|), b);
  }

  /** OpenShell, OpenForward, OpenExec and OpenSSH, up to the raw stream. */
  method Open(w: Conn, j: Codec, r: Request) returns (ok: bool)
    modifies w
    ensures Fits(j, r) ==> w.Sent(Opening(j, r), ok)
    ensures !Fits(j, r) ==> !ok
    ensures |j.kind(KindOf(r))| > MAX_FRAME ==> w.sent == old(w.sent) && w.room == old(w.room)
    ensures !Fits(j, r) && |j.kind(KindOf(r))| <= MAX_FRAME ==>
              var opening := Sized(j.kind(KindOf(r))); w.Sent(opening, |opening| <= old(w.room))
  {
    hide Sized;
    var kind := j.kind(KindOf(r));
    ok := WriteFrame(w, kind);
    if r.Ssh? {
      assert |kind| <= MAX_FRAME ==> Sized(kind) + [] == Sized(kind);
      return;
    }
    var header := j.header(r);
    if ok {
      ok := WriteFrame(w, header);
      if |header| <= MAX_FRAME {
        ghost var a, b := Sized(kind), Sized(header);
        ghost var n := if ok then |b| else old(w.room) - |a|;
        TakeRight(a, b, |a| + n);
        assert a[..|a|] == a;
        Associative(old(w.sent), a, b[..n]);
      }
    } else if Fits(j, r) {
      TakeLeft(Sized(kind), Sized(header), old(w.room));
    }
  }

  method ReadFrame(inp: Incoming) returns (r: Option<seq<Byte>>)
    modifies inp
    ensures r.None? <==> Unsized(old(inp.rest)) == Broken
    ensures r.Some? ==> Unsized(old(inp.rest)) == Piece(r.value, inp.rest)
  {
    var h := inp.ReadFull(4);
    if h.None? {
      return None;
    }
    var n := U32(h.value);
    hide U32;
    if n > MAX_FRAME {
      return None;
    }
    r := inp.ReadFull(n);
    assert r.Some? ==> r.value == old(inp.rest)[4..4 + n] && inp.rest == old(inp.rest)[4 + n..];
  }

  method ReadHeader(inp: Incoming, read: seq<Byte> -> Option<Request>) returns (r: Option<Request>)
    modifies inp
    ensures r.None? <==> ServedWith(read, old(inp.rest)) == Dropped
    ensures r.Some? ==> ServedWith(read, old(inp.rest)) == Serves(r.value, inp.rest)
  {
    hide Unsized;
    var body := ReadFrame(inp);
    if body.None? {
      return None;
    }
    return read(body.value);
  }

  /** handleStream, up to the handler. */
  method HandleStream(inp: Incoming, j: Codec) returns (r: Option<Request>)
    modifies inp
    ensures r.None? <==> ServedAs(j, old(inp.rest)) == Dropped
    ensures r.Some? ==> ServedAs(j, old(inp.rest)) == Serves(r.value, inp.rest)
  {
    hide Unsized, ServedWith;
    var body := ReadFrame(inp);
    if body.None? {
      return None;
    }
    match j.readKind(body.value) {
      case None => return None;
      case Some(kind) =>
        if kind == FORWARD {
          r := ReadHeader(inp, j.readForward);
        } else if kind == EXEC {
          r := ReadHeader(inp, j.readExec);
        } else if kind == SSH {
          r := Some(Ssh);
        } else {
          r := ReadHeader(inp, j.readShell);
        }
    }
  }

  method WriteExecStdinClose(w: Conn) returns (ok: bool)
    modifies w
    ensures w.Sent(Encode(Data(STDIN_CLOSE, [])), ok)
  {
    assert Encode(Data(STDIN_CLOSE, [])) == Header(STDIN_CLOSE, 0);
    ok := w.Write(Header(STDIN_CLOSE, 0));
  }

  /** The agent's stdin pump, until a close frame, the end of the stream or a broken stdin. */
  method PumpStdin(inp: Incoming, room: nat) returns (fed: Fed)
    modifies inp
    ensures fed == FedBy(DecodeAll(old(inp.rest)), room)
  {
    var bytes: seq<Byte> := [];
    var left: nat := room;
    hide DecodeAll;
    while true
      invariant FedMore(bytes, FedBy(DecodeAll(inp.rest), left)) == FedBy(DecodeAll(old(inp.rest)), room)
      decreases |inp.rest|
    {
      ghost var b := inp.rest;
      var got := inp.ReadExecFrame();
      if got.None? {
        NothingDecoded(b);
        return Fed(bytes, false);
      }
      DecodeShrinks(b);
      hide Decode;
      if got.value.Data? {
        var data := got.value.data;
        if got.value.typ == STDIN {
          if |data| > left {
            return Fed(bytes + data[..left], false);
          }
          Associative(bytes, data, FedBy(DecodeAll(inp.rest), left - |data|).bytes);
          bytes, left := bytes + data, left - |data|;
        } else if got.value.typ == STDIN_CLOSE {
          return Fed(bytes, true);
        }
      }
    }
  }

  lemma NothingDecoded(b: seq<Byte>)
    requires Decode(b) == Stopped
    ensures DecodeAll(b) == []
  {
  }

  // ---- the bytes and texts themselves ----

  /** What the reader accepts: four bytes of length, at most 65536, and that many bytes. */
  lemma ReadsPieceIff(b: seq<Byte>)
    ensures Unsized(b).Piece? <==>
              |b| >= 4
              && var n := Big(b[0], b[1], b[2], b[3]);
                 n <= 65536 && |b| >= 4 + n
    ensures Unsized(b).Piece? ==>
              |Unsized(b).body| == Big(b[0], b[1], b[2], b[3])
  {
    if |b| >= 4 {
      BigEndian(0, b[..4]);
    }
    hide U32;
  }

  /** The texts of the four kinds, and which header each is read with; any other text is a shell's. */
  lemma KindTexts(j: Codec, b: seq<Byte>, kind: string)
    requires Unsized(b).Piece? && j.readKind(Unsized(b).body) == Some(kind)
    ensures var rest := Unsized(b).rest;
            ServedAs(j, b) ==
              if kind == "forward" then ServedWith(j.readForward, rest)
              else if kind == "exec" then ServedWith(j.readExec, rest)
              else if kind == "ssh" then Serves(Ssh, rest)
              else ServedWith(j.readShell, rest)
    ensures KindOf(Ssh) == "ssh"
    ensures forall port :: KindOf(Forward(port)) == "forward"
    ensures forall argv :: KindOf(Exec(argv)) == "exec"
    ensures forall cmd, cols, rows :: KindOf(Shell(cmd, cols, rows)) == "shell"
  {
    hide Unsized, ServedWith;
  }

  /** Stdin goes out as frames of type 4 and ends with an empty frame of type 5; a message of 65537 bytes or more ends
      it without one. */
  lemma StdinBytes(p: seq<Byte>, room: nat)
    ensures StdinFrames([p]) == if |p| <= 65536 then [Data(4, p), Data(5, [])] else []
    ensures |p| <= room ==> FedBy([Data(4, p), Data(5, [])], room) == Fed(p, true)
  {
    assert [p][1..] == [];
    assert [Data(4, p), Data(5, [])][1..] == [Data(5, [])];
    assert p + [] == p;
  }

  /** Frames of any other type, an exit frame among them, are passed over. */
  lemma OtherFramesIgnored(f: Frame, fs: seq<Frame>, room: nat)
    requires f.Exit? || (f.typ != 4 && f.typ != 5)
    ensures FedBy([f] + fs, room) == FedBy(fs, room)
  {
    assert ([f] + fs)[1..] == fs;
  }
}
