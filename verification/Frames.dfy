/** The frame format of binkp/session.go: a two-byte header holding the command
    bit and a 15-bit length, then the payload (section 5.1 of FTS-1026). */
module Frames {
  /** The payload of a command starts with the command's code. */
  datatype Frame = Frame(isCmd: bool, payload: string)

  const M_NUL: char := 0 as char
  const M_ADR: char := 1 as char
  const M_PWD: char := 2 as char
  const M_FILE: char := 3 as char
  const M_OK: char := 4 as char
  const M_EOB: char := 5 as char
  const M_GOT: char := 6 as char
  const M_ERR: char := 7 as char
  const M_BSY: char := 8 as char
  const M_GET: char := 9 as char
  const M_SKIP: char := 10 as char

  const COMMAND_BIT: nat := 0x8000
  const MAX_PAYLOAD: nat := 0x7FFF

  function Cmd(code: char, args: string): Frame {
    Frame(true, [code] + args)
  }

  function Data(bytes: string): Frame {
    Frame(false, bytes)
  }

  /** The 16-bit header as writeCommand and writeData compute it: the length is cut
      to 16 bits and, for a command, the command bit is or-ed in. */
  function Header(isCmd: bool, length: nat): (h: nat)
    ensures h < 0x1_0000
  {
    if isCmd then COMMAND_BIT + length % COMMAND_BIT else length % 0x1_0000
  }

  function Encode(f: Frame): (bytes: string)
    ensures |bytes| == 2 + |f.payload|
  {
    var h := Header(f.isCmd, |f.payload|);
    [(h / 256) as char, (h % 256) as char] + f.payload
  }

  function EncodeAll(fs: seq<Frame>): string {
    if fs == [] then "" else Encode(fs[0]) + EncodeAll(fs[1..])
  }

  /** What readFrame gives: io.ReadFull reports EOF when it reads nothing at all and
      ErrUnexpectedEOF when it reads some of what it wants. */
  datatype Read = Got(frame: Frame, rest: string) | Eof | UnexpectedEof

  function Decode(stream: string): (r: Read)
    ensures r.Got? ==> |r.rest| + 2 + |r.frame.payload| == |stream|
  {
    if stream == "" then Eof
    else if |stream| == 1 then UnexpectedEof
    else
      var val := stream[0] as int * 256 + stream[1] as int;
      var isCmd := val / COMMAND_BIT % 2 == 1;
      var length := val % COMMAND_BIT;
      var body := stream[2..];
      if length <= |body| then Got(Frame(isCmd, body[..length]), body[length..])
      else if body == "" then Eof
      else UnexpectedEof
  }

  /** The frames a read loop obtains before readFrame fails, and how it fails. */
  function DecodeAll(stream: string): (r: (seq<Frame>, Read))
    ensures !r.1.Got?
    decreases |stream|
  {
    var r := Decode(stream);
    if r.Got? then
      var (frames, end) := DecodeAll(r.rest);
      ([r.frame] + frames, end)
    else ([], r)
  }

  /** One direction of a connection as the session sees it: bytes to read, bytes written. */
  class Connection {
    var incoming: string
    var outgoing: string

    constructor (bytes: string)
      ensures incoming == bytes && outgoing == ""
    {
      incoming, outgoing := bytes, "";
    }

    method WriteCommand(cmd: char, data: string)
      modifies this`outgoing
      ensures outgoing == old(outgoing) + Encode(Cmd(cmd, data))
    {
      var payloadLen := 1 + |data|;
      var buf := new char[2 + payloadLen];
      var header := COMMAND_BIT + payloadLen % COMMAND_BIT;
      buf[0], buf[1], buf[2] := (header / 256) as char, (header % 256) as char, cmd;
      forall i | 0 <= i < |data| {
        buf[3 + i] := data[i];
      }
      assert buf[..] == Encode(Cmd(cmd, data));
      outgoing := outgoing + buf[..];
    }

    method WriteData(data: string)
      modifies this`outgoing
      ensures outgoing == old(outgoing) + Encode(Data(data))
    {
      var buf := new char[2 + |data|];
      var header := |data| % 0x1_0000;
      buf[0], buf[1] := (header / 256) as char, (header % 256) as char;
      forall i | 0 <= i < |data| {
        buf[2 + i] := data[i];
      }
      assert buf[..] == Encode(Data(data));
      outgoing := outgoing + buf[..];
    }

    method ReadFrame() returns (r: Read)
      modifies this`incoming
      ensures r == Decode(old(incoming))
      ensures r.Got? ==> incoming == r.rest && |incoming| + 2 <= |old(incoming)|
    {
      r := Decode(incoming);
      incoming := if r.Got? then r.rest else "";
    }

    /** A read loop: each frame consumes at least two bytes, so the loop ends. */
    method ReadFrames() returns (frames: seq<Frame>, end: Read)
      modifies this`incoming
      ensures frames == DecodeAll(old(incoming)).0 && end == DecodeAll(old(incoming)).1
    {
      frames := [];
      ghost var unread := incoming;
      end := ReadFrame();
      while end.Got?
        invariant end == Decode(unread)
        invariant end.Got? ==> incoming == end.rest
        invariant DecodeAll(old(incoming)).0 == frames + DecodeAll(unread).0
        invariant DecodeAll(old(incoming)).1 == DecodeAll(unread).1
        decreases |unread|
      {
        frames := frames + [end.frame];
        unread := incoming;
        end := ReadFrame();
      }
      assert DecodeAll(unread) == ([], end);
      assert frames + [] == frames;
    }
  }

  /** A frame survives the wire, whatever follows it, exactly when its payload fits
      the 15-bit length field. */
  lemma FrameRoundTrip(f: Frame, rest: string)
    ensures Decode(Encode(f) + rest) == Got(f, rest) <==> |f.payload| <= MAX_PAYLOAD
  {
    var h := Header(f.isCmd, |f.payload|);
    var s := Encode(f) + rest;
    assert s[0] as int * 256 + s[1] as int == h;
    TailOfFrame(f, rest);
    if |f.payload| > MAX_PAYLOAD {
      assert h % COMMAND_BIT <= MAX_PAYLOAD;
    }
  }

  lemma TailOfFrame(f: Frame, rest: string)
    ensures var body := (Encode(f) + rest)[2..];
            body == f.payload + rest && body[..|f.payload|] == f.payload && body[|f.payload|..] == rest
  {
  }

  lemma {:induction false} StreamRoundTrip(fs: seq<Frame>)
    requires forall i :: 0 <= i < |fs| ==> |fs[i].payload| <= MAX_PAYLOAD
    ensures DecodeAll(EncodeAll(fs)) == (fs, Eof)
  {
    if fs != [] {
      DecodeAhead(fs[0], EncodeAll(fs[1..]));
      StreamRoundTrip(fs[1..]);
      assert fs == [fs[0]] + fs[1..];
    }
  }

  /** How many frames of the encoded stream lie wholly within its first cut bytes. */
  function Whole(fs: seq<Frame>, cut: nat): (n: nat)
    ensures n <= |fs|
  {
    if fs == [] || cut < 2 + |fs[0].payload| then 0 else 1 + Whole(fs[1..], cut - 2 - |fs[0].payload|)
  }

  /** How many bytes of the next frame follow them. */
  function Surplus(fs: seq<Frame>, cut: nat): nat {
    if fs == [] || cut < 2 + |fs[0].payload| then cut else Surplus(fs[1..], cut - 2 - |fs[0].payload|)
  }

  lemma PartialFrame(f: Frame, cut: nat)
    requires |f.payload| <= MAX_PAYLOAD
    requires cut < 2 + |f.payload|
    ensures !Decode(Encode(f)[..cut]).Got?
    ensures Decode(Encode(f)[..cut]).Eof? <==> cut == 0 || cut == 2
  {
    var h := Header(f.isCmd, |f.payload|);
    var s := Encode(f)[..cut];
    if cut >= 2 {
      assert s[0] as int * 256 + s[1] as int == h;
      assert h % COMMAND_BIT == |f.payload|;
      assert |s[2..]| == cut - 2;
    }
  }

  lemma DecodeAhead(f: Frame, rest: string)
    requires |f.payload| <= MAX_PAYLOAD
    ensures DecodeAll(Encode(f) + rest) == ([f] + DecodeAll(rest).0, DecodeAll(rest).1)
  {
    FrameRoundTrip(f, rest);
  }

  lemma CutAhead(first: string, rest: string, cut: nat)
    requires cut <= |first| + |rest|
    ensures cut <= |first| ==> (first + rest)[..cut] == first[..cut]
    ensures cut >= |first| ==> (first + rest)[..cut] == first + rest[..cut - |first|]
  {
  }

  /** A cut stream is read as the frames that arrived whole. The reader sees a clean
      EOF exactly when the cut is at a frame boundary or just after a header. */
  lemma {:induction false} TruncatedStream(fs: seq<Frame>, cut: nat)
    requires forall i :: 0 <= i < |fs| ==> |fs[i].payload| <= MAX_PAYLOAD
    requires cut <= |EncodeAll(fs)|
    ensures DecodeAll(EncodeAll(fs)[..cut]).0 == fs[..Whole(fs, cut)]
    ensures DecodeAll(EncodeAll(fs)[..cut]).1 == Eof <==> Surplus(fs, cut) == 0 || Surplus(fs, cut) == 2
  {
    if fs != [] {
      CutAhead(Encode(fs[0]), EncodeAll(fs[1..]), cut);
      if cut < 2 + |fs[0].payload| {
        PartialFrame(fs[0], cut);
      } else {
        var left := cut - 2 - |fs[0].payload|;
        DecodeAhead(fs[0], EncodeAll(fs[1..])[..left]);
        TruncatedStream(fs[1..], left);
        assert fs[..Whole(fs, cut)] == [fs[0]] + fs[1..][..Whole(fs[1..], left)];
      }
    }
  }
}
