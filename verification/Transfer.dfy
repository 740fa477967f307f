/** What the sender writes, the receiver delivers: end-to-end correctness of file
    transfer and of resuming, through the wire format of M_FILE and M_GOT. */
module Transfer {
  import opened GoStrings
  import opened Frames
  import opened SessionState
  import opened Receive
  import opened Sending

  datatype File = File(name: string, content: string, mtime: int)

  /** A name that M_FILE carries unchanged and that denotes a file in a directory. */
  ghost predicate CleanName(name: string) {
    IsToken(name) && '/' !in name && name != "." && name != ".."
  }

  ghost predicate Sendable(f: File) {
    CleanName(f.name) && |f.content| <= MAX_INT64
  }

  /** The frames of sendFile for a readable file, from an offset on. */
  function FramesFrom(f: File, offset: nat): seq<Frame> {
    [FileFrame(f.name, |f.content|, f.mtime, offset)] + Chunks(From(f.content, offset))
  }

  function FramesOf(files: seq<File>): seq<Frame> {
    if files == [] then [] else FramesFrom(files[0], 0) + FramesOf(files[1..])
  }

  /** Frames that arrive while the file system and the connection behave. */
  function Ok(frames: seq<Frame>): (r: seq<Arrival>)
    ensures |r| == |frames|
    ensures forall i :: 0 <= i < |r| ==> r[i] == Arrival(frames[i], ALL_OK)
  {
    seq(|frames|, i requires 0 <= i < |frames| => Arrival(frames[i], ALL_OK))
  }

  lemma {:induction false} RunAppend(ctx: Context, s: State, a: seq<Arrival>, b: seq<Arrival>)
    ensures var r := Run(ctx, s, a);
            Run(ctx, s, a + b) == if r.status == Continue then Run(ctx, r.state, b) else r
    decreases |a|
  {
    if a == [] {
      assert a + b == b;
    } else {
      assert (a + b)[1..] == a[1..] + b && (a + b)[0] == a[0];
      var r := Handle(ctx, s, a[0]);
      if r.status == Continue {
        RunAppend(ctx, r.state, a[1..], b);
      }
    }
  }

  lemma OkAppend(a: seq<Frame>, b: seq<Frame>)
    ensures Ok(a + b) == Ok(a) + Ok(b)
  {
  }

  /* ---- One file ---- */

  /** The receiver reads from M_FILE what the sender printed into it. */
  lemma FileArguments(f: File, offset: nat)
    requires Sendable(f) && offset <= MAX_INT64
    ensures var payload := FileFrame(f.name, |f.content|, f.mtime, offset).payload;
            var parts := Fields(payload[1..]);
            && payload[0] == M_FILE && |parts| == 4 && parts[2] == SignedDecimal(f.mtime)
            && parts[0] == f.name == Base(parts[0]) && f.name != "/"
            && ParseInt64(parts[1]) == |f.content| && OffsetOf(payload[1..]) == offset
            && ParseFile(payload[1..]) == Some(Announcement(f.name, f.name, |f.content|, SignedDecimal(f.mtime), offset))
  {
    var tokens := [f.name, Decimal(|f.content|), SignedDecimal(f.mtime), SignedDecimal(offset)];
    FieldsOfJoin(tokens);
    ParseDecimal(|f.content|);
    ParseDecimal(offset);
    BaseOfPlainName(f.name);
    assert FileFrame(f.name, |f.content|, f.mtime, offset).payload[1..] == Join(tokens);
  }

  /** For every name: it is read from M_FILE as a file of that name exactly when it is clean. */
  lemma NameIsReadExactly(f: File, offset: nat)
    requires |f.content| <= MAX_INT64 && offset <= MAX_INT64
    ensures var args := FileFrame(f.name, |f.content|, f.mtime, offset).payload[1..];
            ParseFile(args) == Some(AnnouncementOf(f, offset)) && !NamesDirectory(f.name) <==> CleanName(f.name)
  {
    if CleanName(f.name) {
      FileArguments(f, offset);
    }
  }

  /** A name of two words is read as the first of them, the second one as the size, the size
      as the time, and the time as the offset. */
  lemma TwoWordsAreMisread(a: string, b: string, size: nat, mtime: int, offset: int)
    requires IsToken(a) && IsToken(b)
    ensures ParseFile(FileFrame(a + " " + b, size, mtime, offset).payload[1..])
            == Some(Announcement(a, Base(a), ParseInt64(b), Decimal(size), ParseInt64(SignedDecimal(mtime))))
  {
    var args := [Decimal(size), SignedDecimal(mtime), SignedDecimal(offset)];
    FieldsOfJoin([a, b] + args);
    JoinWords(a, b, args);
    assert FileFrame(a + " " + b, size, mtime, offset).payload[1..] == Join([a + " " + b] + args);
  }

  lemma JoinWords(a: string, b: string, rest: seq<string>)
    requires rest != []
    ensures Join([a + " " + b] + rest) == Join([a, b] + rest)
  {
    assert ([a + " " + b] + rest)[1..] == rest && ([a, b] + rest)[1..] == [b] + rest && ([b] + rest)[1..] == rest;
    Assoc(a + " ", b + " ", Join(rest));
    Assoc(a + " ", b, " ");
  }

  lemma MisreadExample()
    ensures !CleanName("old mail.pkt")
    ensures ParseFile(FileFrame("old mail.pkt", 10, 77, 0).payload[1..]) == Some(Announcement("old", "old", 0, "10", 77))
  {
    assert "old mail.pkt"[3] == ' ';
    assert "old mail.pkt" == "old" + " " + "mail.pkt";
    TwoWordsAreMisread("old", "mail.pkt", 10, 77, 0);
    BaseOfPlainName("old");
    ParseDecimal(77);
    assert Decimal(10) == "10" by {
      assert Numeral(10, 10) == Numeral(1, 10) + ['0'];
    }
    assert ParseInt64("mail.pkt") == 0;
  }

  /** The state with an open file of which pos bytes are stored and counted. */
  ghost predicate IsOpen(s: State, pos: nat) {
    s.rx.file == Some(pos) && s.rx.recvBytes == pos && s.rx.recvName in s.rx.temp && |s.rx.temp[s.rx.recvName]| == pos
  }

  /** The session with its current file, if any, finished. */
  function Closed(ctx: Context, s: State): State {
    if s.rx.file.None? then s else FinishFile(ctx, s, ALL_OK).state
  }

  lemma StoreTwice(s: State, a: string, b: string)
    requires s.rx.file.Some? && IsOpen(s, s.rx.file.value)
    ensures var t := Store(s, a, |a|);
            && IsOpen(t, s.rx.file.value + |a|) && t.rx.recvSize == s.rx.recvSize && t.rx.recvName == s.rx.recvName
            && Store(t, b, |b|) == Store(s, a + b, |a + b|)
  {
    var name := s.rx.recvName;
    var t := Store(s, a, |a|);
    assert s.rx.temp[name] + a + b == s.rx.temp[name] + (a + b);
    assert t.rx.temp[name := s.rx.temp[name] + a + b] == s.rx.temp[name := s.rx.temp[name] + (a + b)];
  }

  lemma StoreNothing(s: State)
    requires s.rx.file.Some? && IsOpen(s, s.rx.file.value)
    ensures Store(s, "", 0) == s
  {
    var temp, name := s.rx.temp, s.rx.recvName;
    assert temp[name] + "" == temp[name];
    assert temp[name := temp[name]] == temp;
  }

  /** Receiving the chunks of some bytes, then finishing, is storing the bytes, then
      finishing: no chunk but the last can complete the file. */
  lemma {:induction false} ReceiveChunks(ctx: Context, s: State, bytes: string)
    requires s.rx.file.Some? && IsOpen(s, s.rx.file.value)
    requires s.rx.file.value + |bytes| <= s.rx.recvSize
    ensures var r := Run(ctx, s, Ok(Chunks(bytes)));
            && r.status == Continue
            && Closed(ctx, r.state) == FinishFile(ctx, Store(s, bytes, |bytes|), ALL_OK).state
    decreases |bytes|
  {
    if bytes == "" {
      StoreNothing(s);
    } else {
      var n := if |bytes| <= CHUNK then |bytes| else CHUNK;
      var a, b := bytes[..n], bytes[n..];
      assert bytes == a + b;
      StoreTwice(s, a, b);
      var t := Store(s, a, |a|);
      var arrivals := Ok(Chunks(bytes));
      assert arrivals[0] == Arrival(Data(a), ALL_OK);
      assert arrivals[1..] == Ok(Chunks(b));
      ReceiveChunk(ctx, s, a);
      if b == "" {
        assert a == bytes;
        assert arrivals[1..] == [];
      } else {
        ReceiveChunks(ctx, t, b);
      }
    }
  }

  /** One data frame that does not go beyond the end of the file. */
  lemma ReceiveChunk(ctx: Context, s: State, bytes: string)
    requires s.rx.file.Some? && IsOpen(s, s.rx.file.value) && bytes != ""
    requires s.rx.file.value + |bytes| <= s.rx.recvSize
    ensures var r, t := Handle(ctx, s, Arrival(Data(bytes), ALL_OK)), Store(s, bytes, |bytes|);
            && r.status == Continue && Closed(ctx, r.state) == FinishFile(ctx, t, ALL_OK).state
            && (s.rx.file.value + |bytes| < s.rx.recvSize ==> r.state == t)
  {
  }

  /** The state after a file has been delivered from a state with no file open. */
  function Delivered(ctx: Context, s: State, f: File): State {
    var slot := Slot(Destination(ctx, s.remoteAddrs, s.activeLink), f.name);
    s.(activeLink := Settled(ctx, s.remoteAddrs, s.activeLink),
       rx := s.rx.(file := None,
       recvName := f.name,
       recvTimestamp := SignedDecimal(f.mtime),
       recvSize := |f.content|,
       recvBytes := |f.content|,
       temp := s.rx.temp - {f.name},
       inbound := s.rx.inbound[slot := f.content],
       moved := s.rx.moved + [Moved(slot, f.content)],
       filesReceived := s.rx.filesReceived + 1,
       bytesReceived := s.rx.bytesReceived + |f.content|),
       wire := s.wire + [GotFrame(f.name, |f.content|, SignedDecimal(f.mtime))])
  }

  function AnnouncementOf(f: File, offset: nat): Announcement {
    Announcement(f.name, f.name, |f.content|, SignedDecimal(f.mtime), offset)
  }

  /** M_FILE finishes the file before it, then opens the new one. */
  lemma ReceiveAnnouncement(ctx: Context, s: State, f: File, offset: nat)
    requires Sendable(f) && offset <= MAX_INT64
    ensures var c := Closed(ctx, s);
            Handle(ctx, s, Arrival(FileFrame(f.name, |f.content|, f.mtime, offset), ALL_OK))
            == Reaction(c.(rx := Opened(c.rx, AnnouncementOf(f, offset))), Continue)
  {
    FileArguments(f, offset);
    AnnouncementOpens(ctx, s, FileFrame(f.name, |f.content|, f.mtime, offset).payload, AnnouncementOf(f, offset));
  }

  lemma AnnouncementOpens(ctx: Context, s: State, payload: string, a: Announcement)
    requires payload != "" && payload[0] == M_FILE && ParseFile(payload[1..]) == Some(a) && !NamesDirectory(a.baseName)
    ensures var c := Closed(ctx, s);
            HandleCommand(ctx, s, payload, ALL_OK) == Reaction(c.(rx := Opened(c.rx, a)), Continue)
  {
    var c := Closed(ctx, s);
    assert OpenFile(c, payload[1..], ALL_OK) == OpenTemp(c, a, ALL_OK);
  }

  lemma ReceiveFile(ctx: Context, s: State, f: File)
    requires Sendable(f)
    ensures var r := Run(ctx, s, Ok(FramesFrom(f, 0)));
            r.status == Continue && Closed(ctx, r.state) == Delivered(ctx, Closed(ctx, s), f)
  {
    var c := Closed(ctx, s);
    var open := c.(rx := Opened(c.rx, AnnouncementOf(f, 0)));
    ReceiveAnnouncement(ctx, s, f, 0);
    RunFirst(ctx, s, FileFrame(f.name, |f.content|, f.mtime, 0), Chunks(f.content), open);
    ReceiveChunks(ctx, open, f.content);
    FinishWhole(ctx, c, open, f);
  }

  /** Finishing the file just opened, once its whole content is stored, delivers it. */
  lemma FinishWhole(ctx: Context, c: State, open: State, f: File)
    requires open == c.(rx := Opened(c.rx, AnnouncementOf(f, 0)))
    ensures FinishFile(ctx, Store(open, f.content, |f.content|), ALL_OK).state == Delivered(ctx, c, f)
  {
    var full := Store(open, f.content, |f.content|);
    assert full.rx.temp[f.name] == "" + f.content == f.content;
    assert full.rx.temp - {f.name} == c.rx.temp - {f.name};
  }

  /* ---- Any list of files ---- */

  function DeliveredAll(ctx: Context, s: State, files: seq<File>): State
    decreases |files|
  {
    if files == [] then s else DeliveredAll(ctx, Delivered(ctx, s, files[0]), files[1..])
  }

  lemma {:induction false} ReceiveFiles(ctx: Context, s: State, files: seq<File>)
    requires forall i :: 0 <= i < |files| ==> Sendable(files[i])
    ensures var r := Run(ctx, s, Ok(FramesOf(files)));
            r.status == Continue && Closed(ctx, r.state) == DeliveredAll(ctx, Closed(ctx, s), files)
    decreases |files|
  {
    if files != [] {
      var a, b := FramesFrom(files[0], 0), FramesOf(files[1..]);
      OkAppend(a, b);
      RunAppend(ctx, s, Ok(a), Ok(b));
      ReceiveFile(ctx, s, files[0]);
      ReceiveFiles(ctx, Run(ctx, s, Ok(a)).state, files[1..]);
    }
  }

  function PutAll(inbound: map<Slot, string>, dir: string, files: seq<File>): map<Slot, string>
    decreases |files|
  {
    if files == [] then inbound
    else PutAll(inbound[Slot(dir, files[0].name) := files[0].content], dir, files[1..])
  }

  /** A directory keeps, under each name, the last file of that name; nothing else changes. */
  lemma {:induction false} PutAllIs(inbound: map<Slot, string>, dir: string, files: seq<File>, slot: Slot)
    ensures var r := PutAll(inbound, dir, files);
            && ((forall i :: 0 <= i < |files| ==> slot != Slot(dir, files[i].name))
                ==> (slot in r <==> slot in inbound) && (slot in inbound ==> r[slot] == inbound[slot]))
            && forall i :: 0 <= i < |files| && slot == Slot(dir, files[i].name) && IsLastOf(files, i)
                           ==> slot in r && r[slot] == files[i].content
    decreases |files|
  {
    if files != [] {
      var rest := files[1..];
      var more := inbound[Slot(dir, files[0].name) := files[0].content];
      PutAllIs(more, dir, rest, slot);
      assert forall i :: 0 <= i < |rest| ==> rest[i] == files[i + 1];
      forall i | 0 <= i < |files| && slot == Slot(dir, files[i].name) && IsLastOf(files, i)
        ensures var r := PutAll(inbound, dir, files); slot in r && r[slot] == files[i].content
      {
        if i > 0 {
          assert IsLastOf(rest, i - 1) && slot == Slot(dir, rest[i - 1].name);
        }
      }
    }
  }

  /** No later file has the name of file i. */
  ghost predicate IsLastOf(files: seq<File>, i: nat)
    requires i < |files|
  {
    forall j :: i < j < |files| ==> files[j].name != files[i].name
  }

  /** The files as the history of moves records them. */
  function MovesOf(dir: string, files: seq<File>): seq<Moved> {
    if files == [] then []
    else [Moved(Slot(dir, files[0].name), files[0].content)] + MovesOf(dir, files[1..])
  }

  /** One confirmation for each file, with its true length. */
  function GotsOf(files: seq<File>): seq<Frame> {
    if files == [] then []
    else [GotFrame(files[0].name, |files[0].content|, SignedDecimal(files[0].mtime))] + GotsOf(files[1..])
  }

  lemma {:induction false} DeliveredAllIs(ctx: Context, s: State, files: seq<File>)
    requires s.rx.file.None?
    ensures var dir, r := Destination(ctx, s.remoteAddrs, s.activeLink), DeliveredAll(ctx, s, files);
            r.rx.file.None? && r.weSentEOB == s.weSentEOB && r.rx.inbound == PutAll(s.rx.inbound, dir, files)
    decreases |files|
  {
    if files != [] {
      DeliveredAllIs(ctx, Delivered(ctx, s, files[0]), files[1..]);
    }
  }

  lemma DeliveredKeepsDestination(ctx: Context, s: State, f: File)
    ensures var t := Delivered(ctx, s, f);
            Destination(ctx, t.remoteAddrs, t.activeLink) == Destination(ctx, s.remoteAddrs, s.activeLink)
  {
  }

  lemma {:induction false} DeliveredAllMoves(ctx: Context, s: State, files: seq<File>)
    requires s.rx.file.None?
    ensures DeliveredAll(ctx, s, files).rx.moved
            == s.rx.moved + MovesOf(Destination(ctx, s.remoteAddrs, s.activeLink), files)
    decreases |files|
  {
    if files == [] {
      assert s.rx.moved + [] == s.rx.moved;
    } else {
      var dir, t := Destination(ctx, s.remoteAddrs, s.activeLink), Delivered(ctx, s, files[0]);
      DeliveredKeepsDestination(ctx, s, files[0]);
      DeliveredAllMoves(ctx, t, files[1..]);
      var move := Moved(Slot(dir, files[0].name), files[0].content);
      Assoc(s.rx.moved, [move], MovesOf(dir, files[1..]));
    }
  }

  lemma {:induction false} DeliveredAllGots(ctx: Context, s: State, files: seq<File>)
    requires s.rx.file.None?
    ensures DeliveredAll(ctx, s, files).wire == s.wire + GotsOf(files)
    decreases |files|
  {
    if files == [] {
      assert s.wire + [] == s.wire;
    } else {
      DeliveredAllGots(ctx, Delivered(ctx, s, files[0]), files[1..]);
      var got := GotFrame(files[0].name, |files[0].content|, SignedDecimal(files[0].mtime));
      Assoc(s.wire, [got], GotsOf(files[1..]));
    }
  }

  /* ---- Frames that have nothing to do with reception ---- */

  /** M_GOT, M_NUL, M_SKIP and unknown commands: anything handleCommand does not act on
      as a receiver. */
  predicate IsNoise(f: Frame) {
    f.isCmd && (f.payload == "" || f.payload[0] !in {M_FILE, M_EOB, M_ERR, M_BSY})
  }

  function Signals(arrivals: seq<Arrival>): seq<Arrival> {
    if arrivals == [] then []
    else (if IsNoise(arrivals[0].frame) then [] else [arrivals[0]]) + Signals(arrivals[1..])
  }

  /** The state without the files of the sending side. */
  function Core(s: State): State {
    s.(tx := s.tx.(sources := map[]))
  }

  lemma NoiseKeepsCore(ctx: Context, s: State, a: Arrival)
    requires IsNoise(a.frame)
    ensures Handle(ctx, s, a).status == Continue && Core(Handle(ctx, s, a).state) == Core(s)
  {
  }

  lemma FinishIgnoresSources(ctx: Context, s: State, t: State, io: Io)
    requires Core(s) == Core(t)
    ensures var r, q := FinishFile(ctx, s, io), FinishFile(ctx, t, io);
            r.status == q.status && Core(r.state) == Core(q.state)
  {
    assert t == s.(tx := t.tx);
  }

  lemma OpenIgnoresSources(s: State, t: State, args: string, io: Io)
    requires Core(s) == Core(t)
    ensures var r, q := OpenFile(s, args, io), OpenFile(t, args, io);
            r.status == q.status && Core(r.state) == Core(q.state)
  {
    assert t == s.(tx := t.tx);
  }

  lemma DataIgnoresSources(ctx: Context, s: State, t: State, data: string, io: Io)
    requires Core(s) == Core(t)
    ensures var r, q := HandleData(ctx, s, data, io), HandleData(ctx, t, data, io);
            r.status == q.status && Core(r.state) == Core(q.state)
  {
    assert t == s.(tx := t.tx);
    if s.rx.file.Some? && s.rx.recvName in s.rx.temp && io.writeOk {
      FinishIgnoresSources(ctx, Store(s, data, |data|), Store(t, data, |data|), io);
    }
  }

  lemma FileIgnoresSources(ctx: Context, s: State, t: State, args: string, io: Io)
    requires Core(s) == Core(t)
    ensures var r, q := HandleFile(ctx, s, args, io), HandleFile(ctx, t, args, io);
            r.status == q.status && Core(r.state) == Core(q.state)
  {
    if s.rx.file.None? {
      OpenIgnoresSources(s, t, args, io);
    } else {
      FinishIgnoresSources(ctx, s, t, io);
      OpenIgnoresSources(FinishFile(ctx, s, io).state, FinishFile(ctx, t, io).state, args, io);
    }
  }

  lemma EobIgnoresSources(ctx: Context, s: State, t: State, io: Io)
    requires Core(s) == Core(t)
    ensures var r, q := HandleEOB(ctx, s, io), HandleEOB(ctx, t, io);
            r.status == q.status && Core(r.state) == Core(q.state)
  {
    FinishIgnoresSources(ctx, s, t, io);
  }

  lemma SignalIgnoresSources(ctx: Context, s: State, t: State, a: Arrival)
    requires Core(s) == Core(t) && !IsNoise(a.frame)
    ensures var r, q := Handle(ctx, s, a), Handle(ctx, t, a);
            r.status == q.status && Core(r.state) == Core(q.state)
  {
    var payload := a.frame.payload;
    if !a.frame.isCmd {
      DataIgnoresSources(ctx, s, t, payload, a.io);
    } else if payload[0] == M_FILE {
      FileIgnoresSources(ctx, s, t, payload[1..], a.io);
    } else if payload[0] == M_EOB {
      EobIgnoresSources(ctx, s, t, a.io);
    }
  }

  /** However confirmations, information lines and unknown commands are merged into the
      stream, the receiver ends in the same state, apart from the sender's own files. */
  lemma {:induction false} NoiseIsIgnored(ctx: Context, s: State, t: State, arrivals: seq<Arrival>)
    requires Core(s) == Core(t)
    ensures var r, q := Run(ctx, s, arrivals), Run(ctx, t, Signals(arrivals));
            r.status == q.status && Core(r.state) == Core(q.state)
    decreases |arrivals|
  {
    if arrivals != [] {
      var a := arrivals[0];
      var r := Handle(ctx, s, a);
      if IsNoise(a.frame) {
        NoiseKeepsCore(ctx, s, a);
        NoiseIsIgnored(ctx, r.state, t, arrivals[1..]);
        assert Signals(arrivals) == Signals(arrivals[1..]);
      } else {
        SignalIgnoresSources(ctx, s, t, a);
        assert Signals(arrivals)[1..] == Signals(arrivals[1..]);
        if r.status == Continue {
          NoiseIsIgnored(ctx, r.state, Handle(ctx, t, a).state, arrivals[1..]);
        }
      }
    }
  }

  /* ---- Only clean names arrive ---- */

  lemma {:induction false} StripSlashesIn(path: string)
    ensures forall c :: c in StripSlashes(path) ==> c in path
  {
    if path != "" && path[|path| - 1] == '/' {
      StripSlashesIn(path[..|path| - 1]);
    }
  }

  lemma {:induction false} AfterLastSlashIn(path: string)
    ensures forall c :: c in AfterLastSlash(path) ==> c in path
  {
    if path != "" && path[|path| - 1] != '/' {
      AfterLastSlashIn(path[..|path| - 1]);
    }
  }

  lemma BaseOfToken(path: string)
    requires IsToken(path)
    ensures NamesDirectory(Base(path)) || CleanName(Base(path))
  {
    StripSlashesIn(path);
    AfterLastSlashIn(StripSlashes(path));
    var b := Base(path);
    if !NamesDirectory(b) {
      assert forall i :: 0 <= i < |b| ==> b[i] in b && b[i] in path;
    }
  }

  ghost predicate OpenIsClean(s: State) {
    s.rx.file.Some? ==> CleanName(s.rx.recvName)
  }

  /** From s to r only files of clean names have been moved. */
  ghost predicate MovesCleanly(s: State, r: State) {
    && OpenIsClean(r) && s.rx.moved <= r.rx.moved
    && forall i :: |s.rx.moved| <= i < |r.rx.moved| ==> CleanName(r.rx.moved[i].slot.name)
  }

  lemma FinishMovesCleanly(ctx: Context, s: State, io: Io)
    requires s.rx.file.Some? && OpenIsClean(s)
    ensures MovesCleanly(s, FinishFile(ctx, s, io).state)
  {
  }

  lemma OpenMovesNothing(s: State, args: string, io: Io)
    requires s.rx.file.None?
    ensures var r := OpenFile(s, args, io).state; r.rx.moved == s.rx.moved && OpenIsClean(r)
  {
    var parts := Fields(args);
    if |parts| >= 2 {
      BaseOfToken(parts[0]);
    }
  }

  lemma FileMovesCleanly(ctx: Context, s: State, args: string, io: Io)
    requires OpenIsClean(s)
    ensures MovesCleanly(s, HandleFile(ctx, s, args, io).state)
  {
    if s.rx.file.None? {
      OpenMovesNothing(s, args, io);
    } else {
      FinishMovesCleanly(ctx, s, io);
      var r := FinishFile(ctx, s, io);
      if r.status == Continue {
        OpenMovesNothing(r.state, args, io);
      }
    }
  }

  lemma HandleMovesCleanly(ctx: Context, s: State, a: Arrival)
    requires OpenIsClean(s)
    ensures MovesCleanly(s, Handle(ctx, s, a).state)
  {
    var payload := a.frame.payload;
    if !a.frame.isCmd {
      if s.rx.file.Some? && s.rx.recvName in s.rx.temp && a.io.writeOk {
        FinishMovesCleanly(ctx, Store(s, payload, |payload|), a.io);
      }
    } else if payload != "" && payload[0] == M_FILE {
      FileMovesCleanly(ctx, s, payload[1..], a.io);
    } else if payload != "" && payload[0] == M_EOB && s.rx.file.Some? {
      FinishMovesCleanly(ctx, s, a.io);
    }
  }

  /** Whatever arrives, no file is delivered under a name that is not clean. */
  lemma {:induction false} RunMovesCleanly(ctx: Context, s: State, arrivals: seq<Arrival>)
    requires OpenIsClean(s)
    ensures MovesCleanly(s, Run(ctx, s, arrivals).state)
    decreases |arrivals|
  {
    if arrivals != [] {
      HandleMovesCleanly(ctx, s, arrivals[0]);
      var r := Handle(ctx, s, arrivals[0]);
      if r.status == Continue {
        RunMovesCleanly(ctx, r.state, arrivals[1..]);
      }
    }
  }

  ghost predicate AllClean(files: seq<File>) {
    forall i :: 0 <= i < |files| ==> CleanName(files[i].name)
  }

  lemma {:induction false} MovesOfAt(dir: string, files: seq<File>)
    ensures |MovesOf(dir, files)| == |files|
    ensures forall i :: 0 <= i < |files| ==> MovesOf(dir, files)[i] == Moved(Slot(dir, files[i].name), files[i].content)
  {
    if files != [] {
      MovesOfAt(dir, files[1..]);
    }
  }

  lemma UncleanIsNotMoved(s: State, r: State, dir: string, files: seq<File>)
    requires MovesCleanly(s, r) && r.rx.moved == s.rx.moved + MovesOf(dir, files)
    ensures AllClean(files)
  {
    MovesOfAt(dir, files);
    forall i | 0 <= i < |files|
      ensures CleanName(files[i].name)
    {
      assert r.rx.moved[|s.rx.moved| + i] == MovesOf(dir, files)[i];
    }
  }

  /** Transfer is transparent. For any list of files, empty ones included, and for any
      merge of other frames into the sender's stream, the receiver moves exactly those
      names and contents, in order, exactly when the names are clean; then its inbound
      directory has them, it has confirmed each of them with its true length, and it has
      no file left open. */
  lemma TransferIsTransparent(ctx: Context, s: State, files: seq<File>, arrivals: seq<Arrival>)
    requires s.rx.file.None?
    requires forall i :: 0 <= i < |files| ==> |files[i].content| <= MAX_INT64
    requires Signals(arrivals) == Ok(FramesOf(files) + [EOB_FRAME])
    ensures var r := Run(ctx, s, arrivals);
            var dir := Destination(ctx, s.remoteAddrs, s.activeLink);
            && (r.state.rx.moved == s.rx.moved + MovesOf(dir, files) <==> AllClean(files))
            && (AllClean(files) ==>
                  && r.status == (if s.weSentEOB then Finished else Continue)
                  && r.state.rx.inbound == PutAll(s.rx.inbound, dir, files)
                  && r.state.wire == s.wire + GotsOf(files)
                  && r.state.rx.file.None? && r.state.theySentEOB)
  {
    RunMovesCleanly(ctx, s, arrivals);
    if AllClean(files) {
      CleanTransfer(ctx, s, files, arrivals);
    } else {
      var r, dir := Run(ctx, s, arrivals).state, Destination(ctx, s.remoteAddrs, s.activeLink);
      if r.rx.moved == s.rx.moved + MovesOf(dir, files) {
        UncleanIsNotMoved(s, r, dir, files);
      }
    }
  }

  lemma CleanTransfer(ctx: Context, s: State, files: seq<File>, arrivals: seq<Arrival>)
    requires s.rx.file.None?
    requires forall i :: 0 <= i < |files| ==> Sendable(files[i])
    requires Signals(arrivals) == Ok(FramesOf(files) + [EOB_FRAME])
    ensures var r := Run(ctx, s, arrivals);
            var dir := Destination(ctx, s.remoteAddrs, s.activeLink);
            && r.status == (if s.weSentEOB then Finished else Continue)
            && r.state.rx.inbound == PutAll(s.rx.inbound, dir, files)
            && r.state.rx.moved == s.rx.moved + MovesOf(dir, files)
            && r.state.wire == s.wire + GotsOf(files)
            && r.state.rx.file.None? && r.state.theySentEOB
  {
    NoiseIsIgnored(ctx, s, s, arrivals);
    var frames := FramesOf(files);
    OkAppend(frames, [EOB_FRAME]);
    RunAppend(ctx, s, Ok(frames), Ok([EOB_FRAME]));
    ReceiveFiles(ctx, s, files);
    DeliveredAllIs(ctx, s, files);
    DeliveredAllMoves(ctx, s, files);
    DeliveredAllGots(ctx, s, files);
    EobCloses(ctx, Run(ctx, s, Ok(frames)).state);
  }

  lemma EobCloses(ctx: Context, s: State)
    ensures var r := Run(ctx, s, Ok([EOB_FRAME]));
            && r.state == Closed(ctx, s).(theySentEOB := true)
            && r.status == (if s.weSentEOB then Finished else Continue)
  {
    var a := Ok([EOB_FRAME]);
    assert a[1..] == [];
  }

  /* ---- Resuming ---- */

  /** Storing a tail and finishing moves the partial file with the tail behind it. */
  lemma FinishTail(ctx: Context, s: State, kept: string, tail: string)
    requires s.rx.file == Some(|kept|) && s.rx.recvName in s.rx.temp && s.rx.temp[s.rx.recvName] == kept
    ensures var r := FinishFile(ctx, Store(s, tail, |tail|), ALL_OK).state.rx;
            var slot := Slot(Destination(ctx, s.remoteAddrs, s.activeLink), s.rx.recvName);
            && r.moved == s.rx.moved + [Moved(slot, kept + tail)]
            && r.inbound == s.rx.inbound[slot := kept + tail]
  {
  }

  lemma RunFirst(ctx: Context, s: State, first: Frame, rest: seq<Frame>, t: State)
    requires Handle(ctx, s, Arrival(first, ALL_OK)) == Reaction(t, Continue)
    ensures Run(ctx, s, Ok([first] + rest)) == Run(ctx, t, Ok(rest))
  {
    var arrivals := Ok([first] + rest);
    assert arrivals[0] == Arrival(first, ALL_OK) && arrivals[1..] == Ok(rest);
  }

  /** A file sent from an offset to a receiver with no file open, up to its last frame. */
  lemma ReceiveFrom(ctx: Context, s: State, f: File, offset: nat)
    requires s.rx.file.None? && Sendable(f) && 0 < offset <= |f.content|
    ensures var open, tail := s.(rx := Opened(s.rx, AnnouncementOf(f, offset))), f.content[offset..];
            var r := Run(ctx, s, Ok(FramesFrom(f, offset)));
            r.status == Continue && Closed(ctx, r.state) == FinishFile(ctx, Store(open, tail, |tail|), ALL_OK).state
  {
    var open, tail := s.(rx := Opened(s.rx, AnnouncementOf(f, offset))), f.content[offset..];
    ReceiveAnnouncement(ctx, s, f, offset);
    RunFirst(ctx, s, FileFrame(f.name, |f.content|, f.mtime, offset), Chunks(tail), open);
    ReceiveChunks(ctx, open, tail);
  }

  /** What the receiver holds after a resumed transfer: its own partial file plus the
      rest, or, when the partial file does not have the announced length, the rest alone. */
  lemma ResumeDelivers(ctx: Context, s: State, f: File, offset: nat)
    requires s.rx.file.None? && Sendable(f) && 0 < offset <= |f.content|
    ensures var r := Run(ctx, s, Ok(FramesFrom(f, offset) + [EOB_FRAME]));
            var slot := Slot(Destination(ctx, s.remoteAddrs, s.activeLink), f.name);
            var kept := if f.name in s.rx.temp && |s.rx.temp[f.name]| == offset then s.rx.temp[f.name] else "";
            && r.status != Failed
            && r.state.rx.moved == s.rx.moved + [Moved(slot, kept + f.content[offset..])]
            && r.state.rx.inbound == s.rx.inbound[slot := kept + f.content[offset..]]
  {
    var frames, tail := FramesFrom(f, offset), f.content[offset..];
    OkAppend(frames, [EOB_FRAME]);
    RunAppend(ctx, s, Ok(frames), Ok([EOB_FRAME]));
    ReceiveFrom(ctx, s, f, offset);
    var open := s.(rx := Opened(s.rx, AnnouncementOf(f, offset)));
    FinishTail(ctx, open, open.rx.temp[f.name], tail);
    EobCloses(ctx, Run(ctx, s, Ok(frames)).state);
  }

  /** Resuming at an offset delivers the source unchanged, under its name, exactly when the
      name is clean and the receiver's temporary file is the source's first offset bytes. */
  lemma ResumeIsCorrect(ctx: Context, s: State, f: File, offset: nat)
    requires s.rx.file.None? && |f.content| <= MAX_INT64 && 0 < offset <= |f.content|
    ensures var r := Run(ctx, s, Ok(FramesFrom(f, offset) + [EOB_FRAME]));
            var slot := Slot(Destination(ctx, s.remoteAddrs, s.activeLink), f.name);
            && (r.state.rx.moved == s.rx.moved + [Moved(slot, f.content)]
                <==> CleanName(f.name) && f.name in s.rx.temp && s.rx.temp[f.name] == f.content[..offset])
            && (CleanName(f.name) ==> slot in r.state.rx.inbound
                                      && (r.state.rx.inbound[slot] == f.content
                                          <==> f.name in s.rx.temp && s.rx.temp[f.name] == f.content[..offset]))
  {
    if CleanName(f.name) {
      CleanResume(ctx, s, f, offset);
    } else {
      UncleanResume(ctx, s, f, offset);
    }
  }

  lemma UncleanResume(ctx: Context, s: State, f: File, offset: nat)
    requires s.rx.file.None? && !CleanName(f.name)
    ensures forall slot: Slot, content :: slot.name == f.name
              ==> Run(ctx, s, Ok(FramesFrom(f, offset) + [EOB_FRAME])).state.rx.moved != s.rx.moved + [Moved(slot, content)]
  {
    var r := Run(ctx, s, Ok(FramesFrom(f, offset) + [EOB_FRAME])).state;
    RunMovesCleanly(ctx, s, Ok(FramesFrom(f, offset) + [EOB_FRAME]));
    forall slot: Slot, content | slot.name == f.name
      ensures r.rx.moved != s.rx.moved + [Moved(slot, content)]
    {
      UncleanIsNotTheOne(s, r, Moved(slot, content));
    }
  }

  lemma UncleanIsNotTheOne(s: State, r: State, m: Moved)
    requires MovesCleanly(s, r) && !CleanName(m.slot.name)
    ensures r.rx.moved != s.rx.moved + [m]
  {
    assert (s.rx.moved + [m])[|s.rx.moved|] == m;
    assert |r.rx.moved| > |s.rx.moved| ==> CleanName(r.rx.moved[|s.rx.moved|].slot.name);
  }

  lemma CleanResume(ctx: Context, s: State, f: File, offset: nat)
    requires s.rx.file.None? && Sendable(f) && 0 < offset <= |f.content|
    ensures var r := Run(ctx, s, Ok(FramesFrom(f, offset) + [EOB_FRAME]));
            var slot := Slot(Destination(ctx, s.remoteAddrs, s.activeLink), f.name);
            var prefix := f.name in s.rx.temp && s.rx.temp[f.name] == f.content[..offset];
            && (r.state.rx.moved == s.rx.moved + [Moved(slot, f.content)] <==> prefix)
            && slot in r.state.rx.inbound && (r.state.rx.inbound[slot] == f.content <==> prefix)
  {
    var kept := if f.name in s.rx.temp && |s.rx.temp[f.name]| == offset then s.rx.temp[f.name] else "";
    ResumeDelivers(ctx, s, f, offset);
    PrefixDecides(kept, f.content, offset);
    var slot := Slot(Destination(ctx, s.remoteAddrs, s.activeLink), f.name);
    LastDecides(s.rx.moved, Moved(slot, kept + f.content[offset..]), Moved(slot, f.content));
  }

  lemma LastDecides<T>(xs: seq<T>, a: T, b: T)
    ensures xs + [a] == xs + [b] <==> a == b
  {
    assert (xs + [a])[|xs|] == a && (xs + [b])[|xs|] == b;
  }

  lemma PrefixDecides(kept: string, whole: string, offset: nat)
    requires offset <= |whole|
    ensures kept + whole[offset..] == whole <==> kept == whole[..offset]
  {
    assert whole == whole[..offset] + whole[offset..];
    if kept + whole[offset..] == whole {
      assert |kept| == offset;
      assert whole[..offset] == (kept + whole[offset..])[..offset];
    }
  }

  lemma {:induction false} ChunksTotal(bytes: string)
    ensures TotalBytes(Chunks(bytes)) == |bytes|
  {
    if |bytes| > CHUNK {
      ChunksTotal(bytes[CHUNK..]);
      TotalBytesPrepend(Data(bytes[..CHUNK]), Chunks(bytes[CHUNK..]));
    } else if bytes != "" {
      assert Chunks(bytes)[..0] == [];
    }
  }

  lemma {:induction false} TotalBytesPrepend(f: Frame, frames: seq<Frame>)
    ensures TotalBytes([f] + frames) == |f.payload| + TotalBytes(frames)
  {
    if frames == [] {
      assert ([f] + frames)[..0] == [];
    } else {
      var n := |frames|;
      assert ([f] + frames)[..n] == [f] + frames[..n - 1];
      TotalBytesPrepend(f, frames[..n - 1]);
    }
  }

  /** A file sent in full counts exactly the bytes from its offset to its end. */
  lemma BytesSentGrow(s: State, item: Item, capacity: nat)
    requires SendFile(s, item, capacity).status == Sent && 0 <= item.offset <= |s.tx.sources[item.path].content|
    ensures var t := SendFile(s, item, capacity).state;
            && t.tx.bytesSent == s.tx.bytesSent + |s.tx.sources[item.path].content| - item.offset
            && t.tx.filesSent == s.tx.filesSent + 1
  {
    FullFrames(s.tx.sources, item);
    var frames := ItemFrames(s.tx.sources, item);
    var tail := From(s.tx.sources[item.path].content, item.offset);
    assert frames[1..|frames|] == Chunks(tail);
    ChunksTotal(tail);
  }
}
