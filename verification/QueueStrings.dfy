/** Which address strings the queue of a scan has for an address: one for its proper files,
    and another one when a file with point number zero lies in its point directory. */
module QueueStrings {
  import opened GoStrings
  import opened Address
  import opened OutboundNames
  import opened OutboundScan

  /* ---- Files of a directory tree ---- */

  ghost predicate HasRegular(entries: seq<Entry>, file: string) {
    exists e :: e in entries && e.RegularFile? && e.name == file
  }

  ghost predicate IsOpenDir(entries: seq<Entry>, name: string, inner: Entry) {
    inner in entries && inner.Directory? && !inner.unreadable && inner.name == name
  }

  ghost predicate HasBelow(entries: seq<Entry>, pointDir: Option<string>, file: string) {
    match pointDir
    case None => HasRegular(entries, file)
    case Some(dir) => exists e :: IsOpenDir(entries, dir, e) && HasRegular(e.entries, file)
  }

  /** The outbound directory holds a regular file at the path, in directories that can be read. */
  ghost predicate HasFile(root: seq<Entry>, p: Path) {
    exists e :: IsOpenDir(root, p.zoneDir, e) && HasBelow(e.entries, p.pointDir, p.file)
  }

  /* ---- What is found are those files ---- */

  ghost predicate Names(fs: seq<Finding>, address: string) {
    exists f :: f in fs && f.address == address
  }

  lemma {:induction false} NamedInEntry(level: Level, entries: seq<Entry>, sizes: map<string, nat>, address: string)
    ensures Names(Findings(level, entries, sizes), address)
            <==> exists e :: e in entries && Names(FindingsOf(level, e, sizes), address)
    decreases |entries|
  {
    if entries != [] {
      NamedInEntry(level, entries[1..], sizes, address);
      NamesJoined(FindingsOf(level, entries[0], sizes), Findings(level, entries[1..], sizes), address);
      assert entries[0] in entries;
      if e :| e in entries[1..] && Names(FindingsOf(level, e, sizes), address) {
        assert e in entries;
      }
      if e :| e in entries && Names(FindingsOf(level, e, sizes), address) {
        assert e == entries[0] || e in entries[1..];
      }
    }
  }

  lemma NamesJoined(a: seq<Finding>, b: seq<Finding>, address: string)
    ensures Names(a + b, address) <==> Names(a, address) || Names(b, address)
  {
    assert forall f :: f in a + b <==> f in a || f in b;
  }

  lemma NamedByFile(level: Level, e: Entry, sizes: map<string, nat>, address: string)
    requires e.RegularFile?
    ensures Names(FindingsOf(level, e, sizes), address)
            <==> Recognize(level, e.name).Some? && Recognize(level, e.name).value.Text() == address
  {
    var h := Recognize(level, e.name);
    if h.Some? {
      var f := Measure(h.value, e.content, e.gone, sizes);
      assert FindingsOf(level, e, sizes) == [f] && f in [f];
    }
  }

  /** A file in a point directory, or the files in a zone directory itself. */
  lemma NamedHere(level: Level, entries: seq<Entry>, sizes: map<string, nat>, file: string)
    requires HasRegular(entries, file) && Recognize(level, file).Some?
    ensures Names(Findings(level, entries, sizes), Recognize(level, file).value.Text())
  {
    var e :| e in entries && e.RegularFile? && e.name == file;
    NamedByFile(level, e, sizes, Recognize(level, file).value.Text());
    NamedInEntry(level, entries, sizes, Recognize(level, file).value.Text());
  }

  lemma NamedBelow(level: Level, entries: seq<Entry>, sizes: map<string, nat>, inner: Entry, address: string)
    requires IsOpenDir(entries, inner.name, inner) && Enter(level, inner.name).Some?
    requires Names(Findings(Enter(level, inner.name).value, inner.entries, sizes), address)
    ensures Names(Findings(level, entries, sizes), address)
  {
    assert Names(FindingsOf(level, inner, sizes), address);
    NamedInEntry(level, entries, sizes, address);
  }

  lemma FileIsNamed(root: seq<Entry>, p: Path, defaultZone: uint16, sizes: map<string, nat>)
    requires HasFile(root, p) && Scan(p, defaultZone).Some?
    ensures Names(Findings(Root(defaultZone), root, sizes), Scan(p, defaultZone).value.Text())
  {
    var zoneDir :| IsOpenDir(root, p.zoneDir, zoneDir) && HasBelow(zoneDir.entries, p.pointDir, p.file);
    var zone := Zone(ZoneOf(p.zoneDir, defaultZone).value);
    if p.pointDir.None? {
      NamedHere(zone, zoneDir.entries, sizes, p.file);
    } else {
      var pointDir :| IsOpenDir(zoneDir.entries, p.pointDir.value, pointDir) && HasRegular(pointDir.entries, p.file);
      NamedHere(Enter(zone, pointDir.name).value, pointDir.entries, sizes, p.file);
      NamedBelow(zone, zoneDir.entries, sizes, pointDir, Scan(p, defaultZone).value.Text());
    }
    NamedBelow(Root(defaultZone), root, sizes, zoneDir, Scan(p, defaultZone).value.Text());
  }

  /** A string found at a level comes from a file right there or from a directory below. */
  lemma NamedFrom(level: Level, entries: seq<Entry>, sizes: map<string, nat>, address: string) returns (e: Entry)
    requires Names(Findings(level, entries, sizes), address)
    ensures e in entries
    ensures if e.RegularFile?
            then HasRegular(entries, e.name) && Recognize(level, e.name).Some?
                 && Recognize(level, e.name).value.Text() == address
            else IsOpenDir(entries, e.name, e) && Enter(level, e.name).Some?
                 && Names(Findings(Enter(level, e.name).value, e.entries, sizes), address)
  {
    NamedInEntry(level, entries, sizes, address);
    e :| e in entries && Names(FindingsOf(level, e, sizes), address);
    if e.RegularFile? {
      NamedByFile(level, e, sizes, address);
    }
  }

  lemma NamedHasFile(root: seq<Entry>, defaultZone: uint16, sizes: map<string, nat>, address: string) returns (p: Path)
    requires Names(Findings(Root(defaultZone), root, sizes), address)
    ensures HasFile(root, p) && Scan(p, defaultZone).Some? && Scan(p, defaultZone).value.Text() == address
  {
    var zoneDir := NamedFrom(Root(defaultZone), root, sizes, address);
    var zone := Enter(Root(defaultZone), zoneDir.name).value;
    var inner := NamedFrom(zone, zoneDir.entries, sizes, address);
    if inner.RegularFile? {
      p := Path(zoneDir.name, None, inner.name);
    } else {
      var file := NamedFrom(Enter(zone, inner.name).value, inner.entries, sizes, address);
      p := Path(zoneDir.name, Some(inner.name), file.name);
      assert HasBelow(zoneDir.entries, p.pointDir, p.file);
    }
  }

  /* ---- The strings of an address ---- */

  /** The string of a file with point number zero in a point directory. */
  function ZeroName(a: FidoAddress): string {
    Print(a) + ".0"
  }

  predicate HasNumberZero(h: Hit) {
    h.inPointDir && h.addr.point == 0
  }

  /** The directory has a file of the address, with or without point number zero in a point directory. */
  ghost predicate HasMail(root: seq<Entry>, defaultZone: uint16, a: FidoAddress, numberZero: bool) {
    exists p :: HasFile(root, p) && Scan(p, defaultZone).Some?
                && Scan(p, defaultZone).value.addr == a && HasNumberZero(Scan(p, defaultZone).value) == numberZero
  }

  lemma TextIs(h: Hit)
    requires h.inPointDir || h.addr.point == 0
    ensures Parse(h.Text(), 0) == Some(h.addr)
    ensures h.Text() == if HasNumberZero(h) then ZeroName(h.addr) else Print(h.addr)
  {
    TextParses(h, 0);
    if HasNumberZero(h) {
      TextParses(h.(inPointDir := false), 0);
      assert Decimal(0) == "0";
    }
  }

  lemma HitIsNamed(p: Path, defaultZone: uint16)
    requires Scan(p, defaultZone).Some?
    ensures var h := Scan(p, defaultZone).value;
            && Parse(h.Text(), 0) == Some(h.addr)
            && h.Text() == if HasNumberZero(h) then ZeroName(h.addr) else Print(h.addr)
  {
    ScanParses(p, defaultZone);
    TextIs(Scan(p, defaultZone).value);
  }

  /** Both strings stand for the address, and they differ. */
  lemma ZeroNameParses(a: FidoAddress)
    requires a.point == 0
    ensures Parse(Print(a), 0) == Some(a) && Parse(ZeroName(a), 0) == Some(a) && Print(a) != ZeroName(a)
  {
    PrintParse(a, 0);
    TextIs(Hit(a, true, ""));
  }

  lemma ListedIsNamed(queue: seq<QueueEntry>, defaultZone: uint16, root: seq<Entry>, sizes: map<string, nat>,
                      address: string)
    requires IsQueueOf(queue, Absorb(map[], Findings(Root(defaultZone), root, sizes)))
    ensures Lists(queue, address) <==> Names(Findings(Root(defaultZone), root, sizes), address)
  {
    FindingsAreGraded(Root(defaultZone), root, sizes);
    AbsorbLowest(Findings(Root(defaultZone), root, sizes), address);
  }

  /** The queue strings of an address are its printed form, exactly when there is proper mail
      for it, and that with ".0" behind it, exactly when there is mail with number zero. */
  lemma QueuedStrings(queue: seq<QueueEntry>, defaultZone: uint16, root: seq<Entry>, sizes: map<string, nat>,
                      a: FidoAddress, address: string)
    requires IsQueueOf(queue, Absorb(map[], Findings(Root(defaultZone), root, sizes)))
    ensures Lists(queue, address) && Parse(address, 0) == Some(a)
            <==> || (address == Print(a) && HasMail(root, defaultZone, a, false))
                 || (address == ZeroName(a) && HasMail(root, defaultZone, a, true))
  {
    ListedIsNamed(queue, defaultZone, root, sizes, address);
    if Lists(queue, address) && Parse(address, 0) == Some(a) {
      var p := NamedHasFile(root, defaultZone, sizes, address);
      HitIsNamed(p, defaultZone);
    }
    if zero :| HasMail(root, defaultZone, a, zero) && address == if zero then ZeroName(a) else Print(a) {
      var p :| HasFile(root, p) && Scan(p, defaultZone).Some?
               && Scan(p, defaultZone).value.addr == a && HasNumberZero(Scan(p, defaultZone).value) == zero;
      HitIsNamed(p, defaultZone);
      FileIsNamed(root, p, defaultZone, sizes);
    }
  }

  /** For every node in a zone that the scan knows there can be mail of both kinds. */
  lemma BothKindsExist(a: FidoAddress, defaultZone: uint16)
    requires a.point == 0 && (a.zone == defaultZone || a.zone <= 0xFFF)
    ensures var dir := ZoneDir(a.zone, defaultZone);
            && Scan(Path(dir, None, NodeBase(a) + ".flo"), defaultZone) == Some(Hit(a, false, ".flo"))
            && Scan(Path(dir, Some(NodeBase(a) + ".pnt"), "00000000.flo"), defaultZone) == Some(Hit(a, true, ".flo"))
  {
    NamingRoundTrip(a, defaultZone, ".flo");
    ZoneDirRoundTrip(a.zone, defaultZone);
    ScanOwnPointDir(a);
    NumberZeroFile(a);
  }

  lemma NumberZeroFile(a: FidoAddress)
    requires a.point == 0
    ensures ScanPointFile(a.zone, a.net, a.node, "00000000.flo") == Some(Hit(a, true, ".flo"))
  {
    SentExtIs(".flo");
    ScanOwnPointFile(a, ".flo");
    ZeroDigits();
    assert "0000" + "0000" == "00000000";
    assert "00000000" + ".flo" == "00000000.flo";
  }
}
