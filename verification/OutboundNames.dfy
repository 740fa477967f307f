/** The naming scheme of the Binkley-style outbound (FTS-5005), which is written in one
    direction (getBsoBase, GetPollFilePath, FindFlowFiles) and read back in the other
    (scanOutbound). */
module OutboundNames {
  import opened GoStrings
  import opened Address

  /** A file below the outbound directory: zoneDir/file or zoneDir/pointDir/file. */
  datatype Path = Path(zoneDir: string, pointDir: Option<string>, file: string)

  /* ---- From addresses to paths ---- */

  /** The verb %04x. */
  function Hex4(n: uint16): string {
    PadZero(4, Numeral(n as nat, 16))
  }

  function ZoneDir(zone: uint16, defaultZone: uint16): string {
    if zone == defaultZone then "outbound" else "outbound." + PadZero(3, Numeral(zone as nat, 16))
  }

  function NodeBase(a: FidoAddress): string {
    Hex4(a.net) + Hex4(a.node)
  }

  /** getBsoBase: directory, point directory and base name; points have a directory of their own. */
  datatype BsoBase = BsoBase(zoneDir: string, pointDir: Option<string>, base: string)

  function GetBsoBase(a: FidoAddress, defaultZone: uint16): BsoBase {
    if a.point != 0 then BsoBase(ZoneDir(a.zone, defaultZone), Some(NodeBase(a) + ".pnt"), "0000" + Hex4(a.point))
    else BsoBase(ZoneDir(a.zone, defaultZone), None, NodeBase(a))
  }

  function WithExt(b: BsoBase, ext: string): Path {
    Path(b.zoneDir, b.pointDir, b.base + ext)
  }

  function BsoPath(a: FidoAddress, defaultZone: uint16, ext: string): Path {
    WithExt(GetBsoBase(a, defaultZone), ext)
  }

  /** GetPollFilePath: any other word stands for crash mail. */
  function PollExt(flavor: string): string {
    var f := ToLower(flavor);
    if f == "normal" || f == "flo" then ".flo"
    else if f == "direct" || f == "dlo" then ".dlo"
    else if f == "hold" || f == "hlo" then ".hlo"
    else ".clo"
  }

  function GetPollFilePath(a: FidoAddress, defaultZone: uint16, flavor: string): Path {
    BsoPath(a, defaultZone, PollExt(flavor))
  }

  /** The extensions under which FindFlowFiles and processNetmail look for mail. */
  const FLOW_EXTS: seq<string> := [".clo", ".dlo", ".hlo", ".flo"]
  const NETMAIL_EXTS: seq<string> := [".cut", ".dut", ".hut", ".out"]

  predicate IsSentExt(ext: string) {
    || ext == ".clo" || ext == ".dlo" || ext == ".hlo" || ext == ".flo"
    || ext == ".cut" || ext == ".dut" || ext == ".hut" || ext == ".out"
  }

  /* ---- From paths to addresses ---- */

  predicate IsValidFlowExt(ext: string) {
    || ext == ".clo" || ext == ".dlo" || ext == ".hlo" || ext == ".lo" || ext == ".flo"
    || ext == ".cut" || ext == ".dut" || ext == ".hut" || ext == ".out" || ext == ".fut"
  }

  function StateFromExt(ext: string): string {
    if ext == ".clo" || ext == ".cut" then "Crash"
    else if ext == ".dlo" || ext == ".dut" then "Direct"
    else if ext == ".hlo" || ext == ".hut" then "Hold"
    else if ext == ".lo" || ext == ".flo" || ext == ".out" || ext == ".fut" then "Normal"
    else "Unknown"
  }

  function PriorityFromExt(ext: string): nat {
    if ext == ".clo" || ext == ".cut" then 0
    else if ext == ".dlo" || ext == ".dut" then 1
    else if ext == ".hlo" || ext == ".hut" then 2
    else if ext == ".lo" || ext == ".out" then 3
    else if ext == ".flo" || ext == ".fut" then 4
    else 99
  }

  /** strconv.ParseUint(s, 16, 16). */
  function Hex16(s: string): Option<uint16> {
    match ParseUint(s, 16, MAX_UINT16)
    case Value(n) => Some(n as uint16)
    case _ => None
  }

  function ZoneOf(name: string, defaultZone: uint16): Option<uint16> {
    var lower := ToLower(name);
    if lower == "outbound" then Some(defaultZone)
    else if HasPrefix(lower, "outbound.") && |lower| == 12 then Hex16(lower[9..])
    else None
  }

  /** What scanOutbound takes a file for; inPointDir says how it prints the address. */
  datatype Hit = Hit(addr: FidoAddress, inPointDir: bool, ext: string) {
    /** The address string under which scanOutbound queues the file. */
    function Text(): string {
      var short := Decimal(addr.zone as nat) + ":" + Decimal(addr.net as nat) + "/" + Decimal(addr.node as nat);
      if inPointDir then short + "." + Decimal(addr.point as nat) else short
    }
  }

  function NetNodeOf(digits: string): Option<(uint16, uint16)>
    requires |digits| >= 8
  {
    var net, node := Hex16(digits[..4]), Hex16(digits[4..8]);
    if net.Some? && node.Some? then Some((net.value, node.value)) else None
  }

  function ScanNodeFile(zone: uint16, file: string): Option<Hit> {
    var lower := ToLower(file);
    if |lower| != 12 || !IsValidFlowExt(lower[8..]) then None
    else
      match NetNodeOf(lower)
      case None => None
      case Some(nn) => Some(Hit(FidoAddress(zone, nn.0, nn.1, 0), false, lower[8..]))
  }

  function PointDirOf(name: string): Option<(uint16, uint16)> {
    var lower := ToLower(name);
    if |lower| != 12 || lower[8..] != ".pnt" then None else NetNodeOf(lower)
  }

  /** The first four digits of a point's file name are not looked at. */
  function ScanPointFile(zone: uint16, net: uint16, node: uint16, file: string): Option<Hit> {
    if |file| != 12 || !IsValidFlowExt(ToLower(file[8..])) then None
    else
      match Hex16(file[4..8])
      case None => None
      case Some(point) => Some(Hit(FidoAddress(zone, net, node, point), true, ToLower(file[8..])))
  }

  /** What scanOutbound makes of a regular file at the path. */
  function Scan(p: Path, defaultZone: uint16): Option<Hit> {
    match ZoneOf(p.zoneDir, defaultZone)
    case None => None
    case Some(zone) =>
      match p.pointDir
      case None => ScanNodeFile(zone, p.file)
      case Some(dir) =>
        match PointDirOf(dir)
        case None => None
        case Some(nn) => ScanPointFile(zone, nn.0, nn.1, p.file)
  }

  /* ---- Round trip ---- */

  lemma LowerIs(s: string)
    requires forall i :: 0 <= i < |s| ==> LowerChar(s[i]) == s[i]
    ensures ToLower(s) == s
  {
  }

  lemma {:induction false} PadZeroLower(width: nat, s: string)
    requires ToLower(s) == s
    ensures ToLower(PadZero(width, s)) == PadZero(width, s)
    decreases width - |s|
  {
    if |s| < width {
      LowerIs("0" + s) by {
        assert forall i :: 0 <= i < |s| ==> ToLower(s)[i] == LowerChar(s[i]);
      }
      PadZeroLower(width, "0" + s);
    }
  }

  /** Four hexadecimal digits in lower case that read back as the number. */
  lemma Hex4Is(n: uint16)
    ensures |Hex4(n)| == 4 && ToLower(Hex4(n)) == Hex4(n) && Hex16(Hex4(n)) == Some(n)
  {
    assert Power(16, 4) == 16 * Power(16, 3) == 256 * Power(16, 2) == 0x1_0000;
    NumeralShort(n as nat, 16, 4);
    LowerIs(Numeral(n as nat, 16));
    PadZeroLower(4, Numeral(n as nat, 16));
    ParseNumeral(n as nat, 16, MAX_UINT16, 4);
  }

  /** Conversely, four lower-case digits are what %04x prints for their value. */
  lemma Hex4Inverse(s: string)
    requires |s| == 4 && ToLower(s) == s && Hex16(s).Some?
    ensures Hex4(Hex16(s).value) == s
  {
    PrintParsed(s, MAX_UINT16);
  }

  lemma NodeBaseIs(a: FidoAddress, ext: string)
    ensures var s := NodeBase(a) + ext;
            && |NodeBase(a)| == 8 && s[..4] == Hex4(a.net) && s[4..8] == Hex4(a.node) && s[8..] == ext
            && ToLower(s) == NodeBase(a) + ToLower(ext)
  {
    Hex4Is(a.net);
    Hex4Is(a.node);
    ToLowerAppend(Hex4(a.net), Hex4(a.node));
    ToLowerAppend(NodeBase(a), ext);
  }

  lemma NumberedDir(zone: uint16, defaultZone: uint16)
    ensures var dir := "outbound." + PadZero(3, Numeral(zone as nat, 16));
            && ToLower(dir) == dir
            && ZoneOf(dir, defaultZone) == if zone <= 0xFFF then Some(zone) else None
  {
    var digits := PadZero(3, Numeral(zone as nat, 16));
    LowerIs("outbound.");
    LowerIs(Numeral(zone as nat, 16));
    PadZeroLower(3, Numeral(zone as nat, 16));
    ToLowerAppend("outbound.", digits);
    assert ("outbound." + digits)[9..] == digits && |"outbound." + digits| == 9 + |digits|;
    ThreeDigits(zone);
  }

  lemma ThreeDigits(zone: uint16)
    ensures var digits := PadZero(3, Numeral(zone as nat, 16));
            if zone <= 0xFFF then |digits| == 3 && Hex16(digits) == Some(zone) else |digits| > 3
  {
    assert Power(16, 3) == 16 * Power(16, 2) == 0x1000;
    if zone <= 0xFFF {
      NumeralShort(zone as nat, 16, 3);
      ParseNumeral(zone as nat, 16, MAX_UINT16, 3);
    } else {
      NumeralLong(zone as nat, 16, 3);
    }
  }

  /** A zone directory reads back as its zone exactly when three digits suffice. */
  lemma ZoneDirRoundTrip(zone: uint16, defaultZone: uint16)
    ensures ZoneOf(ZoneDir(zone, defaultZone), defaultZone)
            == if zone == defaultZone || zone <= 0xFFF then Some(zone) else None
    ensures ToLower(ZoneDir(zone, defaultZone)) == ZoneDir(zone, defaultZone)
  {
    LowerIs("outbound");
    NumberedDir(zone, defaultZone);
  }

  /** What matters about an extension: scanOutbound knows it, and it is four lower-case bytes. */
  ghost predicate ProperExt(ext: string) {
    IsValidFlowExt(ext) && |ext| == 4 && ToLower(ext) == ext
  }

  lemma ScanOwnNodeFile(a: FidoAddress, ext: string)
    requires ProperExt(ext) && a.point == 0
    ensures ScanNodeFile(a.zone, NodeBase(a) + ext) == Some(Hit(a, false, ext))
  {
    NodeBaseIs(a, ext);
    Hex4Is(a.net);
    Hex4Is(a.node);
  }

  lemma ScanOwnPointDir(a: FidoAddress)
    ensures PointDirOf(NodeBase(a) + ".pnt") == Some((a.net, a.node))
  {
    NodeBaseIs(a, ".pnt");
    LowerIs(".pnt");
    Hex4Is(a.net);
    Hex4Is(a.node);
  }

  lemma ScanOwnPointFile(a: FidoAddress, ext: string)
    requires ProperExt(ext)
    ensures ScanPointFile(a.zone, a.net, a.node, "0000" + Hex4(a.point) + ext) == Some(Hit(a, true, ext))
  {
    Hex4Is(a.point);
    var file := "0000" + Hex4(a.point) + ext;
    assert file[4..8] == Hex4(a.point) && file[8..] == ext;
  }

  lemma LowerOf(s: string, t: string)
    requires |s| == |t| && forall i :: 0 <= i < |s| ==> LowerChar(s[i]) == t[i]
    ensures ToLower(s) == t
  {
  }

  lemma SentExtIs(ext: string)
    requires IsSentExt(ext)
    ensures ProperExt(ext)
  {
    LowerOf(ext, ext);
  }

  /** For every address, scanning the file of any kind the sender looks for gives back the
      address and the kind exactly when the zone is the default zone or fits three digits;
      otherwise the scan does not see the file at all. */
  lemma NamingRoundTrip(a: FidoAddress, defaultZone: uint16, ext: string)
    requires IsSentExt(ext)
    ensures Scan(BsoPath(a, defaultZone, ext), defaultZone)
            == if a.zone == defaultZone || a.zone <= 0xFFF then Some(Hit(a, a.point != 0, ext)) else None
    ensures Hit(a, a.point != 0, ext).Text() == Print(a)
  {
    SentExtIs(ext);
    ZoneDirRoundTrip(a.zone, defaultZone);
    if a.point == 0 {
      ScanOwnNodeFile(a, ext);
    } else {
      ScanOwnPointDir(a);
      ScanOwnPointFile(a, ext);
    }
  }

  /** The poll file of an address comes back from the scan with the flavour that was asked
      for exactly when that is one of the four names scanOutbound knows, and the sender
      looks for it. */
  lemma PollRoundTrip(a: FidoAddress, defaultZone: uint16, flavor: string)
    ensures StateFromExt(PollExt(flavor)) == flavor <==> IsFlavor(flavor)
    ensures a.zone == defaultZone || a.zone <= 0xFFF
            ==> Scan(GetPollFilePath(a, defaultZone, flavor), defaultZone) == Some(Hit(a, a.point != 0, PollExt(flavor)))
    ensures GetPollFilePath(a, defaultZone, flavor) in FlowCandidates(a, defaultZone)
  {
    FlavorWords(flavor);
    assert FLOW_EXTS[0] == ".clo" && FLOW_EXTS[1] == ".dlo" && FLOW_EXTS[2] == ".hlo" && FLOW_EXTS[3] == ".flo";
    NamingRoundTrip(a, defaultZone, PollExt(flavor));
    CandidateIs(a, defaultZone, PollExt(flavor));
  }

  predicate IsFlavor(flavor: string) {
    flavor == "Crash" || flavor == "Direct" || flavor == "Hold" || flavor == "Normal"
  }

  lemma PollStateIsFlavor(flavor: string)
    ensures IsFlavor(StateFromExt(PollExt(flavor)))
  {
  }

  lemma CrashWord()
    ensures StateFromExt(PollExt("Crash")) == "Crash"
  {
    LowerOf("Crash", "crash");
  }

  lemma DirectWord()
    ensures StateFromExt(PollExt("Direct")) == "Direct"
  {
    LowerOf("Direct", "direct");
  }

  lemma HoldWord()
    ensures StateFromExt(PollExt("Hold")) == "Hold"
  {
    LowerOf("Hold", "hold");
  }

  lemma NormalWord()
    ensures StateFromExt(PollExt("Normal")) == "Normal"
  {
    LowerOf("Normal", "normal");
  }

  lemma FlavorWords(flavor: string)
    ensures StateFromExt(PollExt(flavor)) == flavor <==> IsFlavor(flavor)
  {
    PollStateIsFlavor(flavor);
    CrashWord();
    DirectWord();
    HoldWord();
    NormalWord();
  }

  /* ---- The sender looks in the same place ---- */

  function FlowCandidates(a: FidoAddress, defaultZone: uint16): seq<Path> {
    seq(|FLOW_EXTS|, i requires 0 <= i < |FLOW_EXTS| => BsoPath(a, defaultZone, FLOW_EXTS[i]))
  }

  function NetmailCandidates(a: FidoAddress, defaultZone: uint16): seq<Path> {
    seq(|NETMAIL_EXTS|, i requires 0 <= i < |NETMAIL_EXTS| => BsoPath(a, defaultZone, NETMAIL_EXTS[i]))
  }

  predicate SenderLooksAt(a: FidoAddress, defaultZone: uint16, p: Path) {
    p in FlowCandidates(a, defaultZone) || p in NetmailCandidates(a, defaultZone)
  }

  lemma CandidateIs(a: FidoAddress, defaultZone: uint16, ext: string)
    ensures ext in FLOW_EXTS ==> BsoPath(a, defaultZone, ext) in FlowCandidates(a, defaultZone)
    ensures ext in NETMAIL_EXTS ==> BsoPath(a, defaultZone, ext) in NetmailCandidates(a, defaultZone)
  {
    if ext in FLOW_EXTS {
      var i :| 0 <= i < |FLOW_EXTS| && FLOW_EXTS[i] == ext;
      assert FlowCandidates(a, defaultZone)[i] == BsoPath(a, defaultZone, ext);
    }
    if ext in NETMAIL_EXTS {
      var i :| 0 <= i < |NETMAIL_EXTS| && NETMAIL_EXTS[i] == ext;
      assert NetmailCandidates(a, defaultZone)[i] == BsoPath(a, defaultZone, ext);
    }
  }

  datatype FlowFile = FlowFile(path: Path, state: string)

  /** The flow files among the candidates from number i on, in priority order. */
  function FlowsFrom(existing: set<Path>, a: FidoAddress, defaultZone: uint16, i: nat): seq<FlowFile>
    requires i <= |FLOW_EXTS|
    decreases |FLOW_EXTS| - i
  {
    if i == |FLOW_EXTS| then []
    else
      var p := BsoPath(a, defaultZone, FLOW_EXTS[i]);
      (if p in existing then [FlowFile(p, StateFromExt(FLOW_EXTS[i]))] else [])
      + FlowsFrom(existing, a, defaultZone, i + 1)
  }

  method BaseOf(a: FidoAddress, defaultZone: uint16) returns (base: BsoBase)
    ensures base == GetBsoBase(a, defaultZone)
  {
    base := BsoBase(ZoneDir(a.zone, defaultZone), None, NodeBase(a));
    if a.point != 0 {
      base := BsoBase(base.zoneDir, Some(NodeBase(a) + ".pnt"), "0000" + Hex4(a.point));
    }
  }

  /** FindFlowFiles. */
  method FindFlowFiles(existing: set<Path>, a: FidoAddress, defaultZone: uint16) returns (flows: seq<FlowFile>)
    ensures flows == FlowsFrom(existing, a, defaultZone, 0)
  {
    var base := BaseOf(a, defaultZone);
    flows := [];
    var i := 0;
    while i < |FLOW_EXTS|
      invariant 0 <= i <= |FLOW_EXTS|
      invariant FlowsFrom(existing, a, defaultZone, 0) == flows + FlowsFrom(existing, a, defaultZone, i)
    {
      var ext := FLOW_EXTS[i];
      var path := WithExt(base, ext);
      FlowsStep(existing, a, defaultZone, i, flows);
      if path in existing {
        flows := flows + [FlowFile(path, StateFromExt(ext))];
      }
      i := i + 1;
    }
  }

  lemma FlowsStep(existing: set<Path>, a: FidoAddress, defaultZone: uint16, i: nat, flows: seq<FlowFile>)
    requires i < |FLOW_EXTS|
    ensures var ext := FLOW_EXTS[i];
            var p, rest := BsoPath(a, defaultZone, ext), FlowsFrom(existing, a, defaultZone, i + 1);
            flows + FlowsFrom(existing, a, defaultZone, i)
            == if p in existing then flows + [FlowFile(p, StateFromExt(ext))] + rest else flows + rest
  {
    var p := BsoPath(a, defaultZone, FLOW_EXTS[i]);
    Assoc(flows, [FlowFile(p, StateFromExt(FLOW_EXTS[i]))], FlowsFrom(existing, a, defaultZone, i + 1));
    assert [] + FlowsFrom(existing, a, defaultZone, i + 1) == FlowsFrom(existing, a, defaultZone, i + 1);
  }

  /** They are exactly the candidates that exist. */
  lemma {:induction false} FlowsAreCandidates(existing: set<Path>, a: FidoAddress, defaultZone: uint16, i: nat)
    requires i <= |FLOW_EXTS|
    ensures forall p :: p in FlowCandidates(a, defaultZone)[i..] && p in existing
                        <==> exists f :: f in FlowsFrom(existing, a, defaultZone, i) && f.path == p
    decreases |FLOW_EXTS| - i
  {
    if i < |FLOW_EXTS| {
      FlowsAreCandidates(existing, a, defaultZone, i + 1);
      var cs, p0 := FlowCandidates(a, defaultZone), BsoPath(a, defaultZone, FLOW_EXTS[i]);
      assert cs[i..] == [p0] + cs[i + 1..];
      var rest := FlowsFrom(existing, a, defaultZone, i + 1);
      var first := if p0 in existing then [FlowFile(p0, StateFromExt(FLOW_EXTS[i]))] else [];
      assert FlowsFrom(existing, a, defaultZone, i) == first + rest;
      forall p
        ensures p in cs[i..] && p in existing <==> exists f: FlowFile :: f in first + rest && f.path == p
      {
        if p in cs[i + 1..] && p in existing {
          var f :| f in rest && f.path == p;
          assert f in first + rest;
        }
        if p == p0 && p in existing {
          assert first[0] in first + rest;
        }
      }
    }
  }

  /* ---- No two addresses share a file ---- */

  lemma ZoneDirInjective(y: uint16, z: uint16, defaultZone: uint16)
    requires ZoneDir(y, defaultZone) == ZoneDir(z, defaultZone)
    ensures y == z
  {
    if y != defaultZone && z != defaultZone {
      var s, t := PadZero(3, Numeral(y as nat, 16)), PadZero(3, Numeral(z as nat, 16));
      assert ("outbound." + s)[9..] == s && ("outbound." + t)[9..] == t;
      ParseNumeral(y as nat, 16, MAX_UINT16, 3);
      ParseNumeral(z as nat, 16, MAX_UINT16, 3);
    }
  }

  /** Over all 16-bit addresses, directory and base name determine the address. */
  lemma BsoPathInjective(a: FidoAddress, b: FidoAddress, defaultZone: uint16, e: string, f: string)
    requires BsoPath(a, defaultZone, e) == BsoPath(b, defaultZone, f)
    ensures a == b && e == f
  {
    ZoneDirInjective(a.zone, b.zone, defaultZone);
    var p, q := BsoPath(a, defaultZone, e), BsoPath(b, defaultZone, f);
    if a.point != 0 {
      PointFileParts(a.point, e);
      PointFileParts(b.point, f);
      SameNodeBase(a, b, ".pnt", ".pnt");
    } else {
      SameNodeBase(a, b, e, f);
    }
  }

  lemma PointFileParts(point: uint16, ext: string)
    ensures var file := "0000" + Hex4(point) + ext;
            && file[..4] == "0000" && file[4..8] == Hex4(point) && file[8..] == ext && Hex16(file[4..8]) == Some(point)
  {
    Hex4Is(point);
    var file := "0000" + Hex4(point) + ext;
    assert file[4..8] == Hex4(point);
  }

  lemma SameNodeBase(a: FidoAddress, b: FidoAddress, e: string, f: string)
    requires NodeBase(a) + e == NodeBase(b) + f
    ensures a.net == b.net && a.node == b.node && e == f
  {
    NodeBaseIs(a, e);
    NodeBaseIs(b, f);
    Hex4Is(a.net);
    Hex4Is(a.node);
    Hex4Is(b.net);
    Hex4Is(b.node);
  }

  /** So a file found for one address is never sent to another. */
  lemma CandidatesAreOwn(a: FidoAddress, b: FidoAddress, defaultZone: uint16, p: Path)
    requires SenderLooksAt(a, defaultZone, p) && SenderLooksAt(b, defaultZone, p)
    ensures a == b
  {
    var e := CandidateExt(a, defaultZone, p);
    var f := CandidateExt(b, defaultZone, p);
    BsoPathInjective(a, b, defaultZone, e, f);
  }

  lemma CandidateExt(a: FidoAddress, defaultZone: uint16, p: Path) returns (ext: string)
    requires SenderLooksAt(a, defaultZone, p)
    ensures IsSentExt(ext) && p == BsoPath(a, defaultZone, ext)
  {
    if p in FlowCandidates(a, defaultZone) {
      var i :| 0 <= i < |FLOW_EXTS| && p == FlowCandidates(a, defaultZone)[i];
      ext := FLOW_EXTS[i];
    } else {
      var i :| 0 <= i < |NETMAIL_EXTS| && p == NetmailCandidates(a, defaultZone)[i];
      ext := NETMAIL_EXTS[i];
    }
  }

  /* ---- What the scan sees and the sender does not ---- */

  /** The queue string of a scanned file parses back to its address. */
  lemma TextParses(h: Hit, defaultZone: uint16)
    requires h.inPointDir || h.addr.point == 0
    ensures Parse(h.Text(), defaultZone) == Some(h.addr)
    ensures h.Text() == Print(h.addr) <==> !(h.inPointDir && h.addr.point == 0)
  {
    var a := h.addr;
    if h.inPointDir && a.point == 0 {
      var z, n, f := Decimal(a.zone as nat), Decimal(a.net as nat), Decimal(a.node as nat);
      ParseOwnDecimal(a.zone);
      ParseOwnDecimal(a.net);
      ParseOwnDecimal(a.node);
      ParseOwnDecimal(a.point);
      Regroup(z, n, f, Decimal(0));
      ParseFull(z, n, f, Decimal(0), a, defaultZone);
      assert |h.Text()| != |Print(a)|;
    } else {
      PrintParse(a, defaultZone);
    }
  }

  lemma ScanParses(p: Path, defaultZone: uint16)
    requires Scan(p, defaultZone).Some?
    ensures var h := Scan(p, defaultZone).value;
            && h.inPointDir == p.pointDir.Some? && (!h.inPointDir ==> h.addr.point == 0)
            && Parse(h.Text(), 0) == Some(h.addr)
  {
    TextParses(Scan(p, defaultZone).value, 0);
  }

  /** Two scanned files of one address are queued under one string, unless exactly one of
      them has point number zero inside a point directory. */
  lemma OneStringPerAddress(p: Path, q: Path, defaultZone: uint16)
    requires Scan(p, defaultZone).Some? && Scan(q, defaultZone).Some?
    ensures var h, g := Scan(p, defaultZone).value, Scan(q, defaultZone).value;
            h.Text() == g.Text()
            <==> h.addr == g.addr && ((h.inPointDir && h.addr.point == 0) <==> (g.inPointDir && g.addr.point == 0))
  {
    var h, g := Scan(p, defaultZone).value, Scan(q, defaultZone).value;
    ScanParses(p, defaultZone);
    ScanParses(q, defaultZone);
    TextParses(h, 0);
    TextParses(g, 0);
  }

  /** The name is spelled as getBsoBase spells it: lower case, the default zone without a
      number, a point file under its own digits, and not the extension .fut. */
  predicate Canonical(p: Path, defaultZone: uint16) {
    && ToLower(p.zoneDir) == p.zoneDir && ToLower(p.file) == p.file
    && (p.zoneDir == "outbound" || ZoneOf(p.zoneDir, defaultZone) != Some(defaultZone))
    && |p.file| == 12 && p.file[8..] != ".fut"
    && (p.pointDir.Some? ==>
          ToLower(p.pointDir.value) == p.pointDir.value && p.file[..4] == "0000" && p.file[4..8] != "0000")
  }

  /** A file that makes the scheduler dial an address is one that the session with that
      address will look for exactly when its name is canonical. */
  lemma ScannedIsServed(p: Path, defaultZone: uint16)
    requires Scan(p, defaultZone).Some?
    ensures SenderLooksAt(Scan(p, defaultZone).value.addr, defaultZone, p) <==> Canonical(p, defaultZone)
  {
    var h := Scan(p, defaultZone).value;
    if SenderLooksAt(h.addr, defaultZone, p) {
      var ext := CandidateExt(h.addr, defaultZone, p);
      NamingRoundTrip(h.addr, defaultZone, ext);
      OwnPathIsCanonical(h.addr, defaultZone, ext);
    }
    if Canonical(p, defaultZone) {
      CanonicalIsOwnPath(p, defaultZone);
      SentUnlessFut(h.ext);
      CandidateIs(h.addr, defaultZone, h.ext);
    }
  }

  lemma SentUnlessFut(ext: string)
    requires IsValidFlowExt(ext) && |ext| == 4 && ext != ".fut"
    ensures ext in FLOW_EXTS || ext in NETMAIL_EXTS
  {
    assert FLOW_EXTS[0] == ".clo" && FLOW_EXTS[1] == ".dlo" && FLOW_EXTS[2] == ".hlo" && FLOW_EXTS[3] == ".flo";
    assert NETMAIL_EXTS[0] == ".cut" && NETMAIL_EXTS[1] == ".dut" && NETMAIL_EXTS[2] == ".hut" && NETMAIL_EXTS[3] == ".out";
  }

  lemma OwnPathIsCanonical(a: FidoAddress, defaultZone: uint16, ext: string)
    requires IsSentExt(ext) && (a.zone == defaultZone || a.zone <= 0xFFF)
    ensures Canonical(BsoPath(a, defaultZone, ext), defaultZone)
  {
    SentExtIs(ext);
    ZoneDirRoundTrip(a.zone, defaultZone);
    if a.point == 0 {
      NodeBaseIs(a, ext);
    } else {
      NodeBaseIs(a, ".pnt");
      LowerIs(".pnt");
      OwnPointFile(a.point, ext);
    }
  }

  lemma OwnPointFile(point: uint16, ext: string)
    requires point != 0 && ToLower(ext) == ext
    ensures var file := "0000" + Hex4(point) + ext;
            ToLower(file) == file && |file| == 8 + |ext| && file[..4] == "0000" && file[4..8] != "0000" && file[8..] == ext
  {
    PointFileParts(point, ext);
    Hex4Is(point);
    Hex4Is(0);
    ZeroDigits();
    LowerIs("0000");
    ToLowerAppend("0000", Hex4(point));
    ToLowerAppend("0000" + Hex4(point), ext);
  }

  lemma ZeroDigits()
    ensures Hex4(0) == "0000"
  {
    assert Numeral(0, 16) == "0";
    assert "0" + "0" == "00" && "0" + "00" == "000" && "0" + "000" == "0000";
    assert PadZero(4, "00") == PadZero(4, "000");
    assert PadZero(4, "000") == PadZero(4, "0000") == "0000";
  }

  lemma CanonicalIsOwnPath(p: Path, defaultZone: uint16)
    requires Scan(p, defaultZone).Some? && Canonical(p, defaultZone)
    ensures var h := Scan(p, defaultZone).value;
            && p == BsoPath(h.addr, defaultZone, h.ext)
            && IsValidFlowExt(h.ext) && |h.ext| == 4 && h.ext != ".fut"
  {
    ZoneDirIsOwn(p.zoneDir, defaultZone);
    var zone := ZoneOf(p.zoneDir, defaultZone).value;
    if p.pointDir.None? {
      NodeFileIsOwn(zone, p.file);
    } else {
      var nn := PointDirOf(p.pointDir.value).value;
      PointDirIsOwn(p.pointDir.value, nn.0, nn.1);
      PointFileIsOwn(zone, nn.0, nn.1, p.file);
    }
  }

  lemma NodeFileIsOwn(zone: uint16, file: string)
    requires ScanNodeFile(zone, file).Some? && ToLower(file) == file
    ensures var h := ScanNodeFile(zone, file).value;
            && file == NodeBase(h.addr) + h.ext && h.addr.zone == zone && h.addr.point == 0
            && h.ext == file[8..] && IsValidFlowExt(h.ext)
  {
    var nn := NetNodeOf(file).value;
    DigitsAreOwn(file, nn.0, nn.1);
  }

  lemma PointDirIsOwn(dir: string, net: uint16, node: uint16)
    requires PointDirOf(dir) == Some((net, node)) && ToLower(dir) == dir
    ensures dir == Hex4(net) + Hex4(node) + ".pnt"
  {
    DigitsAreOwn(dir, net, node);
  }

  lemma PointFileIsOwn(zone: uint16, net: uint16, node: uint16, file: string)
    requires ScanPointFile(zone, net, node, file).Some? && ToLower(file) == file
    requires |file| == 12 && file[..4] == "0000" && file[4..8] != "0000"
    ensures var h := ScanPointFile(zone, net, node, file).value;
            && h.addr.point != 0 && h.addr == FidoAddress(zone, net, node, h.addr.point)
            && file == "0000" + Hex4(h.addr.point) + h.ext
            && h.ext == file[8..] && IsValidFlowExt(h.ext)
  {
    LowerSlices(file);
    PointDigitsAreOwn(file, Hex16(file[4..8]).value);
  }

  lemma ZoneDirIsOwn(dir: string, defaultZone: uint16)
    requires ToLower(dir) == dir && ZoneOf(dir, defaultZone).Some?
    requires dir == "outbound" || ZoneOf(dir, defaultZone) != Some(defaultZone)
    ensures ZoneDir(ZoneOf(dir, defaultZone).value, defaultZone) == dir
  {
    if dir != "outbound" {
      PrintParsed(dir[9..], MAX_UINT16);
      assert dir == "outbound." + dir[9..];
      LowerIs(dir[9..]) by {
        assert forall i :: 9 <= i < |dir| ==> LowerChar(dir[i]) == ToLower(dir)[i];
      }
    }
  }

  lemma DigitsAreOwn(name: string, net: uint16, node: uint16)
    requires |name| == 12 && ToLower(name) == name && NetNodeOf(name) == Some((net, node))
    ensures name == Hex4(net) + Hex4(node) + name[8..]
  {
    LowerSlices(name);
    Hex4Inverse(name[..4]);
    Hex4Inverse(name[4..8]);
    FourFourRest(name);
  }

  lemma FourFourRest(name: string)
    requires |name| >= 8
    ensures name == name[..4] + name[4..8] + name[8..]
  {
  }

  lemma LowerSlices(name: string)
    requires |name| == 12 && ToLower(name) == name
    ensures ToLower(name[..4]) == name[..4] && ToLower(name[4..8]) == name[4..8] && ToLower(name[8..]) == name[8..]
  {
    assert forall i :: 0 <= i < |name| ==> LowerChar(name[i]) == ToLower(name)[i];
    LowerIs(name[..4]);
    LowerIs(name[4..8]);
    LowerIs(name[8..]);
  }

  lemma PointDigitsAreOwn(file: string, point: uint16)
    requires |file| == 12 && ToLower(file) == file && Hex16(file[4..8]) == Some(point)
    requires file[..4] == "0000" && file[4..8] != "0000"
    ensures point != 0 && file == "0000" + Hex4(point) + file[8..]
  {
    LowerSlices(file);
    Hex4Inverse(file[4..8]);
    ZeroDigits();
    assert file == file[..4] + file[4..8] + file[8..];
  }
}
