/** FidoNet addresses: the printer and parser of ftn/address.go. */
module Address {
  import opened GoStrings

  newtype uint16 = n: int | 0 <= n < 0x1_0000

  datatype FidoAddress = FidoAddress(zone: uint16, net: uint16, node: uint16, point: uint16)

  /** FidoAddress.String: a zero point is omitted. */
  function Print(a: FidoAddress): string {
    var short := Decimal(a.zone as nat) + ":" + Decimal(a.net as nat) + "/" + Decimal(a.node as nat);
    if a.point == 0 then short else short + "." + Decimal(a.point as nat)
  }

  /** strconv.ParseUint(s, 10, 16) as the address parser uses it. */
  function ParsePart(s: string): (r: Option<uint16>)
    ensures r.Some? ==> s != ""
  {
    match ParseUint(s, 10, MAX_UINT16)
    case Value(n) => Some(n as uint16)
    case _ => None
  }

  /** ParseFidoAddress; None stands for each of its errors. */
  function Parse(addr: string, defaultZone: uint16): Option<FidoAddress> {
    var colon := Index(addr, ':');
    var zone := if colon < |addr| then ParsePart(addr[..colon]) else Some(defaultZone);
    var rest := if colon < |addr| then addr[colon + 1..] else addr;
    var dot := Index(rest, '.');
    var point := if dot < |rest| then ParsePart(rest[dot + 1..]) else Some(0);
    var netNode := rest[..dot];
    var slash := Index(netNode, '/');
    if zone.None? || point.None? || slash == |netNode| then None
    else
      var net, node := ParsePart(netNode[..slash]), ParsePart(netNode[slash + 1..]);
      if net.None? || node.None? then None
      else Some(FidoAddress(zone.value, net.value, node.value, point.value))
  }

  lemma ParseOwnDecimal(n: uint16)
    ensures ParsePart(Decimal(n as nat)) == Some(n)
  {
    ParseNumeral(n as nat, 10, MAX_UINT16, 0);
  }

  /** Text without separators is not split: this is how "net/node" parses. */
  lemma SplitNetNode(n: string, f: string)
    requires '/' !in n && '.' !in n && '.' !in f
    ensures var short := n + "/" + f;
            && Index(short, '/') == |n| && short[..|n|] == n && short[|n| + 1..] == f
            && '.' !in short && Index(short, '.') == |short| && short[..|short|] == short
  {
    IndexIs(n, '/', f);
    IndexAbsent(n + "/" + f, '.');
  }

  lemma SplitAt(before: string, c: char, after: string)
    requires c !in before
    ensures var s := before + [c] + after;
            Index(s, c) == |before| && s[..|before|] == before && s[|before| + 1..] == after
  {
    IndexIs(before, c, after);
  }

  lemma ParseShort(z: string, n: string, f: string, a: FidoAddress, defaultZone: uint16)
    requires ':' !in z && '/' !in n && '.' !in n && '.' !in f
    requires ParsePart(z) == Some(a.zone) && ParsePart(n) == Some(a.net) && ParsePart(f) == Some(a.node)
    requires a.point == 0
    ensures Parse(z + [':'] + (n + "/" + f), defaultZone) == Some(a)
  {
    SplitAt(z, ':', n + "/" + f);
    SplitNetNode(n, f);
  }

  lemma ParseFull(z: string, n: string, f: string, p: string, a: FidoAddress, defaultZone: uint16)
    requires ':' !in z && '/' !in n && '.' !in n && '.' !in f
    requires ParsePart(z) == Some(a.zone) && ParsePart(n) == Some(a.net) && ParsePart(f) == Some(a.node)
    requires ParsePart(p) == Some(a.point)
    ensures Parse(z + [':'] + (n + "/" + f + ['.'] + p), defaultZone) == Some(a)
  {
    SplitAt(z, ':', n + "/" + f + ['.'] + p);
    SplitNetNode(n, f);
    SplitAt(n + "/" + f, '.', p);
  }

  lemma Regroup(z: string, n: string, f: string, p: string)
    ensures z + ":" + n + "/" + f == z + [':'] + (n + "/" + f)
    ensures z + ":" + n + "/" + f + "." + p == z + [':'] + (n + "/" + f + ['.'] + p)
  {
  }

  /** Parsing the printed form of any address returns it, under every default zone. */
  lemma PrintParse(a: FidoAddress, defaultZone: uint16)
    ensures Parse(Print(a), defaultZone) == Some(a)
  {
    var z, n, f, p := Decimal(a.zone as nat), Decimal(a.net as nat), Decimal(a.node as nat), Decimal(a.point as nat);
    ParseOwnDecimal(a.zone);
    ParseOwnDecimal(a.net);
    ParseOwnDecimal(a.node);
    ParseOwnDecimal(a.point);
    Regroup(z, n, f, p);
    if a.point == 0 {
      ParseShort(z, n, f, a, defaultZone);
    } else {
      ParseFull(z, n, f, p, a, defaultZone);
    }
  }

  lemma PrintInjective(a: FidoAddress, b: FidoAddress)
    requires Print(a) == Print(b)
    ensures a == b
  {
    PrintParse(a, 0);
    PrintParse(b, 0);
  }

  /** A printed address travels through M_ADR as one field without an @. */
  lemma PrintIsToken(a: FidoAddress)
    ensures IsToken(Print(a)) && '@' !in Print(a)
  {
    var s := Print(a);
    assert forall i :: 0 <= i < |s| ==> '.' <= s[i] <= ':';
  }
}
