/** From the files in the outbound directory to the dials of whole runs: what holds for an
    address as long as all its mail is queued under one string, and what happens when it is
    queued under two. */
module MailDials {
  import opened GoStrings
  import opened Address
  import opened QueueStrings
  import opened Poll
  import opened DialLimits
  import OutboundScan

  /* ---- Retry spacing ---- */

  ghost predicate Spaced(dials: seq<Dial>, gap: int) {
    forall i :: 0 < i < |dials| ==> dials[i].at - dials[i - 1].at >= gap
  }

  /** The last dial under the names is remembered under x. */
  ghost predicate Remembered(cfg: Policy, st: Sched, names: iset<string>, x: string) {
    var ds := DialsTo(st.dials, names);
    && Spaced(ds, cfg.rescanPeriod)
    && (ds != [] ==> x in st.lastAttempt && ds[|ds| - 1].at <= st.lastAttempt[x])
  }

  lemma CallRemembers(cfg: Policy, st: Sched, target: Target, v: Visit)
    ensures Call(cfg, st, target, v).lastAttempt == st.lastAttempt[v.address := v.doneAt]
  {
  }

  lemma NodeRemembers(cfg: Policy, st: Sched, a: FidoAddress, v: Visit)
    ensures VisitNode(cfg, st, a, v).lastAttempt
            == if !Suspended(cfg, st, a, v) && !IsBusy(cfg, st, a, v) && v.linkFound && v.flavor != "Hold"
               then st.lastAttempt[v.address := v.doneAt] else st.lastAttempt
  {
    CallRemembers(cfg, ClearBusy(ClearHold(st, a, v), a, v), Target(a, v.busyPathOk, v.holdPathOk), v);
  }

  /** A visit either dials, and then notes the time, or leaves the noted times alone. */
  lemma VisitRemembers(cfg: Policy, st: Sched, key: Option<FidoAddress>, v: Visit)
    ensures VisitEntry(cfg, st, key, v).lastAttempt
            == if Allowed(cfg, st, key, v) then st.lastAttempt[v.address := v.doneAt] else st.lastAttempt
  {
    if key.Some? {
      NodeRemembers(cfg, st, key.value, v);
    } else {
      CallRemembers(cfg, st, Unknown, v);
    }
  }

  lemma VisitKeepsSpacing(cfg: Policy, st: Sched, key: Option<FidoAddress>, v: Visit, names: iset<string>, x: string,
                          clock: int)
    requires Remembered(cfg, st, names, x) && Timely(v, clock) && x in names && (v.address in names ==> v.address == x)
    ensures Remembered(cfg, VisitEntry(cfg, st, key, v), names, x)
  {
    VisitRemembers(cfg, st, key, v);
    VisitDials(cfg, st, key, v, names);
  }

  lemma {:induction false} VisitsKeepSpacing(cfg: Policy, st: Sched, keys: Keys, visits: seq<Visit>,
                                            names: iset<string>, x: string, clock: int)
    requires Remembered(cfg, st, names, x) && InTime(visits, clock) && x in names
    requires forall v :: v in visits && v.address in names ==> v.address == x
    ensures Remembered(cfg, VisitAll(cfg, st, keys, visits), names, x)
    decreases |visits|
  {
    if visits != [] {
      var v := visits[0];
      assert v in visits;
      VisitKeepsSpacing(cfg, st, keys(v.address), v, names, x, clock);
      VisitsKeepSpacing(cfg, VisitEntry(cfg, st, keys(v.address), v), keys, visits[1..], names, x, v.doneAt);
    }
  }

  /** While an address stays in the queue, and always under one string, its dials are at
      least RescanPeriod apart. */
  lemma {:induction false} DialsAreSpaced(cfg: Policy, st: Sched, keys: Keys, scans: seq<seq<Visit>>,
                                         names: iset<string>, x: string, clock: int)
    requires Remembered(cfg, st, names, x) && ScansInTime(scans, clock) && x in names
    requires forall i :: 0 <= i < |scans| ==> x in Seen(scans[i])
    requires forall i, v :: 0 <= i < |scans| && v in scans[i] && v.address in names ==> v.address == x
    ensures Spaced(DialsTo(Scans(cfg, st, keys, scans).dials, names), cfg.rescanPeriod)
    decreases |scans|
  {
    if scans != [] {
      VisitsKeepSpacing(cfg, st, keys, scans[0], names, x, clock);
      assert x in Seen(scans[0]);
      DialsAreSpaced(cfg, Scan(cfg, st, keys, scans[0]), keys, scans[1..], names, x, EndOf(scans[0], clock));
    }
  }

  /* ---- Runs over outbound directories ---- */

  /** The outbound directory at the time of a scan, and the queue made from it. */
  datatype Tree = Tree(root: seq<OutboundScan.Entry>, sizes: map<string, nat>, queue: seq<OutboundScan.QueueEntry>)

  /** Each scan goes through the queue of its directory. */
  ghost predicate ScansOf(scans: seq<seq<Visit>>, trees: seq<Tree>, defaultZone: uint16) {
    && |scans| == |trees|
    && forall i :: 0 <= i < |scans|
         ==> Follows(scans[i], trees[i].queue) && IsQueueOfTree(trees[i].queue, defaultZone, trees[i].root, trees[i].sizes)
  }

  /** At no scan there is mail of this kind for the address. */
  ghost predicate NeverHasMail(trees: seq<Tree>, defaultZone: uint16, a: FidoAddress, numberZero: bool) {
    forall i :: 0 <= i < |trees| ==> !HasMail(trees[i].root, defaultZone, a, numberZero)
  }

  function NameOf(a: FidoAddress, numberZero: bool): string {
    if numberZero then ZeroName(a) else Print(a)
  }

  /** Without mail of the other kind all entries of the address have one string. */
  lemma OneString(scans: seq<seq<Visit>>, trees: seq<Tree>, defaultZone: uint16, a: FidoAddress, numberZero: bool,
                  i: nat, v: Visit)
    requires ScansOf(scans, trees, defaultZone) && NeverHasMail(trees, defaultZone, a, !numberZero)
    requires i < |scans| && v in scans[i] && v.address in StringsOf(Key, a)
    ensures v.address == NameOf(a, numberZero)
  {
    VisitedStrings(scans[i], trees[i].queue, defaultZone, trees[i].root, trees[i].sizes, a, v);
  }

  lemma NameStands(a: FidoAddress, numberZero: bool)
    requires numberZero ==> a.point == 0
    ensures NamesOf(Key, a, StringsOf(Key, a), NameOf(a, numberZero))
  {
    PrintParse(a, 0);
    if numberZero {
      ZeroNameParses(a);
    }
  }

  /** From the outbound directory to the limit: in every run with working hold flags, an
      address whose mail is always of one kind, be it proper files or files with number zero
      in its point directory, keeps to the limit; with MaxDialAttempts one every address does. */
  lemma MailRateIsLimited(cfg: Policy, st: Sched, scans: seq<seq<Visit>>, trees: seq<Tree>, defaultZone: uint16,
                          a: FidoAddress, numberZero: bool, clock: int)
    requires JustStarted(st) && ScansInTime(scans, clock) && ScansOf(scans, trees, defaultZone)
    requires forall i, v :: 0 <= i < |scans| && v in scans[i] ==> OpsOf(v).Work(cfg)
    requires numberZero ==> a.point == 0
    requires NeverHasMail(trees, defaultZone, a, !numberZero) || cfg.Attempts() == 1
    ensures Limited(DialsTo(Scans(cfg, st, Key, scans).dials, StringsOf(Key, a)), cfg.Attempts(), cfg.holdTime)
  {
    var names, x := StringsOf(Key, a), NameOf(a, numberZero);
    NameStands(a, numberZero);
    forall i, v | 0 <= i < |scans| && v in scans[i]
      ensures Proper(cfg, v, names, x)
    {
      if cfg.Attempts() != 1 && v.address in names {
        OneString(scans, trees, defaultZone, a, numberZero, i, v);
      }
    }
    DialRateIsLimited(cfg, st, Key, a, scans, names, x, clock);
  }

  lemma MailIsSeen(visits: seq<Visit>, tree: Tree, defaultZone: uint16, a: FidoAddress, numberZero: bool)
    requires Follows(visits, tree.queue) && IsQueueOfTree(tree.queue, defaultZone, tree.root, tree.sizes)
    requires HasMail(tree.root, defaultZone, a, numberZero)
    ensures NameOf(a, numberZero) in Seen(visits)
  {
    QueuedStrings(tree.queue, defaultZone, tree.root, tree.sizes, a, NameOf(a, numberZero));
    var k :| 0 <= k < |tree.queue| && tree.queue[k].address == NameOf(a, numberZero);
    assert visits[k] in visits;
  }

  /** Under the same condition the dials of an address that has mail at every scan are at
      least RescanPeriod apart. */
  lemma MailDialsAreSpaced(cfg: Policy, st: Sched, scans: seq<seq<Visit>>, trees: seq<Tree>, defaultZone: uint16,
                           a: FidoAddress, numberZero: bool, clock: int)
    requires JustStarted(st) && ScansInTime(scans, clock) && ScansOf(scans, trees, defaultZone)
    requires numberZero ==> a.point == 0
    requires forall i :: 0 <= i < |trees| ==> HasMail(trees[i].root, defaultZone, a, numberZero)
    requires NeverHasMail(trees, defaultZone, a, !numberZero)
    ensures Spaced(DialsTo(Scans(cfg, st, Key, scans).dials, StringsOf(Key, a)), cfg.rescanPeriod)
  {
    var names, x := StringsOf(Key, a), NameOf(a, numberZero);
    NameStands(a, numberZero);
    forall i, v | 0 <= i < |scans| && v in scans[i] && v.address in names
      ensures v.address == x
    {
      OneString(scans, trees, defaultZone, a, numberZero, i, v);
    }
    forall i | 0 <= i < |scans|
      ensures x in Seen(scans[i])
    {
      MailIsSeen(scans[i], trees[i], defaultZone, a, numberZero);
    }
    DialsAreSpaced(cfg, st, Key, scans, names, x, clock);
  }

  /* ---- An address under two strings ---- */

  const WORKING: HoldOps := HoldOps(true, true, true)

  /** Both entries of an address, in one scan, each with a failing call. */
  function Pair(x: string, y: string, at: int): seq<Visit> {
    [FailedCall(x, at, WORKING), FailedCall(y, at, WORKING)]
  }

  /** Nothing stands in the way of a call under the name, and its failure is not the last one. */
  ghost predicate Callee(cfg: Policy, st: Sched, a: FidoAddress, x: string, at: int, fails: nat) {
    && a !in st.hold && a !in st.busy && Due(cfg, st, x, at)
    && Failures(st, x) == fails && fails + 1 < cfg.maxDialAttempts
  }

  lemma EntryFails(cfg: Policy, st: Sched, keys: Keys, a: FidoAddress, x: string, at: int, fails: nat)
    requires keys(x) == Some(a) && Callee(cfg, st, a, x, at, fails)
    ensures VisitEntry(cfg, st, keys(x), FailedCall(x, at, WORKING))
            == st.(failures := st.failures[x := fails + 1], lastLog := st.lastLog[x := "Crash"],
                   lastAttempt := st.lastAttempt[x := at], dials := st.dials + [Attempt(x, at, false)])
  {
    var v := FailedCall(x, at, WORKING);
    assert ClearHold(st, a, v) == st && ClearBusy(st, a, v) == st by {
      assert st.busy - {a} == st.busy;
    }
    CallIs(cfg, st, a, x, at, fails);
  }

  lemma CallIs(cfg: Policy, st: Sched, a: FidoAddress, x: string, at: int, fails: nat)
    requires a !in st.busy && Failures(st, x) == fails && fails + 1 < cfg.maxDialAttempts
    ensures Call(cfg, st, Target(a, true, true), FailedCall(x, at, WORKING))
            == st.(failures := st.failures[x := fails + 1], lastLog := st.lastLog[x := "Crash"],
                   lastAttempt := st.lastAttempt[x := at], dials := st.dials + [Attempt(x, at, false)])
  {
    assert st.busy[a := at] - {a} == st.busy;
    assert st.lastAttempt[x := at][x := at] == st.lastAttempt[x := at];
  }

  function PairDials(x: string, y: string, at: int): seq<Dial> {
    [Attempt(x, at, false), Attempt(y, at, false)]
  }

  lemma ScanOfTwo(cfg: Policy, st: Sched, keys: Keys, v: Visit, w: Visit)
    ensures var mid := VisitEntry(cfg, st, keys(v.address), v);
            Scan(cfg, st, keys, [v, w]) == Pruned(VisitEntry(cfg, mid, keys(w.address), w), {v.address, w.address})
  {
    var mid := VisitEntry(cfg, st, keys(v.address), v);
    assert [v, w][1..] == [w] && [w][1..] == [];
    assert VisitAll(cfg, st, keys, [v, w]) == VisitAll(cfg, mid, keys, [w]);
    assert VisitAll(cfg, mid, keys, [w]) == VisitAll(cfg, VisitEntry(cfg, mid, keys(w.address), w), keys, []);
    assert Seen([v, w]) == {v.address, w.address};
  }

  /** One scan dials the address twice, without any pause. */
  lemma PairScan(cfg: Policy, st: Sched, keys: Keys, a: FidoAddress, x: string, y: string, at: int, fails: nat,
                 later: int)
    returns (st': Sched)
    requires x != y && keys(x) == Some(a) && keys(y) == Some(a)
    requires Callee(cfg, st, a, x, at, fails) && Callee(cfg, st, a, y, at, fails)
    requires later - at >= cfg.rescanPeriod
    ensures st' == Scan(cfg, st, keys, Pair(x, y, at)) && st'.dials == st.dials + PairDials(x, y, at)
    ensures fails + 2 < cfg.maxDialAttempts
            ==> Callee(cfg, st', a, x, later, fails + 1) && Callee(cfg, st', a, y, later, fails + 1)
  {
    st' := Scan(cfg, st, keys, Pair(x, y, at));
    var mid := VisitEntry(cfg, st, keys(x), FailedCall(x, at, WORKING));
    EntryFails(cfg, st, keys, a, x, at, fails);
    EntryFails(cfg, mid, keys, a, y, at, fails);
    ScanOfTwo(cfg, st, keys, FailedCall(x, at, WORKING), FailedCall(y, at, WORKING));
    Assoc(st.dials, [Attempt(x, at, false)], [Attempt(y, at, false)]);
  }

  /* ---- Runs of such scans ---- */

  /** m scans of both entries, one gap apart, none of whose calls gets through. */
  function Pairs(x: string, y: string, at: int, gap: int, m: nat): seq<seq<Visit>> {
    if m == 0 then [] else Pairs(x, y, at, gap, m - 1) + [Pair(x, y, CallTime(at, gap, m - 1))]
  }

  function AllPairDials(x: string, y: string, at: int, gap: int, m: nat): (dials: seq<Dial>)
    ensures |dials| == 2 * m
  {
    if m == 0 then [] else AllPairDials(x, y, at, gap, m - 1) + PairDials(x, y, CallTime(at, gap, m - 1))
  }

  /** The state after m of these scans. */
  ghost predicate Paired(cfg: Policy, st: Sched, keys: Keys, a: FidoAddress, x: string, y: string, at: int, gap: int, m: nat,
                         end: Sched) {
    && end == Scans(cfg, st, keys, Pairs(x, y, at, gap, m)) && end.dials == st.dials + AllPairDials(x, y, at, gap, m)
    && (m + 1 < cfg.maxDialAttempts
        ==> Callee(cfg, end, a, x, CallTime(at, gap, m), m) && Callee(cfg, end, a, y, CallTime(at, gap, m), m))
  }

  lemma PairsAppend(cfg: Policy, st: Sched, keys: Keys, x: string, y: string, at: int, gap: int, m: nat)
    ensures Scans(cfg, st, keys, Pairs(x, y, at, gap, m + 1))
            == Scan(cfg, Scans(cfg, st, keys, Pairs(x, y, at, gap, m)), keys, Pair(x, y, CallTime(at, gap, m)))
    ensures st.dials + AllPairDials(x, y, at, gap, m + 1)
            == st.dials + AllPairDials(x, y, at, gap, m) + PairDials(x, y, CallTime(at, gap, m))
  {
    ScansMore(cfg, st, keys, Pairs(x, y, at, gap, m), Pair(x, y, CallTime(at, gap, m)));
    Assoc(st.dials, AllPairDials(x, y, at, gap, m), PairDials(x, y, CallTime(at, gap, m)));
  }

  lemma ScansMore(cfg: Policy, st: Sched, keys: Keys, scans: seq<seq<Visit>>, last: seq<Visit>)
    ensures Scans(cfg, st, keys, scans + [last]) == Scan(cfg, Scans(cfg, st, keys, scans), keys, last)
  {
    ScansAppend(cfg, st, keys, scans, [last]);
    assert [last][1..] == [];
  }

  lemma OneMorePair(cfg: Policy, st: Sched, keys: Keys, a: FidoAddress, x: string, y: string, at: int, gap: int, m: nat,
                    mid: Sched) returns (end: Sched)
    requires x != y && keys(x) == Some(a) && keys(y) == Some(a) && cfg.rescanPeriod <= gap
    requires Paired(cfg, st, keys, a, x, y, at, gap, m, mid) && m + 1 < cfg.maxDialAttempts
    ensures Paired(cfg, st, keys, a, x, y, at, gap, m + 1, end)
  {
    end := PairScan(cfg, mid, keys, a, x, y, CallTime(at, gap, m), m, CallTime(at, gap, m + 1));
    PairsAppend(cfg, st, keys, x, y, at, gap, m);
  }

  lemma NonePaired(cfg: Policy, st: Sched, keys: Keys, a: FidoAddress, x: string, y: string, at: int, gap: int)
    requires Callee(cfg, st, a, x, at, 0) && Callee(cfg, st, a, y, at, 0)
    ensures Paired(cfg, st, keys, a, x, y, at, gap, 0, st)
  {
    assert st.dials + [] == st.dials;
  }

  lemma AllPaired(cfg: Policy, st: Sched, keys: Keys, a: FidoAddress, x: string, y: string, at: int, gap: int, n: nat)
    returns (end: Sched)
    requires x != y && keys(x) == Some(a) && keys(y) == Some(a) && cfg.rescanPeriod <= gap
    requires Callee(cfg, st, a, x, at, 0) && Callee(cfg, st, a, y, at, 0) && n < cfg.maxDialAttempts
    ensures Paired(cfg, st, keys, a, x, y, at, gap, n, end)
  {
    end := st;
    NonePaired(cfg, st, keys, a, x, y, at, gap);
    for m := 0 to n
      invariant Paired(cfg, st, keys, a, x, y, at, gap, m, end)
    {
      end := OneMorePair(cfg, st, keys, a, x, y, at, gap, m, end);
    }
  }

  lemma PairInTime(x: string, y: string, at: int, clock: int)
    requires clock <= at
    ensures ScansInTime([Pair(x, y, at)], clock) && EndOfAll([Pair(x, y, at)], clock) == at
    ensures AllOps([Pair(x, y, at)], WORKING)
  {
    var visits := Pair(x, y, at);
    var last := visits[1];
    assert visits[1..] == [last] && [last][1..] == [];
    assert Timely(visits[0], clock) && Timely(last, at) && visits[0].doneAt == last.doneAt == at;
    assert InTime([last], at) && InTime(visits, clock);
    assert |visits| == 2 && EndOf(visits, clock) == last.doneAt;
    var scans := [visits];
    assert scans[1..] == [];
  }

  lemma {:induction false} PairsInTime(x: string, y: string, at: int, gap: int, m: nat)
    requires 0 <= gap
    ensures ScansInTime(Pairs(x, y, at, gap, m), at) && EndOfAll(Pairs(x, y, at, gap, m), at) <= CallTime(at, gap, m)
    ensures AllOps(Pairs(x, y, at, gap, m), WORKING)
  {
    if m > 0 {
      PairsInTime(x, y, at, gap, m - 1);
      var before := Pairs(x, y, at, gap, m - 1);
      PairInTime(x, y, CallTime(at, gap, m - 1), EndOfAll(before, at));
      InTimeAppend(before, [Pair(x, y, CallTime(at, gap, m - 1))], at);
    }
  }

  lemma {:induction false} PairDialAt(x: string, y: string, at: int, gap: int, m: nat, k: nat)
    requires k < 2 * m
    ensures AllPairDials(x, y, at, gap, m)[k] == Attempt(if k % 2 == 0 then x else y, CallTime(at, gap, k / 2), false)
  {
    if k < 2 * (m - 1) {
      PairDialAt(x, y, at, gap, m - 1, k);
    }
  }

  lemma {:induction false} AllToNames(dials: seq<Dial>, names: iset<string>)
    requires forall d :: d in dials ==> d.address in names
    ensures DialsTo(dials, names) == dials
    decreases |dials|
  {
    if dials != [] {
      var init, last := dials[..|dials| - 1], dials[|dials| - 1];
      assert dials == init + [last];
      AllToNames(init, names);
    }
  }

  lemma PairsExceed(x: string, y: string, at: int, gap: int, n: nat, holdTime: int, rescanPeriod: int)
    requires n >= 3 && n / 2 * gap < holdTime
    ensures var ds := AllPairDials(x, y, at, gap, n - 1);
            !Limited(ds, n, holdTime) && (rescanPeriod > 0 ==> !Spaced(ds, rescanPeriod))
  {
    var ds := AllPairDials(x, y, at, gap, n - 1);
    forall k | 0 <= k < |ds|
      ensures !ds[k].ok && ds[k].at == CallTime(at, gap, k / 2)
    {
      PairDialAt(x, y, at, gap, n - 1, k);
    }
    CallTimeIs(at, gap, n / 2);
    assert FailRun(ds, 0, n) && ds[0 + n].at - ds[0].at == n / 2 * gap;
    assert ds[1].at - ds[1 - 1].at == 0;
  }

  /** An address that is queued under two strings and cannot be reached breaks the limit, for
      every MaxDialAttempts from three on, once half as many gaps fit into HoldTime; and each
      scan dials it twice without a pause. */
  lemma TwoStringsBreakLimit(cfg: Policy, keys: Keys, a: FidoAddress, x: string, y: string, at: int, gap: int)
    requires x != y && keys(x) == Some(a) && keys(y) == Some(a)
    requires cfg.maxDialAttempts >= 3 && cfg.rescanPeriod <= gap && 0 <= gap
    requires cfg.maxDialAttempts / 2 * gap < cfg.holdTime
    ensures var scans := Pairs(x, y, at, gap, cfg.maxDialAttempts - 1);
            var ds := DialsTo(Scans(cfg, Fresh(map[]), keys, scans).dials, StringsOf(keys, a));
            && ScansInTime(scans, at) && AllOps(scans, WORKING)
            && !Limited(ds, cfg.maxDialAttempts, cfg.holdTime) && (cfg.rescanPeriod > 0 ==> !Spaced(ds, cfg.rescanPeriod))
  {
    var n := cfg.maxDialAttempts;
    PairsInTime(x, y, at, gap, n - 1);
    PairsDial(cfg, Fresh(map[]), keys, a, x, y, at, gap, n - 1);
    PairsExceed(x, y, at, gap, n, cfg.holdTime, cfg.rescanPeriod);
  }

  lemma PairsDial(cfg: Policy, st: Sched, keys: Keys, a: FidoAddress, x: string, y: string, at: int, gap: int, m: nat)
    requires x != y && keys(x) == Some(a) && keys(y) == Some(a) && cfg.rescanPeriod <= gap && st.dials == []
    requires Callee(cfg, st, a, x, at, 0) && Callee(cfg, st, a, y, at, 0) && m < cfg.maxDialAttempts
    ensures DialsTo(Scans(cfg, st, keys, Pairs(x, y, at, gap, m)).dials, StringsOf(keys, a))
            == AllPairDials(x, y, at, gap, m)
  {
    var end := AllPaired(cfg, st, keys, a, x, y, at, gap, m);
    var ds := AllPairDials(x, y, at, gap, m);
    assert st.dials + ds == ds;
    forall k | 0 <= k < |ds|
      ensures ds[k].address in StringsOf(keys, a)
    {
      PairDialAt(x, y, at, gap, m, k);
    }
    AllToNames(ds, StringsOf(keys, a));
  }

  /** In terms of files: with mail of both kinds for a node, as in outbound/00010002.flo and
      outbound/00010002.pnt/00000000.flo, these are the two entries. */
  lemma BothKindsBreakLimit(cfg: Policy, tree: Tree, defaultZone: uint16, a: FidoAddress, at: int, gap: int)
    requires IsQueueOfTree(tree.queue, defaultZone, tree.root, tree.sizes)
    requires HasMail(tree.root, defaultZone, a, false) && HasMail(tree.root, defaultZone, a, true)
    requires cfg.maxDialAttempts >= 3 && cfg.rescanPeriod <= gap && 0 <= gap
    requires cfg.maxDialAttempts / 2 * gap < cfg.holdTime
    ensures OutboundScan.Lists(tree.queue, Print(a)) && OutboundScan.Lists(tree.queue, ZeroName(a))
    ensures var scans := Pairs(Print(a), ZeroName(a), at, gap, cfg.maxDialAttempts - 1);
            !Limited(DialsTo(Scans(cfg, Fresh(map[]), Key, scans).dials, StringsOf(Key, a)),
                     cfg.maxDialAttempts, cfg.holdTime)
  {
    ZeroNameParses(a);
    QueuedStrings(tree.queue, defaultZone, tree.root, tree.sizes, a, Print(a));
    QueuedStrings(tree.queue, defaultZone, tree.root, tree.sizes, a, ZeroName(a));
    TwoStringsBreakLimit(cfg, Key, a, Print(a), ZeroName(a), at, gap);
  }
}
