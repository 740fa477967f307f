/** How often the scheduler dials an address over whole runs: the limit on failed dials that
    the hold flags are for, and the spacing of the dials, each with what it depends on. */
module DialLimits {
  import opened GoStrings
  import opened Address
  import opened Poll

  /* ---- The limit ---- */

  /** What concerns the dials under some names of an address: the dials, the failure count of
      one of the names, and the hold flag. */
  datatype Ledger = Ledger(dials: seq<Dial>, count: int, hold: Option<int>)

  ghost function LedgerOf(st: Sched, names: iset<string>, x: string, a: FidoAddress): Ledger {
    Ledger(DialsTo(st.dials, names), Failures(st, x), if a in st.hold then Some(st.hold[a]) else None)
  }

  /** Dials i to i + n - 1 all failed. */
  ghost predicate FailRun(dials: seq<Dial>, i: nat, n: nat)
    requires i + n <= |dials|
  {
    forall k :: i <= k < i + n ==> !dials[k].ok
  }

  /** After n failed dials in a row, the next one comes at least holdTime after the first. */
  ghost predicate Limited(dials: seq<Dial>, n: nat, holdTime: int) {
    forall i: nat :: i + n < |dials| && FailRun(dials, i, n) ==> dials[i + n].at - dials[i].at >= holdTime
  }

  ghost predicate InOrder(dials: seq<Dial>, clock: int) {
    && (forall i, j :: 0 <= i < j < |dials| ==> dials[i].at <= dials[j].at)
    && (forall i :: 0 <= i < |dials| ==> dials[i].at <= clock)
  }

  /** The dial before the counted ones was a success, or a pause of holdTime followed it. */
  ghost predicate Separated(cfg: Policy, l: Ledger, clock: int)
    requires 0 <= l.count <= |l.dials|
  {
    var p := |l.dials| - l.count;
    p == 0 || l.dials[p - 1].ok
    || (if l.count > 0 then l.dials[p].at - l.dials[p - 1].at >= cfg.holdTime
        else l.hold.Some? || clock - l.dials[p - 1].at >= cfg.holdTime)
  }

  /** The invariant. */
  ghost predicate Sound(cfg: Policy, l: Ledger, clock: int) {
    && 0 <= l.count <= |l.dials| && l.count < cfg.Attempts()
    && InOrder(l.dials, clock)
    && (l.hold.Some? && l.dials != []
        ==> l.dials[|l.dials| - 1].ok || l.dials[|l.dials| - 1].at <= l.hold.value)
    && Separated(cfg, l, clock)
    && Limited(l.dials, cfg.Attempts(), cfg.holdTime)
  }

  /** Nothing holds the next dial back: no flag, or an expired one that could not be removed
      and that the next failure will replace. */
  ghost predicate Free(cfg: Policy, l: Ledger, at: int) {
    l.hold.None? || (cfg.Attempts() == 1 && at - l.hold.value >= cfg.holdTime)
  }

  lemma SoundLater(cfg: Policy, l: Ledger, clock: int, later: int)
    requires Sound(cfg, l, clock) && clock <= later
    ensures Sound(cfg, l, later)
  {
  }

  /** A hold flag appears: the time it carries is after every dial. */
  lemma SoundHeld(cfg: Policy, l: Ledger, clock: int, at: int)
    requires Sound(cfg, l, clock) && clock <= at
    ensures Sound(cfg, l.(hold := Some(at)), at)
  {
  }

  /** A hold flag expires and is removed; the count may start again. */
  lemma SoundExpired(cfg: Policy, l: Ledger, clock: int, now: int, reset: bool)
    requires Sound(cfg, l, clock) && clock <= now
    requires l.hold.Some? && now - l.hold.value >= cfg.holdTime
    ensures Sound(cfg, l.(hold := None, count := if reset then 0 else l.count), now)
  {
  }

  lemma LimitedMore(cfg: Policy, l: Ledger, clock: int, d: Dial)
    requires Sound(cfg, l, clock) && clock <= d.at && Free(cfg, l, d.at)
    ensures Limited(l.dials + [d], cfg.Attempts(), cfg.holdTime)
  {
    var n, more := cfg.Attempts(), l.dials + [d];
    forall i: nat | i + n < |more| && FailRun(more, i, n)
      ensures more[i + n].at - more[i].at >= cfg.holdTime
    {
      assert FailRun(l.dials, i, n) by {
        assert forall k :: i <= k < i + n ==> l.dials[k] == more[k];
      }
      if i + n == |l.dials| {
        var p := |l.dials| - l.count;
        assert i <= p - 1 && !l.dials[p - 1].ok;
      }
    }
  }

  lemma SoundDialled(cfg: Policy, l: Ledger, clock: int, d: Dial)
    requires Sound(cfg, l, clock) && clock <= d.at && Free(cfg, l, d.at)
    ensures d.ok ==> Sound(cfg, Ledger(l.dials + [d], 0, l.hold), d.at)
    ensures !d.ok && l.count + 1 < cfg.Attempts() ==> Sound(cfg, Ledger(l.dials + [d], l.count + 1, l.hold), d.at)
    ensures !d.ok ==> forall at :: d.at <= at ==> Sound(cfg, Ledger(l.dials + [d], 0, Some(at)), at)
  {
    LimitedMore(cfg, l, clock, d);
  }

  /** The clock does not go backwards while an entry is handled. */
  predicate Timely(v: Visit, clock: int) {
    clock <= v.now <= v.holdNow <= v.busyNow <= v.dialAt <= v.holdAt <= v.doneAt
  }

  /** How the operations on a hold flag go. */
  datatype HoldOps = HoldOps(found: bool, removed: bool, written: bool) {
    /** The flag can be looked up and written; with a limit of one the next failure replaces
        an expired flag, so that removing it does not matter. */
    predicate Work(cfg: Policy) {
      found && written && (removed || cfg.Attempts() == 1)
    }
  }

  function OpsOf(v: Visit): HoldOps {
    HoldOps(v.holdPathOk, v.holdRemoved, v.holdWritten)
  }

  /** What the limit needs of a visit: working hold flags, and one name for all dials that
      count, unless every failed dial suspends the address at once. */
  ghost predicate Proper(cfg: Policy, v: Visit, names: iset<string>, x: string) {
    OpsOf(v).Work(cfg) && (v.address in names ==> v.address == x || cfg.Attempts() == 1)
  }

  /** The names stand for the address, and x is one of them. */
  ghost predicate NamesOf(keys: Keys, a: FidoAddress, names: iset<string>, x: string) {
    names <= StringsOf(keys, a) && x in names
  }

  lemma ClearSound(cfg: Policy, st: Sched, a: FidoAddress, v: Visit, names: iset<string>, x: string, clock: int)
    requires Sound(cfg, LedgerOf(st, names, x, a), clock) && clock <= v.holdNow
    requires OpsOf(v).Work(cfg) && !Suspended(cfg, st, a, v)
    ensures var l := LedgerOf(ClearBusy(ClearHold(st, a, v), a, v), names, x, a);
            Sound(cfg, l, v.holdNow) && Free(cfg, l, v.holdNow)
  {
    var l := LedgerOf(st, names, x, a);
    SoundLater(cfg, l, clock, v.holdNow);
    if l.hold.Some? && v.holdRemoved {
      SoundExpired(cfg, l, clock, v.holdNow, v.address == x);
    }
  }

  /** How a call changes the ledger when its dial counts. */
  lemma CountedCall(cfg: Policy, st: Sched, a: FidoAddress, busyPathOk: bool, v: Visit, names: iset<string>, x: string)
    requires v.address in names && Proper(cfg, v, names, x)
    requires 0 <= Failures(st, x) < cfg.Attempts()
    ensures var l, d := LedgerOf(st, names, x, a), Attempt(v.address, v.dialAt, v.dialOk);
            LedgerOf(Call(cfg, st, Target(a, busyPathOk, true), v), names, x, a)
            == if d.ok then Ledger(l.dials + [d], 0, l.hold)
               else if l.count + 1 < cfg.Attempts() then Ledger(l.dials + [d], l.count + 1, l.hold)
               else Ledger(l.dials + [d], 0, Some(v.holdAt))
  {
    CallDials(cfg, st, Target(a, busyPathOk, true), v);
    DialsToAppend(st.dials, Attempt(v.address, v.dialAt, v.dialOk), names);
    if v.address != x {
      CallKeepsString(cfg, st, Target(a, busyPathOk, true), v, x);
    }
  }

  /** And when it does not. */
  lemma UncountedCall(cfg: Policy, st: Sched, a: FidoAddress, busyPathOk: bool, v: Visit, names: iset<string>, x: string)
    requires v.address !in names && x in names
    ensures var l, l' := LedgerOf(st, names, x, a), LedgerOf(Call(cfg, st, Target(a, busyPathOk, true), v), names, x, a);
            l' == l || l' == l.(hold := Some(v.holdAt))
  {
    var target := Target(a, busyPathOk, true);
    CallDials(cfg, st, target, v);
    DialsToAppend(st.dials, Attempt(v.address, v.dialAt, v.dialOk), names);
    CallKeepsString(cfg, st, target, v, x);
  }

  lemma CallSound(cfg: Policy, st: Sched, a: FidoAddress, busyPathOk: bool, v: Visit, names: iset<string>, x: string,
                  clock: int)
    requires var l := LedgerOf(st, names, x, a); Sound(cfg, l, clock) && Free(cfg, l, clock)
    requires Proper(cfg, v, names, x) && x in names && clock <= v.dialAt <= v.holdAt
    ensures Sound(cfg, LedgerOf(Call(cfg, st, Target(a, busyPathOk, true), v), names, x, a), v.holdAt)
  {
    var l := LedgerOf(st, names, x, a);
    var l' := LedgerOf(Call(cfg, st, Target(a, busyPathOk, true), v), names, x, a);
    if v.address in names {
      SoundDialled(cfg, l, clock, Attempt(v.address, v.dialAt, v.dialOk));
      CountedCall(cfg, st, a, busyPathOk, v, names, x);
      if v.dialOk || l.count + 1 < cfg.Attempts() {
        SoundLater(cfg, l', v.dialAt, v.holdAt);
      }
    } else {
      UncountedCall(cfg, st, a, busyPathOk, v, names, x);
      SoundLater(cfg, l, clock, v.holdAt);
      SoundHeld(cfg, l, clock, v.holdAt);
    }
  }

  lemma NodeSound(cfg: Policy, st: Sched, a: FidoAddress, v: Visit, names: iset<string>, x: string, clock: int)
    requires Sound(cfg, LedgerOf(st, names, x, a), clock) && Timely(v, clock)
    requires Proper(cfg, v, names, x) && x in names
    ensures Sound(cfg, LedgerOf(VisitNode(cfg, st, a, v), names, x, a), v.doneAt)
  {
    if Suspended(cfg, st, a, v) {
      SoundLater(cfg, LedgerOf(VisitNode(cfg, st, a, v), names, x, a), clock, v.doneAt);
    } else {
      var ready := ClearBusy(ClearHold(st, a, v), a, v);
      ClearSound(cfg, st, a, v, names, x, clock);
      assert LedgerOf(ClearHold(st, a, v), names, x, a) == LedgerOf(ready, names, x, a);
      SoundLater(cfg, LedgerOf(ready, names, x, a), v.holdNow, v.doneAt);
      DecideSound(cfg, ready, a, v, names, x, v.holdNow);
    }
  }

  lemma DecideSound(cfg: Policy, st: Sched, a: FidoAddress, v: Visit, names: iset<string>, x: string, clock: int)
    requires var l := LedgerOf(st, names, x, a); Sound(cfg, l, clock) && Free(cfg, l, clock)
    requires Proper(cfg, v, names, x) && x in names && clock <= v.dialAt <= v.holdAt <= v.doneAt
    ensures Sound(cfg, LedgerOf(Decide(cfg, st, Target(a, v.busyPathOk, v.holdPathOk), v), names, x, a), v.doneAt)
  {
    var l' := LedgerOf(Decide(cfg, st, Target(a, v.busyPathOk, v.holdPathOk), v), names, x, a);
    if v.linkFound && v.flavor != "Hold" {
      CallSound(cfg, st, a, v.busyPathOk, v, names, x, clock);
      SoundLater(cfg, l', v.holdAt, v.doneAt);
    } else {
      SoundLater(cfg, l', clock, v.doneAt);
    }
  }

  /** A visit to another address changes nothing in the ledger. */
  lemma OtherLedger(cfg: Policy, st: Sched, keys: Keys, a: FidoAddress, v: Visit, names: iset<string>, x: string)
    requires NamesOf(keys, a, names, x) && keys(v.address) != Some(a)
    ensures LedgerOf(VisitEntry(cfg, st, keys(v.address), v), names, x, a) == LedgerOf(st, names, x, a)
  {
    assert v.address !in names;
    VisitDials(cfg, st, keys(v.address), v, names);
    OtherStringsUntouched(cfg, st, keys(v.address), v, x);
    OtherFlagsUntouched(cfg, st, keys(v.address), v, a);
  }

  lemma VisitSound(cfg: Policy, st: Sched, keys: Keys, a: FidoAddress, v: Visit, names: iset<string>, x: string,
                   clock: int)
    requires Sound(cfg, LedgerOf(st, names, x, a), clock) && Timely(v, clock)
    requires Proper(cfg, v, names, x) && NamesOf(keys, a, names, x)
    ensures Sound(cfg, LedgerOf(VisitEntry(cfg, st, keys(v.address), v), names, x, a), v.doneAt)
  {
    SoundLater(cfg, LedgerOf(st, names, x, a), clock, v.doneAt);
    if keys(v.address) != Some(a) {
      OtherLedger(cfg, st, keys, a, v, names, x);
    } else if !TooSoon(cfg, st, v) && !v.active {
      NodeSound(cfg, st, a, v, names, x, clock);
    }
  }

  /* ---- Whole runs ---- */

  /** The visits of a scan follow one another in time. */
  ghost predicate InTime(visits: seq<Visit>, clock: int)
    decreases |visits|
  {
    visits != [] ==> Timely(visits[0], clock) && InTime(visits[1..], visits[0].doneAt)
  }

  function EndOf(visits: seq<Visit>, clock: int): int {
    if visits == [] then clock else visits[|visits| - 1].doneAt
  }

  ghost predicate ScansInTime(scans: seq<seq<Visit>>, clock: int)
    decreases |scans|
  {
    scans != [] ==> InTime(scans[0], clock) && ScansInTime(scans[1..], EndOf(scans[0], clock))
  }

  lemma {:induction false} VisitsSound(cfg: Policy, st: Sched, keys: Keys, a: FidoAddress, visits: seq<Visit>,
                                      names: iset<string>, x: string, clock: int)
    requires Sound(cfg, LedgerOf(st, names, x, a), clock) && InTime(visits, clock) && NamesOf(keys, a, names, x)
    requires forall v :: v in visits ==> Proper(cfg, v, names, x)
    ensures Sound(cfg, LedgerOf(VisitAll(cfg, st, keys, visits), names, x, a), EndOf(visits, clock))
    decreases |visits|
  {
    if visits != [] {
      var v := visits[0];
      assert v in visits;
      VisitSound(cfg, st, keys, a, v, names, x, clock);
      VisitsSound(cfg, VisitEntry(cfg, st, keys(v.address), v), keys, a, visits[1..], names, x, v.doneAt);
    }
  }

  lemma {:induction false} ScansSound(cfg: Policy, st: Sched, keys: Keys, a: FidoAddress, scans: seq<seq<Visit>>,
                                     names: iset<string>, x: string, clock: int)
    returns (later: int)
    requires Sound(cfg, LedgerOf(st, names, x, a), clock) && ScansInTime(scans, clock) && NamesOf(keys, a, names, x)
    requires forall i, v :: 0 <= i < |scans| && v in scans[i] ==> Proper(cfg, v, names, x)
    ensures Sound(cfg, LedgerOf(Scans(cfg, st, keys, scans), names, x, a), later)
    decreases |scans|
  {
    later := clock;
    if scans != [] {
      VisitsSound(cfg, st, keys, a, scans[0], names, x, clock);
      var st' := Scan(cfg, st, keys, scans[0]);
      assert LedgerOf(st', names, x, a) == LedgerOf(VisitAll(cfg, st, keys, scans[0]), names, x, a);
      later := ScansSound(cfg, st', keys, a, scans[1..], names, x, EndOf(scans[0], clock));
    }
  }

  /** Over any run of the scheduler, with a clock that does not go back and working hold
      flags, under which the dials of an address that count are all made under one name, or
      MaxDialAttempts is one: after MaxDialAttempts failed dials in a row the next one comes
      at least HoldTime after the first of them, and the failure count stays below
      MaxDialAttempts. */
  lemma DialRateIsLimited(cfg: Policy, st: Sched, keys: Keys, a: FidoAddress, scans: seq<seq<Visit>>,
                          names: iset<string>, x: string, clock: int)
    requires JustStarted(st) && ScansInTime(scans, clock) && NamesOf(keys, a, names, x)
    requires forall i, v :: 0 <= i < |scans| && v in scans[i] ==> Proper(cfg, v, names, x)
    ensures var st' := Scans(cfg, st, keys, scans);
            && Limited(DialsTo(st'.dials, names), cfg.Attempts(), cfg.holdTime)
            && 0 <= Failures(st', x) < cfg.Attempts()
  {
    var later := ScansSound(cfg, st, keys, a, scans, names, x, clock);
  }

  /* ---- Runs of failed calls ---- */

  /** A failed call under the name, with no busy flag in the way. */
  function FailedCall(x: string, at: int, ops: HoldOps): Visit {
    Visit(x, "Crash", at, false, ops.found, at, ops.removed, true, at, false, true, true, at, false,
          ops.written, at, at, true)
  }

  /** The time of call m, one gap after the call before it. */
  function CallTime(at: int, gap: int, m: nat): int {
    if m == 0 then at else CallTime(at, gap, m - 1) + gap
  }

  lemma {:induction false} CallTimeIs(at: int, gap: int, m: nat)
    ensures CallTime(at, gap, m) == at + m * gap
  {
    if m > 0 {
      CallTimeIs(at, gap, m - 1);
    }
  }

  /** Failed calls under two names in turn, which may be the same, one gap apart. */
  datatype Turns = Turns(x: string, y: string, at: int, gap: int, ops: HoldOps, pause: bool) {
    function Name(k: nat): string {
      if k % 2 == 0 then x else y
    }

    function Time(k: nat): int {
      CallTime(at, gap, k)
    }

    function Visit(k: nat): Visit {
      FailedCall(Name(k), Time(k), ops)
    }

    /** Call k is a scan of its own; with a pause the scan after it finds an empty queue. */
    function Call(k: nat): seq<seq<Visit>> {
      if pause then [[Visit(k)], []] else [[Visit(k)]]
    }

    function Calls(m: nat): seq<seq<Visit>> {
      if m == 0 then [] else Calls(m - 1) + Call(m - 1)
    }

    function Dials(m: nat): (dials: seq<Dial>)
      ensures |dials| == m
    {
      if m == 0 then [] else Dials(m - 1) + [Attempt(Name(m - 1), Time(m - 1), false)]
    }
  }

  lemma {:induction false} DialAt(t: Turns, m: nat, k: nat)
    requires k < m
    ensures t.Dials(m)[k] == Attempt(t.Name(k), t.Time(k), false)
  {
    if k < m - 1 {
      DialAt(t, m - 1, k);
    }
  }

  ghost predicate AllCount(dials: seq<Dial>, t: Turns, m: nat, names: iset<string>) {
    DialsTo(dials + t.Dials(m), names) == DialsTo(dials, names) + t.Dials(m)
  }

  lemma OneMoreCounts(dials: seq<Dial>, t: Turns, m: nat, names: iset<string>)
    requires AllCount(dials, t, m, names) && t.x in names && t.y in names
    ensures AllCount(dials, t, m + 1, names)
  {
    var d := Attempt(t.Name(m), t.Time(m), false);
    DialsToAppend(dials + t.Dials(m), d, names);
    Assoc(dials, t.Dials(m), [d]);
    Assoc(DialsTo(dials, names), t.Dials(m), [d]);
  }

  lemma DialsToAll(dials: seq<Dial>, t: Turns, n: nat, names: iset<string>)
    requires t.x in names && t.y in names
    ensures AllCount(dials, t, n, names)
  {
    assert dials + [] == dials && DialsTo(dials, names) + [] == DialsTo(dials, names);
    for m := 0 to n
      invariant AllCount(dials, t, m, names)
    {
      OneMoreCounts(dials, t, m, names);
    }
  }

  /** n + 1 failed dials in a row within less than holdTime exceed the limit. */
  lemma CloseFailuresExceed(dials: seq<Dial>, t: Turns, n: nat, holdTime: int, names: iset<string>)
    requires n > 0 && n * t.gap < holdTime && t.x in names && t.y in names
    ensures !Limited(DialsTo(dials + t.Dials(n + 1), names), n, holdTime)
  {
    var before, more := DialsTo(dials, names), t.Dials(n + 1);
    DialsToAll(dials, t, n + 1, names);
    var all, i := before + more, |before|;
    forall k | i <= k < i + n
      ensures !all[k].ok
    {
      DialAt(t, n + 1, k - i);
    }
    assert FailRun(all, i, n);
    DialAt(t, n + 1, 0);
    DialAt(t, n + 1, n);
    CallTimeIs(t.at, t.gap, n);
    assert all[i + n].at - all[i].at == n * t.gap;
  }

  /** What a failed call does that nothing forbids, apart from the hold flag and the count. */
  lemma NodeFails(cfg: Policy, st: Sched, a: FidoAddress, x: string, at: int, ops: HoldOps)
    requires !Suspended(cfg, st, a, FailedCall(x, at, ops)) && a !in st.busy
    ensures var st' := VisitNode(cfg, st, a, FailedCall(x, at, ops));
            && st'.dials == st.dials + [Attempt(x, at, false)]
            && a !in st'.busy && st'.lastAttempt == st.lastAttempt[x := at]
  {
    CallFails(cfg, ClearBusy(ClearHold(st, a, FailedCall(x, at, ops)), a, FailedCall(x, at, ops)), a, x, at, ops);
  }

  lemma CallFails(cfg: Policy, st: Sched, a: FidoAddress, x: string, at: int, ops: HoldOps)
    requires a !in st.busy
    ensures var st' := Call(cfg, st, Target(a, true, ops.found), FailedCall(x, at, ops));
            && st'.dials == st.dials + [Attempt(x, at, false)]
            && a !in st'.busy && st'.lastAttempt == st.lastAttempt[x := at]
  {
  }

  /** The address may be dialled under the name as far as its last attempt goes. */
  ghost predicate Due(cfg: Policy, st: Sched, x: string, at: int) {
    x in st.lastAttempt ==> at - st.lastAttempt[x] >= cfg.rescanPeriod
  }

  lemma ScanOfOne(cfg: Policy, st: Sched, keys: Keys, v: Visit, a: FidoAddress)
    requires keys(v.address) == Some(a) && !v.active && !TooSoon(cfg, st, v)
    ensures Scan(cfg, st, keys, [v]) == Pruned(VisitNode(cfg, st, a, v), {v.address})
  {
    assert [v][1..] == [];
    assert VisitAll(cfg, st, keys, [v]) == VisitAll(cfg, VisitEntry(cfg, st, keys(v.address), v), keys, []);
    assert Seen([v]) == {v.address};
  }

  lemma CallScans(cfg: Policy, st: Sched, keys: Keys, a: FidoAddress, t: Turns, k: nat)
    requires keys(t.Name(k)) == Some(a) && a !in st.busy && Due(cfg, st, t.Name(k), t.Time(k))
    requires !Suspended(cfg, st, a, t.Visit(k))
    ensures var st', node := Scans(cfg, st, keys, t.Call(k)), VisitNode(cfg, st, a, t.Visit(k));
            && st'.dials == st.dials + [Attempt(t.Name(k), t.Time(k), false)]
            && st'.hold == node.hold && st'.failures == node.failures && a !in st'.busy
            && (forall z :: z in st'.lastAttempt ==> !t.pause && st'.lastAttempt[z] == t.Time(k))
  {
    var v := t.Visit(k);
    ScanOfOne(cfg, st, keys, v, a);
    NodeFails(cfg, st, a, t.Name(k), t.Time(k), t.ops);
    var mid := Scan(cfg, st, keys, [v]);
    assert forall z :: z in mid.lastAttempt ==> mid.lastAttempt[z] == t.Time(k);
    if t.pause {
      var none: seq<seq<Visit>> := [[]];
      assert t.Call(k)[0] == [v] && t.Call(k)[1..] == none && none[1..] == [];
      assert Scans(cfg, st, keys, t.Call(k)) == Scans(cfg, mid, keys, none) == Scan(cfg, mid, keys, []);
    } else {
      assert t.Call(k)[0] == [v] && t.Call(k)[1..] == [];
    }
  }

  lemma {:induction false} ScansAppend(cfg: Policy, st: Sched, keys: Keys, scans: seq<seq<Visit>>, more: seq<seq<Visit>>)
    ensures Scans(cfg, st, keys, scans + more) == Scans(cfg, Scans(cfg, st, keys, scans), keys, more)
    decreases |scans|
  {
    if scans == [] {
      assert [] + more == more;
    } else {
      assert (scans + more)[0] == scans[0] && (scans + more)[1..] == scans[1..] + more;
      ScansAppend(cfg, Scan(cfg, st, keys, scans[0]), keys, scans[1..], more);
    }
  }

  /* ---- When hold flags do not help ---- */

  /** No hold flag stops the address now or later: it is not looked up; or there is none and
      none is written; or it has expired, stays, and sets back the count at every visit. */
  ghost predicate Broken(cfg: Policy, st: Sched, a: FidoAddress, at: int, ops: HoldOps) {
    || !ops.found
    || (a !in st.hold && !ops.written)
    || (a in st.hold && at - st.hold[a] >= cfg.holdTime && !ops.removed && cfg.maxDialAttempts > 1)
  }

  lemma BrokenStays(cfg: Policy, st: Sched, a: FidoAddress, x: string, at: int, ops: HoldOps, later: int)
    requires Broken(cfg, st, a, at, ops) && a !in st.busy && at <= later
    ensures !Suspended(cfg, st, a, FailedCall(x, at, ops))
    ensures Broken(cfg, VisitNode(cfg, st, a, FailedCall(x, at, ops)), a, later, ops)
  {
  }

  /** Before call k under two names in turn: neither has come to the limit. */
  ghost predicate Shared(cfg: Policy, st: Sched, a: FidoAddress, t: Turns, k: nat) {
    && t.x != t.y && 1 < cfg.maxDialAttempts && k <= cfg.maxDialAttempts && a !in st.hold
    && Failures(st, t.x) == (k + 1) / 2 && Failures(st, t.y) == k / 2
  }

  lemma SharedStays(cfg: Policy, st: Sched, a: FidoAddress, t: Turns, k: nat)
    requires Shared(cfg, st, a, t, k) && k < cfg.maxDialAttempts && a !in st.busy
    ensures Shared(cfg, VisitNode(cfg, st, a, t.Visit(k)), a, t, k + 1)
  {
    assert Failures(st, t.Name(k)) == k / 2 && k / 2 + 1 < cfg.maxDialAttempts;
  }

  /** Before call k of the run, whatever the limit: the call will be made. */
  ghost predicate Goes(cfg: Policy, st: Sched, a: FidoAddress, t: Turns, k: nat) {
    && a !in st.busy && Due(cfg, st, t.x, t.Time(k)) && Due(cfg, st, t.y, t.Time(k))
    && (Broken(cfg, st, a, t.Time(k), t.ops) || Shared(cfg, st, a, t, k))
  }

  /** The calls come one after the other, each late enough for the retry delay or after a
      scan that has forgotten the attempt before. */
  ghost predicate Steady(cfg: Policy, keys: Keys, a: FidoAddress, t: Turns) {
    && keys(t.x) == Some(a) && keys(t.y) == Some(a)
    && 0 <= t.gap && (t.pause || cfg.rescanPeriod <= t.gap)
  }

  lemma GoesOn(cfg: Policy, st: Sched, keys: Keys, a: FidoAddress, t: Turns, k: nat)
    requires Steady(cfg, keys, a, t) && Goes(cfg, st, a, t, k)
    ensures var st' := Scans(cfg, st, keys, t.Call(k));
            && st'.dials == st.dials + [Attempt(t.Name(k), t.Time(k), false)]
            && (k < cfg.Attempts() ==> Goes(cfg, st', a, t, k + 1))
  {
    assert t.Time(k + 1) == t.Time(k) + t.gap;
    if Broken(cfg, st, a, t.Time(k), t.ops) {
      BrokenStays(cfg, st, a, t.Name(k), t.Time(k), t.ops, t.Time(k + 1));
    } else if k < cfg.Attempts() {
      SharedStays(cfg, st, a, t, k);
    }
    CallScans(cfg, st, keys, a, t, k);
  }

  lemma CallsAppend(cfg: Policy, st: Sched, keys: Keys, t: Turns, m: nat)
    ensures Scans(cfg, st, keys, t.Calls(m + 1)) == Scans(cfg, Scans(cfg, st, keys, t.Calls(m)), keys, t.Call(m))
    ensures st.dials + t.Dials(m + 1) == st.dials + t.Dials(m) + [Attempt(t.Name(m), t.Time(m), false)]
  {
    ScansAppend(cfg, st, keys, t.Calls(m), t.Call(m));
    Assoc(st.dials, t.Dials(m), [Attempt(t.Name(m), t.Time(m), false)]);
  }

  /** The state after the first m calls, each of which has been made. */
  ghost predicate Gone(cfg: Policy, st: Sched, keys: Keys, a: FidoAddress, t: Turns, m: nat, end: Sched) {
    && end == Scans(cfg, st, keys, t.Calls(m)) && end.dials == st.dials + t.Dials(m)
    && (m <= cfg.Attempts() ==> Goes(cfg, end, a, t, m))
  }

  lemma NoneGone(cfg: Policy, st: Sched, keys: Keys, a: FidoAddress, t: Turns)
    requires Goes(cfg, st, a, t, 0)
    ensures Gone(cfg, st, keys, a, t, 0, st)
  {
    assert st.dials + [] == st.dials;
  }

  lemma OneMoreGoes(cfg: Policy, st: Sched, keys: Keys, a: FidoAddress, t: Turns, m: nat, mid: Sched) returns (end: Sched)
    requires Steady(cfg, keys, a, t) && Gone(cfg, st, keys, a, t, m, mid) && m <= cfg.Attempts()
    ensures Gone(cfg, st, keys, a, t, m + 1, end)
  {
    end := Scans(cfg, mid, keys, t.Call(m));
    GoesOn(cfg, mid, keys, a, t, m);
    CallsAppend(cfg, st, keys, t, m);
  }

  lemma AllGo(cfg: Policy, st: Sched, keys: Keys, a: FidoAddress, t: Turns) returns (end: Sched)
    requires Steady(cfg, keys, a, t) && Goes(cfg, st, a, t, 0)
    ensures Gone(cfg, st, keys, a, t, cfg.Attempts() + 1, end)
  {
    end := st;
    NoneGone(cfg, st, keys, a, t);
    for m := 0 to cfg.Attempts() + 1
      invariant Gone(cfg, st, keys, a, t, m, end)
    {
      end := OneMoreGoes(cfg, st, keys, a, t, m, end);
    }
  }

  /* ---- Such runs keep time ---- */

  function EndOfAll(scans: seq<seq<Visit>>, clock: int): int
    decreases |scans|
  {
    if scans == [] then clock else EndOfAll(scans[1..], EndOf(scans[0], clock))
  }

  lemma {:induction false} InTimeAppend(scans: seq<seq<Visit>>, more: seq<seq<Visit>>, clock: int)
    requires ScansInTime(scans, clock) && ScansInTime(more, EndOfAll(scans, clock))
    ensures ScansInTime(scans + more, clock) && EndOfAll(scans + more, clock) == EndOfAll(more, EndOfAll(scans, clock))
    decreases |scans|
  {
    if scans == [] {
      assert [] + more == more;
    } else {
      assert (scans + more)[0] == scans[0] && (scans + more)[1..] == scans[1..] + more;
      InTimeAppend(scans[1..], more, EndOf(scans[0], clock));
    }
  }

  lemma CallInTime(t: Turns, k: nat, clock: int)
    requires clock <= t.Time(k)
    ensures ScansInTime(t.Call(k), clock) && EndOfAll(t.Call(k), clock) == t.Time(k)
  {
    var v := t.Visit(k);
    assert [v][1..] == [] && InTime([v], clock) && EndOf([v], clock) == t.Time(k);
    if t.pause {
      var none: seq<seq<Visit>> := [[]];
      assert t.Call(k)[1..] == none && none[1..] == [] && EndOf([], t.Time(k)) == t.Time(k);
      assert ScansInTime(none, t.Time(k)) && EndOfAll(none, t.Time(k)) == t.Time(k);
    } else {
      assert t.Call(k)[1..] == [];
    }
  }

  lemma {:induction false} CallsInTime(t: Turns, m: nat)
    requires 0 <= t.gap
    ensures ScansInTime(t.Calls(m), t.at) && EndOfAll(t.Calls(m), t.at) <= t.Time(m)
  {
    if m > 0 {
      CallsInTime(t, m - 1);
      CallInTime(t, m - 1, EndOfAll(t.Calls(m - 1), t.at));
      InTimeAppend(t.Calls(m - 1), t.Call(m - 1), t.at);
    }
  }

  /** Every visit of the run finds the operations on hold flags going this way. */
  ghost predicate AllOps(scans: seq<seq<Visit>>, ops: HoldOps) {
    forall i, v :: 0 <= i < |scans| && v in scans[i] ==> OpsOf(v) == ops
  }

  lemma {:induction false} CallsHaveOps(t: Turns, m: nat)
    ensures AllOps(t.Calls(m), t.ops)
  {
    if m > 0 {
      CallsHaveOps(t, m - 1);
      assert AllOps(t.Call(m - 1), t.ops);
    }
  }

  /* ---- What the limit depends on ---- */

  /** Failed calls break the limit, for every MaxDialAttempts, as soon as that many gaps
      between them fit into HoldTime: if no hold flag stops the address, or, with a limit
      above one, if it is called under two names in turn. */
  lemma FailedCallsBreakLimit(cfg: Policy, st: Sched, keys: Keys, a: FidoAddress, t: Turns, names: iset<string>)
    requires Steady(cfg, keys, a, t) && Goes(cfg, st, a, t, 0) && t.x in names && t.y in names
    requires cfg.Attempts() * t.gap < cfg.holdTime
    ensures var scans := t.Calls(cfg.Attempts() + 1);
            && ScansInTime(scans, t.at) && AllOps(scans, t.ops)
            && !Limited(DialsTo(Scans(cfg, st, keys, scans).dials, names), cfg.Attempts(), cfg.holdTime)
  {
    CallsInTime(t, cfg.Attempts() + 1);
    CallsHaveOps(t, cfg.Attempts() + 1);
    var end := AllGo(cfg, st, keys, a, t);
    CloseFailuresExceed(st.dials, t, cfg.Attempts(), cfg.holdTime, names);
  }

  /** In every run of a scheduler whose hold flags behave in this way, the dials under the
      names keep to the limit. */
  ghost predicate RateLimited(cfg: Policy, keys: Keys, names: iset<string>, ops: HoldOps) {
    forall st, scans, clock: int :: JustStarted(st) && ScansInTime(scans, clock) && AllOps(scans, ops)
      ==> Limited(DialsTo(Scans(cfg, st, keys, scans).dials, names), cfg.Attempts(), cfg.holdTime)
  }

  /** The dials of an address under some names keep to the limit in all runs exactly when
      hold flags can be looked up and written and, unless MaxDialAttempts is one, can be
      removed and there is no second name. */
  lemma LimitedExactlyWhen(cfg: Policy, keys: Keys, a: FidoAddress, names: iset<string>, x: string, ops: HoldOps)
    requires NamesOf(keys, a, names, x) && cfg.holdTime > 0
    ensures RateLimited(cfg, keys, names, ops) <==> ops.Work(cfg) && (cfg.Attempts() == 1 || names == iset{x})
  {
    if ops.Work(cfg) && (cfg.Attempts() == 1 || names == iset{x}) {
      forall st, scans, clock: int | JustStarted(st) && ScansInTime(scans, clock) && AllOps(scans, ops)
        ensures Limited(DialsTo(Scans(cfg, st, keys, scans).dials, names), cfg.Attempts(), cfg.holdTime)
      {
        DialRateIsLimited(cfg, st, keys, a, scans, names, x, clock);
      }
    } else if !ops.Work(cfg) {
      BrokenIsUnlimited(cfg, keys, a, names, x, ops);
    } else {
      var y :| y in names && y != x;
      SharedIsUnlimited(cfg, keys, a, names, x, y, ops);
    }
  }

  function Fresh(hold: map<FidoAddress, int>): Sched {
    Sched(map[], map[], map[], hold, map[], [])
  }

  lemma BrokenIsUnlimited(cfg: Policy, keys: Keys, a: FidoAddress, names: iset<string>, x: string, ops: HoldOps)
    requires NamesOf(keys, a, names, x) && cfg.holdTime > 0 && !ops.Work(cfg)
    ensures !RateLimited(cfg, keys, names, ops)
  {
    var t := Turns(x, x, 0, 0, ops, true);
    var st := Fresh(if ops.found && ops.written then map[a := -cfg.holdTime] else map[]);
    assert Broken(cfg, st, a, t.Time(0), ops);
    FailedCallsBreakLimit(cfg, st, keys, a, t, names);
  }

  lemma SharedIsUnlimited(cfg: Policy, keys: Keys, a: FidoAddress, names: iset<string>, x: string, y: string,
                          ops: HoldOps)
    requires NamesOf(keys, a, names, x) && cfg.holdTime > 0 && cfg.Attempts() > 1 && y in names && y != x
    ensures !RateLimited(cfg, keys, names, ops)
  {
    var t := Turns(x, y, 0, 0, ops, true);
    assert Shared(cfg, Fresh(map[]), a, t, 0);
    FailedCallsBreakLimit(cfg, Fresh(map[]), keys, a, t, names);
  }
}
