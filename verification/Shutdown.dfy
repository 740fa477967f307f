/** How the two goroutines of a session agree to end it: fileSender and handleEOB of
    binkp/session.go each set their flag and look at the other one under a mutex, and the
    reader decides whether a read error was the expected close. */
module Shutdown {
  import opened Frames
  import opened SessionState
  import opened Receive

  /** In sendFiles; after its normal return; after the critical section, which saw both
      flags or not; returned. A failed sendFiles skips the section. */
  datatype Sender = Sending | Ended | Checked(both: bool) | Gone(both: bool)

  datatype Reader = Reading | Stopped(reason: Reason)

  /** A session with its two goroutines; eobs counts the M_EOB frames the reader has taken. */
  datatype Engine = Engine(s: State, sender: Sender, reader: Reader, closed: bool, eobs: nat)

  predicate IsEobCommand(f: Frame) {
    f.isCmd && f.payload != "" && f.payload[0] == M_EOB
  }

  /** sendFiles may do anything but touch the flags and the receiving half. */
  ghost predicate SenderWorks(e: Engine, e': Engine) {
    && e.sender.Sending?
    && e' == e.(s := e'.s)
    && e'.s.weSentEOB == e.s.weSentEOB && e'.s.theySentEOB == e.s.theySentEOB && e'.s.rx == e.s.rx
  }

  ghost predicate SenderReturns(e: Engine, e': Engine) {
    e.sender.Sending? && (e' == e.(sender := Ended) || e' == e.(sender := Gone(false), closed := true))
  }

  /** The critical section of fileSender. */
  ghost predicate SenderChecks(e: Engine, e': Engine) {
    e.sender.Ended? && e' == e.(s := e.s.(weSentEOB := true), sender := Checked(e.s.theySentEOB))
  }

  ghost predicate SenderCloses(e: Engine, e': Engine) {
    e.sender.Checked? && e' == e.(sender := Gone(e.sender.both), closed := e.closed || e.sender.both)
  }

  function Outcome(status: Status): Reader {
    match status
    case Continue => Reading
    case Finished => Stopped(SessionFinished)
    case Failed => Stopped(Error)
  }

  ghost predicate ReaderHandles(ctx: Context, e: Engine, e': Engine, a: Arrival) {
    && e.reader.Reading?
    && var r := Handle(ctx, e.s, a);
    && e' == e.(s := r.state, reader := Outcome(r.status), eobs := if IsEobCommand(a.frame) then e.eobs + 1 else e.eobs)
  }

  /** A failed read of fileReader. */
  ghost predicate ReadFails(e: Engine, e': Engine, err: ReadError) {
    && e.reader.Reading? && (err == LocallyClosed ==> e.closed)
    && e' == e.(reader := Stopped(AfterReadError(e.s, err)))
  }

  ghost predicate Step(ctx: Context, e: Engine, e': Engine) {
    || SenderWorks(e, e') || SenderReturns(e, e') || SenderChecks(e, e') || SenderCloses(e, e')
    || (exists a :: ReaderHandles(ctx, e, e', a)) || (exists err :: ReadFails(e, e', err))
  }

  ghost predicate Started(e: Engine) {
    && e.sender == Sending && e.reader == Reading && !e.closed && e.eobs == 0
    && !e.s.weSentEOB && !e.s.theySentEOB
  }

  ghost predicate IsRun(ctx: Context, es: seq<Engine>) {
    && es != [] && Started(es[0])
    && forall i :: 0 < i < |es| ==> Step(ctx, es[i - 1], es[i])
  }

  ghost predicate SenderSaw(e: Engine) {
    (e.sender.Checked? || e.sender.Gone?) && e.sender.both
  }

  ghost predicate ReaderSaw(e: Engine) {
    e.reader == Stopped(SessionFinished)
  }

  ghost predicate BothSent(e: Engine) {
    e.s.weSentEOB && e.s.theySentEOB
  }

  /** Only M_EOB sets a flag, and the reader ends normally on it exactly when the sender
      has been through its section. */
  lemma HandleFlags(ctx: Context, s: State, a: Arrival)
    ensures var r := Handle(ctx, s, a);
            && r.state.weSentEOB == s.weSentEOB
            && (r.state.theySentEOB <==> s.theySentEOB || (IsEobCommand(a.frame) && r.status != Failed))
            && (r.status == Finished <==> IsEobCommand(a.frame) && r.status != Failed && s.weSentEOB)
  {
    var payload := a.frame.payload;
    if !a.frame.isCmd {
    } else if payload != "" && payload[0] == M_FILE {
      FileFlags(ctx, s, payload[1..], a.io);
    }
  }

  lemma FileFlags(ctx: Context, s: State, args: string, io: Io)
    ensures var r := HandleFile(ctx, s, args, io);
            r.state.weSentEOB == s.weSentEOB && r.state.theySentEOB == s.theySentEOB && r.status != Finished
  {
    var r := FinishFile(ctx, s, io);
    assert r.state.weSentEOB == s.weSentEOB && r.state.theySentEOB == s.theySentEOB && r.status != Finished;
    OpenFlags(s, args, io);
    OpenFlags(r.state, args, io);
  }

  lemma OpenFlags(s: State, args: string, io: Io)
    ensures var r := OpenFile(s, args, io);
            r.state.weSentEOB == s.weSentEOB && r.state.theySentEOB == s.theySentEOB && r.status != Finished
  {
  }

  ghost predicate Inv(e: Engine) {
    && (e.s.weSentEOB ==> e.sender.Checked? || e.sender.Gone?)
    && (e.sender.Checked? ==> e.s.weSentEOB)
    && (BothSent(e) ==> SenderSaw(e) || ReaderSaw(e))
    && (SenderSaw(e) || ReaderSaw(e) || e.reader == Stopped(ExpectedClose) ==> BothSent(e))
    && (e.s.theySentEOB ==> e.eobs > 0)
    && (SenderSaw(e) && ReaderSaw(e) ==> e.eobs > 1)
    && (e.sender.Gone? && e.sender.both ==> e.closed)
    && (e.closed ==> e.sender.Gone? && (e.sender.both || !e.s.weSentEOB))
  }

  lemma StepKeepsInv(ctx: Context, e: Engine, e': Engine)
    requires Inv(e) && Step(ctx, e, e')
    ensures Inv(e')
  {
    if exists a :: ReaderHandles(ctx, e, e', a) {
      var a :| ReaderHandles(ctx, e, e', a);
      HandleFlags(ctx, e.s, a);
    }
  }

  lemma {:induction false} RunKeepsInv(ctx: Context, es: seq<Engine>)
    requires IsRun(ctx, es)
    ensures Inv(es[|es| - 1])
    decreases |es|
  {
    var n := |es| - 1;
    if n > 0 {
      RunKeepsInv(ctx, es[..n]);
      assert Step(ctx, es[n - 1], es[n]);
      StepKeepsInv(ctx, es[n - 1], es[n]);
    }
  }

  /** Over every order of the two critical sections: the session knows that both sides are
      done exactly when one of the two has observed it, and when the other side sent a
      single M_EOB exactly one has. */
  lemma SomeoneNotices(ctx: Context, es: seq<Engine>)
    requires IsRun(ctx, es)
    ensures var e := es[|es| - 1];
            && (BothSent(e) <==> SenderSaw(e) || ReaderSaw(e))
            && (BothSent(e) && e.eobs == 1 ==> (SenderSaw(e) <==> !ReaderSaw(e)))
  {
    RunKeepsInv(ctx, es);
  }

  /** The reader ends through errSessionFinished or an expected close only when both sides
      are done. Once both are done and the sender has returned, the reader has stopped or
      its connection is closed, and the read that this makes fail ends the session normally. */
  lemma CleanExit(ctx: Context, es: seq<Engine>, next: Engine)
    requires IsRun(ctx, es)
    ensures var e := es[|es| - 1];
            && (e.reader == Stopped(SessionFinished) || e.reader == Stopped(ExpectedClose) ==> BothSent(e))
            && (BothSent(e) && e.sender.Gone? ==> e.reader.Stopped? || e.closed)
            && (BothSent(e) && ReadFails(e, next, LocallyClosed) ==> next.reader == Stopped(ExpectedClose))
  {
    RunKeepsInv(ctx, es);
  }

  /** A local close without both flags only ever follows a failed send. */
  lemma EarlyCloseIsFailure(ctx: Context, es: seq<Engine>)
    requires IsRun(ctx, es)
    ensures var e := es[|es| - 1]; e.closed ==> (BothSent(e) && SenderSaw(e)) || !e.s.weSentEOB
  {
    RunKeepsInv(ctx, es);
  }

  /** With a second M_EOB both may observe it: M_EOB, the sender's section, M_EOB again. */
  lemma SecondEobIsNoticedTwice(ctx: Context, s: State) returns (es: seq<Engine>)
    requires !s.weSentEOB && !s.theySentEOB && s.rx.file.None?
    ensures IsRun(ctx, es)
    ensures var e := es[|es| - 1]; SenderSaw(e) && ReaderSaw(e) && e.eobs == 2
  {
    var eob := Arrival(Cmd(M_EOB, ""), ALL_OK);
    var e0 := Engine(s, Sending, Reading, false, 0);
    var e1 := Engine(s.(theySentEOB := true), Sending, Reading, false, 1);
    var e2 := e1.(sender := Ended);
    var e3 := e2.(s := e2.s.(weSentEOB := true), sender := Checked(true));
    var e4 := e3.(reader := Stopped(SessionFinished), eobs := 2);
    assert ReaderHandles(ctx, e0, e1, eob);
    assert SenderReturns(e1, e2) && SenderChecks(e2, e3);
    assert ReaderHandles(ctx, e3, e4, eob);
    es := [e0, e1, e2, e3, e4];
  }
}
