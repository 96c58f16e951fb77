/** begin_op(), log_write() and end_op() of log.c as a client of sleep() and wakeup(). */
module LogWait {
  import opened Basics
  import opened Monitor
  import LogDisk

  const CHAN := 0   // the address of `log`

  /** The fields of `log` that log.lock protects; `n` blocks are logged. */
  datatype Log = Log(outstanding: int, committing: bool, n: int)

  datatype Frame =
    | Begin      // begin_op(), at the loop's test
    | Append     // log_write() of a block not yet logged
    | End        // end_op()
    | Committed  // end_op(), after commit()
    | Waking     // before wakeup(&log)
    | Done

  predicate NoRoom(s: Log) {
    s.n + (s.outstanding + 1) * LogDisk.MAXOPBLOCKS > LogDisk.LOGSIZE
  }

  function Step(s: Log, f: Frame, killed: bool): Action<Log, Frame> {
    match f
    case Begin => if s.committing || NoRoom(s) then Sleep(CHAN, f) else Leave(s.(outstanding := s.outstanding + 1))
    case Append => Leave(s.(n := s.n + 1))
    case End =>
      if s.outstanding == 1 then Leave(s.(outstanding := 0, committing := true))
      else Go(s.(outstanding := s.outstanding - 1), Waking)
    case Committed => Go(s.(committing := false, n := 0), Waking)
    case Waking => Wake(CHAN, Done)
    case Done => Leave(s)
  }

  predicate Reason(c: int, s: Log) { c == CHAN && (s.committing || NoRoom(s)) }

  predicate OwesWakeup(f: Frame, c: int) { c == CHAN && f.Waking? }

  predicate IsEntry(f: Frame) { f.Begin? || f.Append? || f.End? || f.Committed? }

  function LogClient(): Client<Log, Frame> {
    Client(Step, Reason, OwesWakeup, (s: Log) => true, (s: Log, f: Frame) => true, IsEntry)
  }

  lemma ClientIsFair()
    ensures Safe(LogClient()) && Fair(LogClient())
  {
  }

  /** In every interleaving, while log.lock is free, an operation sleeps in begin_op()
      only while it could not be admitted: a commit runs, or the log has no room. */
  lemma NobodyWaitsInVain(t: State<Log, Frame>, run: seq<Event<Frame>>)
    requires Init(LogClient(), t) && Legal(LogClient(), t, run)
    ensures var u := After(LogClient(), t, run);
            u.lk.None? && !u.s.committing && !NoRoom(u.s) ==>
              forall p, c :: 0 <= p < |u.procs| ==> !Waiter(u.procs[p], c)
  {
    ClientIsFair();
    NoLostWakeup(LogClient(), t, run);
    var u := After(LogClient(), t, run);
    forall p, c | 0 <= p < |u.procs| && Waiter(u.procs[p], c) && u.lk.None? ensures u.s.committing || NoRoom(u.s) {
      assert LogClient().wait(c, u.s);
    }
  }
}
