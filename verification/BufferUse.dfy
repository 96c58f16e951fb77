/** Concurrent use of the buffer cache of bio.c.

A use is one bget() with its brelse(). Uses of several processes interleave between the
critical sections of bcache.lock and of the buffer's sleep-lock. */
module BufferUse {
  import opened Basics
  import opened BufferCache
  import opened LogDisk

  datatype Use =
    | Done
    | Waiting(b: nat, dev: nat, blockno: nat)   // bget(), in acquiresleep()
    | Holding(b: nat, dev: nat, blockno: nat)   // bget() has returned b
    | Leaving(b: nat, dev: nat, blockno: nat)   // brelse(), behind releasesleep()

  datatype State = State(buf: seq<Buf>, uses: seq<Use>)

  datatype Event =
    | Get(c: nat, dev: nat, blockno: nat, b: nat)
    | Lock(c: nat)
    | Change(c: nat, valid: bool, dirty: bool, data: Block)   // bread(), bwrite(), log_write(), the holder
    | Unlock(c: nat)
    | Drop(c: nat)

  ghost predicate Enabled(s: State, e: Event) {
    && e.c < |s.uses|
    && match e
       case Get(c, dev, blockno, b) =>
         && s.uses[c].Done? && b < |s.buf|
         && (if Cached(s.buf, dev, blockno) then IsKey(s.buf[b], dev, blockno) else Idle(s.buf[b]))
       case Lock(c) => s.uses[c].Waiting? && s.uses[c].b < |s.buf| && !s.buf[s.uses[c].b].locked
       case Change(c, valid, dirty, data) => s.uses[c].Holding? && s.uses[c].b < |s.buf| && (dirty ==> valid)
       case Unlock(c) => s.uses[c].Holding? && s.uses[c].b < |s.buf|
       case Drop(c) => s.uses[c].Leaving? && s.uses[c].b < |s.buf| && s.buf[s.uses[c].b].refcnt > 0
  }

  ghost function Next(s: State, e: Event): State
    requires Enabled(s, e)
  {
    var u := s.uses[e.c];
    match e
    case Get(c, dev, blockno, b) => State(Claimed(s.buf, dev, blockno, b), s.uses[c := Waiting(b, dev, blockno)])
    case Lock(c) =>
      State(s.buf[u.b := s.buf[u.b].(locked := true)], s.uses[c := Holding(u.b, u.dev, u.blockno)])
    case Change(c, valid, dirty, data) =>
      State(s.buf[u.b := s.buf[u.b].(valid := valid, dirty := dirty, data := data)], s.uses)
    case Unlock(c) =>
      State(s.buf[u.b := s.buf[u.b].(locked := false)], s.uses[c := Leaving(u.b, u.dev, u.blockno)])
    case Drop(c) => State(s.buf[u.b := s.buf[u.b].(refcnt := s.buf[u.b].refcnt - 1)], s.uses[c := Done])
  }

  ghost predicate Legal(s: State, run: seq<Event>)
    decreases |run|
  {
    run != [] ==> Enabled(s, run[0]) && Legal(Next(s, run[0]), run[1..])
  }

  ghost function After(s: State, run: seq<Event>): State
    requires Legal(s, run)
    decreases |run|
  {
    if run == [] then s else After(Next(s, run[0]), run[1..])
  }

  // ------------------------------------------------------------ the invariant

  predicate Uses(u: Use, b: nat) {
    !u.Done? && u.b == b
  }

  predicate Holds(u: Use, b: nat) {
    u.Holding? && u.b == b
  }

  ghost function Users(uses: seq<Use>, b: nat): set<nat> {
    set c | 0 <= c < |uses| && Uses(uses[c], b)
  }

  /** refcnt counts the uses of a buffer, and its lock is held by one of them or by none. */
  ghost predicate BufferOk(s: State, b: nat)
    requires b < |s.buf|
  {
    && s.buf[b].refcnt == |Users(s.uses, b)|
    && (s.buf[b].locked <==> exists c :: 0 <= c < |s.uses| && Holds(s.uses[c], b))
    && (forall c, d :: 0 <= c < |s.uses| && 0 <= d < |s.uses| && Holds(s.uses[c], b) && Holds(s.uses[d], b) ==> c == d)
  }

  /** The buffer of a use holds the block that was asked for. */
  ghost predicate UseOk(s: State, u: Use) {
    !u.Done? ==> u.b < |s.buf| && IsKey(s.buf[u.b], u.dev, u.blockno)
  }

  ghost predicate Inv(s: State) {
    && Table(s.buf)
    && (forall b :: 0 <= b < |s.buf| ==> BufferOk(s, b))
    && (forall c :: 0 <= c < |s.uses| ==> UseOk(s, s.uses[c]))
  }

  /** One use moves; every user count follows. */
  lemma UsersMove(uses: seq<Use>, c: nat, u: Use, b: nat)
    requires c < |uses|
    ensures |Users(uses[c := u], b)| ==
            |Users(uses, b)| - (if Uses(uses[c], b) then 1 else 0) + (if Uses(u, b) then 1 else 0)
  {
    var others := Users(uses, b) - {c};
    assert Users(uses, b) == if Uses(uses[c], b) then others + {c} else others;
    assert Users(uses[c := u], b) == if Uses(u, b) then others + {c} else others;
  }

  /** A buffer in use is never idle. */
  lemma UsedIsCounted(s: State, c: nat)
    requires Inv(s) && c < |s.uses| && !s.uses[c].Done?
    ensures s.uses[c].b < |s.buf| && s.buf[s.uses[c].b].refcnt > 0
  {
    assert UseOk(s, s.uses[c]);
    assert BufferOk(s, s.uses[c].b);
    assert c in Users(s.uses, s.uses[c].b);
  }

  lemma StepBuffer(s: State, e: Event, b: nat)
    requires Inv(s) && Enabled(s, e) && b < |s.buf|
    ensures |Next(s, e).buf| == |s.buf| && BufferOk(Next(s, e), b)
  {
    var s' := Next(s, e);
    assert BufferOk(s, b) && UseOk(s, s.uses[e.c]);
    UsersMove(s.uses, e.c, s'.uses[e.c], b);
    assert s'.uses == s.uses[e.c := s'.uses[e.c]];
    hide Users, Table, Cached;
    assert s'.buf[b].refcnt == |Users(s'.uses, b)|;
    if s'.buf[b].locked && !Holds(s'.uses[e.c], b) {
      var h :| 0 <= h < |s.uses| && Holds(s.uses[h], b);
      assert Holds(s'.uses[h], b);
    }
  }

  lemma StepUse(s: State, e: Event, c: nat)
    requires Inv(s) && Enabled(s, e) && c < |s.uses|
    ensures UseOk(Next(s, e), Next(s, e).uses[c])
  {
    assert UseOk(s, s.uses[c]) && UseOk(s, s.uses[e.c]);
    if !s.uses[c].Done? { UsedIsCounted(s, c); }
    hide Table;
  }

  lemma StepTable(s: State, e: Event)
    requires Inv(s) && Enabled(s, e)
    ensures Table(Next(s, e).buf)
  {
    if !s.uses[e.c].Done? { UsedIsCounted(s, e.c); }
    if e.Drop? {
      var b := s.uses[e.c].b;
      assert BufferOk(s, b);
      if s.buf[b].locked {
        var h :| 0 <= h < |s.uses| && Holds(s.uses[h], b);
        assert {e.c, h} <= Users(s.uses, b);
        SubsetSize({e.c, h}, Users(s.uses, b));
      }
    }
  }

  lemma StepInv(s: State, e: Event)
    requires Inv(s) && Enabled(s, e)
    ensures Inv(Next(s, e))
  {
    var s' := Next(s, e);
    StepTable(s, e);
    forall b | 0 <= b < |s'.buf| ensures BufferOk(s', b) { StepBuffer(s, e, b); }
    forall c | 0 <= c < |s'.uses| ensures UseOk(s', s'.uses[c]) { StepUse(s, e, c); }
  }

  lemma {:induction false} RunInv(s: State, run: seq<Event>)
    requires Inv(s) && Legal(s, run)
    ensures Inv(After(s, run))
    decreases |run|
  {
    if run != [] {
      StepInv(s, run[0]);
      RunInv(Next(s, run[0]), run[1..]);
    }
  }

  // ------------------------------------------------------------ what bget() promises

  /** The cache before any bget(). */
  ghost predicate Init(s: State) {
    && Table(s.buf) && (forall b :: 0 <= b < |s.buf| ==> s.buf[b].refcnt == 0)
    && (forall c :: 0 <= c < |s.uses| ==> s.uses[c].Done?)
  }

  lemma InitInv(s: State)
    requires Init(s)
    ensures Inv(s)
  {
    forall b | 0 <= b < |s.buf| ensures BufferOk(s, b) {
      assert Users(s.uses, b) == {};
    }
  }

  ghost predicate SameBlock(u: Use, v: Use) {
    !u.Done? && !v.Done? && u.dev == v.dev && u.blockno == v.blockno
  }

  /** In every interleaving a returned buffer is locked and holds the block that was asked
      for, however long the caller waited for it, and no block is held twice. Key (0,0) is
      the one that all buffers start with. */
  lemma OneHolderPerBlock(s: State, run: seq<Event>)
    requires Init(s) && Legal(s, run)
    ensures var t := After(s, run);
            forall c :: 0 <= c < |t.uses| && t.uses[c].Holding? ==>
              && t.uses[c].b < |t.buf| && t.buf[t.uses[c].b].locked
              && IsKey(t.buf[t.uses[c].b], t.uses[c].dev, t.uses[c].blockno)
    ensures var t := After(s, run);
            forall c, d :: 0 <= c < d < |t.uses| && t.uses[c].Holding? && t.uses[d].Holding? ==>
              SameBlock(t.uses[c], t.uses[d]) ==> t.uses[c].dev == 0 && t.uses[c].blockno == 0
  {
    InitInv(s);
    RunInv(s, run);
    var t := After(s, run);
    hide After, Legal;
    forall c | 0 <= c < |t.uses| && t.uses[c].Holding?
      ensures UseOk(t, t.uses[c]) && t.buf[t.uses[c].b].locked && Holds(t.uses[c], t.uses[c].b)
    {
      assert UseOk(t, t.uses[c]);
      assert BufferOk(t, t.uses[c].b);
    }
    forall c, d | 0 <= c < |t.uses| && 0 <= d < |t.uses| && t.uses[c].Holding? && t.uses[d].Holding?
                  && t.uses[c].b == t.uses[d].b
      ensures c == d
    {
      assert BufferOk(t, t.uses[c].b);
    }
  }
}
