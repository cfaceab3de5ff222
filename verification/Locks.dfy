/** The locks of the usage manager: two mutexes, a read-write lock that prefers writers, and
    the single database connection. Flush takes the connection and then mu to give a failed
    batch back, while Admit takes mu and then the connection; flushMu keeps them apart. */
module Locks {
  import opened Options

  datatype Lock = FlushMu | ConnectMu | MuRead | MuWrite | Connection

  datatype Action = Acquire(lock: Lock) | Release(lock: Lock)

  datatype Program = Done | Then(action: Action, next: Program)

  datatype Thread = Thread(held: set<Lock>, rest: Program)

  // ------------------------------------------------------- the source's programs

  /** How ensureConnected goes: already connected, connected by another thread meanwhile or
      not readable, or connected here. */
  datatype Connecting = Already | NotHere | Here

  function Ensure(how: Connecting, after: Program): Program {
    var release := Then(Release(ConnectMu), after);
    var publish := if how.Here? then Then(Acquire(MuWrite), Then(Release(MuWrite), release)) else release;
    var look := Then(Acquire(ConnectMu), Then(Acquire(MuRead), Then(Release(MuRead), publish)));
    Then(Acquire(MuRead), Then(Release(MuRead), if how.Already? then after else look))
  }

  datatype FlushOutcome = Unreachable | NothingPending | NoTransaction | Written | RolledBack | CommitFailed

  function GiveBack(after: Program): Program {
    Then(Acquire(MuWrite), Then(Release(MuWrite), after))
  }

  function FlushProgram(how: Connecting, outcome: FlushOutcome): Program {
    var unlock := Then(Release(FlushMu), Done);
    var transaction := match outcome
      case NoTransaction => GiveBack(unlock)
      case RolledBack => Then(Acquire(Connection), GiveBack(Then(Release(Connection), unlock)))
      case CommitFailed => Then(Acquire(Connection), Then(Release(Connection), GiveBack(unlock)))
      case _ => Then(Acquire(Connection), Then(Release(Connection), unlock));
    var write := Then(Acquire(MuRead), Then(Release(MuRead), transaction));
    var take := Then(Acquire(MuWrite), Then(Release(MuWrite), if outcome.NothingPending? then unlock else write));
    Then(Acquire(FlushMu), Ensure(how, if outcome.Unreachable? then unlock else take))
  }

  function AdmitProgram(connects: bool, how: Connecting, transacts: bool): Program {
    var unlock := Then(Release(MuWrite), Then(Release(FlushMu), Done));
    var decide := if transacts then Then(Acquire(Connection), Then(Release(Connection), unlock)) else unlock;
    var locked := Then(Acquire(FlushMu), Then(Acquire(MuWrite), decide));
    if connects then Ensure(how, locked) else locked
  }

  function UpdateProgram(): Program {
    Then(Acquire(MuWrite), Then(Release(MuWrite), Done))
  }

  function ReadProgram(): Program {
    Then(Acquire(MuRead), Then(Release(MuRead), Done))
  }

  function QuickCheckProgram(reachable: bool): Program {
    Then(Acquire(MuRead), Then(Release(MuRead),
      if reachable then Then(Acquire(Connection), Then(Release(Connection), Done)) else Done))
  }

  /** Flush; Admit; Record and Bootstrap; statuses, totals and overlays; the health check. */
  predicate IsProgram(p: Program) {
    || (exists how, outcome :: p == FlushProgram(how, outcome))
    || (exists connects, how, transacts :: p == AdmitProgram(connects, how, transacts))
    || p == UpdateProgram() || p == ReadProgram()
    || (exists reachable :: p == QuickCheckProgram(reachable))
  }

  // ------------------------------------------------------------------ the rules

  predicate Conflict(a: Lock, b: Lock) {
    a == b != MuRead || (a.MuRead? && b.MuWrite?) || (a.MuWrite? && b.MuRead?)
  }

  predicate Wants(t: Thread, l: Lock) {
    t.rest.Then? && t.rest.action == Acquire(l)
  }

  /** No lock that is held stands in the way: the most any implementation of the locks lets
      a thread do. */
  ghost predicate Possible(s: seq<Thread>, i: nat) {
    && i < |s| && s[i].rest.Then?
    && (s[i].rest.action.Acquire? ==>
          forall j, l :: 0 <= j < |s| && l in s[j].held ==> !Conflict(s[i].rest.action.lock, l))
  }

  /** A read lock also waits behind every thread whose next action is to write, whether or not
      it has asked: the least a read-write lock that prefers writers lets a thread do. The lock
      of the source lies between the two; see System. */
  ghost predicate Enabled(s: seq<Thread>, i: nat) {
    && Possible(s, i)
    && (Wants(s[i], MuRead) ==> forall j :: 0 <= j < |s| ==> !Wants(s[j], MuWrite))
  }

  function Advance(t: Thread): Thread
    requires t.rest.Then?
  {
    Thread(if t.rest.action.Acquire? then t.held + {t.rest.action.lock} else t.held - {t.rest.action.lock}, t.rest.next)
  }

  function Schedule(s: seq<Thread>, i: nat): seq<Thread>
    requires i < |s| && s[i].rest.Then?
  {
    s[i := Advance(s[i])]
  }

  ghost predicate Feasible(s: seq<Thread>, schedule: seq<nat>)
    decreases |schedule|
  {
    schedule == [] || (Possible(s, schedule[0]) && Feasible(Schedule(s, schedule[0]), schedule[1..]))
  }

  ghost function RunSchedule(s: seq<Thread>, schedule: seq<nat>): seq<Thread>
    requires Feasible(s, schedule)
    decreases |schedule|
  {
    if schedule == [] then s else RunSchedule(Schedule(s, schedule[0]), schedule[1..])
  }

  ghost predicate AllStarting(s: seq<Thread>) {
    forall i :: 0 <= i < |s| ==> s[i].held == {} && IsProgram(s[i].rest)
  }

  predicate AllDone(s: seq<Thread>) {
    forall i :: 0 <= i < |s| ==> s[i].rest.Done?
  }

  // --------------------------------------------------------------- the discipline

  /** What a thread may hold when it asks for a lock. */
  predicate Allowed(held: set<Lock>, l: Lock) {
    match l
    case FlushMu => held == {}
    case ConnectMu => held <= {FlushMu}
    case MuRead => held <= {FlushMu, ConnectMu}
    case MuWrite => held <= {FlushMu, ConnectMu} || held == {FlushMu, Connection}
    case Connection => held <= {FlushMu} || held == {FlushMu, MuWrite}
  }

  predicate Sound(held: set<Lock>, p: Program)
    decreases p
  {
    match p
    case Done => held == {}
    case Then(Acquire(l), next) => l !in held && Allowed(held, l) && Sound(held + {l}, next)
    case Then(Release(l), next) => l in held && Sound(held - {l}, next)
  }

  lemma AcquireRelease(held: set<Lock>, l: Lock, next: Program)
    requires l !in held && Allowed(held, l) && Sound(held, next)
    ensures Sound(held, Then(Acquire(l), Then(Release(l), next)))
  {
    assert held + {l} - {l} == held;
  }

  lemma EnsureSound(held: set<Lock>, how: Connecting, next: Program)
    requires held <= {FlushMu} && Sound(held, next)
    ensures Sound(held, Ensure(how, next))
  {
    var inner := held + {ConnectMu};
    var release := Then(Release(ConnectMu), next);
    assert inner - {ConnectMu} == held;
    assert Sound(inner, release);
    AcquireRelease(inner, MuWrite, release);
    var publish := if how.Here? then Then(Acquire(MuWrite), Then(Release(MuWrite), release)) else release;
    AcquireRelease(inner, MuRead, publish);
    var look := Then(Acquire(ConnectMu), Then(Acquire(MuRead), Then(Release(MuRead), publish)));
    AcquireRelease(held, MuRead, if how.Already? then next else look);
  }

  lemma FlushSound(how: Connecting, outcome: FlushOutcome)
    ensures Sound({}, FlushProgram(how, outcome))
  {
    var held := {FlushMu};
    var unlock := Then(Release(FlushMu), Done);
    assert held - {FlushMu} == {};
    assert Sound(held, unlock);
    AcquireRelease(held, MuWrite, unlock);
    AcquireRelease(held, Connection, unlock);
    AcquireRelease(held, Connection, GiveBack(unlock));
    var both := {FlushMu, Connection};
    var close := Then(Release(Connection), unlock);
    assert both - {Connection} == held && held + {Connection} == both;
    AcquireRelease(both, MuWrite, close);
    var transaction := match outcome
      case NoTransaction => GiveBack(unlock)
      case RolledBack => Then(Acquire(Connection), GiveBack(close))
      case CommitFailed => Then(Acquire(Connection), Then(Release(Connection), GiveBack(unlock)))
      case _ => Then(Acquire(Connection), close);
    assert Sound(held, transaction);
    AcquireRelease(held, MuRead, transaction);
    var write := Then(Acquire(MuRead), Then(Release(MuRead), transaction));
    AcquireRelease(held, MuWrite, if outcome.NothingPending? then unlock else write);
    var take := Then(Acquire(MuWrite), Then(Release(MuWrite), if outcome.NothingPending? then unlock else write));
    EnsureSound(held, how, if outcome.Unreachable? then unlock else take);
    assert {} + {FlushMu} == held;
  }

  lemma AdmitSound(connects: bool, how: Connecting, transacts: bool)
    ensures Sound({}, AdmitProgram(connects, how, transacts))
  {
    var held := {FlushMu, MuWrite};
    var unlock := Then(Release(MuWrite), Then(Release(FlushMu), Done));
    assert held - {MuWrite} == {FlushMu} && {FlushMu} - {FlushMu} == {};
    assert Sound({FlushMu}, Then(Release(FlushMu), Done));
    assert Sound(held, unlock);
    AcquireRelease(held, Connection, unlock);
    var decide := if transacts then Then(Acquire(Connection), Then(Release(Connection), unlock)) else unlock;
    assert {FlushMu} + {MuWrite} == held;
    assert Sound({FlushMu}, Then(Acquire(MuWrite), decide));
    assert {} + {FlushMu} == {FlushMu};
    var locked := Then(Acquire(FlushMu), Then(Acquire(MuWrite), decide));
    assert Sound({}, locked);
    EnsureSound({}, how, locked);
  }

  /** Every operation of the manager keeps the discipline. */
  lemma ProgramsSound(p: Program)
    requires IsProgram(p)
    ensures Sound({}, p)
  {
    AcquireRelease({}, MuWrite, Done);
    AcquireRelease({}, MuRead, Done);
    AcquireRelease({}, Connection, Done);
    AcquireRelease({}, MuRead, Then(Acquire(Connection), Then(Release(Connection), Done)));
    if how, outcome :| p == FlushProgram(how, outcome) {
      FlushSound(how, outcome);
    } else if connects, how, transacts :| p == AdmitProgram(connects, how, transacts) {
      AdmitSound(connects, how, transacts);
    }
  }

  // ------------------------------------------------------- safety of every schedule

  /** No two threads hold conflicting locks. */
  ghost predicate Exclusive(s: seq<Thread>) {
    forall i, j, k, l :: 0 <= i < |s| && 0 <= j < |s| && i != j && k in s[i].held && l in s[j].held ==> !Conflict(k, l)
  }

  ghost predicate Disciplined(s: seq<Thread>) {
    Exclusive(s) && forall i :: 0 <= i < |s| ==> Sound(s[i].held, s[i].rest)
  }

  lemma StartIsDisciplined(s: seq<Thread>)
    requires AllStarting(s)
    ensures Disciplined(s)
  {
    forall i | 0 <= i < |s| ensures Sound(s[i].held, s[i].rest) {
      ProgramsSound(s[i].rest);
    }
  }

  lemma StepKeepsDiscipline(s: seq<Thread>, i: nat)
    requires Disciplined(s) && Possible(s, i)
    ensures Disciplined(Schedule(s, i))
  {
    var t := Schedule(s, i);
    forall a, b, k, l | 0 <= a < |t| && 0 <= b < |t| && a != b && k in t[a].held && l in t[b].held
      ensures !Conflict(k, l)
    {
      if k in s[a].held && l in s[b].held {
        assert Exclusive(s);
      } else if k !in s[a].held {
        assert a == i && !Conflict(k, l);
      } else {
        assert b == i && !Conflict(l, k);
      }
    }
  }

  lemma {:induction false} RunKeepsDiscipline(s: seq<Thread>, schedule: seq<nat>)
    requires Disciplined(s) && Feasible(s, schedule)
    ensures Disciplined(RunSchedule(s, schedule))
    decreases |schedule|
  {
    if schedule != [] {
      StepKeepsDiscipline(s, schedule[0]);
      RunKeepsDiscipline(Schedule(s, schedule[0]), schedule[1..]);
    }
  }

  // ---------------------------------------------------------------------- progress

  /** A thread that holds mu can move, or it waits for the connection under flushMu. */
  lemma HolderOfMu(s: seq<Thread>, i: nat)
    requires Disciplined(s) && i < |s| && (MuRead in s[i].held || MuWrite in s[i].held)
    ensures Enabled(s, i) || (Wants(s[i], Connection) && FlushMu in s[i].held)
  {
  }

  /** A thread that holds the connection can move, or it waits to give a batch back. */
  lemma HolderOfConnection(s: seq<Thread>, i: nat)
    requires Disciplined(s) && i < |s| && Connection in s[i].held
    ensures Enabled(s, i) || (Wants(s[i], MuWrite) && FlushMu in s[i].held)
  {
  }

  lemma Blocked(s: seq<Thread>, i: nat) returns (j: nat)
    requires i < |s| && s[i].rest.Then? && !Enabled(s, i)
    ensures j < |s| && s[i].rest.action.Acquire?
    ensures (exists l :: l in s[j].held && Conflict(s[i].rest.action.lock, l))
      || (Wants(s[i], MuRead) && Wants(s[j], MuWrite))
  {
    var a := s[i].rest.action;
    if k, l :| 0 <= k < |s| && l in s[k].held && Conflict(a.lock, l) {
      j := k;
    } else {
      j :| 0 <= j < |s| && Wants(s[j], MuWrite);
    }
  }

  /** Whoever waits for the connection waits for a thread that can move. */
  lemma ConnectionMoves(s: seq<Thread>, i: nat) returns (k: nat)
    requires Disciplined(s) && i < |s| && Wants(s[i], Connection)
    ensures Enabled(s, k)
  {
    if Enabled(s, i) {
      return i;
    }
    k := Blocked(s, i);
    HolderOfConnection(s, k);
    if !Enabled(s, k) {
      var m := Blocked(s, k);
      HolderOfMu(s, m);
      assert FlushMu in s[k].held && (FlushMu in s[m].held && m != k ==> Conflict(FlushMu, FlushMu));
      k := m;
    }
  }

  /** Whoever waits to write under mu waits for a thread that can move. */
  lemma WriterMoves(s: seq<Thread>, i: nat) returns (k: nat)
    requires Disciplined(s) && i < |s| && Wants(s[i], MuWrite)
    ensures Enabled(s, k)
  {
    if Enabled(s, i) {
      return i;
    }
    k := Blocked(s, i);
    HolderOfMu(s, k);
    if !Enabled(s, k) {
      k := ConnectionMoves(s, k);
    }
  }

  lemma ReaderMoves(s: seq<Thread>, i: nat) returns (k: nat)
    requires Disciplined(s) && i < |s| && Wants(s[i], MuRead)
    ensures Enabled(s, k)
  {
    if Enabled(s, i) {
      return i;
    }
    k := Blocked(s, i);
    if Wants(s[k], MuWrite) {
      k := WriterMoves(s, k);
    } else {
      HolderOfMu(s, k);
      if !Enabled(s, k) {
        k := ConnectionMoves(s, k);
      }
    }
  }

  lemma ConnectorMoves(s: seq<Thread>, i: nat) returns (k: nat)
    requires Disciplined(s) && i < |s| && s[i].rest.Then? && !Wants(s[i], ConnectMu) && !Wants(s[i], FlushMu)
    ensures Enabled(s, k)
  {
    if Enabled(s, i) {
      return i;
    }
    match s[i].rest.action.lock
    case Connection => k := ConnectionMoves(s, i);
    case MuWrite => k := WriterMoves(s, i);
    case MuRead => k := ReaderMoves(s, i);
  }

  lemma ConnectMoves(s: seq<Thread>, i: nat) returns (k: nat)
    requires Disciplined(s) && i < |s| && s[i].rest.Then? && !Wants(s[i], FlushMu)
    ensures Enabled(s, k)
  {
    if Enabled(s, i) {
      k := i;
    } else if Wants(s[i], ConnectMu) {
      k := Blocked(s, i);
      k := ConnectorMoves(s, k);
    } else {
      k := ConnectorMoves(s, i);
    }
  }

  /** While any thread is unfinished, some thread can move. */
  lemma SomeoneMoves(s: seq<Thread>, i: nat) returns (k: nat)
    requires Disciplined(s) && i < |s| && s[i].rest.Then?
    ensures Enabled(s, k)
  {
    if Enabled(s, i) {
      k := i;
    } else if Wants(s[i], FlushMu) {
      k := Blocked(s, i);
      k := ConnectMoves(s, k);
    } else {
      k := ConnectMoves(s, i);
    }
  }

  /** Locks still to be taken or returned. */
  function Left(p: Program): nat {
    if p.Done? then 0 else 1 + Left(p.next)
  }

  function TotalLeft(s: seq<Thread>): nat {
    if s == [] then 0 else Left(s[0].rest) + TotalLeft(s[1..])
  }

  lemma {:induction false} TotalDrops(s: seq<Thread>, i: nat)
    requires i < |s| && s[i].rest.Then?
    ensures TotalLeft(Schedule(s, i)) == TotalLeft(s) - 1
  {
    if i > 0 {
      TotalDrops(s[1..], i - 1);
      assert Schedule(s, i)[1..] == Schedule(s[1..], i - 1);
    }
  }

  /** A schedule in which readers wait for every writer. */
  ghost predicate Careful(s: seq<Thread>, schedule: seq<nat>)
    ensures Careful(s, schedule) ==> Feasible(s, schedule)
    decreases |schedule|
  {
    schedule == [] || (Enabled(s, schedule[0]) && Careful(Schedule(s, schedule[0]), schedule[1..]))
  }

  /** From a disciplined state some schedule lets every thread finish. */
  lemma {:induction false} CanFinish(s: seq<Thread>) returns (schedule: seq<nat>)
    requires Disciplined(s)
    ensures Careful(s, schedule) && AllDone(RunSchedule(s, schedule))
    decreases TotalLeft(s)
  {
    if AllDone(s) {
      schedule := [];
    } else {
      var i :| 0 <= i < |s| && s[i].rest.Then?;
      var k := SomeoneMoves(s, i);
      TotalDrops(s, k);
      StepKeepsDiscipline(s, k);
      var rest := CanFinish(Schedule(s, k));
      schedule := [k] + rest;
      assert schedule[1..] == rest;
    }
  }

  lemma {:induction false} EveryStepCounts(s: seq<Thread>, schedule: seq<nat>)
    requires Feasible(s, schedule)
    ensures TotalLeft(RunSchedule(s, schedule)) == TotalLeft(s) - |schedule|
    decreases |schedule|
  {
    if schedule != [] {
      TotalDrops(s, schedule[0]);
      EveryStepCounts(Schedule(s, schedule[0]), schedule[1..]);
    }
  }

  /** Deadlock freedom for every implementation of the locks: whatever operations run and
      however they have interleaved so far, as long as no two threads were let into conflicting
      locks, none ever will be; an unfinished thread means that some thread can move even if
      readers wait for all writers, and every thread can still finish that way; no schedule is
      longer than the work there is. */
  lemma NoDeadlock(s: seq<Thread>, schedule: seq<nat>)
    requires AllStarting(s) && Feasible(s, schedule)
    ensures var t := RunSchedule(s, schedule);
      && Exclusive(t)
      && (!AllDone(t) ==> exists k: nat :: Enabled(t, k))
      && (exists more :: Careful(t, more) && AllDone(RunSchedule(t, more)))
      && |schedule| <= TotalLeft(s)
  {
    StartIsDisciplined(s);
    RunKeepsDiscipline(s, schedule);
    EveryStepCounts(s, schedule);
    var t := RunSchedule(s, schedule);
    var more := CanFinish(t);
    if !AllDone(t) {
      var i :| 0 <= i < |t| && t[i].rest.Then?;
      var k := SomeoneMoves(t, i);
    }
  }

  // ------------------------------------------------- the read-write lock of the source

  /** The threads, and the one writer whose call of Lock is pending: it has the writers' mutex
      inside the lock, holds back new readers and waits for the readers that are in. When it
      is done, readers and other writers go on in any order. */
  datatype System = System(threads: seq<Thread>, pending: Option<nat>)

  /** Ask: a writer calls Lock and gets the inner mutex. Step: a thread takes or returns a lock. */
  datatype Move = Ask(i: nat) | Step(i: nat)

  ghost predicate CanMove(c: System, m: Move) {
    match m
    case Ask(i) =>
      && i < |c.threads| && Wants(c.threads[i], MuWrite) && c.pending.None?
      && forall j :: 0 <= j < |c.threads| ==> MuWrite !in c.threads[j].held
    case Step(i) =>
      && Possible(c.threads, i)
      && (Wants(c.threads[i], MuWrite) ==> c.pending == Some(i))
      && (Wants(c.threads[i], MuRead) ==> c.pending.None?)
  }

  ghost function Moved(c: System, m: Move): System
    requires CanMove(c, m)
  {
    match m
    case Ask(i) => c.(pending := Some(i))
    case Step(i) =>
      System(Schedule(c.threads, i), if Wants(c.threads[i], MuWrite) then None else c.pending)
  }

  ghost predicate Playable(c: System, moves: seq<Move>)
    decreases |moves|
  {
    moves == [] || (CanMove(c, moves[0]) && Playable(Moved(c, moves[0]), moves[1..]))
  }

  ghost function Played(c: System, moves: seq<Move>): System
    requires Playable(c, moves)
    decreases |moves|
  {
    if moves == [] then c else Played(Moved(c, moves[0]), moves[1..])
  }

  /** A pending writer is at its call of Lock. */
  ghost predicate SystemOk(c: System) {
    && Disciplined(c.threads)
    && (c.pending.Some? ==> c.pending.value < |c.threads| && Wants(c.threads[c.pending.value], MuWrite))
  }

  lemma MoveKeepsOk(c: System, m: Move)
    requires SystemOk(c) && CanMove(c, m)
    ensures SystemOk(Moved(c, m))
  {
    if m.Step? {
      StepKeepsDiscipline(c.threads, m.i);
      hide Disciplined, Possible;
    }
  }

  lemma {:induction false} PlayKeepsOk(c: System, moves: seq<Move>)
    requires SystemOk(c) && Playable(c, moves)
    ensures SystemOk(Played(c, moves))
    decreases |moves|
  {
    if moves != [] {
      MoveKeepsOk(c, moves[0]);
      hide SystemOk, CanMove;
      PlayKeepsOk(Moved(c, moves[0]), moves[1..]);
    }
  }

  /** Where some thread could move even if readers waited for all writers, the source's lock
      lets some thread move. */
  lemma SystemMoves(c: System, k: nat) returns (m: Move)
    requires SystemOk(c) && Enabled(c.threads, k)
    ensures CanMove(c, m)
  {
    if Wants(c.threads[k], MuWrite) {
      assert Conflict(MuWrite, MuWrite) && Conflict(MuWrite, MuRead);
      m := match c.pending case None => Ask(k) case Some(w) => Step(w);
    } else {
      m := Step(k);
    }
  }

  /** Every thread can still finish. */
  lemma {:induction false} SystemCanFinish(c: System) returns (moves: seq<Move>)
    requires SystemOk(c)
    ensures Playable(c, moves) && AllDone(Played(c, moves).threads)
    decreases TotalLeft(c.threads), if c.pending.None? then 1 else 0
  {
    if AllDone(c.threads) {
      moves := [];
    } else {
      var i :| 0 <= i < |c.threads| && c.threads[i].rest.Then?;
      var k := SomeoneMoves(c.threads, i);
      var m := SystemMoves(c, k);
      MoveKeepsOk(c, m);
      MoveCounts(c, m);
      var rest := SystemCanFinish(Moved(c, m));
      moves := [m] + rest;
      assert moves[1..] == rest;
    }
  }

  function Pending(c: System): nat {
    if c.pending.Some? then 1 else 0
  }

  /** Moves still to come at most. */
  function MovesLeft(c: System): int {
    2 * TotalLeft(c.threads) - Pending(c)
  }

  lemma MoveCounts(c: System, m: Move)
    requires SystemOk(c) && CanMove(c, m)
    ensures MovesLeft(Moved(c, m)) < MovesLeft(c)
    ensures m.Ask? ==> Moved(c, m).threads == c.threads && c.pending.None? && Moved(c, m).pending.Some?
    ensures m.Step? ==> TotalLeft(Moved(c, m).threads) == TotalLeft(c.threads) - 1
  {
    if m.Step? {
      TotalDrops(c.threads, m.i);
    }
  }

  lemma LeftOf(s: seq<Thread>, i: nat)
    requires i < |s|
    ensures TotalLeft(s) >= Left(s[i].rest)
  {
    if i > 0 {
      LeftOf(s[1..], i - 1);
    }
  }

  lemma MovesLeftNotNegative(c: System)
    requires SystemOk(c)
    ensures MovesLeft(c) >= 0
  {
    if c.pending.Some? {
      LeftOf(c.threads, c.pending.value);
    }
  }

  lemma {:induction false} EveryMoveCounts(c: System, moves: seq<Move>)
    requires SystemOk(c) && Playable(c, moves)
    ensures MovesLeft(Played(c, moves)) <= MovesLeft(c) - |moves|
    decreases |moves|
  {
    if moves != [] {
      MoveCounts(c, moves[0]);
      MoveKeepsOk(c, moves[0]);
      hide SystemOk, CanMove, MovesLeft;
      EveryMoveCounts(Moved(c, moves[0]), moves[1..]);
    }
  }

  /** Deadlock freedom with the read-write lock of the source, in which a pending call of Lock
      holds back readers: for any operations and any moves of their threads, no two threads
      hold conflicting locks, an unfinished thread means that some thread can move, every thread
      can still finish, and the number of moves is bounded. */
  lemma NoDeadlockOfSystem(s: seq<Thread>, moves: seq<Move>)
    requires AllStarting(s) && Playable(System(s, None), moves)
    ensures var t := Played(System(s, None), moves);
      && Exclusive(t.threads)
      && (!AllDone(t.threads) ==> exists m :: CanMove(t, m))
      && (exists more :: Playable(t, more) && AllDone(Played(t, more).threads))
      && |moves| <= 2 * TotalLeft(s)
  {
    var c := System(s, None);
    StartIsDisciplined(s);
    PlayKeepsOk(c, moves);
    EveryMoveCounts(c, moves);
    var t := Played(c, moves);
    MovesLeftNotNegative(t);
    var more := SystemCanFinish(t);
    if !AllDone(t.threads) {
      var i :| 0 <= i < |t.threads| && t.threads[i].rest.Then?;
      var k := SomeoneMoves(t.threads, i);
      var m := SystemMoves(t, k);
    }
  }

  /** A pending writer waits for the readers that are in, and holds back the next one. */
  lemma PendingWriterHoldsBackReaders()
    ensures var s := [Thread({}, ReadProgram()), Thread({}, UpdateProgram()), Thread({}, ReadProgram())];
      && AllStarting(s) && Playable(System(s, None), [Step(0), Ask(1)])
      && var t := Played(System(s, None), [Step(0), Ask(1)]);
         !CanMove(t, Step(1)) && !CanMove(t, Step(2)) && CanMove(t, Step(0))
  {
    var s := [Thread({}, ReadProgram()), Thread({}, UpdateProgram()), Thread({}, ReadProgram())];
    var c := System(s, None);
    assert CanMove(c, Step(0));
    var d := Moved(c, Step(0));
    assert CanMove(d, Ask(1));
    var t := Moved(d, Ask(1));
    assert [Step(0), Ask(1)][1..] == [Ask(1)] && [Ask(1)][1..] == [];
    assert Playable(t, []) && Played(t, []) == t;
    assert Playable(d, [Ask(1)]) && Played(d, [Ask(1)]) == t;
    assert MuRead in t.threads[0].held && Conflict(MuWrite, MuRead);
  }

  /** What flushMu is for: the same two critical sections without it block each other. */
  lemma WithoutFlushMuDeadlock()
    ensures var s := [
        Thread({}, Then(Acquire(Connection), GiveBack(Then(Release(Connection), Done)))),
        Thread({},
          Then(Acquire(MuWrite), Then(Acquire(Connection), Then(Release(Connection), Then(Release(MuWrite), Done)))))];
      var moves := [Step(0), Ask(1), Step(1)];
      && Playable(System(s, None), moves)
      && !AllDone(Played(System(s, None), moves).threads)
      && forall m :: !CanMove(Played(System(s, None), moves), m)
  {
    var flush := Thread({}, Then(Acquire(Connection), GiveBack(Then(Release(Connection), Done))));
    var admit := Thread({},
      Then(Acquire(MuWrite), Then(Acquire(Connection), Then(Release(Connection), Then(Release(MuWrite), Done)))));
    var c := System([flush, admit], None);
    assert CanMove(c, Step(0));
    var d := Moved(c, Step(0));
    assert CanMove(d, Ask(1));
    var e := Moved(d, Ask(1));
    assert CanMove(e, Step(1));
    var t := Moved(e, Step(1));
    assert [Step(0), Ask(1), Step(1)][1..] == [Ask(1), Step(1)] && [Ask(1), Step(1)][1..] == [Step(1)];
    assert [Step(1)][1..] == [];
    assert Playable(t, []) && Played(t, []) == t;
    assert Playable(e, [Step(1)]) && Played(e, [Step(1)]) == t;
    assert Playable(d, [Ask(1), Step(1)]) && Played(d, [Ask(1), Step(1)]) == t;
    assert Connection in t.threads[0].held && MuWrite in t.threads[1].held;
    assert Wants(t.threads[0], MuWrite) && Wants(t.threads[1], Connection);
    assert Conflict(MuWrite, MuWrite) && Conflict(Connection, Connection);
  }
}
