/**
 * Many reservation transactions at once: each locks its seats, checks, writes seat by seat, inserts, and commits or
 * rolls back, while sweeps, cancellations and provider events commit in between.
 */
module Transactions {
  import opened Text
  import opened Tables
  import opened Booking
  import opened Protocol
  import opened Agreement
  import opened Invariant

  /** One call of ReservationsService.create with the ids and clock it will use. */
  datatype Call = Call(user: Id, seatIds: set<Id>, holds: map<Id, Id>, now: int)

  datatype Phase = Idle | Locked | Checked | Inserted | Done

  /** A transaction: the seat rows it read under lock, and its uncommitted writes. */
  datatype Txn = Txn(call: Call, phase: Phase, rows: map<Id, Seat>, written: map<Id, Seat>, inserted: map<Id,
      Reservation>)

  /** What has finished: a call with its result, or another writer with the tables it left. */
  datatype Entry = Called(call: Call, result: Result<set<Id>>) | Wrote(after: Db)

  /** The committed tables, the transactions, and what has finished, in that order. */
  datatype Engine = Engine(db: Db, txns: seq<Txn>, log: seq<Entry>)

  datatype Move =
    | Lock(k: nat)
    | Check(k: nat)
    | WriteSeat(k: nat, seat: Id)
    | Insert(k: nat)
    | Commit(k: nat)
    | Other(after: Db)

  predicate Active(t: Txn) { t.phase in {Locked, Checked, Inserted} }

  /** What a writer other than a reservation call may do to the reservations: anything but insert, drop or move them. */
  predicate OtherWrite(db: Db, after: Db) {
    && db.users <= after.users
    && after.reservations.Keys == db.reservations.Keys
    && forall r :: r in db.reservations ==> after.reservations[r].seat == db.reservations[r].seat
  }

  /** It waits for the locks of a running call, and the catalogue does not change under one. */
  predicate Unlocked(db: Db, after: Db, t: Txn) {
    Active(t) ==>
      && RowsOf(after, t.call.seatIds) == RowsOf(db, t.call.seatIds)
      && after.sections == db.sections && after.events == db.events
  }

  /** A transaction waits until no other holds a lock on one of its seats. */
  predicate CanMove(e: Engine, m: Move) {
    match m
    case Lock(k) =>
      k < |e.txns| && e.txns[k].phase == Idle &&
      forall j :: 0 <= j < |e.txns| && Active(e.txns[j]) ==> e.txns[j].call.seatIds !! e.txns[k].call.seatIds
    case Check(k) => k < |e.txns| && e.txns[k].phase == Locked
    case WriteSeat(k, s) =>
      k < |e.txns| && e.txns[k].phase == Checked && s in e.txns[k].call.seatIds && s in e.txns[k].rows &&
      s !in e.txns[k].written
    case Insert(k) => k < |e.txns| && e.txns[k].phase == Checked && e.txns[k].written.Keys == e.txns[k].call.seatIds
    case Commit(k) => k < |e.txns| && e.txns[k].phase == Inserted
    case Other(after) => OtherWrite(e.db, after) && forall j :: 0 <= j < |e.txns| ==> Unlocked(e.db, after, e.txns[j])
  }

  /** The seat rows found by id. */
  function RowsOf(db: Db, seatIds: set<Id>): map<Id, Seat> {
    map s | s in seatIds && s in db.seats :: db.seats[s]
  }

  /** The guards of create on the locked rows. */
  function CheckRows(db: Db, rows: map<Id, Seat>, seatIds: set<Id>): Option<Error> {
    if |rows| != |seatIds| then Some(NotFound)
    else if exists s :: s in rows && rows[s].status != Available then Some(Conflict)
    else if exists s :: s in rows && s in db.seats && !OnSale(db, s) then Some(Conflict)
    else None
  }

  function RowsOfCall(c: Call): map<Id, Reservation> {
    NewReservations(c.user, c.holds, c.now)
  }

  /** The tables after a commit of the transaction's buffered writes. */
  function Committed(db: Db, t: Txn): Db {
    db.(seats := db.seats + t.written, reservations := db.reservations + t.inserted)
  }

  function Finish(e: Engine, k: nat, result: Result<set<Id>>): Engine
    requires k < |e.txns|
  {
    e.(txns := e.txns[k := e.txns[k].(phase := Done)], log := e.log + [Called(e.txns[k].call, result)])
  }

  function DoMove(e: Engine, m: Move): Engine
    requires CanMove(e, m)
  {
    match m
    case Lock(k) =>
      var t := e.txns[k];
      e.(txns := e.txns[k := t.(phase := Locked, rows := RowsOf(e.db, t.call.seatIds))])
    case Check(k) =>
      var t := e.txns[k];
      var failure := CheckRows(e.db, t.rows, t.call.seatIds);
      if failure.Some? then Finish(e, k, Err(failure.value)) else e.(txns := e.txns[k := t.(phase := Checked)])
    case WriteSeat(k, s) =>
      var t := e.txns[k];
      e.(txns := e.txns[k := t.(written := t.written[s := t.rows[s].(status := Reserved)])])
    case Insert(k) =>
      var t := e.txns[k];
      if HoldsInsertable(e.db, t.call.user, t.call.seatIds) then
        e.(txns := e.txns[k := t.(phase := Inserted, inserted := RowsOfCall(t.call))])
      else Finish(e, k, Err(Rejected))
    case Commit(k) =>
      var t := e.txns[k];
      Finish(e.(db := Committed(e.db, t)), k, Ok(t.call.holds.Keys))
    case Other(after) => e.(db := after, log := e.log + [Wrote(after)])
  }

  predicate ValidMoves(e: Engine, ms: seq<Move>)
    decreases |ms|
  {
    ms != [] ==> CanMove(e, ms[0]) && ValidMoves(DoMove(e, ms[0]), ms[1..])
  }

  function RunMoves(e: Engine, ms: seq<Move>): Engine
    requires ValidMoves(e, ms)
    decreases |ms|
  {
    if ms == [] then e else RunMoves(DoMove(e, ms[0]), ms[1..])
  }

  // ---------------------------------------------------------------- the serial reference

  function CallCreate(db: Db, c: Call): (Db, Result<set<Id>>) {
    CreateReservations(db, c.user, c.seatIds, c.holds, c.now)
  }

  /** The entry is what happens in this state: the whole call gives that result, or the writer is one. */
  predicate Fits(db: Db, entry: Entry) {
    match entry
    case Called(c, result) => CallCreate(db, c).1 == result
    case Wrote(after) => OtherWrite(db, after)
  }

  function Left(db: Db, entry: Entry): Db {
    match entry
    case Called(c, _) => CallCreate(db, c).0
    case Wrote(after) => after
  }

  /** The logged calls run whole and the writers, one after the other, give the logged results and this state. */
  ghost predicate SerialRun(db: Db, log: seq<Entry>, end: Db)
    decreases |log|
  {
    if log == [] then db == end else Fits(db, log[0]) && SerialRun(Left(db, log[0]), log[1..], end)
  }

  lemma {:induction false} SerialRunExtends(db: Db, log: seq<Entry>, mid: Db, entry: Entry)
    requires SerialRun(db, log, mid) && Fits(mid, entry)
    ensures SerialRun(db, log + [entry], Left(mid, entry))
    decreases |log|
  {
    var more := log + [entry];
    if log == [] {
      assert more[1..] == [];
    } else {
      SerialRunExtends(Left(db, log[0]), log[1..], mid, entry);
      assert more[1..] == log[1..] + [entry];
    }
  }

  // ---------------------------------------------------------------- what locks protect

  /** What a transaction knows of the committed tables. */
  ghost predicate InStep(db: Db, t: Txn) {
    && (Active(t) ==> t.rows == RowsOf(db, t.call.seatIds))
    && (t.phase in {Checked, Inserted} ==> ReserveCheck(db, t.call.seatIds) == None)
    && (forall s ::
          s in t.written ==> s in t.call.seatIds && s in t.rows && t.written[s] == t.rows[s].(status := Reserved))
    && (t.phase in {Idle, Locked} ==> t.written == map[])
    && (t.phase == Inserted ==>
          && t.written.Keys == t.call.seatIds && t.inserted == RowsOfCall(t.call)
          && HoldsInsertable(db, t.call.user, t.call.seatIds))
    && (t.phase != Done ==> FreshHolds(db, t.call.seatIds, t.call.holds))
  }

  ghost predicate LocksApart(txns: seq<Txn>) {
    forall i, j ::
        0 <= i < j < |txns| && Active(txns[i]) && Active(txns[j]) ==> txns[i].call.seatIds !! txns[j].call.seatIds
  }

  ghost predicate IdsApart(txns: seq<Txn>) {
    forall i, j :: 0 <= i < j < |txns| ==> txns[i].call.holds.Keys !! txns[j].call.holds.Keys
  }

  ghost predicate EngineInv(db0: Db, e: Engine) {
    && (forall k :: 0 <= k < |e.txns| ==> InStep(e.db, e.txns[k]))
    && LocksApart(e.txns) && IdsApart(e.txns)
    && SerialRun(db0, e.log, e.db)
  }

  /** The guards on the locked rows are the guards on the tables. */
  lemma CheckRowsIsReserveCheck(db: Db, rows: map<Id, Seat>, seatIds: set<Id>)
    requires rows == RowsOf(db, seatIds)
    ensures CheckRows(db, rows, seatIds) == ReserveCheck(db, seatIds)
  {
    AllFoundIff(seatIds, db.seats.Keys);
    assert rows.Keys == seatIds * db.seats.Keys && |rows| == |rows.Keys|;
    if seatIds <= db.seats.Keys {
      assert forall s :: s in rows <==> s in seatIds;
    }
  }

  lemma WritesAreHolds(db: Db, t: Txn)
    requires t.written.Keys == t.call.holds.Values && t.written.Keys <= db.seats.Keys
    requires forall s :: s in t.written ==> t.written[s] == db.seats[s].(status := Reserved)
    requires t.inserted == RowsOfCall(t.call)
    ensures InsertHolds(db, t.call.user, t.call.holds, t.call.now) == Committed(db, t)
  {
  }

  /** Committing a transaction's buffered writes is what the whole call does. */
  lemma CommitIsCreate(db: Db, t: Txn)
    requires InStep(db, t) && t.phase == Inserted
    ensures CallCreate(db, t.call) == (Committed(db, t), Ok(t.call.holds.Keys))
  {
    assert t.call.holds.Values == t.call.seatIds;
    forall s | s in t.written ensures s in db.seats && t.written[s] == db.seats[s].(status := Reserved) {
      assert s in t.rows;
    }
    WritesAreHolds(db, t);
  }

  /** A commit changes only the rows of its own seats, and reserves only those. */
  lemma CommitScope(db: Db, t: Txn)
    requires InStep(db, t) && t.phase == Inserted
    ensures Committed(db, t).seats.Keys == db.seats.Keys
    ensures forall s :: s in db.seats && s !in t.call.seatIds ==> Committed(db, t).seats[s] == db.seats[s]
    ensures forall r :: r in Committed(db, t).reservations ==>
              if r in t.call.holds then Committed(db, t).reservations[r].seat in t.call.seatIds
              else r in db.reservations && Committed(db, t).reservations[r] == db.reservations[r]
  {
  }

  lemma SameGuards(db: Db, after: Db, seatIds: set<Id>)
    requires after.sections == db.sections && after.events == db.events && after.seats.Keys == db.seats.Keys
    requires forall s :: s in seatIds && s in db.seats ==> after.seats[s] == db.seats[s]
    ensures RowsOf(after, seatIds) == RowsOf(db, seatIds)
    ensures ReserveCheck(db, seatIds) == None ==> ReserveCheck(after, seatIds) == None
  {
  }

  /** A commit of disjoint seats and ids leaves another transaction's knowledge true. */
  lemma CommitSparesOthers(db: Db, t: Txn, other: Txn)
    requires InStep(db, t) && InStep(db, other) && t.phase == Inserted
    requires Active(other) ==> other.call.seatIds !! t.call.seatIds
    requires other.call.holds.Keys !! t.call.holds.Keys
    ensures InStep(Committed(db, t), other)
  {
    CommitScope(db, t);
    if Active(other) { SameGuards(db, Committed(db, t), other.call.seatIds); }
  }

  // ---------------------------------------------------------------- every move keeps the invariant

  /**
   * A move that rewrites one transaction, and perhaps logs it, keeps the invariant if that transaction stays in step.
   */
  lemma OneTxnMoved(db0: Db, e: Engine, k: nat, t: Txn, log: seq<Entry>)
    requires EngineInv(db0, e) && k < |e.txns| && t.call == e.txns[k].call
    requires InStep(e.db, t) && SerialRun(db0, log, e.db)
    requires Active(t) && !Active(e.txns[k]) ==>
      forall j :: 0 <= j < |e.txns| && Active(e.txns[j]) ==> e.txns[j].call.seatIds !! t.call.seatIds
    ensures EngineInv(db0, e.(txns := e.txns[k := t], log := log))
  {
  }

  /** A transaction that fails at its check or insert logs what the whole call returns now, and changes nothing. */
  lemma AbortKeeps(db0: Db, e: Engine, k: nat, error: Error)
    requires EngineInv(db0, e) && k < |e.txns|
    requires CallCreate(e.db, e.txns[k].call) == (e.db, Err(error))
    ensures EngineInv(db0, Finish(e, k, Err(error)))
  {
    var t := e.txns[k];
    assert InStep(e.db, t);
    SerialRunExtends(db0, e.log, e.db, Called(t.call, Err(error)));
    OneTxnMoved(db0, e, k, t.(phase := Done), e.log + [Called(t.call, Err(error))]);
  }

  lemma CheckKeeps(db0: Db, e: Engine, m: Move)
    requires EngineInv(db0, e) && CanMove(e, m) && m.Check?
    ensures EngineInv(db0, DoMove(e, m))
  {
    var t := e.txns[m.k];
    assert InStep(e.db, t);
    CheckRowsIsReserveCheck(e.db, t.rows, t.call.seatIds);
    var failure := CheckRows(e.db, t.rows, t.call.seatIds);
    if failure.Some? { AbortKeeps(db0, e, m.k, failure.value); }
    else { OneTxnMoved(db0, e, m.k, t.(phase := Checked), e.log); }
  }

  lemma WriteKeeps(db0: Db, e: Engine, m: Move)
    requires EngineInv(db0, e) && CanMove(e, m) && m.WriteSeat?
    ensures EngineInv(db0, DoMove(e, m))
  {
    var t := e.txns[m.k];
    assert InStep(e.db, t);
    OneTxnMoved(db0, e, m.k, t.(written := t.written[m.seat := t.rows[m.seat].(status := Reserved)]), e.log);
  }

  lemma InsertKeeps(db0: Db, e: Engine, m: Move)
    requires EngineInv(db0, e) && CanMove(e, m) && m.Insert?
    ensures EngineInv(db0, DoMove(e, m))
  {
    var t := e.txns[m.k];
    assert InStep(e.db, t);
    if HoldsInsertable(e.db, t.call.user, t.call.seatIds) {
      OneTxnMoved(db0, e, m.k, t.(phase := Inserted, inserted := RowsOfCall(t.call)), e.log);
    } else {
      AbortKeeps(db0, e, m.k, Rejected);
    }
  }

  lemma CommitSparesAll(db: Db, txns: seq<Txn>, k: nat)
    requires k < |txns| && txns[k].phase == Inserted && LocksApart(txns) && IdsApart(txns)
    requires forall j :: 0 <= j < |txns| ==> InStep(db, txns[j])
    ensures forall j :: 0 <= j < |txns| && j != k ==> InStep(Committed(db, txns[k]), txns[j])
  {
    forall j | 0 <= j < |txns| && j != k ensures InStep(Committed(db, txns[k]), txns[j]) {
      CommitSparesOthers(db, txns[k], txns[j]);
    }
  }

  lemma CommitKeeps(db0: Db, e: Engine, m: Move)
    requires EngineInv(db0, e) && CanMove(e, m) && m.Commit?
    ensures EngineInv(db0, DoMove(e, m))
  {
    var t := e.txns[m.k];
    assert InStep(e.db, t);
    CommitIsCreate(e.db, t);
    SerialRunExtends(db0, e.log, e.db, Called(t.call, Ok(t.call.holds.Keys)));
    CommitSparesAll(e.db, e.txns, m.k);
    CommittedInStep(e.db, t);
  }

  lemma CommittedInStep(db: Db, t: Txn)
    ensures InStep(db, t) && t.phase == Inserted ==> InStep(Committed(db, t), t.(phase := Done))
  {
  }

  /** Another writer's commit leaves a transaction's knowledge true. */
  lemma WriteSparesTxn(db: Db, after: Db, t: Txn)
    requires InStep(db, t) && OtherWrite(db, after) && Unlocked(db, after, t)
    ensures InStep(after, t)
  {
    if t.phase in {Checked, Inserted} { GuardsOfRows(db, after, t.call.seatIds); }
  }

  lemma GuardsOfRows(db: Db, after: Db, seatIds: set<Id>)
    requires RowsOf(after, seatIds) == RowsOf(db, seatIds) && after.sections == db.sections && after.events == db.events
    requires ReserveCheck(db, seatIds) == None
    ensures ReserveCheck(after, seatIds) == None
  {
    forall s | s in seatIds ensures s in after.seats && after.seats[s] == db.seats[s] {
      assert s in RowsOf(db, seatIds) && s in RowsOf(after, seatIds);
      assert RowsOf(after, seatIds)[s] == after.seats[s];
    }
  }

  lemma OtherKeeps(db0: Db, e: Engine, m: Move)
    requires EngineInv(db0, e) && CanMove(e, m) && m.Other?
    ensures EngineInv(db0, DoMove(e, m))
  {
    SerialRunExtends(db0, e.log, e.db, Wrote(m.after));
    forall j | 0 <= j < |e.txns| ensures InStep(m.after, e.txns[j]) { WriteSparesTxn(e.db, m.after, e.txns[j]); }
  }

  lemma {:induction false} EngineInvOverMoves(db0: Db, e: Engine, ms: seq<Move>)
    requires EngineInv(db0, e) && ValidMoves(e, ms)
    ensures EngineInv(db0, RunMoves(e, ms))
    decreases |ms|
  {
    if ms != [] {
      match ms[0] {
        case Lock(_) =>
        case Check(_) => CheckKeeps(db0, e, ms[0]);
        case WriteSeat(_, _) => WriteKeeps(db0, e, ms[0]);
        case Insert(_) => InsertKeeps(db0, e, ms[0]);
        case Commit(_) => CommitKeeps(db0, e, ms[0]);
        case Other(_) => OtherKeeps(db0, e, ms[0]);
      }
      EngineInvOverMoves(db0, DoMove(e, ms[0]), ms[1..]);
    }
  }

  /** Calls that have not begun, with fresh ids. */
  ghost predicate Opening(e: Engine) {
    && e.log == []
    && (forall k :: 0 <= k < |e.txns| ==>
          && e.txns[k].phase == Idle && e.txns[k].written == map[]
          && FreshHolds(e.db, e.txns[k].call.seatIds, e.txns[k].call.holds))
    && IdsApart(e.txns)
  }

  /**
   * Serializability: under any interleaving of the steps of any number of calls with each other and with other writers,
   * the committed tables and every finished call's result are those of running the finished calls whole, between the
   * writers, in the order they finished.
   */
  lemma InterleavedCallsAreSerial(e: Engine, ms: seq<Move>)
    requires Opening(e) && ValidMoves(e, ms)
    ensures SerialRun(e.db, RunMoves(e, ms).log, RunMoves(e, ms).db)
  {
    EngineInvOverMoves(e.db, e, ms);
  }

  // ---------------------------------------------------------------- what the serial order implies

  /** A call takes all its seats or changes nothing. */
  lemma AllOrNothing(db: Db, c: Call)
    requires FreshHolds(db, c.seatIds, c.holds)
    ensures var (after, result) := CallCreate(db, c);
            if result.Ok? then
              forall s ::
                  s in c.seatIds ==>
                  s in db.seats && db.seats[s].status == Available && s in after.seats &&
                  after.seats[s].status == Reserved
            else after == db
  {
  }

  ghost predicate Taken(db: Db, s: Id) {
    exists r :: r in db.reservations && db.reservations[r].seat == s
  }

  /** Logged calls have fresh ids of their own. */
  ghost predicate CallsApart(db: Db, log: seq<Entry>) {
    && (forall k :: 0 <= k < |log| && log[k].Called? ==> FreshHolds(db, log[k].call.seatIds, log[k].call.holds))
    && (forall a, b ::
          0 <= a < b < |log| && log[a].Called? && log[b].Called? ==> log[a].call.holds.Keys !! log[b].call.holds.Keys)
  }

  lemma CallsStayApart(db: Db, log: seq<Entry>)
    ensures log != [] && CallsApart(db, log) && Fits(db, log[0]) ==> CallsApart(Left(db, log[0]), log[1..])
  {
  }

  lemma {:induction false} TakenStaysTaken(db: Db, log: seq<Entry>, end: Db, s: Id, i: nat)
    requires SerialRun(db, log, end) && CallsApart(db, log) && Taken(db, s)
    requires i < |log| && log[i].Called? && s in log[i].call.seatIds
    ensures log[i].result.Err?
    decreases |log|
  {
    CallsStayApart(db, log);
    if i > 0 { TakenStaysTaken(Left(db, log[0]), log[1..], end, s, i - 1); }
  }

  predicate Granted(entry: Entry) {
    entry.Called? && entry.result.Ok?
  }

  lemma {:induction false} NoSeatGrantedTwice(db: Db, log: seq<Entry>, end: Db, i: nat, j: nat)
    requires SerialRun(db, log, end) && CallsApart(db, log) && i < j < |log| && Granted(log[i]) && Granted(log[j])
    ensures log[i].call.seatIds !! log[j].call.seatIds
    decreases |log|
  {
    var next := Left(db, log[0]);
    CallsStayApart(db, log);
    if i > 0 {
      NoSeatGrantedTwice(next, log[1..], end, i - 1, j - 1);
    } else {
      forall s | s in log[0].call.seatIds ensures s !in log[j].call.seatIds {
        if s in log[j].call.seatIds { TakenStaysTaken(next, log[1..], end, s, j - 1); }
      }
    }
  }

  // ---------------------------------------------------------------- each call is logged once

  ghost predicate TxnsFresh(db0: Db, txns: seq<Txn>) {
    forall k :: 0 <= k < |txns| ==> FreshHolds(db0, txns[k].call.seatIds, txns[k].call.holds)
  }

  /** The log's calls are calls of finished transactions, each once. */
  ghost predicate LogApart(db0: Db, txns: seq<Txn>, log: seq<Entry>) {
    && CallsApart(db0, log) && IdsApart(txns) && TxnsFresh(db0, txns)
    && (forall i, k :: 0 <= i < |log| && 0 <= k < |txns| && log[i].Called? && txns[k].phase != Done ==>
          log[i].call.holds.Keys !! txns[k].call.holds.Keys)
  }

  lemma ApartMoved(db0: Db, txns: seq<Txn>, log: seq<Entry>, k: nat, t: Txn)
    ensures LogApart(db0, txns, log) && k < |txns| && t.call == txns[k].call && txns[k].phase != Done ==>
            LogApart(db0, txns[k := t], log)
  {
  }

  lemma ApartFinished(db0: Db, txns: seq<Txn>, log: seq<Entry>, k: nat, t: Txn, result: Result<set<Id>>)
    requires LogApart(db0, txns, log) && k < |txns| && t.call == txns[k].call && txns[k].phase != Done &&
            t.phase == Done
    ensures LogApart(db0, txns[k := t], log + [Called(t.call, result)])
  {
    ApartMoved(db0, txns, log, k, t);
    var after, more := txns[k := t], log + [Called(t.call, result)];
    forall i, j | 0 <= i < |more| && 0 <= j < |after| && more[i].Called? && after[j].phase != Done
      ensures more[i].call.holds.Keys !! after[j].call.holds.Keys
    {
      assert j != k && after[j] == txns[j];
      assert i < |log| ==> more[i] == log[i];
    }
  }

  lemma MoveKeepsLogApart(db0: Db, e: Engine, m: Move)
    requires LogApart(db0, e.txns, e.log) && CanMove(e, m)
    ensures LogApart(db0, DoMove(e, m).txns, DoMove(e, m).log)
  {
    var after := DoMove(e, m);
    if m.Other? {
      assert after.txns == e.txns;
    } else if after.log == e.log {
      ApartMoved(db0, e.txns, e.log, m.k, after.txns[m.k]);
    } else {
      ApartFinished(db0, e.txns, e.log, m.k, after.txns[m.k], after.log[|e.log|].result);
    }
  }

  lemma {:induction false} LogApartOverMoves(db0: Db, e: Engine, ms: seq<Move>)
    requires LogApart(db0, e.txns, e.log) && ValidMoves(e, ms)
    ensures LogApart(db0, RunMoves(e, ms).txns, RunMoves(e, ms).log)
    decreases |ms|
  {
    if ms != [] {
      MoveKeepsLogApart(db0, e, ms[0]);
      LogApartOverMoves(db0, DoMove(e, ms[0]), ms[1..]);
    }
  }

  /** No double booking: under any interleaving no seat is granted to two of the calls. */
  lemma InterleavedCallsNeverShareSeat(e: Engine, ms: seq<Move>, i: nat, j: nat)
    requires Opening(e) && ValidMoves(e, ms)
    requires i < j < |RunMoves(e, ms).log| && Granted(RunMoves(e, ms).log[i]) && Granted(RunMoves(e, ms).log[j])
    ensures RunMoves(e, ms).log[i].call.seatIds !! RunMoves(e, ms).log[j].call.seatIds
  {
    InterleavedCallsAreSerial(e, ms);
    LogApartOverMoves(e.db, e, ms);
    NoSeatGrantedTwice(e.db, RunMoves(e, ms).log, RunMoves(e, ms).db, i, j);
  }

  // ---------------------------------------------------------------- the other writers

  /** Every booking step but a reservation or a checkout is such a writer. */
  lemma BookingStepIsOtherWrite(w: World, st: Step)
    requires Inv(w) && Enabled(w, st) && !st.Reserve? && !st.Checkout?
    ensures OtherWrite(w.db, Apply(w, st).db)
  {
    StepKeeps(w, st);
    if st.Deliver? { DeliverRows(w, st.ev, st.rows, st.ids); }
  }
}
