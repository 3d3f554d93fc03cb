/** Scans of one ticket as they run, read and write apart and without a lock: exactly which scans admit it. */
module ScanRaces {
  import opened Tables
  import opened Booking

  /** One scan: the flags as read, when it read, and its outcome with the moment it was decided. */
  datatype Scan = Scan(sawUsed: bool, sawRefunded: bool, readAt: nat, outcome: Option<Result<bool>>, endedAt: nat)

  /** The ticket's use flag, the moment of its first refund, its scans so far, and the number of steps taken. */
  datatype Door = Door(isUsed: bool, refundedAt: Option<nat>, scans: seq<Scan>, clock: nat)

  datatype Move = Read | Finish(i: nat) | Refund

  predicate CanMove(d: Door, m: Move) {
    m.Finish? ==> m.i < |d.scans| && d.scans[m.i].outcome.None?
  }

  /** The decision of validate over the row it read; `alreadyUsed: false` admits. */
  function Decide(s: Scan): Result<bool> {
    if s.sawRefunded then Err(Unauthorized) else Ok(s.sawUsed)
  }

  /**
   * A scan by the event's organizer is decided so: refunded tickets are refused, used ones reported as used, and the
   * others admitted; a scan that reads and writes at one instant is the whole call.
   */
  lemma DecideIsValidate(db: Db, t: Id, scanner: Id, s: Scan)
    requires t in db.tickets && db.tickets[t].event in db.events && db.events[db.tickets[t].event].organizer == scanner
    requires s.sawUsed == db.tickets[t].isUsed && s.sawRefunded == db.tickets[t].isRefunded
    ensures var (after, result) := ValidateTicket(db, Signed(t), scanner);
            && result == Decide(s)
            && after.tickets[t].isUsed == (s.sawUsed || result == Ok(false))
    ensures Decide(s) == Err(Unauthorized) <==> s.sawRefunded
    ensures Decide(s) == Ok(true) <==> s.sawUsed && !s.sawRefunded
  {
  }

  function DoMove(d: Door, m: Move): Door
    requires CanMove(d, m)
  {
    match m
    case Read => d.(scans := d.scans + [Scan(d.isUsed, d.refundedAt.Some?, d.clock, None, 0)], clock := d.clock + 1)
    case Finish(i) =>
      var decided := d.scans[i].(outcome := Some(Decide(d.scans[i])), endedAt := d.clock);
      d.(scans := d.scans[i := decided], clock := d.clock + 1, isUsed := d.isUsed || decided.outcome == Some(Ok(false)))
    case Refund => d.(refundedAt := if d.refundedAt.None? then Some(d.clock) else d.refundedAt, clock := d.clock + 1)
  }

  predicate ValidMoves(d: Door, ms: seq<Move>)
    decreases |ms|
  {
    ms != [] ==> CanMove(d, ms[0]) && ValidMoves(DoMove(d, ms[0]), ms[1..])
  }

  function RunMoves(d: Door, ms: seq<Move>): Door
    requires ValidMoves(d, ms)
    decreases |ms|
  {
    if ms == [] then d else RunMoves(DoMove(d, ms[0]), ms[1..])
  }

  const NEW_TICKET := Door(false, None, [], 0)

  predicate Admitted(s: Scan) {
    s.outcome == Some(Ok(false))
  }

  // ---------------------------------------------------------------- what every run keeps

  /** Every moment is in the past, and no two steps share one. */
  ghost predicate Dated(d: Door) {
    && (d.refundedAt.Some? ==> d.refundedAt.value < d.clock)
    && (forall i :: 0 <= i < |d.scans| ==> d.scans[i].readAt < d.clock)
    && (forall i :: 0 <= i < |d.scans| && d.scans[i].outcome.Some? ==> d.scans[i].readAt < d.scans[i].endedAt < d.clock)
    && (forall i, j :: 0 <= i < |d.scans| && 0 <= j < |d.scans| && d.scans[i].outcome.Some? ==>
          d.scans[i].endedAt != d.scans[j].readAt)
  }

  /** Some scan admitted the ticket before the moment. */
  ghost predicate AdmittedBefore(scans: seq<Scan>, at: nat) {
    exists i :: 0 <= i < |scans| && Admitted(scans[i]) && scans[i].endedAt < at
  }

  /** The flags are what has happened, and each scan read them truly. */
  ghost predicate Truthful(d: Door) {
    && (d.isUsed <==> AdmittedBefore(d.scans, d.clock))
    && (forall j :: 0 <= j < |d.scans| ==>
          && (d.scans[j].sawUsed <==> AdmittedBefore(d.scans, d.scans[j].readAt))
          && (d.scans[j].sawRefunded <==> d.refundedAt.Some? && d.refundedAt.value < d.scans[j].readAt)
          && (d.scans[j].outcome.Some? ==> d.scans[j].outcome == Some(Decide(d.scans[j]))))
  }

  lemma MoveDated(d: Door, m: Move)
    ensures CanMove(d, m) && Dated(d) ==> Dated(DoMove(d, m))
  {
  }

  lemma AdmissionsAfter(d: Door, m: Move, at: nat)
    requires CanMove(d, m) && Dated(d) && at <= d.clock
    ensures AdmittedBefore(DoMove(d, m).scans, at) <==> AdmittedBefore(d.scans, at)
  {
    var after := DoMove(d, m).scans;
    if i :| 0 <= i < |d.scans| && Admitted(d.scans[i]) && d.scans[i].endedAt < at { assert after[i] == d.scans[i]; }
    if i :| 0 <= i < |after| && Admitted(after[i]) && after[i].endedAt < at { assert after[i] == d.scans[i]; }
  }

  lemma UseFlagAfter(d: Door, m: Move)
    requires CanMove(d, m) && Dated(d) && Truthful(d)
    ensures DoMove(d, m).isUsed <==> AdmittedBefore(DoMove(d, m).scans, d.clock + 1)
  {
    var after := DoMove(d, m);
    if d.isUsed {
      var i :| 0 <= i < |d.scans| && Admitted(d.scans[i]) && d.scans[i].endedAt < d.clock;
      assert after.scans[i] == d.scans[i];
    }
    if m.Finish? && Decide(d.scans[m.i]) == Ok(false) { assert Admitted(after.scans[m.i]); }
    if i :| 0 <= i < |after.scans| && Admitted(after.scans[i]) && after.scans[i].endedAt < d.clock + 1 {
      assert (m.Finish? && m.i == i) || after.scans[i] == d.scans[i];
    }
  }

  lemma MoveTruthful(d: Door, m: Move)
    requires CanMove(d, m) && Dated(d) && Truthful(d)
    ensures Truthful(DoMove(d, m))
  {
    UseFlagAfter(d, m);
    forall at: nat | at <= d.clock ensures AdmittedBefore(DoMove(d, m).scans, at) <==> AdmittedBefore(d.scans, at) {
      AdmissionsAfter(d, m, at);
    }
  }

  lemma {:induction false} AlwaysTruthful(d: Door, ms: seq<Move>)
    requires ValidMoves(d, ms) && Dated(d) && Truthful(d)
    ensures Dated(RunMoves(d, ms)) && Truthful(RunMoves(d, ms))
    decreases |ms|
  {
    if ms != [] {
      MoveDated(d, ms[0]);
      MoveTruthful(d, ms[0]);
      AlwaysTruthful(DoMove(d, ms[0]), ms[1..]);
    }
  }

  // ---------------------------------------------------------------- who is admitted

  /** The refund came before the scan read. */
  predicate ReadRefund(d: Door, s: Scan) {
    d.refundedAt.Some? && d.refundedAt.value < s.readAt
  }

  /** A scan that did not read a refund ended before the moment. */
  ghost predicate EndedBefore(d: Door, at: nat) {
    exists i :: 0 <= i < |d.scans| && d.scans[i].outcome.Some? && d.scans[i].endedAt < at && !ReadRefund(d, d.scans[i])
  }

  /**
   * A finished scan admits the ticket if and only if the ticket was not refunded before it read, and every scan that
   * ended before it read had itself read a refund. Nothing but the order of reads, ends and refunds decides.
   */
  lemma AdmitsIff(ms: seq<Move>, j: nat)
    requires ValidMoves(NEW_TICKET, ms)
    requires var d := RunMoves(NEW_TICKET, ms); j < |d.scans| && d.scans[j].outcome.Some?
    ensures var d := RunMoves(NEW_TICKET, ms);
            Admitted(d.scans[j]) <==> !ReadRefund(d, d.scans[j]) && !EndedBefore(d, d.scans[j].readAt)
  {
    AlwaysTruthful(NEW_TICKET, ms);
    var d := RunMoves(NEW_TICKET, ms);
  }

  /** A scan that reads after a refund never admits, finished or not. */
  lemma RefundedBeforeRead(ms: seq<Move>, j: nat)
    requires ValidMoves(NEW_TICKET, ms)
    requires var d := RunMoves(NEW_TICKET, ms); j < |d.scans| && ReadRefund(d, d.scans[j])
    ensures !Admitted(RunMoves(NEW_TICKET, ms).scans[j])
  {
    AlwaysTruthful(NEW_TICKET, ms);
  }

  /** Two given scans both admit the ticket if and only if both read it unrefunded, before any such scan had ended. */
  lemma BothAdmitIff(ms: seq<Move>, i: nat, j: nat)
    requires ValidMoves(NEW_TICKET, ms)
    requires var scans := RunMoves(NEW_TICKET, ms).scans;
             i < |scans| && j < |scans| && scans[i].outcome.Some? && scans[j].outcome.Some?
    ensures var d := RunMoves(NEW_TICKET, ms);
            var (s, t) := (d.scans[i], d.scans[j]);
            Admitted(s) && Admitted(t) <==>
              && !ReadRefund(d, s) && !ReadRefund(d, t)
              && !EndedBefore(d, if s.readAt < t.readAt then t.readAt else s.readAt)
  {
    AdmitsIff(ms, i);
    AdmitsIff(ms, j);
    var d := RunMoves(NEW_TICKET, ms);
  }

  /** Two scans overlap when each read before the other ended. */
  predicate Overlap(s: Scan, t: Scan) {
    s.readAt < t.endedAt && t.readAt < s.endedAt
  }

  /** So two admissions of a ticket overlap; scans that do not overlap admit it at most once. */
  lemma AdmissionsOverlap(ms: seq<Move>, i: nat, j: nat)
    requires ValidMoves(NEW_TICKET, ms)
    requires var scans := RunMoves(NEW_TICKET, ms).scans;
            i < |scans| && j < |scans| && Admitted(scans[i]) && Admitted(scans[j])
    ensures var scans := RunMoves(NEW_TICKET, ms).scans; Overlap(scans[i], scans[j])
  {
    AlwaysTruthful(NEW_TICKET, ms);
    BothAdmitIff(ms, i, j);
  }

  /**
   * Without a refund, two scans that overlap both admit the ticket exactly when no third one ended before the later
   * read.
   */
  lemma OverlappingBothAdmitIff(ms: seq<Move>, i: nat, j: nat)
    requires ValidMoves(NEW_TICKET, ms)
    requires var d := RunMoves(NEW_TICKET, ms);
             && d.refundedAt == None && i < |d.scans| && j < |d.scans| && d.scans[i].outcome.Some? &&
                 d.scans[j].outcome.Some?
             && Overlap(d.scans[i], d.scans[j])
    ensures var scans := RunMoves(NEW_TICKET, ms).scans;
            Admitted(scans[i]) && Admitted(scans[j]) <==>
              forall k :: 0 <= k < |scans| && k != i && k != j && scans[k].outcome.Some? ==>
                scans[k].endedAt >= scans[i].readAt && scans[k].endedAt >= scans[j].readAt
  {
    AlwaysTruthful(NEW_TICKET, ms);
    BothAdmitIff(ms, i, j);
  }

  lemma RunMove(d: Door, m: Move, e: Door, rest: seq<Move>)
    ensures CanMove(d, m) && DoMove(d, m) == e && ValidMoves(e, rest) ==>
            ValidMoves(d, [m] + rest) && RunMoves(d, [m] + rest) == RunMoves(e, rest)
  {
  }

  /** Overlapping scans do admit a ticket twice. */
  lemma TwoAdmissions()
    ensures var ms := [Read] + ([Read] + ([Finish(0)] + ([Finish(1)] + [])));
            && ValidMoves(NEW_TICKET, ms)
            && var scans := RunMoves(NEW_TICKET, ms).scans; |scans| == 2 && Admitted(scans[0]) && Admitted(scans[1])
  {
    var unread := Scan(false, false, 0, None, 0);
    var a := Door(false, None, [unread], 1);
    var b := Door(false, None, [unread, unread.(readAt := 1)], 2);
    var c := Door(true, None, [Scan(false, false, 0, Some(Ok(false)), 2), unread.(readAt := 1)], 3);
    var d := Door(true, None, [Scan(false, false, 0, Some(Ok(false)), 2), Scan(false, false, 1, Some(Ok(false)), 3)],
        4);
    RunMove(c, Finish(1), d, []);
    RunMove(b, Finish(0), c, [Finish(1)] + []);
    RunMove(a, Read, b, [Finish(0)] + ([Finish(1)] + []));
    RunMove(NEW_TICKET, Read, a, [Read] + ([Finish(0)] + ([Finish(1)] + [])));
  }
}
