/**
 * The cached seat counts with every step apart: commits, invalidations, counts and stores of many requests
 * interleaved.
 */
module SeatFills {
  import opened Tables
  import opened Protocol
  import opened SeatCounts

  /**
   * A cached count, when it was counted and stored, whether a commit to its section fell between the two, and whether
   * it was the number of available seats when it was stored.
   */
  datatype Stored = Stored(count: nat, countedAt: int, storedAt: int, straddled: bool, rightAtStore: bool)

  /** A count request: it missed the cache, holds a count, or was answered at a moment with a stored count. */
  datatype Fill =
    | Missed(section: Id)
    | Counting(section: Id, count: nat, at: int, straddled: bool)
    | Served(section: Id, at: int, answer: Stored)

  /** `pending` are the invalidations of transactions that have committed. */
  datatype Floor = Floor(seats: map<Id, Seat>, counts: map<Id, Stored>, fills: seq<Fill>, pending: seq<set<Id>>,
      now: int)

  datatype Move =
    | Commit(seats: map<Id, Seat>, dropped: set<Id>)
    | Invalidate(i: nat)
    | Ask(section: Id)
    | CountNow(i: nat)
    | Store(i: nat)
    | Wait(seconds: nat)

  predicate Live(f: Floor, section: Id) {
    section in f.counts && f.now < f.counts[section].storedAt + SEAT_AVAILABILITY_TTL_SECONDS
  }

  /** A transaction drops every section whose count it changes. */
  ghost predicate CanMove(f: Floor, m: Move) {
    match m
    case Commit(seats, dropped) => AlikeOutside(f.seats, seats, dropped)
    case Invalidate(i) => i < |f.pending|
    case CountNow(i) => i < |f.fills| && f.fills[i].Missed?
    case Store(i) => i < |f.fills| && f.fills[i].Counting?
    case _ => true
  }

  function MarkOne(fill: Fill, dropped: set<Id>): Fill {
    if fill.Counting? && fill.section in dropped then fill.(straddled := true) else fill
  }

  function Marked(fills: seq<Fill>, dropped: set<Id>): (r: seq<Fill>)
    ensures |r| == |fills| && forall i :: 0 <= i < |fills| ==> r[i] == MarkOne(fills[i], dropped)
  {
    seq(|fills|, i requires 0 <= i < |fills| => MarkOne(fills[i], dropped))
  }

  ghost function DoMove(f: Floor, m: Move): Floor
    requires CanMove(f, m)
  {
    match m
    case Commit(seats, dropped) =>
      f.(seats := seats, fills := Marked(f.fills, dropped), pending := f.pending + [dropped])
    case Invalidate(i) => f.(counts := f.counts - f.pending[i], pending := f.pending[..i] + f.pending[i + 1..])
    case Ask(section) =>
      f.(fills := f.fills + [if Live(f, section) then Served(section, f.now, f.counts[section]) else Missed(section)])
    case CountNow(i) =>
      var x := f.fills[i].section;
      f.(fills := f.fills[i := Counting(x, |AvailableIn(f.seats, x)|, f.now, false)])
    case Store(i) =>
      var fill := f.fills[i];
      var entry := Stored(fill.count, fill.at, f.now, fill.straddled, fill.count ==
          |AvailableIn(f.seats, fill.section)|);
      f.(counts := f.counts[fill.section := entry], fills := f.fills[i := Served(fill.section, f.now, entry)])
    case Wait(seconds) => f.(now := f.now + seconds)
  }

  ghost predicate ValidMoves(f: Floor, ms: seq<Move>)
    decreases |ms|
  {
    ms != [] ==> CanMove(f, ms[0]) && ValidMoves(DoMove(f, ms[0]), ms[1..])
  }

  ghost function RunMoves(f: Floor, ms: seq<Move>): Floor
    requires ValidMoves(f, ms)
    decreases |ms|
  {
    if ms == [] then f else RunMoves(DoMove(f, ms[0]), ms[1..])
  }

  /** Every step of the booking protocol is such a commit. */
  lemma BookingCommits(w: World, st: Protocol.Step, f: Floor)
    requires Enabled(w, st) && f.seats == w.db.seats
    ensures CanMove(f, Commit(Apply(w, st).db.seats, Drops(w, st)))
  {
    DropsSuffice(w, st);
  }

  function Quiet(seats: map<Id, Seat>, now: int): Floor {
    Floor(seats, map[], [], [], now)
  }

  // ---------------------------------------------------------------- how old an answer can be

  datatype Moment = Moment(at: int, seats: map<Id, Seat>)

  ghost function History(f: Floor, ms: seq<Move>): set<Moment>
    requires ValidMoves(f, ms)
    decreases |ms|
  {
    {Moment(f.now, f.seats)} + if ms == [] then {} else History(DoMove(f, ms[0]), ms[1..])
  }

  /** The count was exact at that time. */
  ghost predicate ExactAt(history: set<Moment>, section: Id, count: nat, at: int) {
    exists seats :: Moment(at, seats) in history && count == |AvailableIn(seats, section)|
  }

  ghost predicate Dated(history: set<Moment>, section: Id, entry: Stored) {
    ExactAt(history, section, entry.count, entry.countedAt) && entry.countedAt <= entry.storedAt
  }

  ghost predicate DatedFill(history: set<Moment>, fill: Fill, now: int) {
    match fill
    case Missed(_) => true
    case Counting(section, count, at, _) => ExactAt(history, section, count, at) && at <= now
    case Served(section, at, answer) =>
      Dated(history, section, answer) && answer.storedAt <= at < answer.storedAt + SEAT_AVAILABILITY_TTL_SECONDS
  }

  ghost predicate AllDated(f: Floor, history: set<Moment>) {
    && (forall x :: x in f.counts ==> Dated(history, x, f.counts[x]) && f.counts[x].storedAt <= f.now)
    && (forall i :: 0 <= i < |f.fills| ==> DatedFill(history, f.fills[i], f.now))
  }

  lemma MoveDated(f: Floor, m: Move, history: set<Moment>)
    ensures CanMove(f, m) && AllDated(f, history) && Moment(f.now, f.seats) in history ==>
            AllDated(DoMove(f, m), history)
  {
  }

  lemma {:induction false} RunDated(f: Floor, ms: seq<Move>, history: set<Moment>)
    requires ValidMoves(f, ms) && AllDated(f, history) && History(f, ms) <= history
    ensures AllDated(RunMoves(f, ms), history)
    decreases |ms|
  {
    if ms != [] {
      MoveDated(f, ms[0], history);
      RunDated(DoMove(f, ms[0]), ms[1..], history);
    }
  }

  /**
   * An answer given at t was exact at its count instant c, and t - c is less than 60 seconds plus the count-to-store
   * gap.
   */
  lemma StaleBound(seats: map<Id, Seat>, now: int, ms: seq<Move>, i: nat)
    requires ValidMoves(Quiet(seats, now), ms)
    requires var f := RunMoves(Quiet(seats, now), ms); i < |f.fills| && f.fills[i].Served?
    ensures var fill := RunMoves(Quiet(seats, now), ms).fills[i];
            var (c, stored) := (fill.answer.countedAt, fill.answer.storedAt);
            && ExactAt(History(Quiet(seats, now), ms), fill.section, fill.answer.count, c)
            && 0 <= fill.at - c < 60 + (stored - c)
  {
    RunDated(Quiet(seats, now), ms, History(Quiet(seats, now), ms));
  }

  // ---------------------------------------------------------------- when an answer can be stale at all

  predicate InvalidationDue(pending: seq<set<Id>>, section: Id) {
    exists i :: 0 <= i < |pending| && section in pending[i]
  }

  ghost predicate Excused(f: Floor) {
    && (forall x :: x in f.counts && !f.counts[x].straddled && !InvalidationDue(f.pending, x) ==>
          f.counts[x].count == |AvailableIn(f.seats, x)|)
    && (forall i :: 0 <= i < |f.fills| && f.fills[i].Counting? && !f.fills[i].straddled ==>
          f.fills[i].count == |AvailableIn(f.seats, f.fills[i].section)|)
  }

  lemma DueAfterCommit(f: Floor, dropped: set<Id>)
    ensures forall x :: InvalidationDue(f.pending + [dropped], x) <==> InvalidationDue(f.pending, x) || x in dropped
  {
    forall x ensures InvalidationDue(f.pending + [dropped], x) <==> InvalidationDue(f.pending, x) || x in dropped {
      var pending := f.pending + [dropped];
      if i :| 0 <= i < |f.pending| && x in f.pending[i] { assert pending[i] == f.pending[i]; }
      assert pending[|f.pending|] == dropped;
    }
  }

  lemma DueAfterInvalidate(pending: seq<set<Id>>, i: nat)
    requires i < |pending|
    ensures forall x :: x !in pending[i] && InvalidationDue(pending, x) ==>
              InvalidationDue(pending[..i] + pending[i + 1..], x)
  {
    var after := pending[..i] + pending[i + 1..];
    forall x | x !in pending[i] && InvalidationDue(pending, x) ensures InvalidationDue(after, x) {
      var j :| 0 <= j < |pending| && x in pending[j];
      assert after[if j < i then j else j - 1] == pending[j];
    }
  }

  lemma MoveExcused(f: Floor, m: Move)
    requires CanMove(f, m) && Excused(f)
    ensures Excused(DoMove(f, m))
  {
    match m
    case Commit(seats, dropped) => DueAfterCommit(f, dropped);
    case Invalidate(i) => DueAfterInvalidate(f.pending, i);
    case _ =>
  }

  lemma {:induction false} AlwaysExcused(f: Floor, ms: seq<Move>)
    requires ValidMoves(f, ms) && Excused(f)
    ensures Excused(RunMoves(f, ms))
    decreases |ms|
  {
    if ms != [] {
      MoveExcused(f, ms[0]);
      AlwaysExcused(DoMove(f, ms[0]), ms[1..]);
    }
  }

  /**
   * The next answer for a section is wrong only if some transaction has committed to the section and not yet
   * invalidated it, or the cached count was stored across a commit.
   */
  lemma StaleOnlyIf(seats: map<Id, Seat>, now: int, ms: seq<Move>, section: Id)
    requires ValidMoves(Quiet(seats, now), ms)
    requires var f := RunMoves(Quiet(seats, now), ms);
             Live(f, section) && f.counts[section].count != |AvailableIn(f.seats, section)|
    ensures var f := RunMoves(Quiet(seats, now), ms);
            InvalidationDue(f.pending, section) || f.counts[section].straddled
  {
    AlwaysExcused(Quiet(seats, now), ms);
  }

  /** A count whose section has no invalidation due is as right as it was when it was stored. */
  ghost predicate AsStored(f: Floor) {
    && (forall x :: x in f.counts && !InvalidationDue(f.pending, x) ==>
          (f.counts[x].count == |AvailableIn(f.seats, x)| <==> f.counts[x].rightAtStore))
    && (forall x :: x in f.counts && !f.counts[x].straddled ==> f.counts[x].rightAtStore)
  }

  lemma MoveAsStored(f: Floor, m: Move)
    requires CanMove(f, m) && AsStored(f) && Excused(f)
    ensures AsStored(DoMove(f, m))
  {
    match m
    case Commit(seats, dropped) => DueAfterCommit(f, dropped);
    case Invalidate(i) => DueAfterInvalidate(f.pending, i);
    case _ =>
  }

  lemma {:induction false} AlwaysAsStored(f: Floor, ms: seq<Move>)
    requires ValidMoves(f, ms) && AsStored(f) && Excused(f)
    ensures AsStored(RunMoves(f, ms))
    decreases |ms|
  {
    if ms != [] {
      MoveAsStored(f, ms[0]);
      MoveExcused(f, ms[0]);
      AlwaysAsStored(DoMove(f, ms[0]), ms[1..]);
    }
  }

  /**
   * The exact condition once the section's invalidations have been carried out: the next answer is wrong if and only if
   * the count was already wrong when it was stored, which takes a commit between counting and storing.
   */
  lemma StaleIff(seats: map<Id, Seat>, now: int, ms: seq<Move>, section: Id)
    requires ValidMoves(Quiet(seats, now), ms)
    requires var f := RunMoves(Quiet(seats, now), ms); section in f.counts && !InvalidationDue(f.pending, section)
    ensures var f := RunMoves(Quiet(seats, now), ms);
            && (f.counts[section].count != |AvailableIn(f.seats, section)| <==> !f.counts[section].rightAtStore)
            && (!f.counts[section].rightAtStore ==> f.counts[section].straddled)
  {
    AlwaysAsStored(Quiet(seats, now), ms);
  }

  lemma RunMove(f: Floor, m: Move, g: Floor, rest: seq<Move>)
    ensures CanMove(f, m) && DoMove(f, m) == g && ValidMoves(g, rest) ==>
            ValidMoves(f, [m] + rest) && RunMoves(f, [m] + rest) == RunMoves(g, rest)
  {
  }

  /** The second case happens: count, commit, invalidate, store leaves a wrong count that no invalidation will drop. */
  lemma StoredAcrossCommit(seats: map<Id, Seat>, after: map<Id, Seat>, section: Id, now: int)
    requires AlikeOutside(seats, after, {section}) && |AvailableIn(seats, section)| != |AvailableIn(after, section)|
    ensures var ms := [Ask(section)] +
            ([CountNow(0)] + ([Commit(after, {section})] + ([Invalidate(0)] + ([Store(0)] + []))));
            && ValidMoves(Quiet(seats, now), ms)
            && var f := RunMoves(Quiet(seats, now), ms);
               f.pending == [] && Live(f, section) && f.counts[section].count != |AvailableIn(f.seats, section)|
  {
    var count := |AvailableIn(seats, section)|;
    var a := Quiet(seats, now);
    var b := a.(fills := [Missed(section)]);
    var c := a.(fills := [Counting(section, count, now, false)]);
    var d := Floor(after, map[], [Counting(section, count, now, true)], [{section}], now);
    var e := d.(pending := []);
    var entry := Stored(count, now, now, true, false);
    var g := Floor(after, map[section := entry], [Served(section, now, entry)], [], now);
    RunMove(e, Store(0), g, []);
    RunMove(d, Invalidate(0), e, [Store(0)] + []);
    assert Marked(c.fills, {section}) == d.fills;
    RunMove(c, Commit(after, {section}), d, [Invalidate(0)] + ([Store(0)] + []));
    RunMove(b, CountNow(0), c, [Commit(after, {section})] + ([Invalidate(0)] + ([Store(0)] + [])));
    RunMove(a, Ask(section), b, [CountNow(0)] + ([Commit(after, {section})] + ([Invalidate(0)] + ([Store(0)] + []))));
  }
}
