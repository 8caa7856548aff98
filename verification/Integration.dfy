/** The two step systems fit together: what the ledger's other writers do to the store is
    what the poll loop allows for, and a poll's transaction is the ledger's poll step. */
module Integration {
  import opened Calendar
  import opened Registers
  import opened Energy
  import opened Plan
  import opened Ledger
  import opened World
  import opened PollStep
  import opened CleanupStep
  import opened FinishRows
  import opened FinishStep
  import opened BackfillStep
  import opened Conservation
  import Rollover
  import Attribution
  import Polling

  /** A cleanup takes no row of a day its key has not closed. */
  lemma CleanupIsOther(reg: Registry, w: World, wanted: nat)
    requires reg.Valid() && Inv(reg, w)
    ensures Polling.OtherWriters(reg, w.db, Step(reg, w, Cleanup(wanted)).db)
  {
    var db' := Step(reg, w, Cleanup(wanted)).db;
    assert db' == ApplyCleanup(w.db, wanted);
    forall k, d | PollerKey(reg, k)
      ensures CleanedCell(w.db, db', k, d)
    {
      OpenDayKept(reg, w.db, wanted, k, d);
    }
  }

  predicate CleanedCell(db: DB, db': DB, k: string, d: int) {
    var c := Cell(Daily, k, d);
    && (c in db'.rows ==> c in db.rows && db'.rows[c] == db.rows[c])
    && (d > db.meta.Closed(k) && c in db.rows ==> c in db'.rows)
  }

  lemma OpenDayKept(reg: Registry, db: DB, wanted: nat, k: string, d: int)
    requires reg.Valid() && PollerKey(reg, k) && MarksOk(reg, db.meta)
    ensures CleanedCell(db, ApplyCleanup(db, wanted), k, d)
  {
    FirstOpenDayBelow(db.meta);
    assert k in reg.dailyKeys;
  }

  lemma FinishIsOther(reg: Registry, w: World)
    requires reg.Valid() && Inv(reg, w) && Enabled(reg, w, Finish)
    ensures Polling.OtherWriters(reg, w.db, Step(reg, w, Finish).db)
  {
    var r, db' := w.run.value, Step(reg, w, Finish).db;
    assert db' == After(reg, w, r);
    MetaAfter(reg, w, r);
    forall k, d | PollerKey(reg, k)
      ensures SameCell(db'.rows, w.db.rows, Cell(Daily, k, d))
    {
      BatchesFrame(reg, w.db.meta, w.db.rows, GatherOf(reg, r).batches, Cell(Daily, k, d));
    }
    DailyRowsStay(reg, w.db, db');
  }

  lemma BackfillIsOther(reg: Registry, w: World, now: Period, years: nat)
    requires reg.Valid() && Inv(reg, w) && Enabled(reg, w, Backfill(now, years))
    ensures Polling.OtherWriters(reg, w.db, Step(reg, w, Backfill(now, years)).db)
  {
    BackfillFrame(reg, w, now, years);
    forall k, d | PollerKey(reg, k)
      ensures SameCell(Step(reg, w, Backfill(now, years)).db.rows, w.db.rows, Cell(Daily, k, d))
    {
      BackfillKeepsCell(reg, w, now, years, Cell(Daily, k, d));
    }
    DailyRowsStay(reg, w.db, Step(reg, w, Backfill(now, years)).db);
  }

  lemma BackfillKeepsCell(reg: Registry, w: World, now: Period, years: nat, c: Cell)
    requires Enabled(reg, w, Backfill(now, years)) && c.level != Monthly && c.level != Yearly
    ensures SameCell(Step(reg, w, Backfill(now, years)).db.rows, w.db.rows, c)
  {
    var first := now.year - years;
    var d := BackfillYears(reg, w.db, first, now.year, now);
    YearsKeepCell(reg, w.db, first, now.year, now, c);
    var w' := Step(reg, w, Backfill(now, years));
    assert w'.db.rows == w.db.rows || w'.db.rows == d.rows by {
      BackfillIs(reg, w, now, years, w.(db := d), w');
    }
  }

  lemma DailyRowsStay(reg: Registry, db: DB, db': DB)
    requires db'.meta.closedDaily == db.meta.closedDaily
    requires forall k, d :: PollerKey(reg, k) ==> SameCell(db'.rows, db.rows, Cell(Daily, k, d))
    ensures Polling.OtherWriters(reg, db, db')
  {
  }

  /** Retention, aggregator runs and backfills leave the poll loop exactly what it relies on:
      the closed days, and every row of a counter's open days. */
  lemma LedgerStepsAreOthers(reg: Registry, w: World, e: Event)
    requires reg.Valid() && Inv(reg, w) && Enabled(reg, w, e) && !e.Poll?
    ensures Polling.OtherWriters(reg, w.db, Step(reg, w, e).db)
  {
    match e
    case Cleanup(wanted) => CleanupIsOther(reg, w, wanted);
    case Finish => FinishIsOther(reg, w);
    case Backfill(now, years) => BackfillIsOther(reg, w, now, years);
    case _ =>
  }

  /** A committed poll of the loop is a poll step of the ledger with the rows it sent, none of
      which the ledger rejects. */
  lemma PollsAreLedgerSteps(reg: Registry, r: Rollover.Time, s: Polling.State, w: World,
    now: int, xs: seq<Polling.Reading>, closes: seq<DayClose>)
    requires r.Valid() && Polling.StateOk(reg, r, s) && s.db == w.db
    requires Polling.Enabled(reg, r, s, Polling.Poll(now, xs, closes, true))
    ensures var rows := Polling.Polled(r, s, now, xs).1;
      && Polling.Step(reg, r, s, Polling.Poll(now, xs, closes, true)).db == Step(reg, w, Poll(rows, closes)).db
      && forall x :: x in rows ==> RowAccepted(reg, w.db.meta, x)
  {
    Polling.PollKeepsOk(reg, r, s, now, xs, closes, true);
  }
}
