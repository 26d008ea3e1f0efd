/** app.py: the page whose form takes a typed time when no stopwatch is
    running, never clears the stopwatch, and gives a flat calibration bonus of
    at most 0.5 whatever the score. */
module App {
  import opened Frame
  import opened Scoring

  /** `INT`, the true value of the integral. */
  const TrueIntegral: real := 0.780207872582

  /** The largest bonus, the literal 0.5 of the bonus formula. */
  const MaxBonus: real := 0.5

  /** `max(0, 1 - z/3) * 0.5` for a team whose positive error estimate gives
      z <= 3, and the column's initial 0.0 otherwise; the score plays no part. */
  function ErrorBonus(error: real, errorEstimate: real): (b: real)
    ensures 0.0 <= b <= MaxBonus
    ensures errorEstimate <= 0.0 ==> b == 0.0
    ensures ZStatistic(error, errorEstimate) > 3.0 ==> b == 0.0
    ensures errorEstimate > 0.0 && ZStatistic(error, errorEstimate) <= 3.0 ==>
      b == (1.0 - ZStatistic(error, errorEstimate) / 3.0) * MaxBonus
  {
    var z := ZStatistic(error, errorEstimate);
    if errorEstimate > 0.0 then
      if z <= 3.0 then Max(0.0, 1.0 - z / 3.0) * MaxBonus else 0.0
    else 0.0
  }

  /** The bonus as a column of the scored table, which ignores the score. */
  function TableBonus(error: real, errorEstimate: real, score: real): (b: real)
  {
    ErrorBonus(error, errorEstimate)
  }

  /** The `iterrows` loop: the z statistic and bonus columns start at 0.0 and
      are overwritten row by row. */
  method BonusColumns(records: seq<Record>) returns (z: array<real>, bonus: array<real>)
    ensures fresh(z) && fresh(bonus)
    ensures z.Length == |records| && bonus.Length == |records|
    ensures forall i :: 0 <= i < |records| ==>
      z[i] == ZStatistic(records[i].error, records[i].errorEstimate) &&
      bonus[i] == ErrorBonus(records[i].error, records[i].errorEstimate)
  {
    z := new real[|records|](_ => 0.0);
    bonus := new real[|records|](_ => 0.0);
    for i := 0 to |records|
      invariant forall k :: 0 <= k < i ==>
        z[k] == ZStatistic(records[k].error, records[k].errorEstimate) &&
        bonus[k] == ErrorBonus(records[k].error, records[k].errorEstimate)
      invariant forall k :: i <= k < |records| ==> z[k] == 0.0 && bonus[k] == 0.0
    {
      var row := records[i];
      if row.errorEstimate > 0.0 {
        var zi := Abs(row.error) / row.errorEstimate;
        z[i] := zi;
        if zi <= 3.0 {
          bonus[i] := Max(0.0, 1.0 - zi / 3.0) * MaxBonus;
        }
      }
    }
  }

  /** The table shown after "Vypočítat skóre a seřadit". */
  function Ranking(records: seq<Record>, sqrt: real -> real): (st: seq<Ranked>)
    ensures |st| == |records|
    ensures forall i, j :: 0 <= i < j < |st| ==> st[i].row.finalScore <= st[j].row.finalScore
    ensures forall i :: 0 <= i < |st| ==> st[i].rank == i + 1
  {
    Standings(records, sqrt, TableBonus)
  }

  /** The final score is the score less a bonus of at most 0.5. */
  lemma FinalScoreBounds(records: seq<Record>, sqrt: real -> real)
    ensures forall r :: r in Ranking(records, sqrt) ==>
      r.row.bonus == ErrorBonus(r.row.rec.error, r.row.rec.errorEstimate) &&
      r.row.finalScore == r.row.score - r.row.bonus &&
      r.row.score - MaxBonus <= r.row.finalScore <= r.row.score
  {
    var rows := Tabulate(records, sqrt, TableBonus);
    StandingsRowsFromRecords(records, sqrt, TableBonus);
    forall r | r in Ranking(records, sqrt)
      ensures r.row.bonus == ErrorBonus(r.row.rec.error, r.row.rec.errorEstimate)
      ensures r.row.finalScore == r.row.score - r.row.bonus
    {
      var i :| 0 <= i < |rows| && rows[i] == r.row;
    }
  }

  /** The ranking is the scored table reordered: same length, non-decreasing
      final scores, ranks 1..N in order. */
  lemma RankingOrdered(records: seq<Record>, sqrt: real -> real)
    ensures var st := Ranking(records, sqrt);
      |st| == |records| &&
      multiset(RowsOf(st)) == multiset(Tabulate(records, sqrt, TableBonus)) &&
      (forall i, j :: 0 <= i < j < |st| ==> st[i].row.finalScore <= st[j].row.finalScore) &&
      (set r | r in st :: r.rank) == OneTo(|records|)
  {
    RanksAreOneToN(Tabulate(records, sqrt, TableBonus));
  }

  /** A lone submission scores 0 but may still earn its bonus, so its final
      score is minus that bonus. */
  lemma SingleTeam(rec: Record, sqrt: real -> real)
    requires IsSqrt(sqrt)
    ensures Ranking([rec], sqrt) ==
      [Ranked(Scored(rec, 0.0, 0.0, 0.0, ZStatistic(rec.error, rec.errorEstimate),
                     ErrorBonus(rec.error, rec.errorEstimate),
                     -ErrorBonus(rec.error, rec.errorEstimate)), 1)]
  {
    SingleRecordScoresZero(rec, sqrt, TableBonus);
  }

  /** Final scores can be negative: a lone team with the exact value and any
      positive error estimate ends at -0.5. */
  lemma NegativeFinalScore(sqrt: real -> real)
    requires IsSqrt(sqrt)
    ensures Ranking([Record("A", 10.0, TrueIntegral, 0.0, 0.1, None)], sqrt)[0].row.finalScore == -MaxBonus
  {
    SingleTeam(Record("A", 10.0, TrueIntegral, 0.0, 0.1, None), sqrt);
  }

  datatype Rejection = EmptyTeamName

  datatype Outcome = Saved(record: Record) | Rejected(reason: Rejection)

  /** The script's `st.session_state`: the stopwatch and the records. */
  class Session {
    var timerStart: Option<real>
    var timerRunning: bool
    var records: seq<Record>

    /** A running stopwatch has a start, and every record's error is derived
        from its estimate; app.py's records carry no timestamp. */
    ghost predicate Valid()
      reads this
    {
      (timerRunning ==> timerStart.Some?) &&
      forall i :: 0 <= i < |records| ==>
        records[i].error == Abs(records[i].estimate - TrueIntegral) && records[i].timestamp.None?
    }

    /** The state on first load: no stopwatch, no records. */
    constructor ()
      ensures Valid()
      ensures timerStart == None && !timerRunning && records == []
    {
      timerStart := None;
      timerRunning := false;
      records := [];
    }

    /** "Spustit stopky": (re)start the stopwatch at `now`. */
    method StartTimer(now: real)
      requires Valid()
      modifies this
      ensures Valid()
      ensures timerStart == Some(now) && timerRunning
      ensures records == old(records)
    {
      timerStart := Some(now);
      timerRunning := true;
    }

    /** "Přidat tým" and "Uložit řešení" alike: rejected with no team name;
        otherwise a running stopwatch is stopped and its reading replaces the
        typed time, exactly one record is appended, and the start is kept. */
    method Submit(name: string, typedTime: real, estimate: real, errorEstimate: real, now: real)
      returns (outcome: Outcome)
      requires Valid()
      modifies this
      ensures Valid()
      ensures name == [] ==> outcome == Rejected(EmptyTeamName) && unchanged(this)
      ensures name != [] ==>
        var time := if old(timerRunning) then now - old(timerStart).value else typedTime;
        outcome == Saved(Record(name, time, estimate, Abs(estimate - TrueIntegral), errorEstimate, None)) &&
        records == old(records) + [outcome.record] &&
        timerStart == old(timerStart) && !timerRunning
    {
      if name == [] {
        return Rejected(EmptyTeamName);
      }
      var time := typedTime;
      if timerRunning {
        timerRunning := false;
        time := now - timerStart.value;
      }
      var error := Abs(estimate - TrueIntegral);
      var record := Record(name, time, estimate, error, errorEstimate, None);
      records := records + [record];
      outcome := Saved(record);
    }
  }
}
