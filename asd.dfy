/** asd.py: the stopwatch-and-form page whose submissions need a started
    stopwatch, and whose calibration bonus is a share of the team's own score. */
module Asd {
  import opened Frame
  import opened Scoring

  /** `INT`, the true value of the integral. */
  const TrueIntegral: real := 0.780207872582

  /** `MAX_BONUS_RATIO`: the bonus is at most this share of the score. */
  const MaxBonusRatio: real := 0.2

  /** `max(0, 1 - z/3) * MAX_BONUS_RATIO * score` for a team whose positive
      error estimate gives z <= 3, and the column's initial 0.0 otherwise. */
  function ErrorBonus(error: real, errorEstimate: real, score: real): (b: real)
    ensures errorEstimate <= 0.0 ==> b == 0.0
    ensures ZStatistic(error, errorEstimate) > 3.0 ==> b == 0.0
    ensures score >= 0.0 ==> 0.0 <= b <= Mul(MaxBonusRatio, score)
    ensures errorEstimate > 0.0 && error == 0.0 ==> b == Mul(MaxBonusRatio, score)
    ensures errorEstimate > 0.0 && ZStatistic(error, errorEstimate) <= 3.0 ==>
      b == Mul((1.0 - ZStatistic(error, errorEstimate) / 3.0) * MaxBonusRatio, score)
  {
    var z := ZStatistic(error, errorEstimate);
    if errorEstimate > 0.0 then
      if z <= 3.0 then
        var share := Max(0.0, 1.0 - z / 3.0) * MaxBonusRatio;
        assert z == 0.0 ==> share == MaxBonusRatio;
        assert 0.0 <= share <= MaxBonusRatio;
        assert score >= 0.0 ==> 0.0 <= Mul(share, score) <= Mul(MaxBonusRatio, score) by {
          if score >= 0.0 {
            MulMonotone(0.0, share, score);
            MulMonotone(share, MaxBonusRatio, score);
          }
        }
        Mul(share, score)
      else 0.0
    else 0.0
  }

  /** The `iterrows` loop: the z statistic and bonus columns start at 0.0 and
      are overwritten row by row. */
  method BonusColumns(records: seq<Record>, score: seq<real>) returns (z: array<real>, bonus: array<real>)
    requires |score| == |records|
    ensures fresh(z) && fresh(bonus)
    ensures z.Length == |records| && bonus.Length == |records|
    ensures forall i :: 0 <= i < |records| ==>
      z[i] == ZStatistic(records[i].error, records[i].errorEstimate) &&
      bonus[i] == ErrorBonus(records[i].error, records[i].errorEstimate, score[i])
  {
    z := new real[|records|](_ => 0.0);
    bonus := new real[|records|](_ => 0.0);
    for i := 0 to |records|
      invariant forall k :: 0 <= k < i ==>
        z[k] == ZStatistic(records[k].error, records[k].errorEstimate) &&
        bonus[k] == ErrorBonus(records[k].error, records[k].errorEstimate, score[k])
      invariant forall k :: i <= k < |records| ==> z[k] == 0.0 && bonus[k] == 0.0
    {
      var row := records[i];
      if row.errorEstimate > 0.0 {
        var zi := Abs(row.error) / row.errorEstimate;
        z[i] := zi;
        if zi <= 3.0 {
          bonus[i] := Mul(Max(0.0, 1.0 - zi / 3.0) * MaxBonusRatio, score[i]);
        }
      }
    }
  }

  /** The table shown after "Vypočítat skóre a seřadit". */
  function Ranking(records: seq<Record>, sqrt: real -> real): (st: seq<Ranked>)
    ensures |st| == |records|
    ensures forall i, j :: 0 <= i < j < |st| ==> st[i].row.finalScore <= st[j].row.finalScore
    ensures forall i :: 0 <= i < |st| ==> st[i].rank == i + 1
  {
    Standings(records, sqrt, ErrorBonus)
  }

  /** Every ranked row: no estimate means z = 0 and no bonus, z > 3 means no
      bonus, an exact estimate earns the full 20%, and the final score is the
      score less its bonus. */
  lemma RankedBonusCases(records: seq<Record>, sqrt: real -> real)
    requires IsSqrt(sqrt)
    ensures forall r :: r in Ranking(records, sqrt) ==>
      var row := r.row;
      row.z == ZStatistic(row.rec.error, row.rec.errorEstimate) &&
      row.finalScore == row.score - row.bonus &&
      (row.rec.errorEstimate <= 0.0 ==> row.z == 0.0 && row.bonus == 0.0) &&
      (row.z > 3.0 ==> row.bonus == 0.0) &&
      (row.rec.errorEstimate > 0.0 && row.rec.error == 0.0 ==> row.bonus == Mul(MaxBonusRatio, row.score))
  {
    var rows := Tabulate(records, sqrt, ErrorBonus);
    StandingsRowsFromRecords(records, sqrt, ErrorBonus);
    forall r | r in Ranking(records, sqrt)
      ensures r.row.z == ZStatistic(r.row.rec.error, r.row.rec.errorEstimate)
      ensures r.row.bonus == ErrorBonus(r.row.rec.error, r.row.rec.errorEstimate, r.row.score)
      ensures r.row.finalScore == r.row.score - r.row.bonus
    {
      var i :| 0 <= i < |rows| && rows[i] == r.row;
    }
  }

  /** The bonus is between nothing and 20% of the score, so the final score
      lies between 80% of the score and the score, and is never negative. */
  lemma FinalScoreBounds(records: seq<Record>, sqrt: real -> real)
    requires IsSqrt(sqrt)
    ensures forall r :: r in Ranking(records, sqrt) ==>
      0.0 <= Mul(1.0 - MaxBonusRatio, r.row.score) <= r.row.finalScore <= r.row.score
  {
    var rows := Tabulate(records, sqrt, ErrorBonus);
    StandingsRowsFromRecords(records, sqrt, ErrorBonus);
    ScoresAreNorms(records, sqrt, ErrorBonus);
    forall r | r in Ranking(records, sqrt)
      ensures 0.0 <= Mul(1.0 - MaxBonusRatio, r.row.score) <= r.row.finalScore <= r.row.score
    {
      var i :| 0 <= i < |rows| && rows[i] == r.row;
      MulMonotone(0.0, 1.0 - MaxBonusRatio, r.row.score);
    }
  }

  /** The ranking is the scored table reordered: same length, non-decreasing
      final scores, ranks 1..N in order. */
  lemma RankingOrdered(records: seq<Record>, sqrt: real -> real)
    ensures var st := Ranking(records, sqrt);
      |st| == |records| &&
      multiset(RowsOf(st)) == multiset(Tabulate(records, sqrt, ErrorBonus)) &&
      (forall i, j :: 0 <= i < j < |st| ==> st[i].row.finalScore <= st[j].row.finalScore) &&
      (set r | r in st :: r.rank) == OneTo(|records|)
  {
    RanksAreOneToN(Tabulate(records, sqrt, ErrorBonus));
  }

  /** A lone submission ranks first with score, bonus and final score all 0. */
  lemma SingleTeam(rec: Record, sqrt: real -> real)
    requires IsSqrt(sqrt)
    ensures Ranking([rec], sqrt) ==
      [Ranked(Scored(rec, 0.0, 0.0, 0.0, ZStatistic(rec.error, rec.errorEstimate), 0.0, 0.0), 1)]
  {
    SingleRecordScoresZero(rec, sqrt, ErrorBonus);
    var rows := Tabulate([rec], sqrt, ErrorBonus);
    assert rows == [Scored(rec, 0.0, 0.0, 0.0, ZStatistic(rec.error, rec.errorEstimate), 0.0, 0.0)];
  }

  datatype Rejection = EmptyTeamName | TimerNotStarted

  datatype Outcome = Saved(record: Record) | Rejected(reason: Rejection)

  /** The script's `st.session_state`: the stopwatch and the records. */
  class Session {
    var timerStart: Option<real>
    var timerRunning: bool
    var records: seq<Record>

    /** The stopwatch has a start exactly when it is running (a submission
        clears both), and every record's error is derived from its estimate
        and carries a timestamp. */
    ghost predicate Valid()
      reads this
    {
      (timerRunning <==> timerStart.Some?) &&
      forall i :: 0 <= i < |records| ==>
        records[i].error == Abs(records[i].estimate - TrueIntegral) && records[i].timestamp.Some?
    }

    /** The state on first load: no stopwatch, no records. */
    constructor ()
      ensures Valid()
      ensures timerStart == None && !timerRunning && records == []
    {
      timerStart := None;
      timerRunning := false;
      records := [];
    }

    /** "Spustit stopky": (re)start the stopwatch at `now`. */
    method StartTimer(now: real)
      requires Valid()
      modifies this
      ensures Valid()
      ensures timerStart == Some(now) && timerRunning
      ensures records == old(records)
    {
      timerStart := Some(now);
      timerRunning := true;
    }

    /** "Uložit řešení": rejected with no team name or no stopwatch; otherwise
        the time since the start is recorded with the derived error, exactly
        one record is appended, and the stopwatch is cleared. */
    method SaveSolution(name: string, estimate: real, errorEstimate: real, now: real, stamp: string)
      returns (outcome: Outcome)
      requires Valid()
      modifies this
      ensures Valid()
      ensures name == [] ==> outcome == Rejected(EmptyTeamName) && unchanged(this)
      ensures name != [] && old(timerStart).None? ==> outcome == Rejected(TimerNotStarted) && unchanged(this)
      ensures name != [] && old(timerStart).Some? ==>
        outcome == Saved(Record(name, now - old(timerStart).value, estimate,
                                Abs(estimate - TrueIntegral), errorEstimate, Some(stamp))) &&
        records == old(records) + [outcome.record] &&
        timerStart == None && !timerRunning
    {
      if name == [] {
        return Rejected(EmptyTeamName);
      }
      if timerStart.None? {
        return Rejected(TimerNotStarted);
      }
      // By Valid a start means a running stopwatch, so the script's branch
      // for a start with the stopwatch stopped is never taken.
      timerRunning := false;
      var time := now - timerStart.value;
      var error := Abs(estimate - TrueIntegral);
      var record := Record(name, time, estimate, error, errorEstimate, Some(stamp));
      records := records + [record];
      timerStart := None;
      outcome := Saved(record);
    }
  }
}
