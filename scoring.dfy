/** The scoring table both scripts build from `records` when the scoring
    button is pressed: normalised error and time, their Euclidean norm as
    `score`, the z statistic of each team's own error estimate, a calibration
    bonus, the final score, and the ranking by final score. The two scripts'
    scoring differs only in the bonus, so the table is built here for any bonus
    function, and each script's module supplies its own. */
module Scoring {
  import opened Frame

  /** One entry of `records`. `timestamp` is filled in by asd.py and absent
      from app.py's records. */
  datatype Record = Record(
    team: string,
    time: real,
    estimate: real,
    error: real,
    errorEstimate: real,
    timestamp: Option<string>)

  /** A row of the scored table: the record and the columns scoring adds. */
  datatype Scored = Scored(
    rec: Record,
    sN: real,
    tN: real,
    score: real,
    z: real,
    bonus: real,
    finalScore: real)

  /** A row of the ranked table. */
  datatype Ranked = Ranked(row: Scored, rank: nat)

  function Errors(records: seq<Record>): (r: seq<real>)
    ensures |r| == |records|
    ensures forall i :: 0 <= i < |records| ==> r[i] == records[i].error
  {
    seq(|records|, i requires 0 <= i < |records| => records[i].error)
  }

  function Times(records: seq<Record>): (r: seq<real>)
    ensures |r| == |records|
    ensures forall i :: 0 <= i < |records| ==> r[i] == records[i].time
  {
    seq(|records|, i requires 0 <= i < |records| => records[i].time)
  }

  /** `z = |error| / error_estimate` for a team that gave a positive estimate,
      and the column's initial 0.0 for the others. */
  function ZStatistic(error: real, errorEstimate: real): (z: real)
    ensures errorEstimate <= 0.0 ==> z == 0.0
    ensures errorEstimate > 0.0 ==> z >= 0.0 && Mul(z, errorEstimate) == Abs(error)
    ensures z == 0.0 <==> errorEstimate <= 0.0 || error == 0.0
  {
    if errorEstimate > 0.0 then Abs(error) / errorEstimate else 0.0
  }

  /** The scored table, row by row in the order of `records`. `bonus` maps
      (error, error estimate, score) to the row's bonus. */
  function Tabulate(records: seq<Record>, sqrt: real -> real, bonus: (real, real, real) -> real): (rows: seq<Scored>)
    ensures |rows| == |records|
    ensures forall i :: 0 <= i < |records| ==> rows[i].rec == records[i]
    ensures forall i :: 0 <= i < |records| ==>
      rows[i].z == ZStatistic(records[i].error, records[i].errorEstimate) &&
      rows[i].bonus == bonus(records[i].error, records[i].errorEstimate, rows[i].score) &&
      rows[i].finalScore == rows[i].score - rows[i].bonus
  {
    var sN := Normalised(Errors(records), sqrt);
    var tN := Normalised(Times(records), sqrt);
    var score := Norms(sN, tN, sqrt);
    seq(|records|, i requires 0 <= i < |records| => ScoredRow(records[i], sN[i], tN[i], score[i], bonus))
  }

  function ScoredRow(rec: Record, sN: real, tN: real, score: real, bonus: (real, real, real) -> real): (row: Scored)
  {
    var b := bonus(rec.error, rec.errorEstimate, score);
    Scored(rec, sN, tN, score, ZStatistic(rec.error, rec.errorEstimate), b, score - b)
  }

  /** The normalised and score columns of the table. */
  lemma TabulateColumns(records: seq<Record>, sqrt: real -> real, bonus: (real, real, real) -> real, i: int)
    requires 0 <= i < |records|
    ensures var rows := Tabulate(records, sqrt, bonus);
      rows[i].sN == Normalised(Errors(records), sqrt)[i] &&
      rows[i].tN == Normalised(Times(records), sqrt)[i] &&
      rows[i].score == Norms(Normalised(Errors(records), sqrt), Normalised(Times(records), sqrt), sqrt)[i]
  {
  }

  /** Every score is the Euclidean norm of the row's (s_n, t_n): non-negative,
      squaring to s_n^2 + t_n^2, and zero exactly when both are zero. */
  lemma ScoresAreNorms(records: seq<Record>, sqrt: real -> real, bonus: (real, real, real) -> real)
    requires IsSqrt(sqrt)
    ensures forall row :: row in Tabulate(records, sqrt, bonus) ==>
      row.score >= 0.0 &&
      Mul(row.score, row.score) == Mul(row.sN, row.sN) + Mul(row.tN, row.tN) &&
      (row.score == 0.0 <==> row.sN == 0.0 && row.tN == 0.0)
  {
    var rows := Tabulate(records, sqrt, bonus);
    var sN := Normalised(Errors(records), sqrt);
    var tN := Normalised(Times(records), sqrt);
    forall row | row in rows
      ensures row.score >= 0.0
      ensures Mul(row.score, row.score) == Mul(row.sN, row.sN) + Mul(row.tN, row.tN)
      ensures row.score == 0.0 <==> row.sN == 0.0 && row.tN == 0.0
    {
      var i :| 0 <= i < |rows| && rows[i] == row;
      TabulateColumns(records, sqrt, bonus, i);
      NormsAreEuclidean(sN, tN, sqrt, i);
    }
  }

  /** A column whose values are all equal (a single record, say) normalises to
      0 in every row; otherwise every row is divided by the same positive
      sample standard deviation. */
  lemma NormalisedColumns(records: seq<Record>, sqrt: real -> real, bonus: (real, real, real) -> real)
    requires IsSqrt(sqrt)
    ensures var rows := Tabulate(records, sqrt, bonus);
      (AllEqual(Errors(records)) ==> forall i :: 0 <= i < |rows| ==> rows[i].sN == 0.0) &&
      (AllEqual(Times(records)) ==> forall i :: 0 <= i < |rows| ==> rows[i].tN == 0.0)
    ensures var rows := Tabulate(records, sqrt, bonus);
      (!AllEqual(Errors(records)) ==>
         var sd := SampleStd(Errors(records), sqrt);
         sd.Some? && sd.value > 0.0 &&
         forall i :: 0 <= i < |rows| ==> rows[i].sN == records[i].error / sd.value) &&
      (!AllEqual(Times(records)) ==>
         var sd := SampleStd(Times(records), sqrt);
         sd.Some? && sd.value > 0.0 &&
         forall i :: 0 <= i < |rows| ==> rows[i].tN == records[i].time / sd.value)
  {
    NormalisedValues(Errors(records), sqrt);
    NormalisedValues(Times(records), sqrt);
    forall i | 0 <= i < |records| {
      TabulateColumns(records, sqrt, bonus, i);
    }
  }

  /** A single submission scores 0: both its columns are constant. */
  lemma SingleRecordScoresZero(rec: Record, sqrt: real -> real, bonus: (real, real, real) -> real)
    requires IsSqrt(sqrt)
    ensures var rows := Tabulate([rec], sqrt, bonus);
      |rows| == 1 && rows[0].sN == 0.0 && rows[0].tN == 0.0 && rows[0].score == 0.0
  {
    var rows := Tabulate([rec], sqrt, bonus);
    assert AllEqual(Errors([rec])) && AllEqual(Times([rec]));
    NormalisedColumns([rec], sqrt, bonus);
    ScoresAreNorms([rec], sqrt, bonus);
    assert rows[0] in rows;
  }

  predicate SortedByFinal(s: seq<Scored>)
  {
    forall i, j :: 0 <= i < j < |s| ==> s[i].finalScore <= s[j].finalScore
  }

  /** Insert `x` before the first row whose final score is not below it. */
  function Insert(x: Scored, s: seq<Scored>): (r: seq<Scored>)
    ensures |r| == |s| + 1
    ensures multiset(r) == multiset(s) + multiset{x}
  {
    if s == [] then [x]
    else if x.finalScore <= s[0].finalScore then [x] + s
    else
      assert s == [s[0]] + s[1..];
      [s[0]] + Insert(x, s[1..])
  }

  lemma {:induction false} InsertKeepsSorted(x: Scored, s: seq<Scored>)
    requires SortedByFinal(s)
    ensures SortedByFinal(Insert(x, s))
  {
    if s != [] && x.finalScore > s[0].finalScore {
      var tail := Insert(x, s[1..]);
      InsertKeepsSorted(x, s[1..]);
      BoundKeptByPermutation(tail, s[1..], x, s[0].finalScore);
      assert Insert(x, s) == [s[0]] + tail;
    }
  }

  /** If `r` holds the rows of `s` and `x`, a lower bound on the final scores
      of all of those bounds `r` too. */
  lemma BoundKeptByPermutation(r: seq<Scored>, s: seq<Scored>, x: Scored, low: real)
    requires multiset(r) == multiset(s) + multiset{x}
    ensures low <= x.finalScore && (forall i :: 0 <= i < |s| ==> low <= s[i].finalScore) ==>
      forall i :: 0 <= i < |r| ==> low <= r[i].finalScore
  {
    if low <= x.finalScore && (forall i :: 0 <= i < |s| ==> low <= s[i].finalScore) {
      forall i | 0 <= i < |r| ensures low <= r[i].finalScore {
        assert r[i] in multiset(s) + multiset{x};
        if r[i] != x {
          assert r[i] in s;
        }
      }
    }
  }

  /** `sort_values('final_score')`: ascending by final score. The order among
      equal final scores is not specified (pandas's default sort is not
      stable), so only sortedness and permutation are promised. */
  function SortByFinal(s: seq<Scored>): (r: seq<Scored>)
    ensures |r| == |s|
    ensures multiset(r) == multiset(s)
    ensures SortedByFinal(r)
  {
    if s == [] then []
    else
      assert s == [s[0]] + s[1..];
      InsertKeepsSorted(s[0], SortByFinal(s[1..]));
      Insert(s[0], SortByFinal(s[1..]))
  }

  function RowsOf(ranked: seq<Ranked>): (rows: seq<Scored>)
    ensures |rows| == |ranked|
    ensures forall i :: 0 <= i < |ranked| ==> rows[i] == ranked[i].row
  {
    seq(|ranked|, i requires 0 <= i < |ranked| => ranked[i].row)
  }

  /** The sorted table with `rank = range(1, len + 1)`: a permutation of the
      scored rows, non-decreasing in final score, and row i has rank i + 1. */
  function RankRows(rows: seq<Scored>): (ranked: seq<Ranked>)
    ensures |ranked| == |rows|
    ensures multiset(RowsOf(ranked)) == multiset(rows)
    ensures forall i, j :: 0 <= i < j < |ranked| ==> ranked[i].row.finalScore <= ranked[j].row.finalScore
    ensures forall i :: 0 <= i < |ranked| ==> ranked[i].rank == i + 1
  {
    var sorted := SortByFinal(rows);
    var ranked := seq(|sorted|, i requires 0 <= i < |sorted| => Ranked(sorted[i], i + 1));
    assert RowsOf(ranked) == sorted;
    ranked
  }

  /** The ranks 1..n. */
  function OneTo(n: nat): (ks: set<nat>)
    ensures forall k :: k in ks <==> 1 <= k <= n
  {
    if n == 0 then {} else OneTo(n - 1) + {n}
  }

  /** The ranks handed out are exactly 1..N, each to one row. */
  lemma RanksAreOneToN(rows: seq<Scored>)
    ensures var ranked := RankRows(rows);
      (set r | r in ranked :: r.rank) == OneTo(|rows|)
    ensures var ranked := RankRows(rows);
      forall i, j :: 0 <= i < |ranked| && 0 <= j < |ranked| && ranked[i].rank == ranked[j].rank ==> i == j
  {
    RanksOfNumbered(RankRows(rows));
  }

  lemma {:induction false} RanksOfNumbered(ranked: seq<Ranked>)
    requires forall i :: 0 <= i < |ranked| ==> ranked[i].rank == i + 1
    ensures (set r | r in ranked :: r.rank) == OneTo(|ranked|)
  {
    if ranked != [] {
      var n := |ranked|;
      var front := ranked[..n - 1];
      RanksOfNumbered(front);
      assert ranked == front + [ranked[n - 1]];
      assert (set r | r in ranked :: r.rank) == (set r | r in front :: r.rank) + {n};
    }
  }

  /** The ranked table of the scored records. */
  function Standings(records: seq<Record>, sqrt: real -> real, bonus: (real, real, real) -> real): (st: seq<Ranked>)
    ensures |st| == |records|
    ensures forall i, j :: 0 <= i < j < |st| ==> st[i].row.finalScore <= st[j].row.finalScore
    ensures forall i :: 0 <= i < |st| ==> st[i].rank == i + 1
  {
    RankRows(Tabulate(records, sqrt, bonus))
  }

  /** Every ranked row is the scored row of one of the records. */
  lemma StandingsRowsFromRecords(records: seq<Record>, sqrt: real -> real, bonus: (real, real, real) -> real)
    ensures var st := Standings(records, sqrt, bonus);
      |st| == |records| &&
      forall r :: r in st ==> r.row in Tabulate(records, sqrt, bonus)
  {
    var rows := Tabulate(records, sqrt, bonus);
    var st := Standings(records, sqrt, bonus);
    forall r | r in st ensures r.row in rows {
      var i :| 0 <= i < |st| && st[i] == r;
      assert RowsOf(st)[i] == r.row;
      assert r.row in multiset(RowsOf(st));
    }
  }
}
