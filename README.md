# Cheese-integration competition scoring, modelled in Dafny

Two Streamlit scripts, `asd.py` and `app.py`, run a competition in which
teams estimate an integral. Each script keeps per-browser session state: a stopwatch
(`timer_start`, `timer_running`) and an append-only list `records` of team
submissions. When the scoring button is pressed, each script turns `records` into a
ranked table. In `asd.py` the button appears only after the organiser passphrase is
entered (asd.py:143-150). In `app.py` anyone sees it whenever there are records
(app.py:121-125). The table is built as follows:

1. The `error` and `time` columns are each divided by their sample standard
   deviation. When that deviation is not positive the column is 0.
2. `score` is the Euclidean norm of `(s_n, t_n)`.
3. A team that gave a positive error estimate gets `z = |error| / error_estimate`
   and, when `z <= 3`, a calibration bonus.
4. `final_score = score - bonus`.
5. Rows are sorted ascending by `final_score` and ranked 1..N.

The two scripts differ in these places:

- Submission and the stopwatch:
  - `asd.py` has one submit button ("Uložit řešení"). It only accepts a submission
    once the stopwatch has been started, and it clears the stopwatch after each
    submission.
  - `app.py` has two submit buttons ("Přidat tým" and "Uložit řešení",
    app.py:88-92) that do the same thing. It takes a typed time unless the stopwatch
    is running, and it never clears `timer_start`.
- Records: `asd.py`'s records carry a formatted `timestamp` (asd.py:117). `app.py`'s
  records have none (app.py:103-109).
- The bonus: `asd.py`'s is `max(0, 1 - z/3) * 0.2 * score`. `app.py`'s is the flat
  `max(0, 1 - z/3) * 0.5`, whatever the score.
- Access to scoring: only `asd.py` puts it behind a passphrase.
- CSV: `app.py` writes it to disk, while `asd.py` keeps it in the session state (see
  below).

Modules:

- `Frame` (`frame.dfy`): the pandas/numpy column arithmetic. It covers the sample
  standard deviation with one delta degree of freedom (`None` stands for the NaN
  pandas gives for fewer than two values), the "divide if the deviation is positive,
  else 0" normalisation, and row-wise Euclidean norms.
- `Scoring` (`scoring.dfy`): the record and table row types and the z statistic. It
  also builds the scored table for any bonus function, sorts by final score and
  assigns ranks.
- `Asd` (`asd.dfy`) and `App` (`app.dfy`): one module per script. Each has its own
  constants, its own bonus function, the bonus loop as a method over arrays, its
  ranking, and a `Session` class for the script's session state. The class methods
  take the current instant `now` as a parameter.

Floating-point numbers are Dafny `real`s. `np.sqrt` is a parameter `sqrt` of every
scoring function. The only thing known about it is `Frame.IsSqrt`: on a non-negative
argument it returns the non-negative square root. The standard deviation is
defined from it (mean, sum of squared deviations, division by n - 1). The fact that
the deviation is positive exactly when the column is not constant is proved, not
assumed.

Behaviour of the scripts worth knowing:

- There is no per-team session store. Both scripts append to the log file
  `team_submissions.log` (asd.py:15, app.py:14). After every submission
  `save_dataframe` turns the records into CSV. `app.py` writes it to a file on disk
  (app.py:30-38). `asd.py` keeps it in the session state for download
  (asd.py:34-46). Neither script ever reads any of this back, so no state passes from
  one session to another.
- Neither script rejects starting an "already active" stopwatch: starting it again
  simply restarts it. Only `asd.py` rejects a submission made before the stopwatch was
  started (asd.py:104-108, `Asd.Rejection.TimerNotStarted`). `app.py` has no such
  rejection and falls back to the typed time.
- Ties in the sort are not guaranteed to be broken by input order. pandas's default
  sort is not stable, so the model promises only that the output is sorted and is a
  permutation of the input.
- With a score-proportional bonus, a zero z statistic earns the full 20% only when
  an error estimate was given. Without one, z is 0 and the bonus is 0.
- `final_score` is not clamped. In `app.py` it goes negative: see
  `App.NegativeFinalScore`. In `app.py` a lone team can still earn its bonus.

## Model

| member | source | states |
|---|---|---|
| Frame.SampleStd | asd.py:151-152 | `Series.std()` with one delta degree of freedom. It is NaN (`None`) exactly when the column has fewer than two values, and otherwise non-negative. Its meaning for the guard is `StdPositiveIffNotAllEqual`. |
| Frame.Normalised | asd.py:151-152 | `col / col.std() if col.std() > 0 else 0` keeps the column's length (also app.py:126-127). Its values are stated by `NormalisedValues`. |
| Frame.Norms | asd.py:155 | `np.sqrt(a**2 + b**2)`, row by row, keeps the columns' length. Each entry is shown to be the Euclidean norm by `NormsAreEuclidean`. |
| Frame.StdPositiveIffNotAllEqual | asd.py:151-152 | `std() > 0`, written `StdPositive` (a NaN deviation, `None`, compares false), holds exactly when the column is not constant. A column of 0 or 1 values gives pandas's NaN, which fails the test (also app.py:126-127). |
| Frame.NormalisedValues | asd.py:151-152 | A constant column, including a single row, normalises to 0 in every row. Any other column is divided by one positive deviation, and its non-negative entries stay non-negative. |
| Frame.NormsAreEuclidean | asd.py:155 | `sqrt(a**2 + b**2)` is non-negative, squares to a^2 + b^2, and is zero exactly when a = b = 0. |
| Frame.SqrtSign | asd.py:155 | The square root of a non-negative argument is zero exactly at zero and positive exactly on positive arguments. |
| Scoring.ZStatistic | asd.py:158-164 | With no positive error estimate, z keeps its initial 0. Otherwise z >= 0 and z * error_estimate = abs(error). z is 0 exactly when there is no estimate or the error is 0. |
| Scoring.Tabulate | asd.py:150-171 | One row per record, in record order, carrying that record. Each row's z, its bonus and `final_score = score - bonus` are computed from that row alone (also app.py:125-146). |
| Scoring.ScoresAreNorms | asd.py:155 | Every score in the table is >= 0, squares to s_n^2 + t_n^2, and is 0 exactly when both normalised values are 0. |
| Scoring.NormalisedColumns | asd.py:151-152 | All-equal errors (times) give s_n = 0 (t_n = 0) in every row. Otherwise every row's s_n is error / σ_e (t_n is time / σ_t) with σ positive (also app.py:126-127). |
| Scoring.SingleRecordScoresZero | asd.py:151-155 | A table of one record has s_n = t_n = score = 0. |
| Scoring.Insert | asd.py:173 | Inserting one row adds exactly that row to the multiset of rows. |
| Scoring.InsertKeepsSorted | asd.py:173 | Inserting into a table sorted by final score keeps it sorted. |
| Scoring.SortByFinal | asd.py:173 | `sort_values('final_score')` returns a permutation of its input, of the same length, with final scores non-decreasing. Tie order is not promised. |
| Scoring.RankRows | asd.py:173-174 | The ranked table has the input's length and holds a permutation of the scored rows. Final scores are non-decreasing, and row i has rank i + 1 (also app.py:148-149). |
| Scoring.RanksAreOneToN | asd.py:174 | The set of ranks is exactly {1, ..., N}, and no two rows share a rank. |
| Scoring.StandingsRowsFromRecords | asd.py:171-174 | The ranking has one row per record, and every ranked row is a row of the scored table. |
| Scoring.Standings | asd.py:171-174 | The ranked table for any bonus column has one row per record, non-decreasing final scores and rank i + 1 at position i. Its rows come from the scored table (`StandingsRowsFromRecords`), and its ranks are 1..N (`RanksAreOneToN`). |
| Asd.ErrorBonus | asd.py:161-168 | The bonus is 0 without a positive error estimate and 0 when z > 3. For a non-negative score it lies in [0, 0.2 * score]. An estimate with zero error earns exactly 0.2 * score. With a positive estimate and z <= 3, the bonus is (1 − z/3) · 0.2 · score. |
| Asd.BonusColumns | asd.py:158-168 | Returns two new, distinct arrays. The loop over rows leaves the z and bonus columns equal, row by row, to `ZStatistic` and `ErrorBonus` of that row. Rows without a positive estimate keep 0. |
| Asd.Ranking | asd.py:150-174 | The table shown after scoring has one row per record, non-decreasing final scores and rank i + 1 at position i. Its bonus cases are `RankedBonusCases`, its bounds `FinalScoreBounds` and the permutation `RankingOrdered`. |
| Asd.RankedBonusCases | asd.py:158-171 | In the final ranking, each row has: z from its own record; final score = score - bonus; no estimate gives z = 0 and no bonus; z > 3 gives no bonus; an exact estimate gives the full 20%. |
| Asd.FinalScoreBounds | asd.py:166-171 | Every ranked row has 0 <= 0.8 * score <= final_score <= score. |
| Asd.RankingOrdered | asd.py:173-174 | The ranking has as many rows as `records` and is a permutation of the scored table. It is sorted by final score, and its ranks are exactly 1..N. |
| Asd.SingleTeam | asd.py:150-174 | A single record ranks 1st with s_n, t_n, score, bonus and final score all 0. |
| Asd.Session.constructor | asd.py:20-31 | The state on first load: no stopwatch start, not running, no records. |
| Asd.Session.StartTimer | asd.py:61-63 | Sets `timer_start := now` and `timer_running := true`. Records are unchanged. |
| Asd.Session.SaveSolution | asd.py:96-132 | An empty team name, or no stopwatch start, is rejected and leaves the state unchanged. Otherwise exactly one record is appended: time = now − start, error = abs(estimate − INT), the error estimate and the timestamp. Then `timer_start = None` and `timer_running = false`. The session keeps the invariant that a start exists exactly when the stopwatch is running, so the `elif` at asd.py:104 (a start with the stopwatch stopped) is never taken. Every stored error is derived this way. |
| App.ErrorBonus | app.py:136-143 | The bonus lies in [0, 0.5] and does not take the score. It is 0 without a positive error estimate and 0 when z > 3. Otherwise it is (1 − z/3) · 0.5. |
| App.BonusColumns | app.py:133-143 | Returns two new, distinct arrays. The loop over rows leaves the z and bonus columns equal, row by row, to `ZStatistic` and `ErrorBonus` of that row. |
| App.Ranking | app.py:125-149 | The table shown after scoring has one row per record, non-decreasing final scores and rank i + 1 at position i. Its bonus and bounds are `FinalScoreBounds`, and the permutation `RankingOrdered`. |
| App.FinalScoreBounds | app.py:136-146 | Every ranked row has bonus = `ErrorBonus` of its record, final_score = score − bonus, and score − 0.5 <= final_score <= score. |
| App.RankingOrdered | app.py:148-149 | The ranking has as many rows as `records` and is a permutation of the scored table. It is sorted by final score, and its ranks are exactly 1..N. |
| App.SingleTeam | app.py:125-149 | A single record ranks 1st with score 0. Its bonus is still `ErrorBonus` of its record, so its final score is minus that bonus. |
| App.NegativeFinalScore | app.py:143-146 | A lone team with the exact value and a positive error estimate ends with final score −0.5: final scores are not clamped at 0. |
| App.Session.constructor | app.py:19-27 | The state on first load: no stopwatch start, not running, no records. |
| App.Session.StartTimer | app.py:52-54 | Sets `timer_start := now` and `timer_running := true`. Records are unchanged. |
| App.Session.Submit | app.py:92-110 | Models both submit buttons. An empty team name is rejected with the state unchanged. Otherwise a running stopwatch is stopped and its reading now − start replaces the typed time; with the stopwatch stopped, the typed time is used. Exactly one record is appended with error = abs(estimate − INT). `timer_start` is never cleared. |

## Left out

- Streamlit UI is not modelled: rendering, widgets being disabled before the stopwatch
  starts (asd.py:84-94), the elapsed-time display, messages, `st.stop` and
  `st.rerun`. It is control flow, not logic.
- asd.py's `submission_time` field and its 20-second form clearing (asd.py:128-138) are
  not modelled; they only affect what the page shows.
- app.py pre-fills the typed time with the stopwatch reading (app.py:77-81). The model
  takes the typed value as a parameter, whatever its default was. It does not enforce
  the widgets' `min_value=0.0`, because that is a widget setting.
- The organiser passphrase of `asd.py` (asd.py:143-145) is not modelled: scoring is
  modelled as already authorised. `app.py` has no passphrase at all.
- The "only when `records` is non-empty" guards (asd.py:146, app.py:121) are not
  modelled. The ranking functions accept any list, and an empty one yields an empty
  ranking.
- `save_dataframe`, CSV encoding and the download buttons are I/O and are not
  modelled. Neither is logging.
- `datetime.now()` becomes the parameter `now`, a number of seconds. asd.py's
  formatted timestamp becomes the parameter `stamp`.
- Floating-point rounding, the display rounding `.round(4)`, and NaN beyond the
  single-row standard deviation are not modelled.
- `np.sqrt` is abstract: only `Frame.IsSqrt` is known about it.
- The order of rows with equal final scores is not modelled (pandas's sort is not stable).
- Several browser sessions may append to the same log file. Only `app.py` also
  writes CSV files to disk (app.py:35); `asd.py` keeps its CSV in the session state
  (asd.py:41). Neither script reads any of this back, so sessions share no state and
  there is no concurrency to model.
