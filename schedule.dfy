/** The schedule helpers of sisutil.py: the rows `style_schedule` builds
    from the API's week/day/subject structure (without the colouring and
    table rendering), and the freshness decision of `read_schedule`. */
module Schedule {
  import opened Wrappers
  import opened PyStr

  /** One entry of a day's `rooster`. */
  datatype Subject = Subject(onderwerp: string, soortRooster: string, tijdVanaf: string, tijdTm: string, locatie: string)

  datatype Day = Day(rooster: seq<Subject>)

  /** A week: its number and its `dagen`, Monday first. */
  datatype Week = Week(week: int, dagen: seq<Day>)

  /** One table row: week label, day label, subject name, the colour of its
      kind, start, end and location. */
  datatype Row = Row(weekText: string, dayText: string, subject: string, colour: string,
                     from: string, until: string, location: string)

  /** KeyError for a kind missing from the colour table; IndexError for a
      week with fewer than seven days. */
  datatype ScheduleError = UnknownKind(kind: string) | MissingDay

  const DayNames: seq<string> := ["Monday", "Tuesday", "Wednesday", "Thursday", "Friday", "Saturday", "Sunday"]

  const KindColours: map<string, string> := map[
    "LEC" := "green", "TUT" := "blue", "DIGI-INZAGE" := "yellow", "EXA" := "red", "COMP" := "cyan",
    "DLT" := "red", "PRE" := "green", "LAB" := "magenta", "RSP" := "bright_blue"]

  /** `onderwerp[onderwerp.find(' ') + 1:]`: the text after the first
      space, or all of it when there is no space. */
  function SubjectName(onderwerp: string): (r: string)
    ensures |r| <= |onderwerp| && r == onderwerp[|onderwerp| - |r|..]
    ensures ' ' !in onderwerp ==> r == onderwerp
    ensures ' ' in onderwerp ==>
      var cut := |onderwerp| - |r|;
      cut >= 1 && onderwerp[cut - 1] == ' ' && ' ' !in onderwerp[..cut - 1]
  {
    var k := Find(onderwerp, " ");
    if k == -1 then
      assert forall i :: 0 <= i < |onderwerp| ==> onderwerp[i] != ' ' by {
        forall i | 0 <= i < |onderwerp| ensures onderwerp[i] != ' ' {
          assert !OccursAt(onderwerp, " ", i);
          assert onderwerp[i..i + 1] == [onderwerp[i]];
        }
      }
      SliceFrom(onderwerp, k + 1)
    else
      assert onderwerp[k..k + 1] == " ";
      assert onderwerp[k] == onderwerp[k..k + 1][0] == ' ';
      assert forall i :: 0 <= i < k ==> onderwerp[..k][i] != ' ' by {
        forall i | 0 <= i < k ensures onderwerp[..k][i] != ' ' {
          assert !OccursAt(onderwerp, " ", i);
          assert onderwerp[i..i + 1] == [onderwerp[i]];
        }
      }
      var r := SliceFrom(onderwerp, k + 1);
      assert r == onderwerp[k + 1..];
      assert ' ' !in onderwerp[..k];
      r
  }

  lemma DayNamesNonEmpty(d: nat)
    requires d < 7
    ensures |DayNames[d]| >= 6
  {
  }

  /** The row for subject s of day d of a week numbered weekNo
      (sisutil.py:19-28): the week label only on Monday's first subject,
      the day label only on each day's first subject. */
  function MakeRow(weekNo: int, d: nat, s: nat, subj: Subject): (r: Result<Row, ScheduleError>)
    requires d < 7
    ensures r.Success? <==> subj.soortRooster in KindColours
    ensures r.Failure? ==> r.error == UnknownKind(subj.soortRooster)
    ensures r.Success? ==>
      && (r.value.weekText != "" <==> s == 0 && d == 0)
      && (s == 0 && d == 0 ==> r.value.weekText == "Week " + IntToString(weekNo))
      && (r.value.dayText != "" <==> s == 0)
      && (s == 0 ==> r.value.dayText == DayNames[d])
      && r.value.subject == SubjectName(subj.onderwerp)
      && r.value.colour == KindColours[subj.soortRooster]
      && (r.value.from, r.value.until, r.value.location) == (subj.tijdVanaf, subj.tijdTm, subj.locatie)
  {
    if subj.soortRooster !in KindColours then
      Failure(UnknownKind(subj.soortRooster))
    else
      var weekText := if s == 0 && d == 0 then "Week " + IntToString(weekNo) else "";
      var dayText := if s == 0 then DayNames[d] else "";
      assert weekText != "" <==> s == 0 && d == 0 by {
        if s == 0 && d == 0 {
          assert |weekText| == 5 + |IntToString(weekNo)|;
        }
      }
      assert dayText != "" <==> s == 0 by {
        if s == 0 {
          DayNamesNonEmpty(d);
        }
      }
      Success(Row(weekText, dayText, SubjectName(subj.onderwerp), KindColours[subj.soortRooster],
                  subj.tijdVanaf, subj.tijdTm, subj.locatie))
  }

  /** Two results in order: the first failure, or both row lists joined. */
  function Join(a: Result<seq<Row>, ScheduleError>, b: Result<seq<Row>, ScheduleError>): Result<seq<Row>, ScheduleError>
  {
    match a
    case Failure(e) => Failure(e)
    case Success(x) =>
      match b
      case Failure(e) => Failure(e)
      case Success(y) => Success(x + y)
  }

  /** A one-row result as a row list. */
  function Single(r: Result<Row, ScheduleError>): Result<seq<Row>, ScheduleError>
  {
    match r
    case Failure(e) => Failure(e)
    case Success(row) => Success([row])
  }

  /** The first n row results in order: the first failure, or every row. */
  function Collect(results: seq<Result<Row, ScheduleError>>, n: nat): Result<seq<Row>, ScheduleError>
    requires n <= |results|
  {
    if n == 0 then Success([]) else Join(Collect(results, n - 1), Single(results[n - 1]))
  }

  /** The row result of every subject of day d. */
  function DayResults(weekNo: int, d: nat, subjects: seq<Subject>): (r: seq<Result<Row, ScheduleError>>)
    requires d < 7
    ensures |r| == |subjects|
    ensures forall s :: 0 <= s < |r| ==> r[s] == MakeRow(weekNo, d, s, subjects[s])
  {
    seq(|subjects|, s requires 0 <= s < |subjects| => MakeRow(weekNo, d, s, subjects[s]))
  }

  /** The rows of the first n subjects of day d. */
  function SubjectRows(weekNo: int, d: nat, subjects: seq<Subject>, n: nat): Result<seq<Row>, ScheduleError>
    requires d < 7 && n <= |subjects|
  {
    Collect(DayResults(weekNo, d, subjects), n)
  }

  /** The rows of day d of a week; IndexError when the week has no day d. */
  function DayRows(w: Week, d: nat): Result<seq<Row>, ScheduleError>
    requires d < 7
  {
    if d >= |w.dagen| then Failure(MissingDay)
    else SubjectRows(w.week, d, w.dagen[d].rooster, |w.dagen[d].rooster|)
  }

  /** The first n row lists in order: the first failure, or all of them
      concatenated. */
  function Flatten(parts: seq<Result<seq<Row>, ScheduleError>>, n: nat): Result<seq<Row>, ScheduleError>
    requires n <= |parts|
  {
    if n == 0 then Success([]) else Join(Flatten(parts, n - 1), parts[n - 1])
  }

  /** The row lists of days 0 to 6 of a week. */
  function WeekParts(w: Week): (r: seq<Result<seq<Row>, ScheduleError>>)
    ensures |r| == 7
    ensures forall d :: 0 <= d < 7 ==> r[d] == DayRows(w, d)
  {
    seq(7, d requires 0 <= d < 7 => DayRows(w, d))
  }

  /** The rows of the first n days of a week. */
  function WeekRows(w: Week, n: nat): Result<seq<Row>, ScheduleError>
    requires n <= 7
  {
    Flatten(WeekParts(w), n)
  }

  /** The row lists of every week of a schedule. */
  function ScheduleParts(sched: seq<Week>): (r: seq<Result<seq<Row>, ScheduleError>>)
    ensures |r| == |sched|
    ensures forall w :: 0 <= w < |sched| ==> r[w] == WeekRows(sched[w], 7)
  {
    seq(|sched|, w requires 0 <= w < |sched| => WeekRows(sched[w], 7))
  }

  /** The rows of the first n weeks of a schedule. */
  function ScheduleRows(sched: seq<Week>, n: nat): Result<seq<Row>, ScheduleError>
    requires n <= |sched|
  {
    Flatten(ScheduleParts(sched), n)
  }

  /** Once the first n results failed, more results fail the same way. */
  lemma {:induction false} CollectFailureSticks(results: seq<Result<Row, ScheduleError>>, n: nat, m: nat)
    requires n <= m <= |results|
    requires Collect(results, n).Failure?
    ensures Collect(results, m) == Collect(results, n)
    decreases m
  {
    if m > n {
      CollectFailureSticks(results, n, m - 1);
    }
  }

  /** Collected rows exist exactly when every result is a row, and then
      they are those rows in order. */
  lemma {:induction false} CollectShape(results: seq<Result<Row, ScheduleError>>, n: nat)
    requires n <= |results|
    ensures Collect(results, n).Success? <==> forall i :: 0 <= i < n ==> results[i].Success?
    ensures Collect(results, n).Success? ==>
      && |Collect(results, n).value| == n
      && forall i :: 0 <= i < n ==> Collect(results, n).value[i] == results[i].value
  {
    if n > 0 {
      CollectShape(results, n - 1);
      var prev := Collect(results, n - 1);
      if prev.Success? && results[n - 1].Success? {
        var rows := prev.value + [results[n - 1].value];
        assert Collect(results, n).value == rows;
        forall i | 0 <= i < n
          ensures rows[i] == results[i].value
        {
          if i < n - 1 {
            assert rows[i] == prev.value[i];
          }
        }
      }
    }
  }

  /** Once the first n row lists failed, more lists fail the same way. */
  lemma {:induction false} FlattenFailureSticks(parts: seq<Result<seq<Row>, ScheduleError>>, n: nat, m: nat)
    requires n <= m <= |parts|
    requires Flatten(parts, n).Failure?
    ensures Flatten(parts, m) == Flatten(parts, n)
    decreases m
  {
    if m > n {
      FlattenFailureSticks(parts, n, m - 1);
    }
  }

  lemma JoinAssociative(a: Result<seq<Row>, ScheduleError>, b: Result<seq<Row>, ScheduleError>,
                        c: Result<seq<Row>, ScheduleError>)
    ensures Join(Join(a, b), c) == Join(a, Join(b, c))
  {
    if a.Success? && b.Success? && c.Success? {
      assert (a.value + b.value) + c.value == a.value + (b.value + c.value);
    }
  }

  /** A successful join came from two successes. */
  lemma JoinSuccessParts(a: Result<seq<Row>, ScheduleError>, b: Result<seq<Row>, ScheduleError>,
                    c: Result<seq<Row>, ScheduleError>)
    requires Join(Join(a, b), c).Success?
    ensures a.Success? && b.Success? && c.Success?
  {
  }

  lemma JoinEmpty(a: Result<seq<Row>, ScheduleError>)
    ensures Join(a, Success([])) == a
  {
    if a.Success? {
      assert a.value + [] == a.value;
    }
  }

  /** The first subject without a colour (every row before it laid out)
      fails the whole schedule with its kind, whatever follows it. */
  lemma {:induction false} UnknownKindFails(sched: seq<Week>, w: nat, d: nat, s: nat)
    requires w < |sched| && d < 7 && d < |sched[w].dagen| && s < |sched[w].dagen[d].rooster|
    requires ScheduleRows(sched, w).Success? && WeekRows(sched[w], d).Success?
    requires SubjectRows(sched[w].week, d, sched[w].dagen[d].rooster, s).Success?
    requires sched[w].dagen[d].rooster[s].soortRooster !in KindColours
    ensures ScheduleRows(sched, |sched|) == Failure(UnknownKind(sched[w].dagen[d].rooster[s].soortRooster))
  {
    var subjects := sched[w].dagen[d].rooster;
    CollectFailureSticks(DayResults(sched[w].week, d, subjects), s + 1, |subjects|);
    FlattenFailureSticks(WeekParts(sched[w]), d + 1, 7);
    FlattenFailureSticks(ScheduleParts(sched), w + 1, |sched|);
  }

  /** The first missing day (every row before it laid out) fails the
      whole schedule, whatever follows it. */
  lemma {:induction false} MissingDayFails(sched: seq<Week>, w: nat, d: nat)
    requires w < |sched| && d < 7 && d >= |sched[w].dagen|
    requires ScheduleRows(sched, w).Success? && WeekRows(sched[w], d).Success?
    ensures ScheduleRows(sched, |sched|) == Failure(MissingDay)
  {
    FlattenFailureSticks(WeekParts(sched[w]), d + 1, 7);
    FlattenFailureSticks(ScheduleParts(sched), w + 1, |sched|);
  }

  /** `style_schedule`'s loops (sisutil.py:10-28): weeks, then days 0 to 6,
      then subjects, one row appended per subject; the first KeyError or
      IndexError ends it. */
  method StyleSchedule(sched: seq<Week>) returns (r: Result<seq<Row>, ScheduleError>)
    ensures r == ScheduleRows(sched, |sched|)
  {
    var rows: seq<Row> := [];
    for w := 0 to |sched|
      invariant ScheduleRows(sched, w) == Success(rows)
    {
      var week := sched[w];
      JoinEmpty(ScheduleRows(sched, w));
      for d := 0 to 7
        invariant Join(ScheduleRows(sched, w), WeekRows(week, d)) == Success(rows)
      {
        if d >= |week.dagen| {
          MissingDayFails(sched, w, d);
          return Failure(MissingDay);
        }
        var day := week.dagen[d];
        ghost var done := Join(ScheduleRows(sched, w), WeekRows(week, d));
        JoinEmpty(done);
        for s := 0 to |day.rooster|
          invariant Join(done, SubjectRows(week.week, d, day.rooster, s)) == Success(rows)
        {
          var subj := day.rooster[s];
          var weekText := "";
          var dayText := "";
          if s == 0 {
            if d == 0 {
              weekText := "Week " + IntToString(week.week);
            }
            dayText := DayNames[d];
          }
          assert weekText == if s == 0 && d == 0 then "Week " + IntToString(week.week) else "";
          assert dayText == if s == 0 then DayNames[d] else "";
          var name := SubjectName(subj.onderwerp);
          if subj.soortRooster !in KindColours {
            JoinSuccessParts(ScheduleRows(sched, w), WeekRows(week, d), SubjectRows(week.week, d, day.rooster, s));
            UnknownKindFails(sched, w, d, s);
            return Failure(UnknownKind(subj.soortRooster));
          }
          var row := Row(weekText, dayText, name, KindColours[subj.soortRooster],
                         subj.tijdVanaf, subj.tijdTm, subj.locatie);
          assert MakeRow(week.week, d, s, subj) == Success(row);
          JoinAssociative(done, SubjectRows(week.week, d, day.rooster, s), Success([row]));
          rows := rows + [row];
        }
        JoinAssociative(ScheduleRows(sched, w), WeekRows(week, d), DayRows(week, d));
      }
      assert ScheduleRows(sched, w + 1) == Join(ScheduleRows(sched, w), WeekRows(week, 7));
    }
    return Success(rows);
  }

  /** Every one of the first n subjects of a day has a kind in the colour table. */
  ghost predicate KindsKnown(subjects: seq<Subject>, n: nat)
  {
    forall s :: 0 <= s < n && s < |subjects| ==> subjects[s].soortRooster in KindColours
  }

  /** A week `style_schedule` can lay out: seven days, every kind known. */
  ghost predicate WellFormedWeek(w: Week)
  {
    |w.dagen| >= 7 && forall d :: 0 <= d < 7 ==> KindsKnown(w.dagen[d].rooster, |w.dagen[d].rooster|)
  }

  /** The rows of a day: they exist exactly when every kind is known, and
      then row s is the row of subject s. */
  lemma SubjectRowsShape(weekNo: int, d: nat, subjects: seq<Subject>, n: nat)
    requires d < 7 && n <= |subjects|
    ensures SubjectRows(weekNo, d, subjects, n).Success? <==> KindsKnown(subjects, n)
    ensures SubjectRows(weekNo, d, subjects, n).Success? ==>
      && |SubjectRows(weekNo, d, subjects, n).value| == n
      && forall s :: 0 <= s < n ==> SubjectRows(weekNo, d, subjects, n).value[s] == MakeRow(weekNo, d, s, subjects[s]).value
  {
    CollectShape(DayResults(weekNo, d, subjects), n);
  }

  /** The number of rows in a row list, none for a failure. */
  function Width(part: Result<seq<Row>, ScheduleError>): nat
  {
    if part.Success? then |part.value| else 0
  }

  /** Rows in the first n row lists. */
  function Widths(parts: seq<Result<seq<Row>, ScheduleError>>, n: nat): nat
    requires n <= |parts|
  {
    if n == 0 then 0 else Widths(parts, n - 1) + Width(parts[n - 1])
  }

  lemma {:induction false} WidthsMonotonic(parts: seq<Result<seq<Row>, ScheduleError>>, m: nat, n: nat)
    requires m <= n <= |parts|
    ensures Widths(parts, m) <= Widths(parts, n)
    decreases n
  {
    if m < n {
      WidthsMonotonic(parts, m, n - 1);
    }
  }

  /** Flattened rows exist exactly when every list does, and then there
      are as many as in all the lists together. */
  lemma {:induction false} FlattenShape(parts: seq<Result<seq<Row>, ScheduleError>>, n: nat)
    requires n <= |parts|
    ensures Flatten(parts, n).Success? <==> forall i :: 0 <= i < n ==> parts[i].Success?
    ensures Flatten(parts, n).Success? ==> |Flatten(parts, n).value| == Widths(parts, n)
  {
    if n > 0 {
      FlattenShape(parts, n - 1);
    }
  }

  /** Row j of list i of a successful flattening sits right after the rows
      of the lists before it, at position at. */
  lemma {:induction false} FlattenAt(parts: seq<Result<seq<Row>, ScheduleError>>, n: nat, i: nat, j: nat, at: nat)
    requires n <= |parts| && Flatten(parts, n).Success? && i < n && j < Width(parts[i])
    requires at == Widths(parts, i) + j
    ensures parts[i].Success?
    ensures at < |Flatten(parts, n).value|
    ensures Flatten(parts, n).value[at] == parts[i].value[j]
  {
    FlattenShape(parts, n - 1);
    FlattenShape(parts, n);
    var prev := Flatten(parts, n - 1).value;
    assert Flatten(parts, n).value == prev + parts[n - 1].value;
    if i < n - 1 {
      FlattenAt(parts, n - 1, i, j, at);
    }
  }

  /** The list that row k of the first n lists comes from: every row comes
      from exactly one list. */
  function PartOf(parts: seq<Result<seq<Row>, ScheduleError>>, n: nat, k: nat): (i: nat)
    requires n <= |parts| && k < Widths(parts, n)
    ensures i < n && Widths(parts, i) <= k < Widths(parts, i) + Width(parts[i])
  {
    if k >= Widths(parts, n - 1) then n - 1 else PartOf(parts, n - 1, k)
  }

  /** Subjects in days 0 to n - 1 of a week (a day it lacks has none). */
  function DaysSize(w: Week, n: nat): nat
  {
    if n == 0 then 0
    else DaysSize(w, n - 1) + (if n - 1 < |w.dagen| then |w.dagen[n - 1].rooster| else 0)
  }

  /** The row r holds sits at position at of rows. */
  ghost predicate Placed(rows: seq<Row>, at: int, r: Result<Row, ScheduleError>)
  {
    0 <= at < |rows| && r.Success? && rows[at] == r.value
  }

  /** A row placed in one list and copied into another is placed there too. */
  lemma PlacedCopy(rows: seq<Row>, part: seq<Row>, i: int, j: int, r: Result<Row, ScheduleError>)
    requires Placed(part, j, r)
    requires 0 <= i < |rows| && rows[i] == part[j]
    ensures Placed(rows, i, r)
  {
  }

  /** The row of subject s of day d sits at position at of rows. */
  ghost predicate RowAt(rows: seq<Row>, at: int, weekNo: int, d: nat, s: nat, subj: Subject)
    requires d < 7
  {
    Placed(rows, at, MakeRow(weekNo, d, s, subj))
  }

  /** Subject s of day d of week w has its row at position base +
      DaysSize(w, d) + s of rows. */
  ghost predicate InWeekAt(rows: seq<Row>, base: nat, w: Week, d: nat, s: nat)
  {
    && d < 7 && d < |w.dagen| && s < |w.dagen[d].rooster|
    && RowAt(rows, Position(base, w, d, s), w.week, d, s, w.dagen[d].rooster[s])
  }

  /** Position base + DaysSize(w, d) + s: where subject s of day d of w
      lands when w's rows start at base. */
  function Position(base: nat, w: Week, d: nat, s: nat): nat
  {
    base + DaysSize(w, d) + s
  }

  /** In a week that lays out, day d's rows start after the subjects of
      the days before it. */
  lemma {:induction false} WeekWidths(w: Week, n: nat)
    requires n <= 7 && WeekRows(w, 7).Success?
    ensures 7 <= |w.dagen| && Widths(WeekParts(w), n) == DaysSize(w, n)
  {
    FlattenShape(WeekParts(w), 7);
    if n > 0 {
      WeekWidths(w, n - 1);
      var subjects := w.dagen[n - 1].rooster;
      SubjectRowsShape(w.week, n - 1, subjects, |subjects|);
    }
  }

  /** A day's rows exist exactly when the week has that day and every
      kind in it is known; then row s is the row of subject s. */
  lemma DayRowsShape(w: Week, d: nat)
    requires d < 7
    ensures DayRows(w, d).Success? <==> d < |w.dagen| && KindsKnown(w.dagen[d].rooster, |w.dagen[d].rooster|)
    ensures DayRows(w, d).Success? ==>
      && |DayRows(w, d).value| == |w.dagen[d].rooster|
      && forall s :: 0 <= s < |w.dagen[d].rooster| ==>
           RowAt(DayRows(w, d).value, s, w.week, d, s, w.dagen[d].rooster[s])
  {
    if d < |w.dagen| {
      SubjectRowsShape(w.week, d, w.dagen[d].rooster, |w.dagen[d].rooster|);
    }
  }

  /** A week's rows exist exactly when the week is well formed. */
  lemma WeekRowsSucceed(w: Week)
    ensures WeekRows(w, 7).Success? <==> WellFormedWeek(w)
  {
    var parts := WeekParts(w);
    FlattenShape(parts, 7);
    forall d | 0 <= d < 7
      ensures parts[d].Success? <==> d < |w.dagen| && KindsKnown(w.dagen[d].rooster, |w.dagen[d].rooster|)
    {
      DayRowsShape(w, d);
    }
    if |w.dagen| < 7 {
      assert !parts[6].Success?;
    }
  }

  /** A week that lays out has one row per subject of days 0 to 6. */
  lemma WeekRowsCount(w: Week)
    requires WeekRows(w, 7).Success?
    ensures 7 <= |w.dagen| && |WeekRows(w, 7).value| == DaysSize(w, 7)
  {
    FlattenShape(WeekParts(w), 7);
    WeekWidths(w, 7);
  }

  /** A week's rows follow day, then subject order: subject s of day d has
      its row at position DaysSize(w, d) + s. */
  lemma WeekRowsOrder(w: Week)
    requires WeekRows(w, 7).Success?
    ensures 7 <= |w.dagen|
    ensures forall d, s {:trigger InWeekAt(WeekRows(w, 7).value, 0, w, d, s)} ::
      0 <= d < 7 && 0 <= s < |w.dagen[d].rooster| ==> InWeekAt(WeekRows(w, 7).value, 0, w, d, s)
  {
    var parts := WeekParts(w);
    FlattenShape(parts, 7);
    WeekWidths(w, 7);
    forall d, s | 0 <= d < 7 && 0 <= s < |w.dagen[d].rooster|
      ensures InWeekAt(WeekRows(w, 7).value, 0, w, d, s)
    {
      DayRowsShape(w, d);
      WeekWidths(w, d);
      assert RowAt(parts[d].value, s, w.week, d, s, w.dagen[d].rooster[s]);
      FlattenAt(parts, 7, d, s, Position(0, w, d, s));
    }
  }

  /** Only the first row of a week carries the week label, and only when
      Monday has a subject: a week whose Monday is empty gets no label. */
  lemma WeekLabelOnce(w: Week)
    requires WeekRows(w, 7).Success?
    ensures forall k :: 0 <= k < |WeekRows(w, 7).value| ==>
      (WeekRows(w, 7).value[k].weekText != "" <==> k == 0 && |w.dagen[0].rooster| > 0)
  {
    var parts := WeekParts(w);
    var rows := WeekRows(w, 7).value;
    FlattenShape(parts, 7);
    DayRowsShape(w, 0);
    assert Widths(parts, 1) == |w.dagen[0].rooster|;
    forall k | 0 <= k < |rows|
      ensures rows[k].weekText != "" <==> k == 0 && |w.dagen[0].rooster| > 0
    {
      var d := PartOf(parts, 7, k);
      var s := k - Widths(parts, d);
      FlattenAt(parts, 7, d, s, k);
      DayRowsShape(w, d);
      assert RowAt(parts[d].value, s, w.week, d, s, w.dagen[d].rooster[s]);
      if d > 0 {
        WidthsMonotonic(parts, 1, d);
      }
    }
  }

  /** Subjects in all weeks before n. */
  function WeeksSize(sched: seq<Week>, n: nat): nat
    requires n <= |sched|
  {
    if n == 0 then 0 else WeeksSize(sched, n - 1) + DaysSize(sched[n - 1], 7)
  }

  /** A schedule's rows exist exactly when every week is well formed. */
  lemma ScheduleRowsSucceed(sched: seq<Week>)
    ensures ScheduleRows(sched, |sched|).Success? <==> forall w :: 0 <= w < |sched| ==> WellFormedWeek(sched[w])
  {
    var parts := ScheduleParts(sched);
    FlattenShape(parts, |sched|);
    forall w | 0 <= w < |sched|
      ensures parts[w].Success? <==> WellFormedWeek(sched[w])
    {
      WeekRowsSucceed(sched[w]);
    }
  }

  /** Row lists as long as the subjects of the weeks add up to as many
      rows as subjects. */
  lemma {:induction false} WidthsMatch(parts: seq<Result<seq<Row>, ScheduleError>>, sched: seq<Week>, n: nat)
    requires n <= |parts| && n <= |sched|
    requires forall w :: 0 <= w < n ==> Width(parts[w]) == DaysSize(sched[w], 7)
    ensures Widths(parts, n) == WeeksSize(sched, n)
  {
    if n > 0 {
      WidthsMatch(parts, sched, n - 1);
    }
  }

  /** In a schedule that lays out, every week has seven days and a row per
      subject in them. */
  lemma ScheduleWeeksLayOut(sched: seq<Week>)
    requires ScheduleRows(sched, |sched|).Success?
    ensures forall w :: 0 <= w < |sched| ==> |sched[w].dagen| >= 7
    ensures forall w :: 0 <= w < |sched| ==> Width(ScheduleParts(sched)[w]) == DaysSize(sched[w], 7)
  {
    var parts := ScheduleParts(sched);
    FlattenShape(parts, |sched|);
    forall w | 0 <= w < |sched|
      ensures |sched[w].dagen| >= 7 && Width(parts[w]) == DaysSize(sched[w], 7)
    {
      assert parts[w].Success?;
      WeekRowsCount(sched[w]);
    }
  }

  /** In a schedule that lays out, the rows of the weeks before n are as
      many as their subjects. */
  lemma ScheduleWidths(sched: seq<Week>, n: nat)
    requires n <= |sched| && ScheduleRows(sched, |sched|).Success?
    ensures Widths(ScheduleParts(sched), n) == WeeksSize(sched, n)
  {
    ScheduleWeeksLayOut(sched);
    WidthsMatch(ScheduleParts(sched), sched, n);
  }

  /** A schedule that lays out has one row per subject of days 0 to 6 of
      every week. */
  lemma ScheduleRowsCount(sched: seq<Week>)
    requires ScheduleRows(sched, |sched|).Success?
    ensures forall w :: 0 <= w < |sched| ==> |sched[w].dagen| >= 7
    ensures |ScheduleRows(sched, |sched|).value| == WeeksSize(sched, |sched|)
  {
    FlattenShape(ScheduleParts(sched), |sched|);
    ScheduleWeeksLayOut(sched);
    WidthsMatch(ScheduleParts(sched), sched, |sched|);
  }

  /** A row placed in a week's rows keeps its place, shifted by base, in
      rows that repeat the week's row there. */
  lemma InWeekAtShift(rows: seq<Row>, part: seq<Row>, base: nat, w: Week, d: nat, s: nat)
    requires InWeekAt(part, 0, w, d, s)
    requires Position(base, w, d, s) < |rows|
    requires rows[Position(base, w, d, s)] == part[Position(0, w, d, s)]
    ensures InWeekAt(rows, base, w, d, s)
  {
    PlacedCopy(rows, part, Position(base, w, d, s), Position(0, w, d, s),
               MakeRow(w.week, d, s, w.dagen[d].rooster[s]));
  }

  /** Subject s of day d of week w of a schedule that lays out has its row
      after the subjects of the weeks before it. */
  lemma ScheduleRowAt(sched: seq<Week>, w: nat, d: nat, s: nat)
    requires ScheduleRows(sched, |sched|).Success?
    requires w < |sched| && d < 7 && d < |sched[w].dagen| && s < |sched[w].dagen[d].rooster|
    ensures InWeekAt(ScheduleRows(sched, |sched|).value, WeeksSize(sched, w), sched[w], d, s)
  {
    var parts := ScheduleParts(sched);
    FlattenShape(parts, |sched|);
    assert parts[w].Success?;
    var part := parts[w].value;
    WeekRowsOrder(sched[w]);
    assert InWeekAt(part, 0, sched[w], d, s);
    ScheduleWidths(sched, w);
    FlattenAt(parts, |sched|, w, Position(0, sched[w], d, s), Position(WeeksSize(sched, w), sched[w], d, s));
    InWeekAtShift(ScheduleRows(sched, |sched|).value, part, WeeksSize(sched, w), sched[w], d, s);
  }

  /** A schedule's rows follow week, then day, then subject order: subject
      s of day d of week w has its row at position WeeksSize(sched, w) +
      DaysSize(sched[w], d) + s. */
  lemma ScheduleRowsOrder(sched: seq<Week>)
    requires ScheduleRows(sched, |sched|).Success?
    ensures forall w :: 0 <= w < |sched| ==> |sched[w].dagen| >= 7
    ensures forall w, d, s {:trigger InWeekAt(ScheduleRows(sched, |sched|).value, WeeksSize(sched, w), sched[w], d, s)} ::
      0 <= w < |sched| && 0 <= d < 7 && 0 <= s < |sched[w].dagen[d].rooster| ==>
        InWeekAt(ScheduleRows(sched, |sched|).value, WeeksSize(sched, w), sched[w], d, s)
  {
    ScheduleWeeksLayOut(sched);
    forall w, d, s | 0 <= w < |sched| && 0 <= d < 7 && 0 <= s < |sched[w].dagen[d].rooster|
      ensures InWeekAt(ScheduleRows(sched, |sched|).value, WeeksSize(sched, w), sched[w], d, s)
    {
      ScheduleRowAt(sched, w, d, s);
    }
  }

  /** The week number of a date in the ISO calendar, with its year. */
  datatype IsoWeek = IsoWeek(year: int, week: int)

  /** The cache file: absent; present but raising before its week is
      compared (unopenable, not JSON, not an object, without
      `time_written`, or with a time `fromtimestamp` rejects); or a JSON object with the
      week it was written in, that moment's text, and its `schedule` entry
      when it has one. */
  datatype CacheFile = Missing | Unreadable | Cached(schedule: Option<seq<Week>>, written: IsoWeek, writtenText: string)

  /** An exception raised out of `read_schedule`: an error opening or
      decoding the file, or a KeyError for `time_written` or `schedule`. */
  datatype CacheError = CacheError

  /** `read_schedule` (sisutil.py:35-47): None when the file is missing or
      was written in another ISO week number (the year is not compared),
      whether or not it holds a schedule; otherwise the schedule with the
      time it was written, or a KeyError when the fresh cache has none. */
  function ReadSchedule(file: CacheFile, now: IsoWeek): (r: Result<Option<(seq<Week>, string)>, CacheError>)
    ensures r.Failure? <==> file.Unreadable? || (file.Cached? && file.written.week == now.week && file.schedule.None?)
    ensures r == Success(None) <==> file.Missing? || (file.Cached? && file.written.week != now.week)
    ensures r.Success? && r.value.Some? ==>
      && file.Cached? && file.written.week == now.week && file.schedule.Some?
      && r.value.value == (file.schedule.value, file.writtenText)
  {
    match file
    case Missing => Success(None)
    case Unreadable => Failure(CacheError)
    case Cached(schedule, written, text) =>
      if written.week != now.week then Success(None)
      else if schedule.None? then Failure(CacheError)
      else Success(Some((schedule.value, text)))
  }

  /** A stale cache is never read further: it gives None even without a
      `schedule` entry. */
  lemma StaleCacheIgnoresContent(a: Option<seq<Week>>, b: Option<seq<Week>>, written: IsoWeek, text: string, now: IsoWeek)
    requires written.week != now.week
    ensures ReadSchedule(Cached(a, written, text), now) == ReadSchedule(Cached(b, written, text), now) == Success(None)
  {
  }

  /** A cache from the same week number of another year counts as fresh. */
  lemma CacheYearIgnored(schedule: seq<Week>, text: string, week: int, y1: int, y2: int)
    ensures ReadSchedule(Cached(Some(schedule), IsoWeek(y1, week), text), IsoWeek(y2, week)) == Success(Some((schedule, text)))
  {
  }
}
