/**
 * The study-activity grid of the dashboard: 52 columns of 7 days, each day
 * shaded by how many lessons were completed on it.
 */
module ContributionGraph {

  /** One square: its shade, its day (as a day number) and the count shown in its tooltip. */
  datatype Cell = Cell(level: nat, date: int, count: nat)

  const WEEKS: nat := 52
  const DAYS_PER_WEEK: nat := 7
  const EMPTY_COLOR: string := "bg-slate-800/50"

  /** The shade of a count: 0 for none, 1 for 1-2, 2 for 3-5, 3 for 6-8, 4 above 8. */
  function Level(count: int): (r: nat)
    ensures r <= 4
  {
    if count > 8 then 4
    else if count > 5 then 3
    else if count > 2 then 2
    else if count > 0 then 1
    else 0
  }

  lemma LevelBands(count: int)
    ensures Level(count) == 0 <==> count <= 0
    ensures Level(count) == 1 <==> 1 <= count <= 2
    ensures Level(count) == 2 <==> 3 <= count <= 5
    ensures Level(count) == 3 <==> 6 <= count <= 8
    ensures Level(count) == 4 <==> count > 8
  {
  }

  /** More completed lessons never give a lighter shade. */
  lemma LevelMonotone(a: int, b: int)
    requires a <= b
    ensures Level(a) <= Level(b)
  {
  }

  /** getColor: one class for each shade 1 to 4, the empty colour for anything else. */
  function GetColor(level: int): (r: string)
    ensures 1 <= level <= 4 ==> r != EMPTY_COLOR
    ensures !(1 <= level <= 4) ==> r == EMPTY_COLOR
  {
    match level
    case 1 => "bg-emerald-900/50"
    case 2 => "bg-emerald-700/60"
    case 3 => "bg-emerald-500/70"
    case 4 => "bg-emerald-400"
    case _ => EMPTY_COLOR
  }

  /** The four shades have four different colours. */
  lemma ColorsDistinct(a: int, b: int)
    requires 1 <= a <= 4 && 1 <= b <= 4 && a != b
    ensures GetColor(a) != GetColor(b)
  {
  }

  /** A day without completed lessons is drawn in the empty colour, any other day in a shade. */
  lemma EmptyDayColor(activity: map<int, nat>, day: int)
    ensures GetColor(CellFor(activity, day).level) == EMPTY_COLOR <==> day !in activity || activity[day] == 0
  {
  }

  /** The square of one day: activityData[date] || 0, and its level. */
  function CellFor(activity: map<int, nat>, day: int): Cell
  {
    var count := if day in activity then activity[day] else 0;
    Cell(Level(count), day, count)
  }

  /** The grid whose first square is the day start, column after column. */
  function Grid(activity: map<int, nat>, start: int): (g: seq<seq<Cell>>)
    ensures |g| == WEEKS && forall w :: 0 <= w < WEEKS ==> |g[w]| == DAYS_PER_WEEK
  {
    seq(52, w => seq(7, d => CellFor(activity, start + 7 * w + d)))
  }

  lemma GridAt(activity: map<int, nat>, start: int, w: int, d: int)
    requires 0 <= w < WEEKS && 0 <= d < DAYS_PER_WEEK
    ensures Grid(activity, start)[w][d] == CellFor(activity, start + 7 * w + d)
  {
    assert Grid(activity, start)[w] == seq(7, d => CellFor(activity, start + 7 * w + d));
  }

  /** The first day as written: 364 days before today. */
  function WrittenStart(today: int): int { today - 364 }

  /** The first day that makes the last square today. */
  function IntendedStart(today: int): int { today - 363 }

  /** The grid covers 364 consecutive days from its start, each exactly once, in order. */
  lemma GridCoversDays(activity: map<int, nat>, start: int, day: int)
    requires start <= day < start + WEEKS * DAYS_PER_WEEK
    ensures var w := (day - start) / DAYS_PER_WEEK;
            var d := (day - start) % DAYS_PER_WEEK;
            && 0 <= w < WEEKS && 0 <= d < DAYS_PER_WEEK
            && Grid(activity, start)[w][d] == CellFor(activity, day)
            && forall w', d' :: 0 <= w' < WEEKS && 0 <= d' < DAYS_PER_WEEK && Grid(activity, start)[w'][d'].date == day ==>
                  w' == w && d' == d
  {
    var g: seq<seq<Cell>> := Grid(activity, start);
    var w := (day - start) / 7;
    var d := (day - start) % 7;
    assert day - start == 7 * w + d;
    GridAt(activity, start, w, d);
    forall w', d' | 0 <= w' < WEEKS && 0 <= d' < DAYS_PER_WEEK && g[w'][d'].date == day
      ensures w' == w && d' == d
    {
      GridAt(activity, start, w', d');
      assert 7 * w' + d' == 7 * w + d;
    }
  }

  /** As written, every square lies before today: today's completions are not drawn. */
  lemma GridMissesToday(activity: map<int, nat>, today: int)
    ensures var g := Grid(activity, WrittenStart(today));
            && g[0][0].date == today - 364
            && g[WEEKS - 1][DAYS_PER_WEEK - 1].date == today - 1
            && forall w, d :: 0 <= w < WEEKS && 0 <= d < DAYS_PER_WEEK ==> g[w][d].date < today
  {
    var g: seq<seq<Cell>> := Grid(activity, WrittenStart(today));
    GridAt(activity, WrittenStart(today), 0, 0);
    GridAt(activity, WrittenStart(today), WEEKS - 1, DAYS_PER_WEEK - 1);
    forall w: int, d: int | 0 <= w < WEEKS && 0 <= d < DAYS_PER_WEEK ensures g[w][d].date < today {
      GridAt(activity, WrittenStart(today), w, d);
    }
  }

  /** Starting one day later, the last square is today. */
  lemma IntendedGridEndsToday(activity: map<int, nat>, today: int)
    ensures var g := Grid(activity, IntendedStart(today));
            && g[WEEKS - 1][DAYS_PER_WEEK - 1] == CellFor(activity, today)
            && forall w, d :: 0 <= w < WEEKS && 0 <= d < DAYS_PER_WEEK ==> today - 363 <= g[w][d].date <= today
  {
    var g: seq<seq<Cell>> := Grid(activity, IntendedStart(today));
    GridAt(activity, IntendedStart(today), WEEKS - 1, DAYS_PER_WEEK - 1);
    forall w: int, d: int | 0 <= w < WEEKS && 0 <= d < DAYS_PER_WEEK ensures today - 363 <= g[w][d].date <= today {
      GridAt(activity, IntendedStart(today), w, d);
    }
  }

  /** The weeks memo: two nested loops advancing currentDate one day per square. */
  method BuildWeeks(activity: map<int, nat>, today: int) returns (data: seq<seq<Cell>>)
    ensures data == Grid(activity, WrittenStart(today))
  {
    var start := today - 364;
    var currentDate := start;
    data := [];
    for w := 0 to 52
      invariant |data| == w
      invariant currentDate == start + 7 * w
      invariant forall i :: 0 <= i < w ==> data[i] == Grid(activity, start)[i]
    {
      var week: seq<Cell> := [];
      for d := 0 to 7
        invariant |week| == d
        invariant currentDate == start + 7 * w + d
        invariant forall j :: 0 <= j < d ==> week[j] == CellFor(activity, start + 7 * w + j)
      {
        var count := if currentDate in activity then activity[currentDate] else 0;
        var level := 0;
        if count > 8 {
          level := 4;
        } else if count > 5 {
          level := 3;
        } else if count > 2 {
          level := 2;
        } else if count > 0 {
          level := 1;
        }
        week := week + [Cell(level, currentDate, count)];
        currentDate := currentDate + 1;
      }
      assert week == Grid(activity, start)[w];
      data := data + [week];
    }
  }
}
