/** The Steam games table and the aggregates the chatbot computes over it:
    the row count, the mean price, the most frequent genre or developer,
    and the number of games released per year. */
module Games {

  datatype Option<T> = None | Some(value: T)

  /** One row of the CSV file (only the columns the chatbot reads). */
  datatype Game = Game(price: real, genres: string, developer: string, releaseYear: int)

  /** The two text columns whose most frequent value can be asked for. */
  datatype Column = GenresColumn | DeveloperColumn

  function Cell(g: Game, col: Column): string
  {
    match col
    case GenresColumn => g.genres
    case DeveloperColumn => g.developer
  }

  /** `df[col]` for a text column. */
  function ColumnValues(rows: seq<Game>, col: Column): seq<string>
  {
    seq(|rows|, i requires 0 <= i < |rows| => Cell(rows[i], col))
  }

  /** `df['price']`. */
  function Prices(rows: seq<Game>): seq<real>
  {
    seq(|rows|, i requires 0 <= i < |rows| => rows[i].price)
  }

  /** `df['release_year']`. */
  function ReleaseYears(rows: seq<Game>): seq<int>
  {
    seq(|rows|, i requires 0 <= i < |rows| => rows[i].releaseYear)
  }

  // ----- Most frequent value: value_counts().idxmax() -----

  /** A candidate whose number of occurrences in `xs` is largest; among
      equally frequent candidates the earliest one is kept. */
  function BestOf(xs: seq<string>, cands: seq<string>): (r: string)
    requires |cands| > 0
    ensures r in cands
    ensures forall c :: c in cands ==> multiset(xs)[c] <= multiset(xs)[r]
  {
    if |cands| == 1 then cands[0]
    else
      var rest := BestOf(xs, cands[1..]);
      if multiset(xs)[rest] <= multiset(xs)[cands[0]] then cands[0] else rest
  }

  /** The mode of a non-empty column: a value that occurs in it and that
      occurs at least as often as any other value. */
  function Mode(xs: seq<string>): (r: string)
    requires |xs| > 0
    ensures r in xs
    ensures forall v :: multiset(xs)[v] <= multiset(xs)[r]
  {
    BestOf(xs, xs)
  }

  /** A value that occurs strictly more often than every other value is
      the mode, whatever tie-break is used. */
  lemma ModeOfStrictMajority(xs: seq<string>, v: string)
    requires |xs| > 0
    requires forall w :: w != v ==> multiset(xs)[w] < multiset(xs)[v]
    ensures Mode(xs) == v
  {
  }

  // ----- Mean of the price column: df['price'].mean() -----

  function Sum(xs: seq<real>): real
  {
    if xs == [] then 0.0 else xs[0] + Sum(xs[1..])
  }

  /** The arithmetic mean; `None` stands for the NaN that the mean of an
      empty column gives. */
  function Mean(xs: seq<real>): (m: Option<real>)
    ensures m.None? <==> |xs| == 0
    ensures m.Some? ==> m.value * |xs| as real == Sum(xs)
  {
    if |xs| == 0 then None else Some(Sum(xs) / |xs| as real)
  }

  /** A sum of values all within [lo, hi] lies within n*lo and n*hi. */
  lemma {:induction false} SumBounds(xs: seq<real>, lo: real, hi: real)
    requires forall i :: 0 <= i < |xs| ==> lo <= xs[i] <= hi
    ensures lo * |xs| as real <= Sum(xs) <= hi * |xs| as real
  {
    if xs != [] {
      SumBounds(xs[1..], lo, hi);
      assert lo <= xs[0] <= hi;
    }
  }

  /** The mean lies between any lower and any upper bound of the values,
      so in particular between the smallest and the largest price. */
  lemma MeanBounds(xs: seq<real>, lo: real, hi: real)
    requires |xs| > 0
    requires forall i :: 0 <= i < |xs| ==> lo <= xs[i] <= hi
    ensures lo <= Mean(xs).value <= hi
  {
    SumBounds(xs, lo, hi);
    var n := |xs| as real;
    var m := Mean(xs).value;
    assert m * n == Sum(xs);
  }

  // ----- Games per year: df.groupby('release_year').size() -----

  /** One row of the grouped table: a year and its number of games. */
  datatype YearCount = YearCount(year: int, games: nat)

  predicate StrictlyAscending(t: seq<YearCount>)
  {
    forall i, j :: 0 <= i < j < |t| ==> t[i].year < t[j].year
  }

  predicate AllPositive(t: seq<YearCount>)
  {
    forall i :: 0 <= i < |t| ==> t[i].games > 0
  }

  /** The games the table records for year `y`, over all its rows. */
  function CountOf(t: seq<YearCount>, y: int): nat
  {
    if t == [] then 0 else (if t[0].year == y then t[0].games else 0) + CountOf(t[1..], y)
  }

  /** The games the table records over all years. */
  function Total(t: seq<YearCount>): nat
  {
    if t == [] then 0 else t[0].games + Total(t[1..])
  }

  /** Counts one more game of year `y` into a table ordered by year. */
  function Insert(t: seq<YearCount>, y: int): (r: seq<YearCount>)
    ensures |r| > 0
    ensures r[0].year == if t == [] || y < t[0].year then y else t[0].year
    ensures StrictlyAscending(t) ==> StrictlyAscending(r)
    ensures AllPositive(t) ==> AllPositive(r)
    ensures forall z :: CountOf(r, z) == CountOf(t, z) + (if z == y then 1 else 0)
    ensures Total(r) == Total(t) + 1
  {
    if t == [] then [YearCount(y, 1)]
    else if y < t[0].year then [YearCount(y, 1)] + t
    else if y == t[0].year then [YearCount(y, t[0].games + 1)] + t[1..]
    else
      var rest := Insert(t[1..], y);
      assert StrictlyAscending(t) ==> StrictlyAscending(t[1..]);
      [t[0]] + rest
  }

  /** The per-year table: ordered by year, no empty year, and each year's
      entry is the number of games released in it. */
  function GroupCounts(years: seq<int>): (t: seq<YearCount>)
    ensures StrictlyAscending(t)
    ensures AllPositive(t)
    ensures forall y :: CountOf(t, y) == multiset(years)[y]
    ensures Total(t) == |years|
  {
    if years == [] then []
    else
      assert years == [years[0]] + years[1..];
      Insert(GroupCounts(years[1..]), years[0])
  }

  /** In a table ordered by year, a row's count is the whole count of its year. */
  lemma {:induction false} CountOfAt(t: seq<YearCount>, i: nat)
    requires StrictlyAscending(t)
    requires i < |t|
    ensures CountOf(t, t[i].year) == t[i].games
  {
    if i == 0 {
      CountOfMissing(t[1..], t[0].year);
    } else {
      CountOfAt(t[1..], i - 1);
    }
  }

  /** A year below every year of the table has no games in it. */
  lemma {:induction false} CountOfMissing(t: seq<YearCount>, y: int)
    requires forall i :: 0 <= i < |t| ==> y < t[i].year
    ensures CountOf(t, y) == 0
  {
    if t != [] {
      CountOfMissing(t[1..], y);
    }
  }

  /** A year with games in the table has a row of its own. */
  lemma {:induction false} CountOfPositive(t: seq<YearCount>, y: int)
    requires CountOf(t, y) > 0
    ensures exists i :: 0 <= i < |t| && t[i].year == y
  {
    if t[0].year != y {
      CountOfPositive(t[1..], y);
      var i :| 0 <= i < |t[1..]| && t[1..][i].year == y;
      assert t[i + 1].year == y;
    }
  }

  /** Every row of the grouped table counts exactly the games of its year,
      and the table has a row for a year exactly when some game was
      released in it. */
  lemma GroupCountsRows(years: seq<int>)
    ensures forall i :: 0 <= i < |GroupCounts(years)| ==>
      GroupCounts(years)[i].games == multiset(years)[GroupCounts(years)[i].year]
    ensures forall y :: y in years <==> exists i :: 0 <= i < |GroupCounts(years)| && GroupCounts(years)[i].year == y
  {
    var t := GroupCounts(years);
    forall i | 0 <= i < |t|
      ensures t[i].games == multiset(years)[t[i].year]
    {
      CountOfAt(t, i);
    }
    forall y
      ensures y in years <==> exists i :: 0 <= i < |t| && t[i].year == y
    {
      if y in years {
        assert multiset(years)[y] > 0;
        CountOfPositive(t, y);
      }
      if exists i :: 0 <= i < |t| && t[i].year == y {
        var i :| 0 <= i < |t| && t[i].year == y;
        CountOfAt(t, i);
        assert multiset(years)[y] > 0;
      }
    }
    assert t == GroupCounts(years);
  }

  // ----- Worked examples -----

  /** Prices 10, 20 and 30 average to 20. */
  lemma MeanExample()
    ensures Mean([10.0, 20.0, 30.0]) == Some(20.0)
  {
  }

  /** Three "Action" games and two "RPG" games make "Action" the mode. */
  lemma ModeExample()
    ensures Mode(["Action", "RPG", "Action", "RPG", "Action"]) == "Action"
  {
  }

  /** Years 2021, 2021, 2022 group into (2021, 2), (2022, 1). */
  lemma GroupCountsExample()
    ensures GroupCounts([2021, 2021, 2022]) == [YearCount(2021, 2), YearCount(2022, 1)]
  {
  }
}
