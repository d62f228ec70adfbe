/** The rule-based chatbot: a query is lower-cased and matched against a
    fixed, ordered list of phrases; the first phrase found selects one
    aggregate over the games table, which is then rendered as a line of
    text or, for the per-year counts, as a table. Also the disabled-AI
    guard that precedes any call to the hosted language model. */
module Chatbot {
  import opened Text
  import opened Games

  // ----- Intent classification -----

  datatype Intent =
    | TotalGames
    | AveragePrice
    | TopGenre
    | TopDeveloper
    | GamesPerYear
    | Summary
    | Unrecognized

  /** The substring tests of the chatbot, in the order it makes them;
      the first test that succeeds decides the intent. */
  function Classify(q: string): Intent
  {
    var s := Lower(q);
    if Contains(s, "total games") then TotalGames
    else if Contains(s, "average price") then AveragePrice
    else if Contains(s, "top genre") then TopGenre
    else if Contains(s, "top developer") then TopDeveloper
    else if Contains(s, "games per year") then GamesPerYear
    else if Contains(s, "summary") || Contains(s, "insight") then Summary
    else Unrecognized
  }

  /** A row of the priority table: phrases any one of which selects the intent. */
  datatype Rule = Rule(phrases: seq<string>, intent: Intent)

  /** The priority table, highest priority first. */
  const Rules: seq<Rule> := [
    Rule(["total games"], TotalGames),
    Rule(["average price"], AveragePrice),
    Rule(["top genre"], TopGenre),
    Rule(["top developer"], TopDeveloper),
    Rule(["games per year"], GamesPerYear),
    Rule(["summary", "insight"], Summary)
  ]

  /** All phrases the chatbot recognises. */
  const Phrases: seq<string> :=
    ["total games", "average price", "top genre", "top developer", "games per year", "summary", "insight"]

  predicate Fires(r: Rule, s: string)
  {
    exists p :: p in r.phrases && Contains(s, p)
  }

  /** Reference semantics of an ordered rule table, from rule `i` on: the
      intent of the first rule that fires, or Unrecognized when none does. */
  function FirstMatch(rules: seq<Rule>, s: string, i: nat): Intent
    decreases |rules| - i
  {
    if i >= |rules| then Unrecognized
    else if Fires(rules[i], s) then rules[i].intent
    else FirstMatch(rules, s, i + 1)
  }

  /** The table names each intent once and never names Unrecognized. */
  predicate WellFormed(rules: seq<Rule>)
  {
    (forall k :: 0 <= k < |rules| ==> rules[k].intent != Unrecognized)
    && (forall j, k :: 0 <= j < k < |rules| ==> rules[j].intent != rules[k].intent)
  }

  /** The result from rule `i` on is Unrecognized or the intent of a rule
      at `i` or later. */
  lemma {:induction false} FirstMatchFrom(rules: seq<Rule>, s: string, i: nat)
    ensures FirstMatch(rules, s, i) == Unrecognized
      || exists j :: i <= j < |rules| && FirstMatch(rules, s, i) == rules[j].intent
    decreases |rules| - i
  {
    if i < |rules| && !Fires(rules[i], s) {
      FirstMatchFrom(rules, s, i + 1);
    }
  }

  /** In a well-formed table, rule k decides exactly when it fires and no
      earlier rule does. */
  lemma {:induction false} FirstMatchIff(rules: seq<Rule>, s: string, i: nat, k: nat)
    requires WellFormed(rules)
    requires i <= k < |rules|
    ensures FirstMatch(rules, s, i) == rules[k].intent <==>
      Fires(rules[k], s) && forall j :: i <= j < k ==> !Fires(rules[j], s)
    decreases k - i
  {
    if i == k {
      FirstMatchFrom(rules, s, k + 1);
    } else {
      FirstMatchIff(rules, s, i + 1, k);
      if Fires(rules[i], s) {
        assert FirstMatch(rules, s, i) == rules[i].intent != rules[k].intent;
        assert i <= i < k && Fires(rules[i], s);
      } else if Fires(rules[k], s) && forall j :: i + 1 <= j < k ==> !Fires(rules[j], s) {
        forall j | i <= j < k
          ensures !Fires(rules[j], s)
        {
          if j > i {
            assert i + 1 <= j < k;
          }
        }
      }
    }
  }

  /** In a well-formed table the result is Unrecognized exactly when no
      rule from `i` on fires. */
  lemma {:induction false} FirstMatchNone(rules: seq<Rule>, s: string, i: nat)
    requires WellFormed(rules)
    ensures FirstMatch(rules, s, i) == Unrecognized <==>
      forall k :: i <= k < |rules| ==> !Fires(rules[k], s)
    decreases |rules| - i
  {
    if i < |rules| {
      FirstMatchNone(rules, s, i + 1);
      if !Fires(rules[i], s) && forall k :: i + 1 <= k < |rules| ==> !Fires(rules[k], s) {
        forall k | i <= k < |rules|
          ensures !Fires(rules[k], s)
        {
          if k > i {
            assert i + 1 <= k < |rules|;
          }
        }
      }
    }
  }

  /** Each rule fires exactly when one of its own phrases occurs. */
  lemma RulesMatchPhrases(s: string)
    ensures |Rules| == 6 && |Phrases| == 7
    ensures forall k :: 0 <= k < 5 ==> (Fires(Rules[k], s) <==> Contains(s, Phrases[k]))
    ensures Fires(Rules[5], s) <==> Contains(s, Phrases[5]) || Contains(s, Phrases[6])
  {
  }

  /** The priority table names each intent once. */
  lemma RulesWellFormed()
    ensures WellFormed(Rules)
  {
  }

  /** The chatbot's if-chain is the first-match semantics of the priority table. */
  lemma ClassifyIsFirstMatch(q: string)
    ensures Classify(q) == FirstMatch(Rules, Lower(q), 0)
  {
    RulesWellFormed();
    var s := Lower(q);
    RulesMatchPhrases(s);
    assert FirstMatch(Rules, s, 5) == if Contains(s, "summary") || Contains(s, "insight") then Summary else Unrecognized;
    assert FirstMatch(Rules, s, 4) == if Contains(s, "games per year") then GamesPerYear else FirstMatch(Rules, s, 5);
    assert FirstMatch(Rules, s, 3) == if Contains(s, "top developer") then TopDeveloper else FirstMatch(Rules, s, 4);
    assert FirstMatch(Rules, s, 2) == if Contains(s, "top genre") then TopGenre else FirstMatch(Rules, s, 3);
    assert FirstMatch(Rules, s, 1) == if Contains(s, "average price") then AveragePrice else FirstMatch(Rules, s, 2);
    assert FirstMatch(Rules, s, 0) == if Contains(s, "total games") then TotalGames else FirstMatch(Rules, s, 1);
  }

  /** Rule k is chosen exactly when one of its phrases occurs in the
      lower-cased query and no phrase of an earlier rule does. */
  lemma ClassifyRule(q: string, k: nat)
    requires k < |Rules|
    ensures Classify(q) == Rules[k].intent <==>
      Fires(Rules[k], Lower(q)) && forall j :: 0 <= j < k ==> !Fires(Rules[j], Lower(q))
  {
    ClassifyIsFirstMatch(q);
    RulesWellFormed();
    FirstMatchIff(Rules, Lower(q), 0, k);
  }

  /** The help answer is given exactly when no rule fires, that is, when
      none of the seven phrases occurs in the lower-cased query. */
  lemma ClassifyUnrecognized(q: string)
    ensures Classify(q) == Unrecognized <==> forall k :: 0 <= k < |Rules| ==> !Fires(Rules[k], Lower(q))
    ensures Classify(q) == Unrecognized <==> forall i :: 0 <= i < |Phrases| ==> !Contains(Lower(q), Phrases[i])
  {
    ClassifyIsFirstMatch(q);
    RulesWellFormed();
    FirstMatchNone(Rules, Lower(q), 0);
    RulesMatchPhrases(Lower(q));
    if forall k :: 0 <= k < |Rules| ==> !Fires(Rules[k], Lower(q)) {
      forall i | 0 <= i < |Phrases|
        ensures !Contains(Lower(q), Phrases[i])
      {
        if i < 5 {
          assert !Fires(Rules[i], Lower(q));
        } else {
          assert !Fires(Rules[5], Lower(q));
        }
      }
    }
  }

  /** In particular the empty query gets the help answer. */
  lemma EmptyQueryUnrecognized()
    ensures Classify("") == Unrecognized
  {
  }

  /** "total games" wins over every other phrase, e.g. "total games summary". */
  lemma TotalGamesWins(q: string)
    requires Contains(Lower(q), "total games")
    ensures Classify(q) == TotalGames
  {
  }

  /** "summary" and "insight" each select the summary, unless an earlier
      phrase occurs too. */
  lemma SummaryOrInsight(q: string)
    ensures Classify(q) == Summary <==>
      (Contains(Lower(q), "summary") || Contains(Lower(q), "insight"))
      && forall i :: 0 <= i < 5 ==> !Contains(Lower(q), Phrases[i])
  {
    ClassifyRule(q, 5);
    RulesMatchPhrases(Lower(q));
  }

  /** Matching ignores case: a query and its lower-cased form get the same intent. */
  lemma ClassifyLower(q: string)
    ensures Classify(Lower(q)) == Classify(q)
  {
    LowerIdempotent(q);
  }

  /** Queries that differ only in the case of their letters get the same intent. */
  lemma ClassifyIgnoresCase(a: string, b: string)
    requires SameIgnoringCase(a, b)
    ensures Classify(a) == Classify(b)
  {
    LowerOfSameIgnoringCase(a, b);
  }

  // ----- Answers -----

  /** The aggregate a recognised intent evaluates, as a tagged value. */
  datatype Answer =
    | CountAnswer(count: nat)
    | PriceAnswer(mean: Option<real>)
    | GenreAnswer(genre: string)
    | DeveloperAnswer(developer: string)
    | YearTable(table: seq<YearCount>)
    | SummaryAnswer(total: nat, average: Option<real>, topGenre: string, topDeveloper: string)
    | HelpAnswer

  function IntentOf(a: Answer): Intent
  {
    match a
    case CountAnswer(_) => TotalGames
    case PriceAnswer(_) => AveragePrice
    case GenreAnswer(_) => TopGenre
    case DeveloperAnswer(_) => TopDeveloper
    case YearTable(_) => GamesPerYear
    case SummaryAnswer(_, _, _, _) => Summary
    case HelpAnswer => Unrecognized
  }

  /** Intents whose answer takes the most frequent value of a column,
      which fails on an empty table. */
  predicate NeedsRows(i: Intent)
  {
    i == TopGenre || i == TopDeveloper || i == Summary
  }

  /** The aggregate the chatbot evaluates for a query. */
  function Respond(q: string, rows: seq<Game>): (a: Answer)
    requires NeedsRows(Classify(q)) ==> |rows| > 0
    ensures IntentOf(a) == Classify(q)
    ensures a.CountAnswer? ==> a.count == |rows|
    ensures a.PriceAnswer? ==> (a.mean.None? <==> |rows| == 0)
    ensures a.PriceAnswer? && a.mean.Some? ==> a.mean.value * |rows| as real == Sum(Prices(rows))
    ensures a.GenreAnswer? ==> a.genre in ColumnValues(rows, GenresColumn)
    ensures a.GenreAnswer? ==> forall v ::
      multiset(ColumnValues(rows, GenresColumn))[v] <= multiset(ColumnValues(rows, GenresColumn))[a.genre]
    ensures a.DeveloperAnswer? ==> a.developer in ColumnValues(rows, DeveloperColumn)
    ensures a.DeveloperAnswer? ==> forall v ::
      multiset(ColumnValues(rows, DeveloperColumn))[v] <= multiset(ColumnValues(rows, DeveloperColumn))[a.developer]
    ensures a.YearTable? ==> StrictlyAscending(a.table) && AllPositive(a.table) && Total(a.table) == |rows|
    ensures a.YearTable? ==> forall y :: CountOf(a.table, y) == multiset(ReleaseYears(rows))[y]
    ensures a.SummaryAnswer? ==>
      && a.total == |rows|
      && a.average == Mean(Prices(rows))
      && a.topGenre == Mode(ColumnValues(rows, GenresColumn))
      && a.topDeveloper == Mode(ColumnValues(rows, DeveloperColumn))
  {
    match Classify(q)
    case TotalGames => CountAnswer(|rows|)
    case AveragePrice => PriceAnswer(Mean(Prices(rows)))
    case TopGenre => GenreAnswer(Mode(ColumnValues(rows, GenresColumn)))
    case TopDeveloper => DeveloperAnswer(Mode(ColumnValues(rows, DeveloperColumn)))
    case GamesPerYear => YearTable(GroupCounts(ReleaseYears(rows)))
    case Summary =>
      SummaryAnswer(|rows|, Mean(Prices(rows)),
                    Mode(ColumnValues(rows, GenresColumn)), Mode(ColumnValues(rows, DeveloperColumn)))
    case Unrecognized => HelpAnswer
  }

  /** The summary bundles the very values the single questions answer. */
  lemma SummaryAgrees(qs: string, qi: string, rows: seq<Game>)
    requires Classify(qs) == Summary
    requires |rows| > 0
    requires Classify(qi) != Unrecognized && Classify(qi) != Summary && Classify(qi) != GamesPerYear
    ensures var s, a := Respond(qs, rows), Respond(qi, rows);
      match a
      case CountAnswer(n) => s.total == n
      case PriceAnswer(m) => s.average == m
      case GenreAnswer(g) => s.topGenre == g
      case DeveloperAnswer(d) => s.topDeveloper == d
      case _ => false
  {
  }

  // ----- Rendering -----

  /** What the page shows: a line of text, or a table of per-year counts. */
  datatype Display = Message(text: string) | Frame(table: seq<YearCount>)

  /** The emoji that open each kind of reply. */
  const CountMark: char := '\U{1F3AE}'
  const PriceMark: char := '\U{1F4B2}'
  const GenreMark: char := '\U{1F3C6}'
  const DeveloperMark: char := '\U{1F3E2}'
  const SummaryMark: char := '\U{1F4CA}'
  const HelpMark: char := '\U{274C}'

  const CountPrefix: string := [CountMark] + " Total Games: "
  const PricePrefix: string := [PriceMark] + " Average Price: $"
  const GenrePrefix: string := [GenreMark] + " Top Genre: "
  const DeveloperPrefix: string := [DeveloperMark] + " Top Developer: "
  const HelpText: string := [HelpMark] + " Try: total games, average price, top genre, top developer"

  /** The multi-line summary; the price is formatted by `fmtPrice`. */
  function SummaryText(total: nat, average: string, genre: string, developer: string): string
  {
    [SummaryMark] + " Steam Dataset Summary:\n"
    + "- Total Games: " + NatText(total) + "\n"
    + "- Average Price: $" + average + "\n"
    + "- Top Genre: " + genre + "\n"
    + "- Top Developer: " + developer
  }

  /** Formats an answer; `fmtPrice` stands for the two-decimal float
      formatting (including "nan" for an empty table). Only the per-year
      answer is table-shaped. */
  function Render(a: Answer, fmtPrice: Option<real> -> string): (d: Display)
    ensures d.Frame? <==> a.YearTable?
    ensures d == Message(HelpText) <==> a.HelpAnswer?
  {
    match a
    case CountAnswer(n) =>
      assert (CountPrefix + NatText(n))[0] != HelpText[0];
      Message(CountPrefix + NatText(n))
    case PriceAnswer(m) =>
      assert (PricePrefix + fmtPrice(m))[0] != HelpText[0];
      Message(PricePrefix + fmtPrice(m))
    case GenreAnswer(g) =>
      assert (GenrePrefix + g)[0] != HelpText[0];
      Message(GenrePrefix + g)
    case DeveloperAnswer(v) =>
      assert (DeveloperPrefix + v)[0] != HelpText[0];
      Message(DeveloperPrefix + v)
    case YearTable(t) => Frame(t)
    case SummaryAnswer(n, m, g, v) =>
      var s := SummaryText(n, fmtPrice(m), g, v);
      assert s[0] != HelpText[0];
      Message(s)
    case HelpAnswer => Message(HelpText)
  }

  /** Reads an answer back from its display, for every answer whose text
      does not go through the float formatting. */
  function ReadBack(d: Display): Option<Answer>
  {
    match d
    case Frame(t) => Some(YearTable(t))
    case Message(s) =>
      if s == HelpText then Some(HelpAnswer)
      else if CountPrefix <= s && |s| > |CountPrefix| && AllDigits(s[|CountPrefix|..])
        && (|s| > |CountPrefix| + 1 ==> s[|CountPrefix|] != '0') then
        Some(CountAnswer(DigitsValue(s[|CountPrefix|..])))
      else if GenrePrefix <= s then Some(GenreAnswer(s[|GenrePrefix|..]))
      else if DeveloperPrefix <= s then Some(DeveloperAnswer(s[|DeveloperPrefix|..]))
      else None
  }

  /** No information is lost in rendering the count, the top genre, the
      top developer, the per-year table or the help text. */
  lemma ReadBackRender(a: Answer, fmtPrice: Option<real> -> string)
    requires !a.PriceAnswer? && !a.SummaryAnswer?
    ensures ReadBack(Render(a, fmtPrice)) == Some(a)
  {
    match a
    case CountAnswer(n) =>
      var s := CountPrefix + NatText(n);
      assert s[|CountPrefix|..] == NatText(n);
      NatTextRoundTrip(n);
    case GenreAnswer(g) =>
      var s := GenrePrefix + g;
      assert s[|GenrePrefix|..] == g;
      assert s[0] != CountPrefix[0];
    case DeveloperAnswer(v) =>
      var s := DeveloperPrefix + v;
      assert s[|DeveloperPrefix|..] == v;
      assert s[0] != CountPrefix[0] && s[0] != GenrePrefix[0];
    case _ =>
  }

  /** `simple_chatbot(q)`: classify, evaluate, render. */
  function SimpleChatbot(q: string, rows: seq<Game>, fmtPrice: Option<real> -> string): (d: Display)
    requires NeedsRows(Classify(q)) ==> |rows| > 0
    ensures d.Frame? <==> Classify(q) == GamesPerYear
    ensures d == Message(HelpText) <==> Classify(q) == Unrecognized
    ensures Classify(q) != AveragePrice && Classify(q) != Summary ==> ReadBack(d) == Some(Respond(q, rows))
    ensures Classify(q) == TotalGames ==> d == Message(CountPrefix + NatText(|rows|))
    ensures Classify(q) == AveragePrice ==> d == Message(PricePrefix + fmtPrice(Mean(Prices(rows))))
    ensures Classify(q) == Summary ==>
      d == Message(SummaryText(|rows|, fmtPrice(Mean(Prices(rows))),
                               Mode(ColumnValues(rows, GenresColumn)), Mode(ColumnValues(rows, DeveloperColumn))))
    ensures d.Frame? ==> StrictlyAscending(d.table) && AllPositive(d.table) && Total(d.table) == |rows|
  {
    var a := Respond(q, rows);
    assert !a.PriceAnswer? && !a.SummaryAnswer? ==> ReadBack(Render(a, fmtPrice)) == Some(a) by {
      if !a.PriceAnswer? && !a.SummaryAnswer? {
        ReadBackRender(a, fmtPrice);
      }
    }
    Render(a, fmtPrice)
  }

  // ----- The AI guard -----

  const AiDisabledText: string := "\U{26A0} AI is not enabled or API key is invalid."

  /** How many leading rows go into the prompt as a data sample. */
  const SampleSize: nat := 40

  /** Either an immediate reply, or the request the hosted model would be
      sent: the question and the first rows of the table. */
  datatype AiStep = AiReply(text: string) | AskModel(question: string, sample: seq<Game>)

  /** `ai_chatbot(question)`: with AI disabled, the fixed message and no
      request; otherwise a request carrying the question and a bounded
      prefix of the table. */
  function AiChatbot(useAi: bool, question: string, rows: seq<Game>): (r: AiStep)
    ensures !useAi <==> r == AiReply(AiDisabledText)
    ensures useAi <==> r.AskModel?
    ensures r.AskModel? ==> r.question == question && r.sample <= rows
    ensures r.AskModel? ==> |r.sample| == if |rows| < SampleSize then |rows| else SampleSize
  {
    if !useAi then AiReply(AiDisabledText)
    else AskModel(question, if |rows| < SampleSize then rows else rows[..SampleSize])
  }
}
