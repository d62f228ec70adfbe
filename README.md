# Steam games chatbot — a Dafny model

The Steam games dashboard answers a fixed set of canned questions about a
table of games with a rule-based chatbot, `simple_chatbot`. The chatbot
lower-cases the question and then tests for fixed phrases in a fixed order:
"total games", "average price", "top genre", "top developer",
"games per year", and finally "summary" or "insight". The first phrase found
decides the answer: the number of rows, the mean price, the most frequent
genre or developer, the number of games per release year (the one answer
shown as a table), or a summary bundling the four scalar answers. A question
with none of the phrases gets a fixed help line. An optional AI answer is
only requested from a hosted model when AI is enabled; otherwise a fixed
"not enabled" message is returned.

The chatbot appears twice in the repository, almost word for word:
`app.py:93-113` and `chatbot.py:71-98` (and the AI guard at `app.py:118-120`
and `chatbot.py:103-105`). It is modelled once; the table below cites
whichever copy is clearer for each member, and the same lines exist in the
other copy.

The model is pure, as the code is: no state is changed and there are no
loops, so everything is a function or a lemma.

- `text.dfy`, module `Text`: lower-casing, Python's substring test `p in s`,
  and the decimal text of a count (`str(n)`) with its inverse.
- `games.dfy`, module `Games`: a row of the table (`Game`: price, genres,
  developer, release year) and the aggregates — mean price (`Mean`), most
  frequent value (`Mode`) and the per-year counts (`GroupCounts`, a list of
  `YearCount` rows sorted by year).
- `chatbot.dfy`, module `Chatbot`: the intent
  classifier (`Classify`) with a priority table (`Rules`, `FirstMatch`) as an
  independent reference semantics, the answers (`Respond`), their rendering
  (`Render`, with `ReadBack` as its inverse), the whole `simple_chatbot`
  (`SimpleChatbot`), and the AI guard (`AiChatbot`).

In these cases the model follows what the code actually does:

- The mean price of an empty table is not an error: pandas returns NaN and
  the reply reads "$nan". `Mean` returns `None` for it.
- The help line lists only four questions ("total games, average price, top
  genre, top developer"), not every recognised one; `HelpText` is that line.
- The most frequent value is whatever `value_counts().idxmax()` picks; no
  tie-break is promised (see Left out).
- The most frequent value of an empty column raises in pandas; the model
  makes a non-empty table a precondition of the three answers that need it
  (`NeedsRows`), and of no other answer.

## Model

| member | source | states |
|---|---|---|
| Text.LowerChar | app.py:94 | the lower-cased character is never an upper-case letter; each capital A-Z becomes its own small letter a-z and every other character is kept |
| Text.Lower | app.py:94 | `q.lower()` keeps the length and lower-cases every character at its own position |
| Text.LowerIdempotent | app.py:94 | lower-casing an already lower-cased query changes nothing |
| Text.LowerOfSameIgnoringCase | chatbot.py:72 | two queries that, position by position, hold equal characters or one letter in its two cases lower-case to the same string |
| Text.LowerCharOfCasePair | chatbot.py:72 | a capital and its own small letter lower-case to the same character |
| Text.ContainsIff | app.py:95 | the substring test holds exactly when the phrase occurs as a slice of the query at some index |
| Text.Contains | app.py:95 | Python's `phrase in q`; its meaning is stated by Text.ContainsIff |
| Text.NatText | app.py:96 | the count renders as decimal digits only, at least one, with no leading zero |
| Text.NatTextRoundTrip | app.py:96 | reading the rendered count back as a number gives the count |
| Text.NatTextInjective | chatbot.py:75 | different counts never render to the same text |
| Chatbot.Classify | app.py:94-113 | the chain of lower-casing and substring tests; its meaning is stated by Chatbot.ClassifyIsFirstMatch, Chatbot.ClassifyRule and Chatbot.ClassifyUnrecognized |
| Chatbot.FirstMatchIff | chatbot.py:74-98 | in an ordered rule table, rule k decides exactly when it fires and no earlier rule fires |
| Chatbot.FirstMatchNone | chatbot.py:74-98 | an ordered rule table yields the unrecognised intent exactly when no rule fires |
| Chatbot.RulesWellFormed | app.py:95-105 | the six rules of the priority table name six different intents, none of them the help intent |
| Chatbot.RulesMatchPhrases | app.py:95-105 | each rule of the priority table fires exactly when one of its own phrases occurs; "summary" and "insight" share one rule |
| Chatbot.ClassifyIsFirstMatch | app.py:94-113 | the chain of substring tests equals the first-match semantics of the priority table over the lower-cased query |
| Chatbot.ClassifyRule | app.py:95-105 | the intent is rule k's exactly when one of rule k's phrases occurs and no earlier rule's phrase occurs |
| Chatbot.ClassifyUnrecognized | app.py:113 | the help intent is chosen exactly when none of the seven phrases occurs in the lower-cased query |
| Chatbot.EmptyQueryUnrecognized | chatbot.py:98 | the empty query gets the help intent |
| Chatbot.TotalGamesWins | app.py:95-96 | a query containing "total games" gets the total-games intent whatever else it contains |
| Chatbot.SummaryOrInsight | app.py:105 | the summary is chosen exactly when "summary" or "insight" occurs and none of the five earlier phrases does |
| Chatbot.ClassifyLower | app.py:94 | a query and its lower-cased form get the same intent |
| Chatbot.ClassifyIgnoresCase | chatbot.py:72 | queries that differ only in letter case get the same intent |
| Games.ColumnValues | app.py:100 | `df['genres']` or `df['developer']`: the column's value for each row, in row order |
| Games.Prices | app.py:98 | `df['price']`: each row's price, in row order |
| Games.ReleaseYears | app.py:104 | `df['release_year']`: each row's release year, in row order |
| Games.BestOf | chatbot.py:81 | the chosen candidate is one of the candidates and occurs in the column at least as often as every other candidate |
| Games.Mode | app.py:100 | the most frequent value of a non-empty column occurs in it and occurs at least as often as any value |
| Games.ModeOfStrictMajority | app.py:102 | a value that occurs strictly more often than every other value is the answer |
| Games.ModeExample | chatbot.py:81 | three "Action" rows against two "RPG" rows give "Action" |
| Games.Sum | app.py:98 | the sum of the prices, over which the mean is stated (Games.Mean, Games.SumBounds) |
| Games.Mean | app.py:98 | the mean is absent (NaN) exactly for an empty column, and otherwise times the row count equals the sum of the prices |
| Games.SumBounds | app.py:98 | a sum of n prices within [lo, hi] lies within n*lo and n*hi |
| Games.MeanBounds | chatbot.py:78 | the mean price lies between any lower and any upper bound of the prices |
| Games.MeanExample | app.py:98 | prices 10, 20 and 30 average to 20 |
| Games.Insert | app.py:104 | counting one more game of a year keeps the table sorted by year and its counts positive, adds one to that year's count only, and one to the total |
| Games.GroupCounts | app.py:104 | the per-year table has strictly ascending years, positive counts, each year's count equal to the number of its games, and counts totalling the number of rows |
| Games.CountOfAt | chatbot.py:87 | in a table sorted by year, a row's count is its year's whole count |
| Games.GroupCountsRows | chatbot.py:87 | each row counts exactly its year's games, and a year has a row exactly when some game was released in it |
| Games.GroupCountsExample | app.py:104 | years 2021, 2021, 2022 group into (2021, 2), (2022, 1) |
| Chatbot.Respond | app.py:95-113 | the answer matches the intent; the total is the row count, the mean is absent only on an empty table and otherwise times the count gives the price sum, the top genre and developer occur in their column with maximal frequency, the per-year table is sorted with positive counts totalling the row count, and the summary holds the same four values |
| Chatbot.SummaryAgrees | chatbot.py:89-96 | the summary's total, mean, top genre and top developer equal the answers of the individual questions |
| Chatbot.Render | app.py:150 | only the per-year answer is table-shaped; the help line is shown exactly for the help answer |
| Chatbot.SummaryText | app.py:106-112 | the five-line summary text: header, total, formatted price, top genre, top developer |
| Chatbot.HelpText | app.py:113 | the fixed help line, which lists only four of the questions |
| Chatbot.ReadBackRender | chatbot.py:74-98 | the count, top genre, top developer, per-year table and help answers can be read back from their rendering; a count is read back only from decimal digits without a leading zero |
| Chatbot.SimpleChatbot | app.py:93-113 | the reply is a table exactly for "games per year", and that table is sorted by year with positive counts totalling the row count; it is the help line exactly for an unrecognised query; for every intent but the mean price and the summary the reply reads back as the answer of Chatbot.Respond (row count, most frequent genre or developer, per-year table, help); the total-games reply is the count prefix followed by the canonical decimal digits of the row count; the mean-price reply is the price prefix followed by the formatted mean of the price column, and the summary reply is the summary text of the row count, the formatted mean and the most frequent genre and developer |
| Chatbot.AiChatbot | app.py:118-126 | with AI disabled the reply is exactly the fixed "not enabled" message and no request is built; with AI enabled a request is always built, and it carries the question and the first 40 rows (all rows when fewer) |

## Left out

- Page layout, sidebar, navigation, check boxes, the text input, the
  dashboard metrics and the bar chart (`app.py:11-12`, `app.py:49-70`,
  `app.py:142-161`, `chatbot.py:10-66`, `chatbot.py:128-149`): presentation
  only. The dashboard metrics use the same aggregates that are modelled here.
- Reading the CSV file and its once-per-process caching
  (`app.py:17-21`, `chatbot.py:38-42`): the table is a parameter, a sequence
  of `Game` rows. Missing (NaN) cells, which pandas skips in the mean, the
  counts and the grouping, are not modelled: every row has all four values.
- Configuring the hosted model and calling it (`app.py:26-44`,
  `app.py:133-137`, `chatbot.py:19-33`, `chatbot.py:119-123`): network calls
  into a foreign library. `AiChatbot` stops at the request it would send
  (question and data sample); the prompt's wording and the model's reply
  are not modelled.
- The `:.2f` formatting of the mean price and the floating-point mean
  itself: the mean is an exact `real`, and the text of the price is a
  parameter `fmtPrice` of `Render` and `SimpleChatbot`.
- Mode: states only that the answer occurs in the column with maximal
  frequency, because the order in which `value_counts().idxmax()` breaks ties
  is a pandas internal; the model's own choice (the earliest row among the
  most frequent values) is not promised.
- Lower, LowerChar: lower-case ASCII letters only, where `str.lower()` also lower-cases
  other alphabets. The only non-ASCII characters that lower-case to ASCII
  letters are U+0130 (to "i" followed by U+0307) and U+212A (to "k"); neither
  can complete one of the seven phrases, so the intent chosen is the same.
- ReadBackRender: covers neither the mean-price answer nor the summary,
  because their text contains the formatted price, which is a parameter.
