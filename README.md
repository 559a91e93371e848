# Arena revenue reports, modelled in Dafny

The reporting script `visualizations.py` reads the ticket-sale, jersey-sale and
roster tables of a basketball franchise and computes seven revenue summaries
from them before charting each one:

- ticket revenue by game date;
- ticket revenue on giveaway and non-giveaway nights;
- jersey revenue by jersey type;
- the five players whose jerseys brought in the most;
- ticket revenue by arena section;
- jersey sales (count and revenue) per player;
- the most profitable day, tickets and jerseys together.

This project models those seven summaries as pure functions over already
parsed tables and proves what each one promises. It has seven files:

- `tables.dfy` (`Tables`): the input rows. A date is an ordered day number,
  and money is an exact number of cents.
- `order.dfy` (`Order`): the key orders `groupby` sorts by. Integers use `<`;
  strings use lexicographic order by character, proved to be a strict total
  order.
- `grouping.dfy` (`Grouping`): `GroupSum`, the one
  group-by-key-and-sum every report is built on. Its reference definitions are
  `SumFor` (the sum of one key's amounts) and `KeySet` (the keys present).
  Around it are the lemmas that it conserves sums, keeps one row per key and
  orders keys ascending.
- `ranking.dfy` (`Ranking`): `sort_values(ascending=False)`, proved only to
  give a non-increasing permutation. Also `head(n)` and `idxmax` (the first
  maximum).
- `rosterjoin.dfy` (`RosterJoin`): the inner `merge` with the roster on
  `player_id`, as the list of matched row pairs.
- `revenue.dfy` (`RevenueReports`): the seven reports and their properties.
- `scenarios.dfy` (`Scenarios`): worked examples with concrete tables.

Three behaviours of the script are easy to misread; the model follows the
code:

- The roster is joined with an inner merge (`merge(..., on="player_id")`
  defaults to `how="inner"`). A player with no roster entry is therefore
  silently dropped, rather than kept as in a left join or reported as an error.
- The giveaway summary has one row per distinct flag value present, not
  always exactly two. A flag outside {0, 1} is labelled NaN (here `None`),
  and no error is raised.
- Sections come out in ascending section order, because `groupby` sorts its
  keys by default.

## Model

| member | source | states |
|---|---|---|
| `Grouping.GroupSum` | visualizations.py:26-28 | grouping never yields more rows than its input, and yields at least one row for a non-empty input |
| `Grouping.GroupSumSummarizes` | visualizations.py:26-28 | `groupby(key).sum()` gives exactly one row per distinct key of the input, keys strictly ascending, each row carrying the sum of that key's amounts; the row count is the number of distinct keys and the row totals add up to the input total |
| `Grouping.GroupSumFor` | visualizations.py:26-27 | for every key, grouping preserves that key's sum |
| `Grouping.GroupTotal` | visualizations.py:26-27 | grouping preserves the overall total |
| `Grouping.GroupKeySet` | visualizations.py:26-27 | the grouped keys are exactly the keys of the input |
| `Grouping.GroupAscending` | visualizations.py:26-28 | under a strict order, the grouped keys are strictly ascending (pandas' default `sort=True`) |
| `Grouping.GroupSameKeys` | visualizations.py:128-129 | two columns of one table, grouped by the same key, line up row by row (the key column depends only on the input's key column) |
| `Grouping.PermutedSummary` | visualizations.py:75 | reordering a per-key summary leaves it a per-key summary of the same input, with the same length |
| `Grouping.ZeroedSums` | visualizations.py:172-173 | a column filled with 0 keeps the keys and sums to 0 for every key |
| `Grouping.Zeroed` | visualizations.py:172-173 | `assign(col=0)` keeps every row and its key and sets the new column to 0 in each; what that does to per-key sums is stated by `Grouping.ZeroedSums` |
| `Grouping.SumForAppend` | visualizations.py:171-174 | the per-key sum of a concatenation is the sum of the parts' per-key sums |
| `Order.StrLessIsStrictOrder` | visualizations.py:113 | string order (the order `groupby` sorts string keys by) is irreflexive, transitive and total |
| `Ranking.SortDesc` | visualizations.py:75 | `sort_values(ascending=False)` returns a permutation of its input, of the same length, that is non-increasing in the sort column |
| `Ranking.SortDescMembers` | visualizations.py:138 | sorting keeps exactly the elements it was given |
| `Ranking.HeadOfSortDesc` | visualizations.py:99 | `sort_values(ascending=False).head(n)` keeps min(n, size) of the input's elements, non-increasing, and no element left out scores above one kept |
| `Ranking.Head` | visualizations.py:99 | `head(n)`: the first min(n, size) rows of its input, as a prefix |
| `Ranking.SortDescScores` | visualizations.py:75 | the sort column of a sorted table depends only on the input's sort column, whatever else the rows carry |
| `Ranking.SameRanking` | visualizations.py:138 | sorting two tables whose sort columns agree gives the same sorted column, however ties are placed |
| `Ranking.HeadSameRanking` | visualizations.py:99 | the first n rows of one such sort have min(n, size) rows and the same sort column as the other sort's first rows |
| `Ranking.ArgMax` | visualizations.py:181 | `idxmax` of a non-empty column is a position whose value is at least every value, and every earlier value is strictly smaller (the first maximum) |
| `Ranking.ArgMaxRow` | visualizations.py:177-181 | in a table with strictly ascending keys, the row `idxmax` picks scores at least as high as every row, and strictly higher than every row with a smaller key |
| `RosterJoin.Join` | visualizations.py:95 | the inner merge on `player_id` pairs left row i with roster row q exactly when their ids agree (every matching pair appears, no other), in left-major order |
| `RosterJoin.MatchesFrom` | visualizations.py:95 | the roster rows from a position on that match one id: all of them and only those, in roster order |
| `RosterJoin.RosterPositionsSize` | visualizations.py:95 | pairs that use distinct roster rows use as many roster rows as there are pairs |
| `RosterJoin.JoinUsesRosterOnce` | visualizations.py:95 | merging distinct left keys with the roster uses each roster row at most once |
| `RevenueReports.RevenueByDate` | visualizations.py:24-30 | one row per distinct purchase date, dates strictly ascending, each carrying the sum of `total_price` on that date; row totals add up to all ticket revenue |
| `RevenueReports.PromoGroups` | visualizations.py:42-46 | the flag grouping has one row per flag value present, ascending, with each flag's revenue, and at most two rows when every flag is 0 or 1 |
| `RevenueReports.PromoType` | visualizations.py:49-52 | the `.map` label is "Giveaway Night" exactly for 1, "Non-Giveaway Night" exactly for 0, and missing (NaN, here `None`) exactly for every other value |
| `RevenueReports.Labelled` | visualizations.py:49-52 | adding the `Promo_Type` column keeps every grouped row, its flag and its revenue; the labels are stated by `RevenueReports.RevenueByPromo` and the total by `RevenueReports.LabelledTotal` |
| `RevenueReports.BinaryFlags` | visualizations.py:42-46 | a set of flags each 0 or 1 has at most two members |
| `RevenueReports.LabelledTotal` | visualizations.py:49-52 | adding the `Promo_Type` column keeps the revenue total |
| `RevenueReports.RevenueByPromo` | visualizations.py:42-52 | one row per flag value present, ascending, with each flag's revenue; the label is "Giveaway Night" exactly for 1 and "Non-Giveaway Night" exactly for 0, and missing (NaN) for any other value; totals conserved; at most two rows when the flags are 0/1 |
| `RevenueReports.RevenueByJerseyType` | visualizations.py:71-76 | one row per distinct jersey type, each with the sum of `price` over that type's sales, revenues non-increasing down the list |
| `RevenueReports.RevenueBySection` | visualizations.py:113 | one row per distinct section, sections in ascending string order, each with that section's ticket revenue; totals conserved |
| `RevenueReports.CountEntriesCount` | visualizations.py:129 | counting `sale_id` per player gives the number of that player's sale records |
| `RevenueReports.PriceByPlayer` | visualizations.py:92-94 | `groupby("player_id")["price"].sum()`; its meaning is stated by `Grouping.GroupSumSummarizes` and `RevenueReports.JoinedRowSold` |
| `RevenueReports.CountByPlayer` | visualizations.py:128-129 | `groupby("player_id")` with `count` of `sale_id`; its meaning is stated by `RevenueReports.CountColumn` |
| `RevenueReports.FullName` | visualizations.py:98 | `player_name` is the first name, one space, then the last name, and splits back into the two; the joined rows' names are tied to it by `RevenueReports.SellerRowsSound` and `RevenueReports.PlayerSalesRowsJoin` |
| `RevenueReports.SoldIsKey` | visualizations.py:92-94 | a player appears in the per-player grouping exactly when the player has at least one sale |
| `RevenueReports.CountAlignsWithPrice` | visualizations.py:127-130 | the count column and the revenue column of the per-player aggregation line up row by row |
| `RevenueReports.CountColumn` | visualizations.py:128-129 | row i of the count column belongs to the same player as row i of the revenue column and holds that player's number of sale records |
| `RevenueReports.JoinedRowSold` | visualizations.py:92-95 | a matched row of the per-player grouping is a player with a sale, whose id equals the roster entry's, carrying that player's price sum |
| `RevenueReports.SellerRows` | visualizations.py:91-98 | the per-player revenue, inner-merged with the roster, with `player_name` added; its meaning is stated by `RevenueReports.SellerRowsSound`, `RevenueReports.SellerRowsComplete` and `RevenueReports.JoinedRowCount` |
| `RevenueReports.PlayerSalesRows` | visualizations.py:127-135 | the per-player count and revenue, inner-merged with the roster, with `player_name` added; its meaning is stated by `RevenueReports.PlayerSalesRowsJoin` and `RevenueReports.JoinedRowCount` |
| `RevenueReports.JoinCoversSold` | visualizations.py:95 | every roster entry of a player with a sale is matched by the inner merge |
| `RevenueReports.SellerRowsSound` | visualizations.py:91-98 | every joined seller row is a player with a sale, matched to a roster entry with that id, carrying the sum of that player's prices and `player_name = first_name + " " + last_name` |
| `RevenueReports.SellerRowsComplete` | visualizations.py:91-98 | every roster entry of a player with a sale gives a joined seller row with that id and name |
| `RevenueReports.PlayerSalesRowsJoin` | visualizations.py:127-135 | the same for the sales-per-player rows, which also carry the number of that player's sale records |
| `RevenueReports.PlayerKeysDistinct` | visualizations.py:92-94 | the per-player grouping lists each player id once |
| `RevenueReports.JoinPositions` | visualizations.py:92-95 | the roster rows the inner merge uses are exactly the roster entries of players with a sale |
| `RevenueReports.JoinCount` | visualizations.py:92-95 | the inner merge of the per-player grouping with the roster has exactly one pair per roster entry of a player with a sale |
| `RevenueReports.JoinedRowCount` | visualizations.py:91-135 | both joined tables have exactly as many rows as there are roster entries of players with a sale: each such entry appears once |
| `RevenueReports.TopSellers` | visualizations.py:91-99 | exactly min(5, number of joined rows) rows, non-increasing by revenue, drawn from the joined rows; each row is a sold player found in the roster, with its price sum and full name; no joined row left out has more revenue than one kept |
| `RevenueReports.TopSellersCount` | visualizations.py:91-99 | the top-sellers list has min(5, number of roster entries of players with a sale) rows |
| `RevenueReports.SalesPerPlayer` | visualizations.py:127-138 | one row per roster entry of a player with a sale; a permutation of all joined rows, non-increasing by `total_revenue`; each row's `jerseys_sold` is the player's number of sale records and `total_revenue` the sum of their prices; every roster entry of a sold player is present (no truncation) |
| `RevenueReports.RevenueColumnsAgree` | visualizations.py:127-135 | the joined top-sellers rows and the joined sales-per-player rows carry the same revenues in the same order |
| `RevenueReports.TopSellersLeadSalesPerPlayer` | visualizations.py:91-138 | the top-sellers list has min(5, n) rows for the n sales-per-player rows, and its i-th revenue is the i-th revenue of sales per player |
| `RevenueReports.TicketColumn` | visualizations.py:168-174 | the `ticket_revenue` column of the concatenated table, jersey rows contributing 0; its meaning is stated by `RevenueReports.DailyColumns` |
| `RevenueReports.JerseyColumn` | visualizations.py:168-174 | the `jersey_revenue` column of the concatenated table, ticket rows contributing 0; its meaning is stated by `RevenueReports.DailyColumns` |
| `RevenueReports.DailyColumns` | visualizations.py:168-177 | grouping the concatenated table by date gives ticket and jersey columns that line up, with dates ascending, one per date found in either table; each column holds its own source's sum for that date |
| `RevenueReports.DailyRevenues` | visualizations.py:177-178 | `combined.groupby('date').sum()` with `total_revenue` added; its meaning is stated by `RevenueReports.DailyDates` and `RevenueReports.DailySums` |
| `RevenueReports.DailyDates` | visualizations.py:171-177 | the daily table has one row per date found in either table, dates strictly ascending |
| `RevenueReports.DailySums` | visualizations.py:168-178 | each daily row carries the day's ticket revenue and jersey revenue (0 when that source has no sale that day), and `total_revenue = ticket_revenue + jersey_revenue` |
| `RevenueReports.DailyRevenuesEmpty` | visualizations.py:171-177 | the daily table is empty exactly when both input tables are |
| `RevenueReports.MostProfitableDay` | visualizations.py:177-181 | no day exactly when both tables are empty (where `idxmax` raises); otherwise a row of the daily table whose total is at least every day's, and strictly above every earlier day's (ties go to the earliest date) |
| `RevenueReports.SingleDay` | visualizations.py:168-181 | one ticket and one jersey sold on the same day make that day the most profitable, with the two prices as its ticket and jersey revenue |
| `Scenarios.TicketsByDate` | visualizations.py:24-30 | a 100 and a 50 ticket on one day give one date row of 150 |
| `Scenarios.TicketsByPromo` | visualizations.py:42-52 | the same tickets on a non-giveaway and a giveaway night give rows (0, 100, "Non-Giveaway Night") and (1, 50, "Giveaway Night") |
| `Scenarios.TicketsBySection` | visualizations.py:113 | the same tickets in sections A and B give rows (A, 100) and (B, 50) |
| `Scenarios.SortTwo` | visualizations.py:138 | two rows with different revenues are sorted larger first |
| `Scenarios.ThreeJerseys` | visualizations.py:127-138 | jerseys of 80 and 20 for player 1 and 150 for player 2 give (player 2, 1 sold, 150) ahead of (player 1, 2 sold, 100), with the full names from the roster |

## Left out

- CSV reading (visualizations.py:15-21, 160-161) and date parsing with `pd.to_datetime` (visualizations.py:24, 164-165): the model takes already parsed rows, with dates as ordered day numbers.
- All plotting and file output (the matplotlib backend, theme, figures, bar plots, annotations and `savefig`): rendering side effects with no revenue logic.
- Floating-point money and the currency formatting of the annotations (visualizations.py:62, 197): money is an exact integer number of cents, so no rounding is modelled.
- Missing values: pandas skips NaN when it sums and counts (so a NaN `sale_id` would not be counted) and drops NaN group keys. The model's inputs have no missing values.
- The unused tables `games`, `staff_history`, `injuries` and `coaches`, and the print of the working directory: they do not reach any report.
- The second loading of the two sale tables (visualizations.py:153-161) re-reads the same files: the model passes the same ticket and jersey tables to the last report.
- The trailing `sort_values('purchase_date')` (visualizations.py:29) is not modelled as a separate step: the grouping is already strictly ascending by date, so the sort leaves it unchanged.
- Ranking.SortDesc: pandas' descending sort is not stable, so the contract promises only a non-increasing permutation, not where tied rows end up; the insertion sort behind it is one such order.
- RevenueReports.TopSellers: does not say which of several players tied at fifth place is kept, since pandas does not fix that either.
- RevenueReports.SalesPerPlayer: promises the rows as a set with multiplicities and their revenue order, not the order of tied players.
- RevenueReports.RevenueByJerseyType: promises the revenue order, not the order of tied types.
- RevenueReports.MostProfitableDay: pandas raises `ValueError` when both tables are empty; the model returns `None` instead.
- The column data types pandas infers (for example `is_giveaway_night` read as integers, booleans or floats): the flag is modelled as an integer, so labels are looked up on integer values.
