/**
 * Two small worked scenarios: two tickets sold on one day, and three jersey
 * sales for two rostered players. Amounts are in cents.
 */
module Scenarios {
  import opened Tables
  import opened Order
  import opened Grouping
  import opened Ranking
  import opened RosterJoin
  import opened RevenueReports

  function ExampleTickets(): seq<TicketSale> {
    [TicketSale(20240101, 10000, "A", 0), TicketSale(20240101, 5000, "B", 1)]
  }

  /** A 100 ticket and a 50 ticket on the same day: one date row of 150. */
  lemma TicketsByDate()
    ensures RevenueByDate(ExampleTickets()) == [Entry(20240101, 15000)]
  {
  }

  /** The 100 ticket on a non-giveaway night, the 50 one on a giveaway night: one labelled row per flag. */
  lemma TicketsByPromo()
    ensures RevenueByPromo(ExampleTickets()) ==
      [PromoRevenue(0, 10000, Some(NON_GIVEAWAY_NIGHT)), PromoRevenue(1, 5000, Some(GIVEAWAY_NIGHT))]
  {
  }

  /** The two tickets sit in sections A and B: one row per section, in section order. */
  lemma TicketsBySection()
    ensures RevenueBySection(ExampleTickets()) == [Entry("A", 10000), Entry("B", 5000)]
  {
  }

  function ExampleSales(): seq<JerseySale> {
    [JerseySale(1, 1, "home", 8000, 20240101), JerseySale(2, 1, "away", 2000, 20240102), JerseySale(3, 2, "home", 15000, 20240102)]
  }

  function ExampleRoster(): seq<RosterEntry> {
    [RosterEntry(1, "A", "B"), RosterEntry(2, "C", "D")]
  }

  lemma ExamplePrices()
    ensures PriceByPlayer(ExampleSales()) == [Entry(1, 10000), Entry(2, 15000)]
  {
    var pe := PriceEntries(ExampleSales());
    assert pe == [Entry(1, 8000), Entry(1, 2000), Entry(2, 15000)];
    assert pe[1..] == [Entry(1, 2000), Entry(2, 15000)];
    assert pe[2..] == [Entry(2, 15000)];
    assert GroupSum(pe[2..], IntLess) == [Entry(2, 15000)];
    assert GroupSum(pe[1..], IntLess) == [Entry(1, 2000), Entry(2, 15000)];
  }

  lemma ExampleCounts()
    ensures CountByPlayer(ExampleSales()) == [Entry(1, 2), Entry(2, 1)]
  {
    var ce := CountEntries(ExampleSales());
    assert ce == [Entry(1, 1), Entry(1, 1), Entry(2, 1)];
    assert ce[1..] == [Entry(1, 1), Entry(2, 1)];
    assert ce[2..] == [Entry(2, 1)];
    assert GroupSum(ce[2..], IntLess) == [Entry(2, 1)];
    assert GroupSum(ce[1..], IntLess) == [Entry(1, 1), Entry(2, 1)];
  }

  lemma ExampleJoin()
    ensures Join([1, 2], ExampleRoster()) == [(0, 0), (1, 1)]
  {
    var roster := ExampleRoster();
    assert MatchesFrom(0, 1, roster, 1) == [];
    assert MatchesFrom(0, 1, roster, 0) == [(0, 0)];
    assert MatchesFrom(1, 2, roster, 1) == [(1, 1)];
    assert MatchesFrom(1, 2, roster, 0) == [(1, 1)];
    assert JoinFrom([1, 2], roster, 2) == [];
    assert JoinFrom([1, 2], roster, 1) == [(1, 1)];
  }

  lemma ExampleNames()
    ensures FullName(ExampleRoster()[0]) == "A B" && FullName(ExampleRoster()[1]) == "C D"
  {
  }

  lemma ExampleRows()
    ensures PlayerSalesRows(ExampleSales(), ExampleRoster()) ==
      [PlayerSales(1, 2, 10000, "A", "B", "A B"), PlayerSales(2, 1, 15000, "C", "D", "C D")]
  {
    ExamplePrices();
    ExampleCounts();
    ExampleJoin();
    var g := PriceByPlayer(ExampleSales());
    assert KeysOf(g) == [1, 2];
    var rows := PlayerSalesRows(ExampleSales(), ExampleRoster());
    assert |rows| == 2;
    ExampleNames();
    assert rows[0] == PlayerSales(1, 2, 10000, "A", "B", "A B");
    assert rows[1] == PlayerSales(2, 1, 15000, "C", "D", "C D");
  }

  /**
   * Player 1 sells two jerseys for 80 and 20, player 2 one for 150: the
   * per-player table lists player 2 first, and each row's count and revenue.
   */
  lemma ThreeJerseys()
    ensures SalesPerPlayer(ExampleSales(), ExampleRoster()) ==
      [PlayerSales(2, 1, 15000, "C", "D", "C D"), PlayerSales(1, 2, 10000, "A", "B", "A B")]
  {
    var x, y := PlayerSales(1, 2, 10000, "A", "B", "A B"), PlayerSales(2, 1, 15000, "C", "D", "C D");
    ExampleRows();
    SortTwo(x, y);
  }

  /** Sorting two rows by revenue puts the larger revenue first. */
  lemma SortTwo(x: PlayerSales, y: PlayerSales)
    requires x.totalRevenue < y.totalRevenue
    ensures SortDesc([x, y], PlayerRevenue) == [y, x]
  {
    assert [x, y][1..] == [y];
    assert SortDesc([y], PlayerRevenue) == InsertDesc(y, [], PlayerRevenue) == [y];
    assert InsertDesc(x, [y], PlayerRevenue) == [y] + InsertDesc(x, [], PlayerRevenue);
  }
}
