/**
 * The seven revenue summaries of the reporting script: ticket revenue by game
 * date, by giveaway flag and by arena section; jersey revenue by type; the top
 * five jersey sellers; jersey sales per player; and the most profitable day
 * across tickets and jerseys. Each is a pure function of the input tables;
 * file reading and charting are not modelled.
 */
module RevenueReports {
  import opened Tables
  import opened Order
  import opened Grouping
  import opened Ranking
  import opened RosterJoin

  // ---------------------------------------------------------------------
  // The tables projected onto (grouping column, summed column)

  /** `ticket_sales[["purchase_date", "total_price"]]` */
  function DateEntries(tickets: seq<TicketSale>): seq<Entry<Date>> {
    seq(|tickets|, i requires 0 <= i < |tickets| => Entry(tickets[i].purchaseDate, tickets[i].totalPrice))
  }

  /** `ticket_sales[["is_giveaway_night", "total_price"]]` */
  function FlagEntries(tickets: seq<TicketSale>): seq<Entry<int>> {
    seq(|tickets|, i requires 0 <= i < |tickets| => Entry(tickets[i].isGiveawayNight, tickets[i].totalPrice))
  }

  /** `ticket_sales[["section", "total_price"]]` */
  function SectionEntries(tickets: seq<TicketSale>): seq<Entry<string>> {
    seq(|tickets|, i requires 0 <= i < |tickets| => Entry(tickets[i].section, tickets[i].totalPrice))
  }

  /** `jersey_sales[["jersey_type", "price"]]` */
  function TypeEntries(sales: seq<JerseySale>): seq<Entry<string>> {
    seq(|sales|, i requires 0 <= i < |sales| => Entry(sales[i].jerseyType, sales[i].price))
  }

  /** `jersey_sales[["player_id", "price"]]` */
  function PriceEntries(sales: seq<JerseySale>): seq<Entry<int>> {
    seq(|sales|, i requires 0 <= i < |sales| => Entry(sales[i].playerId, sales[i].price))
  }

  /** `jersey_sales[["player_id", "sale_id"]]`, each sale counting once. */
  function CountEntries(sales: seq<JerseySale>): seq<Entry<int>> {
    seq(|sales|, i requires 0 <= i < |sales| => Entry(sales[i].playerId, 1))
  }

  /** `jersey_sales[["transaction_date", "price"]]` */
  function JerseyDateEntries(sales: seq<JerseySale>): seq<Entry<Date>> {
    seq(|sales|, i requires 0 <= i < |sales| => Entry(sales[i].transactionDate, sales[i].price))
  }

  // ---------------------------------------------------------------------
  // Ticket sales revenue by game date (visualizations.py:24-30)

  /**
   * One row per purchase date, dates ascending, each with the sum of
   * `total_price` on that date; the row totals add up to all ticket revenue.
   * The trailing `sort_values('purchase_date')` leaves the already ascending
   * grouping as it is.
   */
  function RevenueByDate(tickets: seq<TicketSale>): (r: seq<Entry<Date>>)
    ensures forall i, j :: 0 <= i < j < |r| ==> r[i].key < r[j].key
    ensures OneRowPerKey(r, DateEntries(tickets))
    ensures |r| == |KeySet(DateEntries(tickets))|
    ensures Total(r) == Total(DateEntries(tickets))
  {
    IntLessIsStrictOrder();
    GroupSumSummarizes(DateEntries(tickets), IntLess);
    GroupSum(DateEntries(tickets), IntLess)
  }

  // ---------------------------------------------------------------------
  // Giveaway vs non-giveaway ticket revenue (visualizations.py:42-52)

  const GIVEAWAY_NIGHT := "Giveaway Night"
  const NON_GIVEAWAY_NIGHT := "Non-Giveaway Night"

  /** `.map({1: "Giveaway Night", 0: "Non-Giveaway Night"})`; other values map to NaN, here `None`. */
  function PromoType(flag: int): (r: Option<string>)
    ensures r == Some(GIVEAWAY_NIGHT) <==> flag == 1
    ensures r == Some(NON_GIVEAWAY_NIGHT) <==> flag == 0
    ensures r.None? <==> flag != 0 && flag != 1
  {
    if flag == 1 then Some(GIVEAWAY_NIGHT)
    else if flag == 0 then Some(NON_GIVEAWAY_NIGHT)
    else None
  }

  datatype PromoRevenue = PromoRevenue(isGiveawayNight: int, totalPrice: Money, promoType: Option<string>)

  /** Adds the `Promo_Type` column to the grouped flags. */
  function Labelled(g: seq<Entry<int>>): (r: seq<PromoRevenue>)
    ensures |r| == |g|
    ensures forall i :: 0 <= i < |r| ==> r[i].isGiveawayNight == g[i].key && r[i].totalPrice == g[i].amount
  {
    seq(|g|, i requires 0 <= i < |g| => PromoRevenue(g[i].key, g[i].amount, PromoType(g[i].key)))
  }

  function PromoTotal(rows: seq<PromoRevenue>): int {
    if rows == [] then 0 else rows[0].totalPrice + PromoTotal(rows[1..])
  }

  lemma {:induction false} LabelledTotal(g: seq<Entry<int>>)
    ensures PromoTotal(Labelled(g)) == Total(g)
  {
    if g != [] {
      assert Labelled(g)[1..] == Labelled(g[1..]);
      LabelledTotal(g[1..]);
    }
  }

  /** A set of 0/1 flags has at most two members. */
  lemma BinaryFlags(flags: set<int>)
    requires forall f :: f in flags ==> f == 0 || f == 1
    ensures |flags| <= 2
  {
    var zero, one := set f | f in flags && f == 0, set f | f in flags && f == 1;
    assert flags == zero + one;
    assert zero <= {0} && one <= {1};
    if 0 in flags {
      assert zero == {0};
    } else {
      assert zero == {};
    }
    if 1 in flags {
      assert one == {1};
    } else {
      assert one == {};
    }
  }

  /** The flag grouping, and at most two flag values when the column is 0/1. */
  lemma PromoGroups(tickets: seq<TicketSale>)
    ensures var g := GroupSum(FlagEntries(tickets), IntLess);
      && (forall i, j :: 0 <= i < j < |g| ==> g[i].key < g[j].key)
      && |g| == |KeySet(FlagEntries(tickets))|
      && (forall f :: f in KeySet(FlagEntries(tickets)) <==> exists i :: 0 <= i < |g| && g[i].key == f)
      && (forall i :: 0 <= i < |g| ==> g[i].amount == SumFor(FlagEntries(tickets), g[i].key))
      && Total(g) == Total(FlagEntries(tickets))
      && ((forall t :: t in tickets ==> t.isGiveawayNight in {0, 1}) ==> |g| <= 2)
  {
    var g := GroupSum(FlagEntries(tickets), IntLess);
    IntLessIsStrictOrder();
    GroupSumSummarizes(FlagEntries(tickets), IntLess);
    if forall t :: t in tickets ==> t.isGiveawayNight in {0, 1} {
      forall f | f in KeySet(FlagEntries(tickets)) ensures f == 0 || f == 1 {
        var i :| 0 <= i < |tickets| && FlagEntries(tickets)[i].key == f;
        assert tickets[i] in tickets;
      }
      BinaryFlags(KeySet(FlagEntries(tickets)));
    }
  }

  /**
   * One row per flag value present, ascending, each with that flag's ticket
   * revenue, labelled "Giveaway Night" exactly for 1 and "Non-Giveaway Night"
   * exactly for 0; at most two rows when every flag is 0 or 1.
   */
  function RevenueByPromo(tickets: seq<TicketSale>): (r: seq<PromoRevenue>)
    ensures forall i, j :: 0 <= i < j < |r| ==> r[i].isGiveawayNight < r[j].isGiveawayNight
    ensures |r| == |KeySet(FlagEntries(tickets))|
    ensures forall f :: f in KeySet(FlagEntries(tickets)) <==> exists i :: 0 <= i < |r| && r[i].isGiveawayNight == f
    ensures forall i :: 0 <= i < |r| ==> r[i].totalPrice == SumFor(FlagEntries(tickets), r[i].isGiveawayNight)
    ensures forall i :: 0 <= i < |r| ==> (r[i].promoType == Some(GIVEAWAY_NIGHT) <==> r[i].isGiveawayNight == 1)
    ensures forall i :: 0 <= i < |r| ==> (r[i].promoType == Some(NON_GIVEAWAY_NIGHT) <==> r[i].isGiveawayNight == 0)
    ensures forall i :: 0 <= i < |r| ==> (r[i].promoType == None <==> r[i].isGiveawayNight !in {0, 1})
    ensures PromoTotal(r) == Total(FlagEntries(tickets))
    ensures (forall t :: t in tickets ==> t.isGiveawayNight in {0, 1}) ==> |r| <= 2
  {
    var g := GroupSum(FlagEntries(tickets), IntLess);
    PromoGroups(tickets);
    LabelledTotal(g);
    assert forall i :: 0 <= i < |g| ==> Labelled(g)[i].isGiveawayNight == g[i].key;
    Labelled(g)
  }

  // ---------------------------------------------------------------------
  // Jersey revenue by type (visualizations.py:71-76)

  function TypeRevenue(e: Entry<string>): int {
    e.amount
  }

  /**
   * One row per jersey type, each with the sum of `price` over that type's
   * sales, revenues non-increasing down the list.
   */
  function RevenueByJerseyType(sales: seq<JerseySale>): (r: seq<Entry<string>>)
    ensures forall i, j :: 0 <= i < j < |r| ==> r[j].amount <= r[i].amount
    ensures OneRowPerKey(r, TypeEntries(sales))
    ensures |r| == |KeySet(TypeEntries(sales))|
  {
    var g := GroupSum(TypeEntries(sales), StrLess);
    StrLessIsStrictOrder();
    GroupSumSummarizes(TypeEntries(sales), StrLess);
    var r := SortDesc(g, TypeRevenue);
    PermutedSummary(r, g, TypeEntries(sales));
    r
  }

  // ---------------------------------------------------------------------
  // Ticket sales by section (visualizations.py:113)

  /**
   * One row per section, sections in ascending string order (the `groupby`
   * default), each with that section's ticket revenue; totals conserved.
   */
  function RevenueBySection(tickets: seq<TicketSale>): (r: seq<Entry<string>>)
    ensures forall i, j :: 0 <= i < j < |r| ==> StrLess(r[i].key, r[j].key)
    ensures OneRowPerKey(r, SectionEntries(tickets))
    ensures |r| == |KeySet(SectionEntries(tickets))|
    ensures Total(r) == Total(SectionEntries(tickets))
  {
    StrLessIsStrictOrder();
    GroupSumSummarizes(SectionEntries(tickets), StrLess);
    GroupSum(SectionEntries(tickets), StrLess)
  }

  // ---------------------------------------------------------------------
  // Per-player jersey revenue joined with the roster
  // (visualizations.py:91-99 and 127-138)

  /** Player `p` has at least one jersey sale. */
  ghost predicate Sold(sales: seq<JerseySale>, p: int) {
    exists i :: 0 <= i < |sales| && sales[i].playerId == p
  }

  /** The number of sale records of player `p`. */
  function CountSales(sales: seq<JerseySale>, p: int): nat {
    if sales == [] then 0
    else (if sales[0].playerId == p then 1 else 0) + CountSales(sales[1..], p)
  }

  lemma {:induction false} CountEntriesCount(sales: seq<JerseySale>, p: int)
    ensures SumFor(CountEntries(sales), p) == CountSales(sales, p)
  {
    if sales != [] {
      assert CountEntries(sales)[1..] == CountEntries(sales[1..]);
      CountEntriesCount(sales[1..], p);
    }
  }

  lemma SoldIsKey(sales: seq<JerseySale>, p: int)
    ensures Sold(sales, p) <==> p in KeySet(PriceEntries(sales))
  {
    if Sold(sales, p) {
      var i :| 0 <= i < |sales| && sales[i].playerId == p;
      assert PriceEntries(sales)[i].key == p;
    }
  }

  /** `first_name + " " + last_name` */
  function FullName(e: RosterEntry): (r: string)
    ensures |r| == |e.firstName| + 1 + |e.lastName|
    ensures r[..|e.firstName|] == e.firstName && r[|e.firstName|] == ' ' && r[|e.firstName| + 1..] == e.lastName
  {
    e.firstName + " " + e.lastName
  }

  /** `groupby("player_id")["price"].sum()` */
  function PriceByPlayer(sales: seq<JerseySale>): seq<Entry<int>> {
    GroupSum(PriceEntries(sales), IntLess)
  }

  /** `groupby("player_id")["sale_id"].count()` */
  function CountByPlayer(sales: seq<JerseySale>): seq<Entry<int>> {
    GroupSum(CountEntries(sales), IntLess)
  }

  /** The count and the revenue columns of one player grouping line up row by row. */
  lemma CountAlignsWithPrice(sales: seq<JerseySale>)
    ensures SameKeys(CountByPlayer(sales), PriceByPlayer(sales))
  {
    GroupSameKeys(CountEntries(sales), PriceEntries(sales), IntLess);
  }

  /** Row `i` of the count column counts the sales of the player in row `i` of the revenue column. */
  lemma CountColumn(sales: seq<JerseySale>, i: nat)
    requires i < |PriceByPlayer(sales)|
    ensures i < |CountByPlayer(sales)|
    ensures CountByPlayer(sales)[i].key == PriceByPlayer(sales)[i].key
    ensures CountByPlayer(sales)[i].amount == CountSales(sales, PriceByPlayer(sales)[i].key)
  {
    CountAlignsWithPrice(sales);
    IntLessIsStrictOrder();
    GroupSumSummarizes(CountEntries(sales), IntLess);
    CountEntriesCount(sales, PriceByPlayer(sales)[i].key);
  }

  /** A row of the top-sellers table: `player_id, price, first_name, last_name, player_name`. */
  datatype Seller = Seller(playerId: int, price: Money, firstName: string, lastName: string, playerName: string)

  /** A row of the sales-per-player table. */
  datatype PlayerSales = PlayerSales(
    playerId: int,
    jerseysSold: int,
    totalRevenue: Money,
    firstName: string,
    lastName: string,
    playerName: string)

  function SellerPrice(x: Seller): int {
    x.price
  }

  function PlayerRevenue(x: PlayerSales): int {
    x.totalRevenue
  }

  /** What a joined top-sellers row states about the input tables. */
  ghost predicate IsSellerOf(x: Seller, sales: seq<JerseySale>, roster: seq<RosterEntry>) {
    && Sold(sales, x.playerId)
    && x.price == SumFor(PriceEntries(sales), x.playerId)
    && RosterEntry(x.playerId, x.firstName, x.lastName) in roster
    && x.playerName == x.firstName + " " + x.lastName
  }

  /** What a joined sales-per-player row states about the input tables. */
  ghost predicate IsPlayerSalesOf(x: PlayerSales, sales: seq<JerseySale>, roster: seq<RosterEntry>) {
    && Sold(sales, x.playerId)
    && x.jerseysSold == CountSales(sales, x.playerId)
    && x.totalRevenue == SumFor(PriceEntries(sales), x.playerId)
    && RosterEntry(x.playerId, x.firstName, x.lastName) in roster
    && x.playerName == x.firstName + " " + x.lastName
  }

  /** Revenue per player, inner-joined with the roster, with `player_name` added (before sorting). */
  function SellerRows(sales: seq<JerseySale>, roster: seq<RosterEntry>): seq<Seller> {
    var g := PriceByPlayer(sales);
    var ps := Join(KeysOf(g), roster);
    seq(|ps|, n requires 0 <= n < |ps| =>
      var e, who := g[ps[n].0], roster[ps[n].1];
      Seller(e.key, e.amount, who.firstName, who.lastName, FullName(who)))
  }

  /** Count and revenue per player, inner-joined with the roster, with `player_name` added. */
  function PlayerSalesRows(sales: seq<JerseySale>, roster: seq<RosterEntry>): seq<PlayerSales> {
    var g := PriceByPlayer(sales);
    var c := CountByPlayer(sales);
    CountAlignsWithPrice(sales);
    var ps := Join(KeysOf(g), roster);
    seq(|ps|, n requires 0 <= n < |ps| =>
      var i, who := ps[n].0, roster[ps[n].1];
      PlayerSales(g[i].key, c[i].amount, g[i].amount, who.firstName, who.lastName, FullName(who)))
  }

  /** A matched row of the per-player grouping is a sold player carrying its price sum. */
  lemma JoinedRowSold(sales: seq<JerseySale>, roster: seq<RosterEntry>, n: nat)
    requires n < |Join(KeysOf(PriceByPlayer(sales)), roster)|
    ensures var g, ps := PriceByPlayer(sales), Join(KeysOf(PriceByPlayer(sales)), roster);
      && Sold(sales, g[ps[n].0].key)
      && g[ps[n].0].key == roster[ps[n].1].playerId
      && g[ps[n].0].amount == SumFor(PriceEntries(sales), g[ps[n].0].key)
  {
    var g, ps := PriceByPlayer(sales), Join(KeysOf(PriceByPlayer(sales)), roster);
    var i := ps[n].0;
    IntLessIsStrictOrder();
    GroupSumSummarizes(PriceEntries(sales), IntLess);
    assert g[i].key in KeySet(g);
    SoldIsKey(sales, g[i].key);
  }

  /** Every roster entry of a sold player is matched by the join. */
  lemma JoinCoversSold(sales: seq<JerseySale>, roster: seq<RosterEntry>, q: nat)
    requires q < |roster| && Sold(sales, roster[q].playerId)
    ensures var ps := Join(KeysOf(PriceByPlayer(sales)), roster);
      exists n :: 0 <= n < |ps| && ps[n].1 == q
  {
    var g := PriceByPlayer(sales);
    var ps := Join(KeysOf(g), roster);
    IntLessIsStrictOrder();
    GroupSumSummarizes(PriceEntries(sales), IntLess);
    SoldIsKey(sales, roster[q].playerId);
    var i :| 0 <= i < |g| && g[i].key == roster[q].playerId;
    assert KeysOf(g)[i] == roster[q].playerId;
    assert (i, q) in ps;
  }

  /**
   * Every joined seller row is a sold player found in the roster, with the sum
   * of that player's prices.
   */
  lemma SellerRowsSound(sales: seq<JerseySale>, roster: seq<RosterEntry>)
    ensures forall x :: x in SellerRows(sales, roster) ==> IsSellerOf(x, sales, roster)
  {
    var ps := Join(KeysOf(PriceByPlayer(sales)), roster);
    var rows := SellerRows(sales, roster);
    forall x | x in rows ensures IsSellerOf(x, sales, roster) {
      var n :| 0 <= n < |rows| && rows[n] == x;
      JoinedRowSold(sales, roster, n);
      assert roster[ps[n].1] == RosterEntry(x.playerId, x.firstName, x.lastName);
    }
  }

  /** Every roster entry of a sold player gives a joined seller row. */
  lemma SellerRowsComplete(sales: seq<JerseySale>, roster: seq<RosterEntry>)
    ensures forall q :: 0 <= q < |roster| && Sold(sales, roster[q].playerId) ==>
      exists x :: x in SellerRows(sales, roster) &&
        x.playerId == roster[q].playerId && x.firstName == roster[q].firstName && x.lastName == roster[q].lastName
  {
    var ps := Join(KeysOf(PriceByPlayer(sales)), roster);
    var rows := SellerRows(sales, roster);
    forall q | 0 <= q < |roster| && Sold(sales, roster[q].playerId)
      ensures exists x :: x in rows &&
                                              x.playerId == roster[q].playerId && x.firstName == roster[q].firstName && x.lastName == roster[q].lastName
    {
      JoinCoversSold(sales, roster, q);
      var n :| 0 <= n < |ps| && ps[n].1 == q;
      assert rows[n] in rows;
    }
  }

  /** The same for the sales-per-player rows, which also carry the sale count. */
  lemma PlayerSalesRowsJoin(sales: seq<JerseySale>, roster: seq<RosterEntry>)
    ensures forall x :: x in PlayerSalesRows(sales, roster) ==> IsPlayerSalesOf(x, sales, roster)
    ensures forall q :: 0 <= q < |roster| && Sold(sales, roster[q].playerId) ==>
      exists x :: x in PlayerSalesRows(sales, roster) &&
        x.playerId == roster[q].playerId && x.firstName == roster[q].firstName && x.lastName == roster[q].lastName
  {
    var g, c := PriceByPlayer(sales), CountByPlayer(sales);
    var ps := Join(KeysOf(g), roster);
    var rows := PlayerSalesRows(sales, roster);
    forall x | x in rows ensures IsPlayerSalesOf(x, sales, roster) {
      var n :| 0 <= n < |rows| && rows[n] == x;
      var i := ps[n].0;
      JoinedRowSold(sales, roster, n);
      CountColumn(sales, i);
      assert roster[ps[n].1] == RosterEntry(x.playerId, x.firstName, x.lastName);
    }
    forall q | 0 <= q < |roster| && Sold(sales, roster[q].playerId)
      ensures exists x :: x in rows &&
                                              x.playerId == roster[q].playerId && x.firstName == roster[q].firstName && x.lastName == roster[q].lastName
    {
      JoinCoversSold(sales, roster, q);
      var n :| 0 <= n < |ps| && ps[n].1 == q;
      assert rows[n] in rows;
    }
  }

  /** The roster rows of players with at least one sale: the rows the inner merge keeps. */
  ghost function SoldRosterRows(sales: seq<JerseySale>, roster: seq<RosterEntry>): set<nat> {
    set q | 0 <= q < |roster| && Sold(sales, roster[q].playerId)
  }

  /**
   * Both joined tables have exactly one row per roster entry of a player with
   * a sale: no such entry is missed and none is repeated.
   */
  lemma JoinedRowCount(sales: seq<JerseySale>, roster: seq<RosterEntry>)
    ensures |SellerRows(sales, roster)| == |SoldRosterRows(sales, roster)|
    ensures |PlayerSalesRows(sales, roster)| == |SoldRosterRows(sales, roster)|
  {
    JoinCount(sales, roster);
  }

  /** The inner merge of the per-player grouping keeps each roster entry of a sold player once. */
  lemma JoinCount(sales: seq<JerseySale>, roster: seq<RosterEntry>)
    ensures |Join(KeysOf(PriceByPlayer(sales)), roster)| == |SoldRosterRows(sales, roster)|
  {
    var keys := KeysOf(PriceByPlayer(sales));
    PlayerKeysDistinct(sales);
    JoinUsesRosterOnce(keys, roster);
    RosterPositionsSize(Join(keys, roster));
    JoinPositions(sales, roster);
  }

  /** The per-player grouping has each player id once. */
  lemma PlayerKeysDistinct(sales: seq<JerseySale>)
    ensures var keys := KeysOf(PriceByPlayer(sales));
      forall i, j :: 0 <= i < j < |keys| ==> keys[i] != keys[j]
  {
    var g := PriceByPlayer(sales);
    var keys := KeysOf(g);
    IntLessIsStrictOrder();
    GroupSumSummarizes(PriceEntries(sales), IntLess);
    forall i, j | 0 <= i < j < |keys| ensures keys[i] != keys[j] {
      assert keys[i] == g[i].key && keys[j] == g[j].key;
    }
  }

  /** The roster rows the merge uses are exactly those of players with a sale. */
  lemma JoinPositions(sales: seq<JerseySale>, roster: seq<RosterEntry>)
    ensures RosterPositions(Join(KeysOf(PriceByPlayer(sales)), roster)) == SoldRosterRows(sales, roster)
  {
    var ps := Join(KeysOf(PriceByPlayer(sales)), roster);
    forall q | q in RosterPositions(ps) ensures q in SoldRosterRows(sales, roster) {
      var n :| 0 <= n < |ps| && ps[n].1 == q;
      JoinedRowSold(sales, roster, n);
    }
    forall q | q in SoldRosterRows(sales, roster) ensures q in RosterPositions(ps) {
      JoinCoversSold(sales, roster, q);
      var n :| 0 <= n < |ps| && ps[n].1 == q;
    }
  }

  /**
   * `sort_values("price", ascending=False).head(5)`: at most five joined
   * rows, non-increasing by revenue, none outranked by a row left out.
   */
  function TopSellers(sales: seq<JerseySale>, roster: seq<RosterEntry>): (top: seq<Seller>)
    ensures |top| == if |SellerRows(sales, roster)| < 5 then |SellerRows(sales, roster)| else 5
    ensures forall i, j :: 0 <= i < j < |top| ==> top[j].price <= top[i].price
    ensures multiset(top) <= multiset(SellerRows(sales, roster))
    ensures forall i :: 0 <= i < |top| ==> IsSellerOf(top[i], sales, roster)
    ensures forall x :: x in SellerRows(sales, roster) && x !in top ==>
      forall i :: 0 <= i < |top| ==> x.price <= top[i].price
  {
    var rows := SellerRows(sales, roster);
    var top := Head(SortDesc(rows, SellerPrice), 5);
    HeadOfSortDesc(rows, SellerPrice, 5);
    TopRowsSound(sales, roster, top);
    top
  }

  /** Rows drawn from the joined seller rows are sellers of the input tables. */
  lemma TopRowsSound(sales: seq<JerseySale>, roster: seq<RosterEntry>, top: seq<Seller>)
    requires forall i :: 0 <= i < |top| ==> top[i] in SellerRows(sales, roster)
    ensures forall i :: 0 <= i < |top| ==> IsSellerOf(top[i], sales, roster)
  {
    SellerRowsSound(sales, roster);
  }

  /** The top-sellers list has min(5, number of roster entries of players with a sale) rows. */
  lemma TopSellersCount(sales: seq<JerseySale>, roster: seq<RosterEntry>)
    ensures |TopSellers(sales, roster)| ==
      if |SoldRosterRows(sales, roster)| < 5 then |SoldRosterRows(sales, roster)| else 5
  {
    JoinedRowCount(sales, roster);
  }

  /**
   * Sales per player, sorted by revenue: one row per roster entry of a player
   * with a sale, with the number of its sale records and the sum of their
   * prices, non-increasing by revenue.
   */
  function SalesPerPlayer(sales: seq<JerseySale>, roster: seq<RosterEntry>): (r: seq<PlayerSales>)
    ensures |r| == |SoldRosterRows(sales, roster)|
    ensures forall i, j :: 0 <= i < j < |r| ==> r[j].totalRevenue <= r[i].totalRevenue
    ensures multiset(r) == multiset(PlayerSalesRows(sales, roster))
    ensures forall i :: 0 <= i < |r| ==> IsPlayerSalesOf(r[i], sales, roster)
    ensures forall q :: 0 <= q < |roster| && Sold(sales, roster[q].playerId) ==>
      exists i :: 0 <= i < |r| &&
        r[i].playerId == roster[q].playerId && r[i].firstName == roster[q].firstName && r[i].lastName == roster[q].lastName
  {
    PlayerSalesRowsJoin(sales, roster);
    JoinedRowCount(sales, roster);
    SortDescMembers(PlayerSalesRows(sales, roster), PlayerRevenue);
    SortDesc(PlayerSalesRows(sales, roster), PlayerRevenue)
  }

  /** Both joined tables list the same revenues in the same order. */
  lemma RevenueColumnsAgree(sales: seq<JerseySale>, roster: seq<RosterEntry>)
    ensures Scores(SellerRows(sales, roster), SellerPrice) == Scores(PlayerSalesRows(sales, roster), PlayerRevenue)
  {
    var a, b := SellerRows(sales, roster), PlayerSalesRows(sales, roster);
    assert |a| == |b|;
    forall n | 0 <= n < |a| ensures Scores(a, SellerPrice)[n] == Scores(b, PlayerRevenue)[n] {
      var g := PriceByPlayer(sales);
      var ps := Join(KeysOf(g), roster);
      assert a[n].price == g[ps[n].0].amount == b[n].totalRevenue;
      assert Scores(a, SellerPrice)[n] == SellerPrice(a[n]) && Scores(b, PlayerRevenue)[n] == PlayerRevenue(b[n]);
    }
  }

  /**
   * The top-sellers chart shows the first min(5, n) revenues of the
   * sales-per-player chart: both rank the same joined players by the same sums.
   */
  lemma TopSellersLeadSalesPerPlayer(sales: seq<JerseySale>, roster: seq<RosterEntry>)
    ensures |TopSellers(sales, roster)| ==
      if |SalesPerPlayer(sales, roster)| < 5 then |SalesPerPlayer(sales, roster)| else 5
    ensures forall i :: 0 <= i < |TopSellers(sales, roster)| ==>
      TopSellers(sales, roster)[i].price == SalesPerPlayer(sales, roster)[i].totalRevenue
  {
    RevenueColumnsAgree(sales, roster);
    HeadSameRanking(SellerRows(sales, roster), SellerPrice, PlayerSalesRows(sales, roster), PlayerRevenue, 5);
  }

  // ---------------------------------------------------------------------
  // Most profitable day, tickets and jerseys together (visualizations.py:164-181)

  datatype DailyRevenue = DailyRevenue(date: Date, ticketRevenue: Money, jerseyRevenue: Money, totalRevenue: Money)

  /** The `ticket_revenue` column of the concatenated table: jersey rows contribute 0. */
  function TicketColumn(tickets: seq<TicketSale>, sales: seq<JerseySale>): seq<Entry<Date>> {
    DateEntries(tickets) + Zeroed(JerseyDateEntries(sales))
  }

  /** The `jersey_revenue` column of the concatenated table: ticket rows contribute 0. */
  function JerseyColumn(tickets: seq<TicketSale>, sales: seq<JerseySale>): seq<Entry<Date>> {
    Zeroed(DateEntries(tickets)) + JerseyDateEntries(sales)
  }

  /** What the two grouped columns hold, row by row. */
  lemma DailyColumns(tickets: seq<TicketSale>, sales: seq<JerseySale>)
    ensures
      var t := GroupSum(TicketColumn(tickets, sales), IntLess);
      var j := GroupSum(JerseyColumn(tickets, sales), IntLess);
      && SameKeys(t, j)
      && Ascending(t, IntLess)
      && KeySet(t) == KeySet(DateEntries(tickets)) + KeySet(JerseyDateEntries(sales))
      && |t| == |KeySet(DateEntries(tickets)) + KeySet(JerseyDateEntries(sales))|
      && (forall i :: 0 <= i < |t| ==> t[i].amount == SumFor(DateEntries(tickets), t[i].key))
      && (forall i :: 0 <= i < |j| ==> j[i].amount == SumFor(JerseyDateEntries(sales), j[i].key))
  {
    var te, je := DateEntries(tickets), JerseyDateEntries(sales);
    var tc, jc := TicketColumn(tickets, sales), JerseyColumn(tickets, sales);
    var t, j := GroupSum(tc, IntLess), GroupSum(jc, IntLess);
    assert SameKeys(tc, jc) by {
      ZeroedSums(te, 0);
      ZeroedSums(je, 0);
      forall i | 0 <= i < |tc| ensures tc[i].key == jc[i].key {
        if i < |te| {
          assert tc[i] == te[i] && jc[i] == Zeroed(te)[i];
        } else {
          assert tc[i] == Zeroed(je)[i - |te|] && jc[i] == je[i - |te|];
        }
      }
    }
    GroupSameKeys(tc, jc, IntLess);
    IntLessIsStrictOrder();
    GroupSumSummarizes(tc, IntLess);
    GroupSumSummarizes(jc, IntLess);
    KeySetAppend(te, Zeroed(je));
    ZeroedSums(je, 0);
    forall i | 0 <= i < |t| ensures t[i].amount == SumFor(te, t[i].key) {
      SumForAppend(te, Zeroed(je), t[i].key);
      ZeroedSums(je, t[i].key);
    }
    forall i | 0 <= i < |j| ensures j[i].amount == SumFor(je, j[i].key) {
      SumForAppend(Zeroed(te), je, j[i].key);
      ZeroedSums(te, j[i].key);
    }
  }

  /** `combined.groupby('date').sum()` with `total_revenue` added. */
  function DailyRevenues(tickets: seq<TicketSale>, sales: seq<JerseySale>): seq<DailyRevenue> {
    var t := GroupSum(TicketColumn(tickets, sales), IntLess);
    var j := GroupSum(JerseyColumn(tickets, sales), IntLess);
    DailyColumns(tickets, sales);
    seq(|t|, i requires 0 <= i < |t| =>
      DailyRevenue(t[i].key, t[i].amount, j[i].amount, t[i].amount + j[i].amount))
  }

  /** The daily rows are the grouped columns, zipped. */
  lemma DailyRows(tickets: seq<TicketSale>, sales: seq<JerseySale>)
    ensures var t := GroupSum(TicketColumn(tickets, sales), IntLess);
      var j := GroupSum(JerseyColumn(tickets, sales), IntLess);
      var r := DailyRevenues(tickets, sales);
      && |r| == |t| == |j|
      && forall i :: 0 <= i < |r| ==> r[i] == DailyRevenue(t[i].key, t[i].amount, j[i].amount, t[i].amount + j[i].amount)
  {
    DailyColumns(tickets, sales);
  }

  /** One row per date found in either table, dates strictly ascending. */
  lemma DailyDates(tickets: seq<TicketSale>, sales: seq<JerseySale>)
    ensures var r := DailyRevenues(tickets, sales);
      && (forall i, j :: 0 <= i < j < |r| ==> r[i].date < r[j].date)
      && |r| == |KeySet(DateEntries(tickets)) + KeySet(JerseyDateEntries(sales))|
      && (forall d :: (exists i :: 0 <= i < |r| && r[i].date == d) <==>
            d in KeySet(DateEntries(tickets)) + KeySet(JerseyDateEntries(sales)))
  {
    var t := GroupSum(TicketColumn(tickets, sales), IntLess);
    var r := DailyRevenues(tickets, sales);
    DailyColumns(tickets, sales);
    DailyRows(tickets, sales);
    forall d ensures (exists i :: 0 <= i < |r| && r[i].date == d) <==> d in KeySet(t) {
      if d in KeySet(t) {
        var i :| 0 <= i < |t| && t[i].key == d;
        assert r[i].date == d;
      }
    }
  }

  /** Each day's ticket and jersey revenue, 0 for a source with no sale that day, and their sum. */
  lemma DailySums(tickets: seq<TicketSale>, sales: seq<JerseySale>)
    ensures var r := DailyRevenues(tickets, sales);
      && (forall i :: 0 <= i < |r| ==> r[i].ticketRevenue == SumFor(DateEntries(tickets), r[i].date))
      && (forall i :: 0 <= i < |r| ==> r[i].jerseyRevenue == SumFor(JerseyDateEntries(sales), r[i].date))
      && (forall i :: 0 <= i < |r| && r[i].date !in KeySet(DateEntries(tickets)) ==> r[i].ticketRevenue == 0)
      && (forall i :: 0 <= i < |r| && r[i].date !in KeySet(JerseyDateEntries(sales)) ==> r[i].jerseyRevenue == 0)
      && (forall i :: 0 <= i < |r| ==> r[i].totalRevenue == r[i].ticketRevenue + r[i].jerseyRevenue)
  {
    var te, je := DateEntries(tickets), JerseyDateEntries(sales);
    var r := DailyRevenues(tickets, sales);
    DailyColumns(tickets, sales);
    DailyRows(tickets, sales);
    forall i | 0 <= i < |r| && r[i].date !in KeySet(te) ensures r[i].ticketRevenue == 0 {
      SumForAbsent(te, r[i].date);
    }
    forall i | 0 <= i < |r| && r[i].date !in KeySet(je) ensures r[i].jerseyRevenue == 0 {
      SumForAbsent(je, r[i].date);
    }
  }

  /** The daily table is empty exactly when both input tables are. */
  lemma DailyRevenuesEmpty(tickets: seq<TicketSale>, sales: seq<JerseySale>)
    ensures DailyRevenues(tickets, sales) == [] <==> tickets == [] && sales == []
  {
    var daily := DailyRevenues(tickets, sales);
    DailyDates(tickets, sales);
    if tickets != [] {
      assert DateEntries(tickets)[0].key in KeySet(DateEntries(tickets));
    }
    if sales != [] {
      assert JerseyDateEntries(sales)[0].key in KeySet(JerseyDateEntries(sales));
    }
    if daily != [] {
      assert daily[0].date in KeySet(DateEntries(tickets)) + KeySet(JerseyDateEntries(sales));
    }
  }

  function DailyDate(d: DailyRevenue): int {
    d.date
  }

  function DailyTotal(d: DailyRevenue): int {
    d.totalRevenue
  }

  /**
   * `daily_revenue.loc[daily_revenue['total_revenue'].idxmax()]`: `None`
   * exactly when both tables are empty (pandas raises there); otherwise a day
   * whose total is at least every other day's, and the earliest such day.
   */
  function MostProfitableDay(tickets: seq<TicketSale>, sales: seq<JerseySale>): (m: Option<DailyRevenue>)
    ensures m == None <==> tickets == [] && sales == []
    ensures m.Some? ==> m.value in DailyRevenues(tickets, sales)
    ensures m.Some? ==> forall d :: d in DailyRevenues(tickets, sales) ==> d.totalRevenue <= m.value.totalRevenue
    ensures m.Some? ==> forall d :: d in DailyRevenues(tickets, sales) && d.date < m.value.date ==>
      d.totalRevenue < m.value.totalRevenue
  {
    var daily := DailyRevenues(tickets, sales);
    DailyRevenuesEmpty(tickets, sales);
    if |daily| == 0 then None
    else
      DailyDates(tickets, sales);
      ArgMaxRow(daily, DailyTotal, DailyDate);
      Some(daily[ArgMax(Scores(daily, DailyTotal))])
  }

  /**
   * One ticket and one jersey sold on the same day: that day is the most
   * profitable, with the two prices as its ticket and jersey revenue.
   */
  lemma SingleDay(t: TicketSale, s: JerseySale)
    requires t.purchaseDate == s.transactionDate
    ensures MostProfitableDay([t], [s]) ==
      Some(DailyRevenue(t.purchaseDate, t.totalPrice, s.price, t.totalPrice + s.price))
  {
    var daily := DailyRevenues([t], [s]);
    var d := t.purchaseDate;
    var te, je := DateEntries([t]), JerseyDateEntries([s]);
    DailyDates([t], [s]);
    DailySums([t], [s]);
    DailyRevenuesEmpty([t], [s]);
    assert te == [Entry(d, t.totalPrice)] && je == [Entry(d, s.price)];
    assert KeySet(te) + KeySet(je) == {d} by {
      assert te[0].key == d && je[0].key == d;
    }
    assert SumFor(te, d) == t.totalPrice && SumFor(je, d) == s.price;
    assert daily[0].date == d by {
      assert daily[0].date in KeySet(te) + KeySet(je);
    }
    assert |daily| == 1;
    assert ArgMax(Scores(daily, DailyTotal)) == 0;
  }
}
