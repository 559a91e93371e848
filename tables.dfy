/**
 * The input tables the revenue reports read, with their columns already
 * parsed: dates are ordered day numbers, money is an exact count of cents.
 */
module Tables {

  datatype Option<T> = None | Some(value: T)

  /** A calendar day (the result of `pd.to_datetime`), as an ordered key. */
  type Date = int

  /** An amount of money in cents. */
  type Money = int

  /** A row of `ticket_sales`; `isGiveawayNight` is the raw 0/1 column. */
  datatype TicketSale = TicketSale(
    purchaseDate: Date,
    totalPrice: Money,
    section: string,
    isGiveawayNight: int)

  /** A row of `jersey_sales`. */
  datatype JerseySale = JerseySale(
    saleId: int,
    playerId: int,
    jerseyType: string,
    price: Money,
    transactionDate: Date)

  /** The three `roster` columns the reports select. */
  datatype RosterEntry = RosterEntry(playerId: int, firstName: string, lastName: string)
}
