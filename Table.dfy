/** The campaign table after cleaning: one row per campaign-interaction observation. */
module Table {

  /** A cleaned row: the twelve analysed columns, every cell present. Whole-number columns of
      the dataset are `int`, fractional ones `real`. */
  datatype Record = Record(
    age: int,
    gender: string,
    income: int,
    campaignChannel: string,
    campaignType: string,
    adSpend: real,
    clickThroughRate: real,
    conversionRate: real,
    timeOnSite: real,
    socialShares: int,
    previousPurchases: int,
    loyaltyPoints: int)
}
