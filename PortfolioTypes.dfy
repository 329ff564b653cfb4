/**
 * The data model of the portfolio response. Amounts are whole yen; the two
 * ratios are held as integers in the units the response documents them in:
 * gain_ratio in hundredths of a percent (two decimal places) and
 * holding_ratio in tenths of a percent (one decimal place).
 */
module PortfolioTypes {

  /** Identity of a tradable instrument. */
  datatype Asset = Asset(name: string, tickerSymbol: string, logoUrl: string)

  /** One position of the portfolio. */
  datatype HoldingAsset = HoldingAsset(
    asset: Asset,
    assetAmount: int,   // yen
    gainAmount: int,    // yen, signed
    gainRatio: int,     // hundredths of a percent, signed
    holdingRatio: int   // tenths of a percent
  )

  /** The whole response; `holdingAssets` is in no particular order. */
  datatype PortfolioResponse = PortfolioResponse(
    totalAssetAmount: int,
    totalGainAmount: int,
    totalGainRatio: int,   // hundredths of a percent, signed
    holdingAssets: seq<HoldingAsset>
  )

  /** The three-way classification of a profit or loss. */
  datatype GainStatus = Positive | Negative | Zero

  /** A classification together with the colour class it is shown in. */
  datatype GainStatusInfo = GainStatusInfo(status: GainStatus, colorClass: string)
}
