/** The normalised market tick of src/data/tick.hpp; prices are reals. */
module Ticks {

  datatype Source = Binance | Coinbase | Polymarket

  datatype Tick = Tick(timestampUs: int, source: Source, bestBid: real, bestAsk: real, mid: real,
                       obImbalance: real, lastTrade: real, lowDepth: bool)
}
