/** The fixed configuration of the Polygon client (`API_CONFIG` without the
    key, which is an input of the request operations). */
module Config {
  const BaseUrl: string := "https://api.polygon.io"
  const TickersEndpoint: string := "/v3/reference/tickers"
  const DefaultMarket: string := "stocks"
  const DefaultExchange: string := "XNAS"
  const DefaultSort: string := "ticker"
  const DefaultActive: string := "true"
  const DefaultLimit: int := 20
  const MaxLimit: int := 1000
}
