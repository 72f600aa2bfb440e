/** Deployment settings shared by the pipeline (their environment overrides are not modelled). */
module Config {

  /** The tracked assets, in processing order. */
  const ASSETS: seq<string> := ["HYPE", "BTC", "ETH"]

  /** Number of leaderboard wallets kept in the universe. */
  const UNIVERSE_SIZE: nat := 200

  /** Minutes without a successful snapshot after which ingestion is stale. */
  const STALE_THRESHOLD_MINUTES: nat := 3
}
