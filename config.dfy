/** The strategy constants declared at the top of app.py (lines 41-54). */
module Config {
  /** Pyramid growth factor (PIRAMIDE_MULT); the helper that applies it is not part of app.py. */
  const PiramideMult: real := 1.3

  /** First lot of a new account, and the lot a global stop resets to (PIRAMIDE_START, USD). */
  const PiramideStart: real := 40.0

  /** A new or raised trailing stop sits at this fraction of the price (TRAILING_STOP_FACTOR). */
  const TrailingStopFactor: real := 0.9

  /** Age in days from which a position that is not 5% up is halved (STOP_TIME_DAYS). */
  const StopTimeDays: int := 60

  /** Drawdown from the high-water mark that liquidates an account (STOP_GLOBAL_PCT). */
  const StopGlobalPct: real := 0.25

  /** Recurring credit added every 30 days (MONTHLY_DEPOSIT). */
  const MonthlyDeposit: real := 500.0
}
