/** What the trading components share. */
module Domain {
  datatype Direction = Long | Short
}
