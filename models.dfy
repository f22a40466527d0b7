/** The record, direction and configuration types of src/models.rs. */
module Models {

  /** Direction of a transfer, always relative to the tracked wallet. */
  datatype TransferDirection = Incoming | Outgoing

  /**
   * One reconstructed transfer. `timestamp` is the block time in seconds since
   * the Unix epoch; `amount` is the token's UI amount, modelled as an exact real.
   */
  datatype UsdcTransfer = UsdcTransfer(
    signature: string,
    timestamp: int,
    from: string,
    to: string,
    amount: real,
    direction: TransferDirection)

  /**
   * The run's configuration. Addresses are kept in their canonical base58 text
   * form, so comparing two keys is comparing two strings.
   */
  datatype Config = Config(
    rpcUrl: string,
    walletAddress: string,
    usdcMintAddress: string,
    daysToIndex: int)
}
