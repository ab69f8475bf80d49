/** Keys, constants and errors shared by the modules of the GRS program. */
module GrsTypes {
  import opened Prelude

  type Byte = b: nat | b < 256 witness 0

  /** A 32-byte public key. */
  type Key = k: seq<Byte> | |k| == 32 witness ZEROS(32)

  function ZEROS(n: nat): (z: seq<Byte>)
    ensures |z| == n
  {
    seq(n, _ => 0)
  }

  /** `Pubkey::default()`: the native coin as an asset, the store's admin as a recipient. */
  const DEFAULT_KEY: Key := ZEROS(32)

  /** Local units per shared unit: 9 local decimals against 6 shared ones. */
  const LD2SD_RATE: nat := 1_000

  const LOCAL_DECIMALS: nat := 9

  const ONE_LD: nat := 1_000_000_000

  const MAX_SUPPLY_LD: nat := 1_000_000_000 * ONE_LD

  const BASIS_POINTS: nat := 10_000

  /** A 64-bit amount. */
  type U64 = n: nat | n <= U64_MAX

  /** Fees are set below the whole amount. */
  type FeeBps = b: nat | b < BASIS_POINTS

  datatype Option<+T> = None | Some(value: T)

  datatype GrsError =
    | SlippageExceeded
    | InvalidTokenDest
    | RateLimitExceeded
    | Paused
    | CapExceeded
    | ZeroAmount
    | InvalidRecipient
    | NotHome
    | NotSpoke
    | UnknownSale
    | UnknownPeer
    | SaleClosed
    | InvalidAssetAmount
    | SaleExceeded
    | InvalidPayment
    | BucketExceeded
    | InsufficientInventory
    | InsufficientFunds
    | InvalidSaleMessage
    | ComposeDisabled
    | InvalidSaleId
    | InvalidSchedule
    | InvalidVestingId
    | NonZeroSupply
    | InvalidGrsDecimals
    | InvalidMintAuthority
    | PaymentFailed
    | GenesisDisabled
    | ArithmeticPanic
}
