/** Protocol parameters of era 0. Times are in nanoseconds, sizes in bytes. */
module Era {
  const SECOND: nat := 1_000_000_000

  const DEAD_TIMEOUT: nat := 90 * SECOND
  const STALE_TIMEOUT: nat := 6 * 3600 * SECOND
  const BAN_BASE_DURATION: nat := 3600 * SECOND
  const RECONNECT_BACKOFF_BASE: nat := 30 * SECOND
  const RECONNECT_BACKOFF_MAX: nat := 15 * 60 * SECOND
  const BACKOFF_SATURATION_COUNT: nat := 5

  const MAX_MESSAGE_BYTES: nat := 512 * 1024
  const MAX_ITEM_BYTES: nat := 16 * 1024

  const PUSH_RETRY_BACKOFFS: seq<nat> := [5 * SECOND, 15 * SECOND, 60 * SECOND, 300 * SECOND]
  const PUSH_RETRY_COUNT: nat := 4

  const EAGER_PUSH_INTERVAL: nat := 60 * SECOND
  const FULL_SYNC_EVERY: nat := 10
  const MAX_CULTURE_BYTES: nat := 4096
}
