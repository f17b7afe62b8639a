/** What the contracts share: account addresses, and the limits both sides of a request apply. */
module Common {
  type Address = nat
  const ZERO: Address := 0

  const MAX_SUPPLEMENTAL_SOURCES := 6
}
