/** Session PINs (src/core/pin.ts). */
module Pin {
  /** Failed attempts before a LAN host or a pairing listener closes. */
  const PIN_MAX_FAILURES := 8
}
