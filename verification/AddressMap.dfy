/** Where things are in a process's 16-bit address space. */
module AddressMap {
  // Program bytes can be read below this address.
  const PROGMEM_END := 0x7FFF
  const RAM_ADDR := 0x8000
  // The last 1kb shows environment data kept at the start of the RAM file.
  const ENV_ADDR := 64512
}
