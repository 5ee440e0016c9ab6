/** The compile-time constants at the top of ds18b20.c. */
module Defs {

  /** Directory where the kernel's one-wire driver lists the devices it found. */
  const PROBEPATH: string := "/sys/bus/w1/devices"

  /** Directory that holds one log file per probe. */
  const LOGROOT: string := "/var/probes"

  /** Size of the fixed probe and alias tables. */
  const MAXPROBES: nat := 5

  /** Size of each path and name buffer; `snprintf` into it keeps at most 78 characters. */
  const PROBENAMELEN: nat := 80

  /** Size of the general character buffers (config line, alias entry, probe line). */
  const BUFSIZE: nat := 256

  /** Interval between sampling cycles, in seconds, when nothing overrides it. */
  const DEFAULT_INTERVAL: int := 300
}
