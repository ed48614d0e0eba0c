/** Fixed configuration of the trace reader: the identity of the Black Magic
    Probe, the interface and endpoint that carry its trace capture, the size
    of one bulk read and the process exit status used on fatal errors. */
module Config {
  /** USB vendor identifier of the probe. */
  const Vendor: bv16 := 0x1d50
  /** USB product identifier of the probe. */
  const Product: bv16 := 0x6018
  /** The "Black Magic Trace Capture" interface that is claimed. */
  const TraceInterface: nat := 5
  /** The upstream bulk endpoint that is read. */
  const EndpointUp: bv8 := 0x85
  /** Capacity of the read buffer `dataUp`: one bulk read delivers at most this many bytes. */
  const TransferSize: nat := 128
  /** Status passed to `exit` on every fatal error. */
  const ExitFailure: int := 1
}
