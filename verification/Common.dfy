/** Types shared by every part of the model. */
module Common {

  datatype Option<+T> = None | Some(value: T)

  datatype Result<+T, +E> = Ok(value: T) | Err(error: E)

  /** Durations and clock readings are integers counting nanoseconds of one non-decreasing clock. */
  const MILLISECOND: int := 1_000_000
  const SECOND: int := 1000 * MILLISECOND

  newtype byte = x: int | 0 <= x < 256

  function Min(a: int, b: int): int {
    if a <= b then a else b
  }

  function Bit(b: bool): nat {
    if b then 1 else 0
  }

  /** A dial address: what `host:port` names. */
  datatype Address = Address(host: string, port: int)

  /** backend.Endpoint. */
  datatype Endpoint = Endpoint(host: string, targetActor: string, port: int, mcpPort: int) {
    /** The address of the native WebSocket port. */
    function Addr(): Address {
      Address(host, port)
    }

    /** The address of the MCP port, which falls back to the WebSocket port. */
    function McpAddr(): Address {
      Address(host, if mcpPort == 0 then port else mcpPort)
    }
  }

  /** The zero value of Go's Endpoint. */
  const ZERO_ENDPOINT := Endpoint("", "", 0, 0)
}
