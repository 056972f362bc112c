/** The type bytes of the messages a response is made of. */
module Messages {
  import opened Bytes

  const PROTOCOL: byte := 1
  const DATA_TYPES: byte := 2
  const ERROR: byte := 4
  const ROW_HEADER: byte := 6
  const ROW_DATA: byte := 7
  const PARAMETER: byte := 8
  const STATUS: byte := 9
  const LOB_DATA: byte := 14
  const DESCRIBE_INFO: byte := 16
  const BIT_VECTOR: byte := 21
  const PIGGYBACK: byte := 23
  const RENEGOTIATE: byte := 28
  const END_OF_RESPONSE_MESSAGE: byte := 29
}
