/**
 * An IPv4 transport address (32-bit address, 16-bit port) and its printable
 * form. The address class itself (transport_address.cpp) is not part of this
 * model; its printable form is taken to be the dotted quad, most significant
 * octet first, followed by ':' and the decimal port.
 */
module Transport {
  import opened NetworkTypes
  import opened StringUtils

  datatype TransportAddress = TransportAddress(ip: uint32, port: uint16)

  /** The four octets, most significant first, joined by '.'. */
  function DottedQuad(ip: uint32): (r: string)
    ensures |r| > 0 && IsDigit(r[0])
  {
    NatToString(ip / 0x100_0000 % 0x100) + "." +
    NatToString(ip / 0x1_0000 % 0x100) + "." +
    NatToString(ip / 0x100 % 0x100) + "." +
    NatToString(ip % 0x100)
  }

  /** `a.b.c.d:port`. */
  function ToString(addr: TransportAddress): (r: string)
    ensures |r| > 0 && IsDigit(r[0])
  {
    DottedQuad(addr.ip) + ":" + NatToString(addr.port)
  }
}
