/** The two layouts of Go's net.IP. */
module NetIP {
  import opened Wrappers

  const V4_IN_V6: bytes := [0, 0, 0, 0, 0, 0, 0, 0, 0, 0, 255, 255]

  /** net.IP.To4: the 4-byte form, or empty when there is none. */
  function To4(ip: bytes): bytes {
    if |ip| == 4 then ip
    else if |ip| == 16 && ip[..12] == V4_IN_V6 then ip[12..]
    else []
  }

  /** What net.IP.Equal compares: an IPv4 address is the same in both layouts. */
  function Canonical(ip: bytes): bytes {
    if To4(ip) != [] then To4(ip) else ip
  }
}
