/** apw/transport.go: the connection data a System is given by
    AddConnectionToSystem. */
module Transports {

  /** transport.Transport. */
  datatype Transport = Transport(
    transportType: string,
    host: string,
    port: int,
    name: string,
    pingTest: bool,
    username: string,
    password: string)

  /** The NetLinx master's default ICSP port. */
  const DefaultIPPort := 1319

  /** NewIPTransport: a TCP/IP transport to host on the default port; every field
      the literal leaves out keeps Go's zero value. */
  function NewIPTransport(host: string): (t: Transport)
    ensures t.transportType == "TCPIP" && t.host == host && t.port == DefaultIPPort
    ensures !t.pingTest && t.name == "" && t.username == "" && t.password == ""
  {
    Transport("TCPIP", host, DefaultIPPort, "", false, "", "")
  }
}
