/** What a configuration says about one listener; the reader fills it in and the event loop
    goes by it. */
module Listeners {

  const MAX_LISTENERS: nat := 16

  datatype Proto = Tcp | Udp

  datatype Service = Echo | Proxy

  datatype Listener = Listener(
    proto: Proto, service: Service, listenType: string, listenIp: string, listenPort: int,
    typeName: string, targetIp: string, targetPort: int)

  /** A listener that was set up, with its descriptor. */
  datatype Channel = Channel(fd: int, config: Listener)
}
