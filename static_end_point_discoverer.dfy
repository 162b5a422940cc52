/** The static node discoverer: a fixed, pre-configured address, offered either as
    the plaintext or as the TLS endpoint. */
module StaticEndPointDiscoverer {
  import opened Wrappers

  datatype InetSocketAddress = InetSocketAddress(host: string, port: int)

  /** The configured address and whether the connection is to use TLS. */
  datatype StaticNodeSettings = StaticNodeSettings(address: InetSocketAddress, ssl: bool)

  /** The endpoints a discovery yields; a null endpoint is `None`. */
  datatype NodeEndPoints = NodeEndPoints(tcpEndPoint: Option<InetSocketAddress>, secureTcpEndPoint: Option<InetSocketAddress>)

  /** Exactly one of the two endpoints is populated. */
  predicate ExactlyOnePopulated(e: NodeEndPoints) {
    e.tcpEndPoint.Some? != e.secureTcpEndPoint.Some?
  }

  /** A discoverer holds the one result it computed at construction. */
  datatype Discoverer = Discoverer(result: NodeEndPoints)

  datatype NullPointerException = NullPointerException(message: string)

  /** The constructor: null settings are refused; otherwise the address becomes the
      TLS endpoint when `ssl` is set and the plaintext endpoint when it is not. */
  function New(settings: Option<StaticNodeSettings>): (r: Result<Discoverer, NullPointerException>)
    ensures r.Err? <==> settings.None?
    ensures r.Ok? ==> ExactlyOnePopulated(r.value.result)
    ensures r.Ok? && settings.value.ssl ==>
      r.value.result.tcpEndPoint == None && r.value.result.secureTcpEndPoint == Some(settings.value.address)
    ensures r.Ok? && !settings.value.ssl ==>
      r.value.result.tcpEndPoint == Some(settings.value.address) && r.value.result.secureTcpEndPoint == None
  {
    if settings.None? then
      Err(NullPointerException("settings is null"))
    else
      var s := settings.value;
      Ok(Discoverer(NodeEndPoints(
        if s.ssl then None else Some(s.address),
        if s.ssl then Some(s.address) else None)))
  }

  /** discover: the previously failed endpoint is ignored and the result computed at
      construction is returned. */
  function Discover(d: Discoverer, failedTcpEndPoint: Option<InetSocketAddress>): NodeEndPoints {
    d.result
  }

  /** Every discovery from a constructed discoverer yields the configured address,
      populated in exactly one of the two endpoints, whatever hint is passed. */
  lemma DiscoverYieldsConfiguredAddress(settings: StaticNodeSettings, hint: Option<InetSocketAddress>, other: Option<InetSocketAddress>)
    ensures New(Some(settings)).Ok?
    ensures var e := Discover(New(Some(settings)).value, hint);
      ExactlyOnePopulated(e) &&
      (if settings.ssl then e.secureTcpEndPoint else e.tcpEndPoint) == Some(settings.address) &&
      e == Discover(New(Some(settings)).value, other)
  {
  }
}
