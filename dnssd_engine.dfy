/** The `DnsSd` object of lib/dns-sd.js: its flags, its map of discovered
    devices and the methods that change them. The socket, the timers and the
    decoder are outside the model: a socket is a flag, whether binding it
    succeeds is a parameter, a timer expiring and a datagram arriving are
    method calls, and what goes out on the network or to the `ondata`
    callback is recorded in ghost traces. */
module DnsSdEngine {
  import opened Wrappers
  import opened DnsSdTypes
  import DnsSdParams
  import opened DnsSdSession
  import DnsSdDevice
  import DnsSdFilter
  import DnsSdNetif
  import Composer

  /** The mDNS group and port of RFC 6762 section 3. */
  const MULTICAST_ADDR: string := "224.0.0.251"
  const UDP_PORT: nat := 5353

  datatype EngineError =
    | Busy
    | InvalidParams(error: DnsSdParams.ParamError)
    | ListenFailed
  {
    function Text(): string {
      match this
      case Busy => "The discovery process is running."
      case InvalidParams(e) => e.Text()
      // The source rethrows the socket's own error, whose text is not part
      // of this model; this stands for it.
      case ListenFailed => "The socket could not be bound."
    }
  }

  class DnsSd {
    /** `_netif_address_list`. */
    var netifAddressList: seq<string>
    /** `_udp !== null`. */
    var socketOpen: bool
    /** `_discovered_devices`. */
    var discoveredDevices: map<string, Device>
    var isDiscovering: bool
    var isMonitoring: bool
    var isListening: bool
    /** `_onreceive`: the handler of the running discovery, or None for the
        no-op handler (which is also what stands for "no wait timer"). */
    var onreceive: Option<Session>
    /** The queries sent so far. */
    ghost var sent: seq<SendEvent>
    /** The messages passed to `ondata` so far. */
    ghost var delivered: seq<Message>
    /** The vendor heuristics of `_createDeviceObject`. */
    const classify: Classifier

    /** The socket is open exactly while the object listens, it listens
        exactly while it discovers or monitors, a discovery has its handler,
        and devices are only held during a discovery. */
    ghost predicate Valid()
      reads this
    {
      && (socketOpen <==> isListening)
      && (isListening <==> isDiscovering || isMonitoring)
      && (isDiscovering <==> onreceive.Some?)
      && (!isDiscovering ==> discoveredDevices == map[])
    }

    function Context(): Context
      reads this
      requires onreceive.Some?
    {
      DnsSdSession.Context(onreceive.value, netifAddressList, classify)
    }

    constructor(classify: Classifier)
      ensures Valid()
      ensures netifAddressList == [] && discoveredDevices == map[]
      ensures !isDiscovering && !isMonitoring && !isListening && !socketOpen
      ensures sent == [] && delivered == []
      ensures this.classify == classify
    {
      this.classify := classify;
      netifAddressList := [];
      socketOpen := false;
      discoveredDevices := map[];
      isDiscovering := false;
      isMonitoring := false;
      isListening := false;
      onreceive := None;
      sent := [];
      delivered := [];
    }

    /** `discover(params)` up to the point where it waits for answers: the
        busy check, validation, the interface list, listening, and the start
        of the session with its query. The device list it resolves with is
        what `Receive` or `WaitTimerExpired` hands back. The check and the
        start of the session run as one step here, which is the corrected
        ordering of `DnsSdStart.StepGuarded`; the source sets the flag only
        after `_startListening` resolves, and `DnsSdStart` shows the calls
        that get through in between. */
    method Discover(params: DnsSdParams.JsValue, interfaces: seq<seq<DnsSdNetif.NetIf>>, bindSucceeds: bool)
      returns (r: Outcome<EngineError>)
      requires Valid()
      modifies this
      ensures Valid()
      ensures old(isDiscovering) ==> r == Fail(Busy) && unchanged(this)
      ensures !old(isDiscovering) && DnsSdParams.ParseParams(params).Err? ==>
        r == Fail(InvalidParams(DnsSdParams.ParseParams(params).error)) && unchanged(this)
      ensures !old(isDiscovering) && DnsSdParams.ParseParams(params).Ok? ==>
        var p := DnsSdParams.ParseParams(params).value;
        && netifAddressList == DnsSdNetif.AddressList(interfaces)
        && isMonitoring == old(isMonitoring) && delivered == old(delivered)
        && discoveredDevices == map[]
        && (if old(isListening) || bindSucceeds then
              && r == Pass && isDiscovering && isListening
              && onreceive == Some(SessionOf(p))
              && sent == old(sent) + SendSchedule(netifAddressList, Composer.QueryBytes(p.names), true)
            else
              && r == Fail(ListenFailed) && !isDiscovering && !isListening && !socketOpen
              && sent == old(sent))
    {
      if isDiscovering {
        return Fail(Busy);
      }
      var res := DnsSdParams.CheckDiscoveryParameters(params);
      if res.Err? {
        return Fail(InvalidParams(res.error));
      }
      var p := res.value;
      netifAddressList := DnsSdNetif.GetNetifAddressList(interfaces);
      var ok := StartListening(bindSucceeds);
      if !ok {
        StopDiscovery();
        return Fail(ListenFailed);
      }
      StartDiscovery(p);
      r := Pass;
    }

    /** `_startDiscovery` without its timer: clears the devices, sets the
        flag, composes the query, installs the handler and sends. */
    method StartDiscovery(p: DnsSdParams.DiscoveryParams)
      requires isListening && socketOpen && !isDiscovering
      modifies this
      ensures isDiscovering && discoveredDevices == map[] && onreceive == Some(SessionOf(p))
      ensures sent == old(sent) + SendSchedule(netifAddressList, Composer.QueryBytes(p.names), true)
      ensures netifAddressList == old(netifAddressList) && delivered == old(delivered)
      ensures isMonitoring == old(isMonitoring) && isListening && socketOpen
    {
      discoveredDevices := map[];
      isDiscovering := true;
      var buf := Composer.Compose(p.names, p.qtype);
      onreceive := Some(SessionOf(p));
      SendQueryPacket(buf);
    }

    /** `_sendQueryPacket`: three sends per interface, except that the loop
        breaks after a send while the discovery flag is set. */
    method SendQueryPacket(buf: seq<Composer.byte>)
      modifies this`sent
      ensures sent == old(sent) + SendSchedule(netifAddressList, buf, isDiscovering)
    {
      var n := 0;
      while n < |netifAddressList|
        invariant 0 <= n <= |netifAddressList|
        invariant !isDiscovering ==> sent == old(sent) + AllAttempts(netifAddressList[..n], buf)
        invariant isDiscovering ==> n == 0 && sent == old(sent)
      {
        var netifAddress := netifAddressList[n];
        var i := 0;
        while i < SEND_ATTEMPTS
          invariant 0 <= i <= SEND_ATTEMPTS
          invariant !isDiscovering ==>
            sent == old(sent) + AllAttempts(netifAddressList[..n], buf) + Attempts(netifAddress, i, buf)
          invariant isDiscovering ==> i == 0 && sent == old(sent)
        {
          sent := sent + [SendEvent(netifAddress, i, buf)];
          if isDiscovering {
            break;
          }
          i := i + 1;
        }
        if isDiscovering {
          break;
        }
        assert netifAddressList[..n + 1][..n] == netifAddressList[..n];
        n := n + 1;
      }
      if !isDiscovering {
        assert netifAddressList[..|netifAddressList|] == netifAddressList;
      }
    }

    /** The running discovery's handler, on an arrival that passed
        `_isAnswerPacket`. It reports whether it ended the session (quick
        mode), clearing the handler as `clearTimer` does. */
    method OnReceive(sender: string, p: Message) returns (resolved: bool)
      requires onreceive.Some?
      requires IsAnswerPacket(p, sender, netifAddressList)
      modifies this`discoveredDevices, this`onreceive
      ensures var h := Step(old(Context()), old(discoveredDevices), Arrival(sender, p));
        discoveredDevices == h.devices && resolved == h.resolved
      ensures onreceive == if resolved then None else old(onreceive)
    {
      var s := onreceive.value;
      ghost var c := Context();
      resolved := false;
      var hit := IsTargettedDevice(p, s.names);
      if !hit {
        return;
      }
      var device := DnsSdDevice.CreateDeviceObject(p, classify(p));
      assert device == DeviceFor(c, Arrival(sender, p));
      if !DnsSdFilter.EvaluateDeviceFilter(device, s.filter) {
        return;
      }
      var key := StorageKey(s.key, sender, device);
      discoveredDevices := discoveredDevices[key := device];
      if s.quick {
        onreceive := None;
        resolved := true;
      }
    }

    /** `_receivePacket` for a datagram whose decoding is given (None when
        the decoder rejects it). The sender becomes the message's address; a
        running discovery's handler sees it when it is an answer, and a
        monitor passes it to `ondata`. When the handler ends the session, the
        devices collected are handed back and the discovery stops. */
    method Receive(parsed: Option<Message>, sender: string) returns (finished: Option<map<string, Device>>)
      requires Valid()
      modifies this
      ensures Valid()
      ensures parsed.None? ==> finished.None? && unchanged(this)
      ensures parsed.Some? ==>
        var p := parsed.value.(address := sender);
        && delivered == (if old(isMonitoring) then old(delivered) + [p] else old(delivered))
        && isMonitoring == old(isMonitoring) && netifAddressList == old(netifAddressList) && sent == old(sent)
      ensures parsed.Some? && old(isDiscovering) ==>
        var p := parsed.value.(address := sender);
        var h := Step(old(Context()), old(discoveredDevices), Arrival(sender, p));
        if h.resolved then
          && finished == Some(h.devices) && !isDiscovering && discoveredDevices == map[]
          && isListening == old(isMonitoring)
        else
          && finished.None? && isDiscovering && discoveredDevices == h.devices
          && onreceive == old(onreceive) && isListening
      ensures parsed.Some? && !old(isDiscovering) ==>
        && finished.None? && discoveredDevices == old(discoveredDevices)
        && isDiscovering == old(isDiscovering) && isListening == old(isListening)
        && onreceive == old(onreceive)
    {
      if parsed.None? {
        return None;
      }
      var p := parsed.value.(address := sender);
      var resolved := false;
      if isDiscovering {
        if IsAnswerPacket(p, sender, netifAddressList) {
          resolved := OnReceive(sender, p);
        }
      }
      if isMonitoring {
        delivered := delivered + [p];
      }
      finished := None;
      if resolved {
        finished := Some(discoveredDevices);
        StopDiscovery();
      }
    }

    /** The wait timer of a running discovery fires: `clearTimer`, then the
        devices collected are handed back and the discovery stops. */
    method WaitTimerExpired() returns (finished: Option<map<string, Device>>)
      requires Valid()
      modifies this
      ensures Valid()
      ensures !old(isDiscovering) ==> finished.None? && unchanged(this)
      ensures old(isDiscovering) ==>
        && finished == Some(old(discoveredDevices))
        && !isDiscovering && discoveredDevices == map[] && isListening == old(isMonitoring)
        && isMonitoring == old(isMonitoring) && netifAddressList == old(netifAddressList)
        && sent == old(sent) && delivered == old(delivered)
    {
      if onreceive.None? {
        return None;
      }
      onreceive := None;
      finished := Some(discoveredDevices);
      StopDiscovery();
    }

    /** `_stopDiscovery`. */
    method StopDiscovery()
      requires onreceive.None?
      modifies this
      ensures discoveredDevices == map[] && !isDiscovering && onreceive.None?
      ensures isMonitoring == old(isMonitoring)
      ensures if isMonitoring then isListening == old(isListening) && socketOpen == old(socketOpen)
              else !isListening && !socketOpen
      ensures netifAddressList == old(netifAddressList) && sent == old(sent) && delivered == old(delivered)
    {
      discoveredDevices := map[];
      isDiscovering := false;
      StopListening();
    }

    /** `startMonitoring()`: nothing to do while monitoring; otherwise the
        interface list is refreshed and the object listens, rolling back to
        not monitoring when that fails. */
    method StartMonitoring(interfaces: seq<seq<DnsSdNetif.NetIf>>, bindSucceeds: bool)
      returns (r: Outcome<EngineError>)
      requires Valid()
      modifies this
      ensures Valid()
      ensures old(isMonitoring) ==> r == Pass && unchanged(this)
      ensures !old(isMonitoring) ==>
        && netifAddressList == DnsSdNetif.AddressList(interfaces)
        && isDiscovering == old(isDiscovering) && discoveredDevices == old(discoveredDevices)
        && onreceive == old(onreceive) && sent == old(sent) && delivered == old(delivered)
        && (if old(isListening) || bindSucceeds then r == Pass && isMonitoring && isListening
            else r == Fail(ListenFailed) && !isMonitoring && !isListening && !socketOpen)
    {
      if isMonitoring {
        return Pass;
      }
      netifAddressList := DnsSdNetif.GetNetifAddressList(interfaces);
      var ok := StartListening(bindSucceeds);
      if ok {
        isMonitoring := true;
        return Pass;
      }
      isMonitoring := false;
      StopListening();
      r := Fail(ListenFailed);
    }

    /** `stopMonitoring()`: clears the flag, refreshes the interface list and
        lets the socket go unless a discovery still needs it. */
    method StopMonitoring(interfaces: seq<seq<DnsSdNetif.NetIf>>)
      requires Valid()
      modifies this
      ensures Valid()
      ensures !isMonitoring && netifAddressList == DnsSdNetif.AddressList(interfaces)
      ensures isListening == isDiscovering && isDiscovering == old(isDiscovering)
      ensures discoveredDevices == old(discoveredDevices) && onreceive == old(onreceive)
      ensures sent == old(sent) && delivered == old(delivered)
    {
      isMonitoring := false;
      netifAddressList := DnsSdNetif.GetNetifAddressList(interfaces);
      StopListening();
    }

    /** `_startListening`: nothing to do while listening; otherwise a socket
        is created and bound, and the object listens when binding succeeds. */
    method StartListening(bindSucceeds: bool) returns (ok: bool)
      modifies this`socketOpen, this`isListening
      ensures ok == (old(isListening) || bindSucceeds)
      ensures old(isListening) ==> isListening && socketOpen == old(socketOpen)
      ensures !old(isListening) ==> socketOpen && isListening == bindSucceeds
    {
      if isListening {
        return true;
      }
      socketOpen := true;
      if bindSucceeds {
        isListening := true;
        ok := true;
      } else {
        isListening := false;
        ok := false;
      }
    }

    /** `_stopListening`: the socket is closed only when neither a discovery
        nor a monitor needs it. Leaving the multicast group on each interface
        is not modelled. */
    method StopListening()
      modifies this`socketOpen, this`isListening
      ensures if old(isDiscovering) || old(isMonitoring) then
                socketOpen == old(socketOpen) && isListening == old(isListening)
              else !socketOpen && !isListening
    {
      if isDiscovering || isMonitoring {
        return;
      }
      socketOpen := false;
      isListening := false;
    }
  }

  /** A client's view: monitoring can be started, stopped and started again;
      a discovery started while monitoring shares the socket, a second call
      made once the session has started is turned away as busy, and the
      socket stays open when the discovery ends. Group membership is not
      modelled: `_stopListening` leaves the mDNS group on every interface
      even here, where the socket stays open for the monitor. */
  method MonitoringAndDiscovery(classify: Classifier, interfaces: seq<seq<DnsSdNetif.NetIf>>)
  {
    var dns := new DnsSd(classify);
    var r := dns.StartMonitoring(interfaces, true);
    assert r == Pass && dns.isMonitoring && dns.isListening;
    dns.StopMonitoring(interfaces);
    assert !dns.isListening && !dns.socketOpen;
    r := dns.StartMonitoring(interfaces, true);
    assert dns.isMonitoring && dns.socketOpen;

    var params := DnsSdParams.JObject(map["name" := DnsSdParams.JString("_googlecast._tcp.local")]);
    r := dns.Discover(params, interfaces, false);
    assert r == Pass && dns.isDiscovering;
    assert |dns.sent| <= 1;
    var again := dns.Discover(params, interfaces, true);
    assert again == Fail(Busy);
    var finished := dns.WaitTimerExpired();
    assert finished == Some(map[]);
    assert !dns.isDiscovering && dns.isMonitoring && dns.isListening && dns.socketOpen;
  }
}
