/** One discovery session of lib/dns-sd.js as values: which arrivals count as
    answers (`_isAnswerPacket`, `_isTargettedDevice`), how an accepted device is
    stored (the receive handler of `_startDiscovery`, lib/dns-sd.js:297-318),
    and which queries the send loop puts out (lib/dns-sd.js:325-341). The
    engine class applies `Step` to each arrival; `Run` folds it over a sequence
    of arrivals so that what a whole session collects can be stated. */
module DnsSdSession {
  import opened Wrappers
  import opened DnsSdTypes
  import DnsSdParams
  import DnsSdDevice
  import DnsSdFilter
  import Utf8

  /** `_DISCOVERY_WAIT_DEFAULT`, in seconds. */
  const DISCOVERY_WAIT_DEFAULT: nat := 3
  /** The send loop tries each interface this many times. */
  const SEND_ATTEMPTS: nat := 3

  /** What the receive handler of a running discovery closes over. */
  datatype Session = Session(names: seq<string>, key: KeyBy, quick: bool, filter: Filter, wait: nat)

  /** The session `_startDiscovery` sets up: a `wait` that is absent or 0
      (falsy) gives the default, and a missing key means "address". */
  function SessionOf(p: DnsSdParams.DiscoveryParams): (s: Session)
    ensures s.wait >= 1
    ensures s.wait == if p.wait.Some? && p.wait.value >= 1 then p.wait.value else DISCOVERY_WAIT_DEFAULT
    ensures s.key == ByFqdn <==> p.key == Some(ByFqdn)
    ensures s.names == p.names && s.quick == p.quick && s.filter == p.filter
  {
    var wait := match p.wait case Some(w) => if w >= 1 then w else DISCOVERY_WAIT_DEFAULT case None => DISCOVERY_WAIT_DEFAULT;
    Session(p.names, p.key.GetOr(ByAddress), p.quick, p.filter, wait)
  }

  /** The vendor heuristics, which read the model and family names off a
      message. */
  type Classifier = Message -> VendorInfo

  /** A running discovery as the handler sees it: the session, the host's own
      addresses and the vendor heuristics. */
  datatype Context = Context(session: Session, netifs: seq<string>, classify: Classifier)

  /** `_isAnswerPacket`: not one of this host's own addresses, and a response
      with the standard-query opcode. */
  predicate IsAnswerPacket(p: Message, sender: string, netifs: seq<string>) {
    sender !in netifs && p.header.qr == 1 && p.header.op == 0
  }

  /** `_isTargettedDevice` as one condition: some answer record has a
      non-empty name that was asked for. */
  predicate Targetted(p: Message, names: seq<string>) {
    exists i :: 0 <= i < |p.answers| && p.answers[i].name != "" && p.answers[i].name in names
  }

  /** `_isTargettedDevice`: goes over every answer, setting `hit` on a match. */
  method IsTargettedDevice(p: Message, names: seq<string>) returns (hit: bool)
    ensures hit == Targetted(p, names)
  {
    hit := false;
    for i := 0 to |p.answers|
      invariant hit <==> exists j :: 0 <= j < i && p.answers[j].name != "" && p.answers[j].name in names
    {
      var name := p.answers[i].name;
      if name != "" && name in names {
        hit := true;
      }
    }
  }

  /** The key a device is stored under. With key "fqdn" a device without a
      PTR record is stored under "null", the string a JavaScript object makes
      of a null key. */
  function StorageKey(key: KeyBy, sender: string, d: Device): (k: string)
    ensures key == ByAddress ==> k == sender
    ensures key == ByFqdn && d.fqdn.Some? ==> k == d.fqdn.value
    ensures key == ByFqdn && d.fqdn.None? ==> k == "null"
  {
    match key
    case ByFqdn => (match d.fqdn case Some(f) => f case None => "null")
    case ByAddress => sender
  }

  /** A decoded arrival: the sender and the message, whose `address` the
      engine has set to the sender. */
  datatype Arrival = Arrival(sender: string, packet: Message)

  function DeviceFor(c: Context, a: Arrival): Device {
    DnsSdDevice.DeviceOf(a.packet, c.classify(a.packet))
  }

  function KeyFor(c: Context, a: Arrival): string {
    StorageKey(c.session.key, a.sender, DeviceFor(c, a))
  }

  /** An arrival that gets a device stored: it passes the answer gate, names a
      requested service and passes the filter. */
  predicate Accepts(c: Context, a: Arrival) {
    && IsAnswerPacket(a.packet, a.sender, c.netifs)
    && Targetted(a.packet, c.session.names)
    && DnsSdFilter.EvaluateDeviceFilter(DeviceFor(c, a), c.session.filter)
  }

  /** What the handler decides about one arrival: whether a device is stored,
      under which key, and which device. */
  datatype Decision = Decision(accepted: bool, key: string, device: Device)

  function Decide(c: Context, a: Arrival): Decision {
    Decision(Accepts(c, a), KeyFor(c, a), DeviceFor(c, a))
  }

  /** The devices after an arrival, and whether the session is over (quick
      mode and a device was stored). */
  datatype Handled = Handled(devices: map<string, Device>, resolved: bool)

  /** `this._discovered_devices[key] = device`, and the end of the session
      in quick mode. */
  function Store(devices: map<string, Device>, d: Decision, quick: bool): (r: Handled)
    ensures r.devices.Keys == devices.Keys + (if d.accepted then {d.key} else {})
    ensures d.accepted ==> r.devices[d.key] == d.device
    ensures forall k :: k in devices && !StoresUnder(d, k) ==> r.devices[k] == devices[k]
    ensures r.resolved <==> d.accepted && quick
  {
    if d.accepted then Handled(devices[d.key := d.device], quick) else Handled(devices, false)
  }

  /** The receive handler of a running discovery, on one arrival. */
  function Step(c: Context, devices: map<string, Device>, a: Arrival): (r: Handled)
    ensures !Accepts(c, a) ==> r == Handled(devices, false)
    ensures Accepts(c, a) ==> r.devices == devices[KeyFor(c, a) := DeviceFor(c, a)]
    ensures r.resolved <==> Accepts(c, a) && c.session.quick
  {
    Store(devices, Decide(c, a), c.session.quick)
  }

  /** Decisions stored in order until one ends the session. */
  function Collect(devices: map<string, Device>, ds: seq<Decision>, quick: bool): Handled
    decreases |ds|
  {
    if ds == [] then Handled(devices, false)
    else
      var h := Store(devices, ds[0], quick);
      if h.resolved then h else Collect(h.devices, ds[1..], quick)
  }

  function Decisions(c: Context, arrivals: seq<Arrival>): (ds: seq<Decision>)
    ensures |ds| == |arrivals|
    ensures forall i :: 0 <= i < |arrivals| ==> ds[i] == Decide(c, arrivals[i])
  {
    seq(|arrivals|, i requires 0 <= i < |arrivals| => Decide(c, arrivals[i]))
  }

  /** The arrivals of one session, handled in order until one resolves it;
      the later ones are ignored. */
  function Run(c: Context, devices: map<string, Device>, arrivals: seq<Arrival>): Handled {
    Collect(devices, Decisions(c, arrivals), c.session.quick)
  }

  /** A session is the handler applied to each arrival in turn, stopping
      when it reports the session over. */
  lemma RunIsStepByStep(c: Context, devices: map<string, Device>, arrivals: seq<Arrival>)
    ensures arrivals == [] ==> Run(c, devices, arrivals) == Handled(devices, false)
    ensures arrivals != [] ==>
      var h := Step(c, devices, arrivals[0]);
      Run(c, devices, arrivals) == if h.resolved then h else Run(c, h.devices, arrivals[1..])
  {
    if arrivals != [] {
      assert Decisions(c, arrivals)[1..] == Decisions(c, arrivals[1..]);
    }
  }

  /** Messages from one of the host's own addresses, queries and responses
      with another opcode never change what a session has collected. */
  lemma OnlyAnswersCount(c: Context, devices: map<string, Device>, a: Arrival)
    requires a.sender in c.netifs || a.packet.header.qr != 1 || a.packet.header.op != 0
    ensures Step(c, devices, a) == Handled(devices, false)
  {
  }

  predicate StoresUnder(d: Decision, k: string) {
    d.accepted && d.key == k
  }

  /** Decision i is the last one stored under its key. */
  predicate LastAt(ds: seq<Decision>, i: int) {
    0 <= i < |ds| && ds[i].accepted && forall j :: i < j < |ds| ==> !StoresUnder(ds[j], ds[i].key)
  }

  lemma {:induction false} CollectKeys(devices: map<string, Device>, ds: seq<Decision>)
    ensures !Collect(devices, ds, false).resolved
    ensures forall k :: k in Collect(devices, ds, false).devices <==>
      k in devices || exists i :: 0 <= i < |ds| && StoresUnder(ds[i], k)
    decreases |ds|
  {
    if ds != [] {
      var h := Store(devices, ds[0], false);
      CollectKeys(h.devices, ds[1..]);
      forall k
        ensures k in Collect(devices, ds, false).devices <==>
          k in devices || exists i :: 0 <= i < |ds| && StoresUnder(ds[i], k)
      {
        if exists i :: 0 <= i < |ds| - 1 && StoresUnder(ds[1..][i], k) {
          var i :| 0 <= i < |ds| - 1 && StoresUnder(ds[1..][i], k);
          assert StoresUnder(ds[i + 1], k);
        }
        if exists i :: 0 <= i < |ds| && StoresUnder(ds[i], k) {
          var i :| 0 <= i < |ds| && StoresUnder(ds[i], k);
          if i > 0 {
            assert StoresUnder(ds[1..][i - 1], k);
          }
        }
      }
    }
  }

  lemma {:induction false} CollectKeepsOthers(devices: map<string, Device>, ds: seq<Decision>, k: string)
    requires k in devices
    requires forall i :: 0 <= i < |ds| ==> !StoresUnder(ds[i], k)
    ensures k in Collect(devices, ds, false).devices
    ensures Collect(devices, ds, false).devices[k] == devices[k]
    decreases |ds|
  {
    if ds != [] {
      assert !StoresUnder(ds[0], k);
      forall j | 0 <= j < |ds| - 1
        ensures !StoresUnder(ds[1..][j], k)
      {
        assert ds[1..][j] == ds[j + 1];
      }
      CollectKeepsOthers(Store(devices, ds[0], false).devices, ds[1..], k);
    }
  }

  lemma {:induction false} CollectLastWins(devices: map<string, Device>, ds: seq<Decision>, i: nat)
    requires LastAt(ds, i)
    ensures ds[i].key in Collect(devices, ds, false).devices
    ensures Collect(devices, ds, false).devices[ds[i].key] == ds[i].device
    decreases |ds|
  {
    var h := Store(devices, ds[0], false);
    if i == 0 {
      forall j | 0 <= j < |ds| - 1
        ensures !StoresUnder(ds[1..][j], ds[0].key)
      {
        assert ds[1..][j] == ds[j + 1];
      }
      CollectKeepsOthers(h.devices, ds[1..], ds[0].key);
    } else {
      assert LastAt(ds[1..], i - 1);
      CollectLastWins(h.devices, ds[1..], i - 1);
    }
  }

  lemma {:induction false} CollectQuick(devices: map<string, Device>, ds: seq<Decision>)
    ensures forall i :: 0 <= i < |ds| && ds[i].accepted && (forall j :: 0 <= j < i ==> !ds[j].accepted) ==>
      Collect(devices, ds, true) == Handled(devices[ds[i].key := ds[i].device], true)
    ensures (forall i :: 0 <= i < |ds| ==> !ds[i].accepted) ==> Collect(devices, ds, true) == Handled(devices, false)
    decreases |ds|
  {
    if ds != [] {
      CollectQuick(devices, ds[1..]);
      forall i | 0 <= i < |ds| && ds[i].accepted && (forall j :: 0 <= j < i ==> !ds[j].accepted)
        ensures Collect(devices, ds, true) == Handled(devices[ds[i].key := ds[i].device], true)
      {
        if i > 0 {
          assert !ds[0].accepted;
          assert ds[1..][i - 1] == ds[i];
        }
      }
      if forall i :: 0 <= i < |ds| ==> !ds[i].accepted {
        assert !ds[0].accepted;
        assert forall j :: 0 <= j < |ds| - 1 ==> ds[1..][j] == ds[j + 1];
      }
    }
  }

  predicate StoredUnder(c: Context, a: Arrival, k: string) {
    Accepts(c, a) && KeyFor(c, a) == k
  }

  /** Without quick mode the session runs through every arrival, and a key
      ends up present exactly when it was present before or some accepted
      arrival has it. */
  lemma RunKeys(c: Context, devices: map<string, Device>, arrivals: seq<Arrival>)
    requires !c.session.quick
    ensures !Run(c, devices, arrivals).resolved
    ensures forall k :: k in Run(c, devices, arrivals).devices <==>
      k in devices || exists i :: 0 <= i < |arrivals| && StoredUnder(c, arrivals[i], k)
  {
    var ds := Decisions(c, arrivals);
    CollectKeys(devices, ds);
    forall i, k | 0 <= i < |ds|
      ensures StoresUnder(ds[i], k) <==> StoredUnder(c, arrivals[i], k)
    {
      assert ds[i] == Decide(c, arrivals[i]);
    }
  }

  /** Without quick mode a key no arrival is stored under keeps its device. */
  lemma RunKeepsOthers(c: Context, devices: map<string, Device>, arrivals: seq<Arrival>, k: string)
    requires !c.session.quick
    requires k in devices
    requires forall i :: 0 <= i < |arrivals| ==> !StoredUnder(c, arrivals[i], k)
    ensures k in Run(c, devices, arrivals).devices
    ensures Run(c, devices, arrivals).devices[k] == devices[k]
  {
    var ds := Decisions(c, arrivals);
    assert forall i :: 0 <= i < |ds| ==> !StoresUnder(ds[i], k);
    CollectKeepsOthers(devices, ds, k);
  }

  /** Without quick mode the last accepted arrival for a key wins: its device
      is the one stored under that key at the end. */
  lemma RunLastWins(c: Context, devices: map<string, Device>, arrivals: seq<Arrival>, i: nat)
    requires !c.session.quick
    requires i < |arrivals| && Accepts(c, arrivals[i])
    requires forall j :: i < j < |arrivals| ==> !StoredUnder(c, arrivals[j], KeyFor(c, arrivals[i]))
    ensures KeyFor(c, arrivals[i]) in Run(c, devices, arrivals).devices
    ensures Run(c, devices, arrivals).devices[KeyFor(c, arrivals[i])] == DeviceFor(c, arrivals[i])
  {
    var ds := Decisions(c, arrivals);
    assert ds[i] == Decide(c, arrivals[i]);
    forall j | i < j < |ds|
      ensures !StoresUnder(ds[j], ds[i].key)
    {
      assert ds[j] == Decide(c, arrivals[j]);
    }
    CollectLastWins(devices, ds, i);
  }

  /** In quick mode the first accepted arrival is stored and ends the session;
      nothing after it is looked at. With no accepted arrival the session
      collects nothing and runs on. */
  lemma RunQuickStopsAtFirst(c: Context, devices: map<string, Device>, arrivals: seq<Arrival>)
    requires c.session.quick
    ensures forall i :: 0 <= i < |arrivals| && Accepts(c, arrivals[i])
                        && (forall j :: 0 <= j < i ==> !Accepts(c, arrivals[j])) ==>
      Run(c, devices, arrivals) == Handled(devices[KeyFor(c, arrivals[i]) := DeviceFor(c, arrivals[i])], true)
    ensures (forall i :: 0 <= i < |arrivals| ==> !Accepts(c, arrivals[i])) ==>
      Run(c, devices, arrivals) == Handled(devices, false)
  {
    var ds := Decisions(c, arrivals);
    CollectQuick(devices, ds);
  }

  /** One send of the query on one interface, as the ghost trace records it. */
  datatype SendEvent = SendEvent(netif: string, attempt: nat, query: seq<Utf8.byte>)

  /** Attempts 0 to n - 1 on one interface. */
  function Attempts(netif: string, n: nat, query: seq<Utf8.byte>): (r: seq<SendEvent>)
    ensures |r| == n
    ensures forall a :: 0 <= a < n ==> r[a] == SendEvent(netif, a, query)
  {
    if n == 0 then [] else Attempts(netif, n - 1, query) + [SendEvent(netif, n - 1, query)]
  }

  /** Every attempt on every interface, interface by interface. */
  function AllAttempts(netifs: seq<string>, query: seq<Utf8.byte>): seq<SendEvent>
    decreases |netifs|
  {
    if netifs == [] then []
    else AllAttempts(netifs[..|netifs| - 1], query) + Attempts(netifs[|netifs| - 1], SEND_ATTEMPTS, query)
  }

  /** What the send loop of `_sendQueryPacket` puts out, given whether the
      discovery flag is set when it checks it. The flag is set before the loop
      starts, so a running session sends once, on the first interface. */
  function SendSchedule(netifs: seq<string>, query: seq<Utf8.byte>, discovering: bool): seq<SendEvent> {
    if !discovering then AllAttempts(netifs, query)
    else if netifs == [] then []
    else [SendEvent(netifs[0], 0, query)]
  }

  /** Without the flag, the loop sends three times on each interface, in
      interface order: send number k goes to interface k / 3, attempt k % 3. */
  lemma {:induction false} AllAttemptsShape(netifs: seq<string>, query: seq<Utf8.byte>)
    ensures |AllAttempts(netifs, query)| == SEND_ATTEMPTS * |netifs|
    ensures forall k :: 0 <= k < |AllAttempts(netifs, query)| ==>
      AllAttempts(netifs, query)[k] == SendEvent(netifs[k / SEND_ATTEMPTS], k % SEND_ATTEMPTS, query)
    decreases |netifs|
  {
    if netifs != [] {
      var init := netifs[..|netifs| - 1];
      AllAttemptsShape(init, query);
      var r := AllAttempts(netifs, query);
      var n := |init|;
      forall k | 0 <= k < |r|
        ensures r[k] == SendEvent(netifs[k / SEND_ATTEMPTS], k % SEND_ATTEMPTS, query)
      {
        if k < SEND_ATTEMPTS * n {
          assert r[k] == AllAttempts(init, query)[k];
          assert k / SEND_ATTEMPTS < n;
          assert netifs[k / SEND_ATTEMPTS] == init[k / SEND_ATTEMPTS];
        } else {
          var a := k - SEND_ATTEMPTS * n;
          assert r[k] == Attempts(netifs[n], SEND_ATTEMPTS, query)[a];
          assert k / SEND_ATTEMPTS == n && k % SEND_ATTEMPTS == a;
        }
      }
    }
  }

  /** A running session sends exactly once, as the first attempt on the first
      interface, when there is an interface, and not at all otherwise; once
      discovery is over every interface gets three sends. */
  lemma SendScheduleBounds(netifs: seq<string>, query: seq<Utf8.byte>, discovering: bool)
    ensures discovering ==> |SendSchedule(netifs, query, discovering)| == (if netifs == [] then 0 else 1)
    ensures discovering && netifs != [] ==>
      SendSchedule(netifs, query, discovering)[0].netif == netifs[0]
      && SendSchedule(netifs, query, discovering)[0].attempt == 0
    ensures !discovering ==> |SendSchedule(netifs, query, discovering)| == SEND_ATTEMPTS * |netifs|
    ensures forall e :: e in SendSchedule(netifs, query, discovering) ==>
      e.netif in netifs && e.attempt < SEND_ATTEMPTS && e.query == query
  {
    AllAttemptsShape(netifs, query);
    var r := SendSchedule(netifs, query, discovering);
    forall e | e in r
      ensures e.netif in netifs && e.attempt < SEND_ATTEMPTS && e.query == query
    {
      var k :| 0 <= k < |r| && r[k] == e;
    }
  }
}
