/** How the session engine turns a decoded message into a device
    (`_createDeviceObject`, lib/dns-sd.js:84-176): the records of all three
    sections are grouped by type, in order, and the address, the fqdn and the
    service are read off the first record of the right type. */
module DnsSdDevice {
  import opened Wrappers
  import opened DnsSdTypes
  import JsStrings

  /** Answers, then authorities, then additionals. */
  function AllRecords(p: Message): seq<Record> {
    p.answers + p.authorities + p.additionals
  }

  /** The records of one type, in order: what `trecs[type]` holds once every
      record has been pushed. */
  function RecordsOfType(rs: seq<Record>, t: RType): (r: seq<Record>)
    ensures |r| <= |rs|
    ensures forall i :: 0 <= i < |r| ==> r[i].Type() == t
    decreases |rs|
  {
    if rs == [] then []
    else
      var init := rs[..|rs| - 1];
      var last := rs[|rs| - 1];
      RecordsOfType(init, t) + (if last.Type() == t then [last] else [])
  }

  /** The first record of a type is at index k. */
  predicate FirstAt(rs: seq<Record>, t: RType, k: int) {
    0 <= k < |rs| && rs[k].Type() == t && forall j :: 0 <= j < k ==> rs[j].Type() != t
  }

  predicate NoneOfType(rs: seq<Record>, t: RType) {
    forall j :: 0 <= j < |rs| ==> rs[j].Type() != t
  }

  /** `trecs[t][0]`, or None when `trecs[t]` does not exist. */
  function FirstOfType(rs: seq<Record>, t: RType): Option<Record> {
    var recs := RecordsOfType(rs, t);
    if recs == [] then None else Some(recs[0])
  }

  /** The grouping keeps every record of the type and nothing else: it is empty
      exactly when there is none, and starts with the first one. */
  lemma {:induction false} RecordsOfTypeFirst(rs: seq<Record>, t: RType)
    ensures RecordsOfType(rs, t) == [] <==> NoneOfType(rs, t)
    ensures forall k :: FirstAt(rs, t, k) ==> RecordsOfType(rs, t)[0] == rs[k]
    decreases |rs|
  {
    if rs != [] {
      var init := rs[..|rs| - 1];
      RecordsOfTypeFirst(init, t);
      forall k | FirstAt(rs, t, k)
        ensures RecordsOfType(rs, t)[0] == rs[k]
      {
        if k < |rs| - 1 {
          assert FirstAt(init, t, k);
        } else {
          assert NoneOfType(init, t);
        }
      }
      if NoneOfType(init, t) && rs[|rs| - 1].Type() != t {
        forall j | 0 <= j < |rs|
          ensures rs[j].Type() != t
        {
          if j < |rs| - 1 {
            assert rs[j] == init[j];
          }
        }
      }
    }
  }

  /** The first record of the type is found at its first index, and there is
      none only when no record has the type. */
  lemma FirstOfTypeSpec(rs: seq<Record>, t: RType)
    ensures FirstOfType(rs, t).None? <==> NoneOfType(rs, t)
    ensures forall k :: FirstAt(rs, t, k) ==> FirstOfType(rs, t) == Some(rs[k])
  {
    RecordsOfTypeFirst(rs, t);
  }

  /** `trecs` while it is being built: a key for each type seen so far, holding
      the records of that type in the order they were pushed. */
  ghost predicate Grouped(trecs: map<RType, seq<Record>>, seen: seq<Record>) {
    && (forall t :: t in trecs <==> RecordsOfType(seen, t) != [])
    && (forall t :: t in trecs ==> trecs[t] == RecordsOfType(seen, t))
  }

  /** `trecs[type].push(r)` after creating the list on first use. */
  function Push(trecs: map<RType, seq<Record>>, r: Record): map<RType, seq<Record>> {
    var t := r.Type();
    trecs[t := (if t in trecs then trecs[t] else []) + [r]]
  }

  lemma RecordsOfTypePush(seen: seq<Record>, r: Record, t: RType)
    ensures RecordsOfType(seen + [r], t) == RecordsOfType(seen, t) + (if r.Type() == t then [r] else [])
  {
    assert (seen + [r])[..|seen|] == seen;
  }

  /** Pushing a record keeps the grouping up to date. */
  lemma GroupedPush(trecs: map<RType, seq<Record>>, seen: seq<Record>, r: Record)
    requires Grouped(trecs, seen)
    ensures Grouped(Push(trecs, r), seen + [r])
  {
    var g := Push(trecs, r);
    forall t
      ensures (t in g <==> RecordsOfType(seen + [r], t) != [])
      ensures t in g ==> g[t] == RecordsOfType(seen + [r], t)
    {
      RecordsOfTypePush(seen, r, t);
    }
  }

  /** The inner `forEach` over one section: each record is pushed onto the list
      of its type, which is created on first use. */
  method GroupSection(trecs: map<RType, seq<Record>>, ghost seen: seq<Record>, section: seq<Record>)
    returns (grouped: map<RType, seq<Record>>)
    requires Grouped(trecs, seen)
    ensures Grouped(grouped, seen + section)
  {
    grouped := trecs;
    assert seen + section[..0] == seen;
    for i := 0 to |section|
      invariant Grouped(grouped, seen + section[..i])
    {
      var r := section[i];
      var t := r.Type();
      ghost var before := grouped;
      if t !in grouped {
        grouped := grouped[t := []];
      }
      grouped := grouped[t := grouped[t] + [r]];
      assert grouped == Push(before, r);
      GroupedPush(before, seen + section[..i], r);
      assert seen + section[..i + 1] == seen + section[..i] + [r];
    }
    assert section[..|section|] == section;
  }

  /** The address: the data of the first A record when it is not empty,
      otherwise the sender. */
  function AddressOf(p: Message): string {
    match FirstOfType(AllRecords(p), A)
    case Some(r) => if r.rdata.AData? && r.rdata.address != "" then r.rdata.address else p.address
    case None => p.address
  }

  /** The fqdn: the target of the first PTR record, if there is one. */
  function FqdnOf(p: Message): Option<string> {
    match FirstOfType(AllRecords(p), PTR)
    case Some(r) => if r.rdata.PtrData? then Some(r.rdata.target) else None
    case None => None
  }

  /** The service as the source computes it from an SRV record's name: the
      second and third dot-separated parts from the end, each without one
      leading underscore. With fewer than three parts the source reads an
      undefined part and its `replace` call throws. */
  function ServiceOfAsWritten(name: string, port: nat): (r: Result<Service, string>)
    ensures r.Ok? <==> |JsStrings.Split(name)| >= 3
  {
    var parts := JsStrings.Split(name);
    var n := |parts|;
    if n < 3 then Err("TypeError: Cannot read properties of undefined (reading 'replace')")
    else Ok(Service(port, JsStrings.StripUnderscore(parts[n - 2]), JsStrings.StripUnderscore(parts[n - 3])))
  }

  /** A service record named "host.local" has two parts: the source throws
      where it reads the third part from the end, while the corrected reading
      gives no service. */
  lemma ShortSrvNameThrows(port: nat)
    ensures ServiceOfAsWritten("host.local", port).Err?
    ensures ServiceOfName("host.local", port) == None
  {
    var parts := ["host", "local"];
    assert JsStrings.Join(parts) == "host.local";
    JsStrings.SplitJoin(parts);
  }

  /** The same, with no service when the name has fewer than three parts. */
  function ServiceOfName(name: string, port: nat): (r: Option<Service>)
    ensures r.None? <==> ServiceOfAsWritten(name, port).Err?
    ensures r.Some? ==> ServiceOfAsWritten(name, port) == Ok(r.value)
  {
    var parts := JsStrings.Split(name);
    var n := |parts|;
    if n < 3 then None
    else Some(Service(port, JsStrings.StripUnderscore(parts[n - 2]), JsStrings.StripUnderscore(parts[n - 3])))
  }

  /** The service of the first SRV record, if there is one. */
  function ServiceOf(p: Message): Option<Service> {
    match FirstOfType(AllRecords(p), SRV)
    case Some(r) => if r.rdata.SrvData? then ServiceOfName(r.name, r.rdata.port) else None
    case None => None
  }

  /** The device built from a message; the model and family names come from
      the vendor heuristics, which are not part of this model. */
  function DeviceOf(p: Message, vendor: VendorInfo): Device {
    Device(AddressOf(p), FqdnOf(p), vendor.modelName, vendor.familyName, ServiceOf(p), p)
  }

  /** The address is the data of the first A record across answers,
      authorities and additionals when that is not empty, and otherwise the
      sender's address. */
  lemma AddressOfFirstA(p: Message)
    ensures forall k :: FirstAt(AllRecords(p), A, k) ==>
      AddressOf(p) == if AllRecords(p)[k].rdata.address != "" then AllRecords(p)[k].rdata.address else p.address
    ensures NoneOfType(AllRecords(p), A) ==> AddressOf(p) == p.address
  {
    FirstOfTypeSpec(AllRecords(p), A);
  }

  /** The fqdn is the target of the first PTR record, or null without one. */
  lemma FqdnOfFirstPtr(p: Message)
    ensures forall k :: FirstAt(AllRecords(p), PTR, k) ==> FqdnOf(p) == Some(AllRecords(p)[k].rdata.target)
    ensures NoneOfType(AllRecords(p), PTR) ==> FqdnOf(p) == None
  {
    FirstOfTypeSpec(AllRecords(p), PTR);
  }

  /** The service comes from the name and port of the first SRV record, or is
      null without one. */
  lemma ServiceOfFirstSrv(p: Message)
    ensures forall k :: FirstAt(AllRecords(p), SRV, k) ==>
      ServiceOf(p) == ServiceOfName(AllRecords(p)[k].name, AllRecords(p)[k].rdata.port)
    ensures NoneOfType(AllRecords(p), SRV) ==> ServiceOf(p) == None
  {
    FirstOfTypeSpec(AllRecords(p), SRV);
  }

  /** The protocol and type of a three-part-or-longer service name are its
      second and third parts from the end, without one leading underscore:
      "My TV._googlecast._tcp.local" gives protocol "tcp" and type
      "googlecast". */
  lemma ServiceNameParts(name: string, port: nat)
    requires |JsStrings.Split(name)| >= 3
    ensures var parts := JsStrings.Split(name);
      var n := |parts|;
      && ServiceOfName(name, port).Some?
      && ServiceOfName(name, port).value.port == port
      && (parts[n - 2] == ['_'] + ServiceOfName(name, port).value.protocol
          || (parts[n - 2] == ServiceOfName(name, port).value.protocol
              && (parts[n - 2] == [] || parts[n - 2][0] != '_')))
      && (parts[n - 3] == ['_'] + ServiceOfName(name, port).value.serviceType
          || (parts[n - 3] == ServiceOfName(name, port).value.serviceType
              && (parts[n - 3] == [] || parts[n - 3][0] != '_')))
  {
  }

  lemma {:induction false} RecordsOfTypeAppend(a: seq<Record>, b: seq<Record>, t: RType)
    ensures RecordsOfType(a + b, t) == RecordsOfType(a, t) + RecordsOfType(b, t)
    decreases |b|
  {
    if b == [] {
      assert a + b == a;
    } else {
      var init := b[..|b| - 1];
      assert (a + b)[..|a + b| - 1] == a + init;
      assert (a + b)[|a + b| - 1] == b[|b| - 1];
      RecordsOfTypeAppend(a, init, t);
    }
  }

  /** The message with record `r` inserted at index `i` of one of its
      sections: 0 for the answers, 1 for the authorities, 2 for the
      additionals. */
  function InsertRecord(p: Message, section: nat, i: nat, r: Record): Message
    requires section < 3
    requires section == 0 ==> i <= |p.answers|
    requires section == 1 ==> i <= |p.authorities|
    requires section == 2 ==> i <= |p.additionals|
  {
    if section == 0 then p.(answers := p.answers[..i] + [r] + p.answers[i..])
    else if section == 1 then p.(authorities := p.authorities[..i] + [r] + p.authorities[i..])
    else p.(additionals := p.additionals[..i] + [r] + p.additionals[i..])
  }

  /** Across the three sections, the inserted record sits at the offset of its
      section plus `i`. */
  lemma InsertRecordShape(p: Message, section: nat, i: nat, r: Record)
    requires section < 3
    requires section == 0 ==> i <= |p.answers|
    requires section == 1 ==> i <= |p.authorities|
    requires section == 2 ==> i <= |p.additionals|
    ensures var rs := AllRecords(p);
      var offset := if section == 0 then i
                    else if section == 1 then |p.answers| + i
                    else |p.answers| + |p.authorities| + i;
      && offset <= |rs|
      && AllRecords(InsertRecord(p, section, i, r)) == rs[..offset] + [r] + rs[offset..]
  {
    var rs := AllRecords(p);
    if section == 0 {
      assert rs[..i] == p.answers[..i];
      assert rs[i..] == p.answers[i..] + p.authorities + p.additionals;
    } else if section == 1 {
      assert rs[..|p.answers| + i] == p.answers + p.authorities[..i];
      assert rs[|p.answers| + i..] == p.authorities[i..] + p.additionals;
    } else {
      assert rs[..|p.answers| + |p.authorities| + i] == p.answers + p.authorities + p.additionals[..i];
      assert rs[|p.answers| + |p.authorities| + i..] == p.additionals[i..];
    }
  }

  /** Inserting a record of another type leaves the group of a type as it was. */
  lemma InsertOtherKeepsGroup(rs: seq<Record>, offset: nat, r: Record, t: RType)
    requires offset <= |rs| && r.Type() != t
    ensures RecordsOfType(rs[..offset] + [r] + rs[offset..], t) == RecordsOfType(rs, t)
  {
    assert rs == rs[..offset] + rs[offset..];
    assert RecordsOfType([r], t) == [] by {
      assert [r][..0] == [];
    }
    RecordsOfTypeAppend(rs[..offset] + [r], rs[offset..], t);
    RecordsOfTypeAppend(rs[..offset], [r], t);
    RecordsOfTypeAppend(rs[..offset], rs[offset..], t);
  }

  /** Records of types other than A, PTR and SRV play no part: inserting one
      anywhere in any section leaves the device's address, fqdn and service
      as they were. */
  lemma OtherRecordsIgnored(p: Message, section: nat, i: nat, r: Record)
    requires r.Type() !in {A, PTR, SRV}
    requires section < 3
    requires section == 0 ==> i <= |p.answers|
    requires section == 1 ==> i <= |p.authorities|
    requires section == 2 ==> i <= |p.additionals|
    ensures var q := InsertRecord(p, section, i, r);
      AddressOf(q) == AddressOf(p) && FqdnOf(q) == FqdnOf(p) && ServiceOf(q) == ServiceOf(p)
  {
    var q := InsertRecord(p, section, i, r);
    var rs := AllRecords(p);
    InsertRecordShape(p, section, i, r);
    var offset := if section == 0 then i
                  else if section == 1 then |p.answers| + i
                  else |p.answers| + |p.authorities| + i;
    InsertOtherKeepsGroup(rs, offset, r, A);
    InsertOtherKeepsGroup(rs, offset, r, PTR);
    InsertOtherKeepsGroup(rs, offset, r, SRV);
    assert FirstOfType(AllRecords(q), A) == FirstOfType(rs, A);
    assert FirstOfType(AllRecords(q), PTR) == FirstOfType(rs, PTR);
    assert FirstOfType(AllRecords(q), SRV) == FirstOfType(rs, SRV);
  }

  /** Once every record is grouped, `trecs[t][0]` is the first record of type
      `t`, and `trecs[t]` exists exactly when there is one. */
  lemma GroupedFirst(trecs: map<RType, seq<Record>>, rs: seq<Record>, t: RType)
    requires Grouped(trecs, rs)
    ensures t in trecs <==> FirstOfType(rs, t).Some?
    ensures t in trecs ==> trecs[t] != [] && trecs[t][0] == FirstOfType(rs, t).value
  {
  }

  /** The first part of `_createDeviceObject`: the records of the answers,
      the authorities and the additionals, grouped by type into `trecs`. */
  method GroupRecords(packet: Message) returns (trecs: map<RType, seq<Record>>)
    ensures Grouped(trecs, AllRecords(packet))
  {
    trecs := map[];
    var sections := [packet.answers, packet.authorities, packet.additionals];
    ghost var seen: seq<Record> := [];
    for k := 0 to 3
      invariant Grouped(trecs, seen)
      invariant seen == if k == 0 then [] else if k == 1 then packet.answers
                        else if k == 2 then packet.answers + packet.authorities
                        else AllRecords(packet)
    {
      trecs := GroupSection(trecs, seen, sections[k]);
      seen := seen + sections[k];
    }
  }

  /** `_createDeviceObject`: groups the records of the three sections into
      `trecs`, then reads the address, the fqdn and the service off it. */
  method CreateDeviceObject(packet: Message, vendor: VendorInfo) returns (d: Device)
    ensures d == DeviceOf(packet, vendor)
  {
    var trecs := GroupRecords(packet);
    var rs := AllRecords(packet);
    GroupedFirst(trecs, rs, A);
    GroupedFirst(trecs, rs, PTR);
    GroupedFirst(trecs, rs, SRV);

    var address: string := "";
    if A in trecs {
      var r := trecs[A][0];
      address := if r.rdata.AData? then r.rdata.address else "";
    }
    if address == "" {
      address := packet.address;
    }

    var fqdn: Option<string> := None;
    if PTR in trecs {
      var r := trecs[PTR][0];
      fqdn := if r.rdata.PtrData? then Some(r.rdata.target) else None;
    }

    var service: Option<Service> := None;
    if SRV in trecs {
      var r := trecs[SRV][0];
      service := if r.rdata.SrvData? then ServiceOfName(r.name, r.rdata.port) else None;
    }

    d := Device(address, fqdn, vendor.modelName, vendor.familyName, service, packet);
  }
}
