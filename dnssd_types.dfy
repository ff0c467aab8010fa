/** The decoded messages the session engine of lib/dns-sd.js works on, and the
    device objects it builds from them. The decoder itself is not part of this
    model: a decoded message is given, with the sender's address attached. */
module DnsSdTypes {
  import opened Wrappers
  import Utf8

  /** The two header fields the engine reads: the response bit and the opcode. */
  datatype Header = Header(qr: nat, op: nat)

  /** A TXT entry: `key=value`, or a bare `key` stored as a true flag. */
  datatype TxtValue = Flag | Text(value: string)

  /** Record data, one variant per record type the decoder recognises and a
      raw variant for the rest. */
  datatype RData =
    | AData(address: string)
    | AaaaData(address6: string)
    | PtrData(target: string)
    | SrvData(priority: nat, weight: nat, port: nat, srvTarget: string)
    | TxtData(entries: map<string, TxtValue>)
    | RawData(code: nat, bytes: seq<Utf8.byte>)

  datatype RType = A | AAAA | PTR | SRV | TXT | Other(code: nat)

  datatype Record = Record(name: string, rclass: nat, ttl: nat, rdata: RData) {
    /** The record's `type`, which names the variant of its data. */
    function Type(): RType {
      match rdata
      case AData(_) => A
      case AaaaData(_) => AAAA
      case PtrData(_) => PTR
      case SrvData(_, _, _, _) => SRV
      case TxtData(_) => TXT
      case RawData(code, _) => Other(code)
    }
  }

  datatype Question = Question(name: string, qtype: nat, qclass: nat)

  /** A decoded message; `address` is the sender, set on arrival. */
  datatype Message = Message(
    header: Header,
    questions: seq<Question>,
    answers: seq<Record>,
    authorities: seq<Record>,
    additionals: seq<Record>,
    address: string)

  datatype Service = Service(port: nat, protocol: string, serviceType: string)

  /** What the vendor heuristics read off a message. */
  datatype VendorInfo = VendorInfo(modelName: Option<string>, familyName: Option<string>)

  /** A discovered device; `None` stands for the source's `null`. */
  datatype Device = Device(
    address: string,
    fqdn: Option<string>,
    modelName: Option<string>,
    familyName: Option<string>,
    service: Option<Service>,
    packet: Message)

  /** A user-supplied filter function, applied to a device: `None` when it
      throws, otherwise the truthiness of what it returns. */
  type FilterFunction = Device -> Option<bool>

  /** The `filter` a discovery keeps: none, a non-empty string or a function. */
  datatype Filter = NoFilter | ByString(text: string) | ByFunction(call: FilterFunction)

  datatype KeyBy = ByAddress | ByFqdn
}
