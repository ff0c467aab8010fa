/** `_getNetifAddressList` (lib/dns-sd.js:444-466): the host's own addresses
    that the engine sends on and treats as its own. The operating system's
    interface table is given as a value: one list of address entries per
    interface, in the order the table lists them. */
module DnsSdNetif {
  import JsStrings

  datatype NetIf = NetIf(address: string, family: string, internal: bool)

  const LINK_LOCAL_PREFIX: string := "169.254."

  /** Kept: not a loopback entry, IPv4, and not link-local. */
  predicate Usable(info: NetIf) {
    !info.internal && info.family == "IPv4" && !JsStrings.StartsWith(info.address, LINK_LOCAL_PREFIX)
  }

  /** The entries of every interface, interface by interface. */
  function Flatten(netifs: seq<seq<NetIf>>): seq<NetIf>
    decreases |netifs|
  {
    if netifs == [] then [] else Flatten(netifs[..|netifs| - 1]) + netifs[|netifs| - 1]
  }

  /** The addresses of the usable entries, in order. */
  function UsableAddresses(infos: seq<NetIf>): (r: seq<string>)
    ensures |r| <= |infos|
    ensures forall i :: 0 <= i < |r| ==> exists j :: 0 <= j < |infos| && Usable(infos[j]) && infos[j].address == r[i]
    decreases |infos|
  {
    if infos == [] then []
    else
      var last := infos[|infos| - 1];
      UsableAddresses(infos[..|infos| - 1]) + (if Usable(last) then [last.address] else [])
  }

  function AddressList(netifs: seq<seq<NetIf>>): seq<string> {
    UsableAddresses(Flatten(netifs))
  }

  lemma {:induction false} UsableAddressesAppend(a: seq<NetIf>, b: seq<NetIf>)
    ensures UsableAddresses(a + b) == UsableAddresses(a) + UsableAddresses(b)
    decreases |b|
  {
    if b == [] {
      assert a + b == a;
    } else {
      var init := b[..|b| - 1];
      assert (a + b)[..|a + b| - 1] == a + init;
      assert (a + b)[|a + b| - 1] == b[|b| - 1];
      UsableAddressesAppend(a, init);
    }
  }

  /** An address is in the list exactly when some entry with that address is
      usable; loopback, non-IPv4 and link-local entries never get in. */
  lemma {:induction false} UsableAddressesMembers(infos: seq<NetIf>)
    ensures forall a :: a in UsableAddresses(infos) <==>
      exists i :: 0 <= i < |infos| && Usable(infos[i]) && infos[i].address == a
    ensures |UsableAddresses(infos)| <= |infos|
    decreases |infos|
  {
    if infos != [] {
      var init := infos[..|infos| - 1];
      var last := infos[|infos| - 1];
      UsableAddressesMembers(init);
      forall a
        ensures a in UsableAddresses(infos) <==>
          exists i :: 0 <= i < |infos| && Usable(infos[i]) && infos[i].address == a
      {
        if exists i :: 0 <= i < |init| && Usable(init[i]) && init[i].address == a {
          var i :| 0 <= i < |init| && Usable(init[i]) && init[i].address == a;
          assert infos[i] == init[i];
        }
        if exists i :: 0 <= i < |infos| && Usable(infos[i]) && infos[i].address == a {
          var i :| 0 <= i < |infos| && Usable(infos[i]) && infos[i].address == a;
          if i < |init| {
            assert init[i] == infos[i];
          }
        }
      }
    }
  }

  /** A concrete interface table: loopback, an IPv6 address, a link-local
      IPv4 address and one ordinary IPv4 address leave only the last. */
  lemma FilterExample()
    ensures UsableAddresses([
      NetIf("127.0.0.1", "IPv4", true),
      NetIf("fe80::1", "IPv6", false),
      NetIf("169.254.10.3", "IPv4", false),
      NetIf("192.168.1.20", "IPv4", false)]) == ["192.168.1.20"]
  {
    var infos := [
      NetIf("127.0.0.1", "IPv4", true),
      NetIf("fe80::1", "IPv6", false),
      NetIf("169.254.10.3", "IPv4", false),
      NetIf("192.168.1.20", "IPv4", false)];
    assert JsStrings.StartsWith(infos[2].address, LINK_LOCAL_PREFIX);
    assert !JsStrings.StartsWith(infos[3].address, LINK_LOCAL_PREFIX) by {
      assert infos[3].address[0..8] != LINK_LOCAL_PREFIX by {
        assert infos[3].address[1] == '9' && LINK_LOCAL_PREFIX[1] == '6';
      }
    }
    assert infos[..1][..0] == [];
    assert UsableAddresses(infos[..1]) == [];
    assert infos[..2][..1] == infos[..1];
    assert UsableAddresses(infos[..2]) == [];
    assert infos[..3][..2] == infos[..2];
    assert UsableAddresses(infos[..3]) == [];
    assert infos[..3] == infos[..|infos| - 1];
  }

  /** `_getNetifAddressList`: goes over every entry of every interface,
      skipping the ones that are not usable. */
  method GetNetifAddressList(netifs: seq<seq<NetIf>>) returns (list: seq<string>)
    ensures list == AddressList(netifs)
  {
    list := [];
    for n := 0 to |netifs|
      invariant list == AddressList(netifs[..n])
    {
      var iflist := netifs[n];
      ghost var before := list;
      for i := 0 to |iflist|
        invariant list == before + UsableAddresses(iflist[..i])
      {
        var info := iflist[i];
        assert iflist[..i + 1][..i] == iflist[..i];
        if info.internal {
          continue;
        }
        if info.family != "IPv4" {
          continue;
        }
        if JsStrings.StartsWith(info.address, LINK_LOCAL_PREFIX) {
          continue;
        }
        list := list + [info.address];
      }
      assert iflist[..|iflist|] == iflist;
      assert netifs[..n + 1][..n] == netifs[..n];
      UsableAddressesAppend(Flatten(netifs[..n]), iflist);
    }
    assert netifs[..|netifs|] == netifs;
  }
}
