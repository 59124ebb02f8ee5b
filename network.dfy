/** `getLocalIpAddress`: the first external IPv4 address of the machine,
    for the pairing address. `os.networkInterfaces()` becomes the input,
    in the order `Object.keys` lists the interface names. */
module Network {
  import opened Values

  /** One address entry of an interface. */
  datatype AddressInfo = AddressInfo(address: string, family: string, internal: bool)

  /** An interface name with its address entries, in order. */
  datatype Interface = Interface(name: string, addresses: seq<AddressInfo>)

  const Loopback := "127.0.0.1"

  predicate IsExternalIPv4(a: AddressInfo)
  {
    a.family == "IPv4" && !a.internal
  }

  /** All address entries in the order the two loops visit them. */
  function Flatten(ifs: seq<Interface>): seq<AddressInfo>
  {
    if |ifs| == 0 then [] else ifs[0].addresses + Flatten(ifs[1..])
  }

  /** `k` is the first external IPv4 entry of `entries`. */
  ghost predicate IsFirstMatch(entries: seq<AddressInfo>, k: int)
  {
    && 0 <= k < |entries|
    && IsExternalIPv4(entries[k])
    && forall i :: 0 <= i < k ==> !IsExternalIPv4(entries[i])
  }

  /** The address of the first external IPv4 entry of one list. */
  function FirstIn(entries: seq<AddressInfo>): Option<string>
  {
    if |entries| == 0 then None
    else if IsExternalIPv4(entries[0]) then Some(entries[0].address)
    else FirstIn(entries[1..])
  }

  /** The search of the two nested loops, interface by interface. */
  function FirstExternal(ifs: seq<Interface>): (r: Option<string>)
    ensures r.None? <==> forall i :: 0 <= i < |ifs| ==> FirstIn(ifs[i].addresses).None?
    ensures r.Some? ==> exists i :: 0 <= i < |ifs| && FirstIn(ifs[i].addresses) == r
  {
    if |ifs| == 0 then None
    else
      match FirstIn(ifs[0].addresses)
      case Some(a) => Some(a)
      case None => FirstExternal(ifs[1..])
  }

  /** `FirstIn` returns the address of the first match, and nothing when
      no entry matches. */
  lemma {:induction false} FirstInIsFirstMatch(entries: seq<AddressInfo>)
    ensures FirstIn(entries).None? <==> forall i :: 0 <= i < |entries| ==> !IsExternalIPv4(entries[i])
    ensures forall k :: IsFirstMatch(entries, k) ==> FirstIn(entries) == Some(entries[k].address)
  {
    if |entries| > 0 {
      var rest := entries[1..];
      FirstInIsFirstMatch(rest);
      assert forall i :: 1 <= i < |entries| ==> rest[i - 1] == entries[i];
      forall k | IsFirstMatch(entries, k)
        ensures FirstIn(entries) == Some(entries[k].address)
      {
        if k > 0 {
          assert IsFirstMatch(rest, k - 1);
        }
      }
    }
  }

  lemma {:induction false} FirstInAppend(a: seq<AddressInfo>, b: seq<AddressInfo>)
    ensures FirstIn(a + b) == if FirstIn(a).Some? then FirstIn(a) else FirstIn(b)
  {
    if |a| > 0 {
      assert (a + b)[1..] == a[1..] + b;
      FirstInAppend(a[1..], b);
    } else {
      assert a + b == b;
    }
  }

  /** Searching interface by interface is searching the flattened list. */
  lemma {:induction false} FirstExternalIsFlatSearch(ifs: seq<Interface>)
    ensures FirstExternal(ifs) == FirstIn(Flatten(ifs))
  {
    if |ifs| > 0 {
      FirstExternalIsFlatSearch(ifs[1..]);
      FirstInAppend(ifs[0].addresses, Flatten(ifs[1..]));
    }
  }

  /** `getLocalIpAddress`: the address of the first non-internal IPv4
      entry in visiting order, or "127.0.0.1" when there is none. */
  method GetLocalIpAddress(ifs: seq<Interface>) returns (addr: string)
    ensures (forall i :: 0 <= i < |Flatten(ifs)| ==> !IsExternalIPv4(Flatten(ifs)[i])) ==> addr == Loopback
    ensures forall k :: IsFirstMatch(Flatten(ifs), k) ==> addr == Flatten(ifs)[k].address
  {
    FirstExternalIsFlatSearch(ifs);
    FirstInIsFirstMatch(Flatten(ifs));
    var n := 0;
    while n < |ifs|
      invariant 0 <= n <= |ifs|
      invariant FirstExternal(ifs) == FirstExternal(ifs[n..])
    {
      var entries := ifs[n].addresses;
      var j := 0;
      while j < |entries|
        invariant 0 <= j <= |entries|
        invariant FirstIn(entries) == FirstIn(entries[j..])
      {
        if entries[j].family == "IPv4" && !entries[j].internal {
          return entries[j].address;
        }
        assert entries[j..][1..] == entries[j + 1..];
        j := j + 1;
      }
      assert ifs[n..][1..] == ifs[n + 1..];
      n := n + 1;
    }
    return Loopback;
  }
}
