/** The two classify callbacks of a connect: what CONNECT_REDIRECT decides and under which key,
    and which connections AUTH_CONNECT looks up. */
module ConnectClassify {
  import opened Compartments
  import opened ConnectionContexts

  const AF_INET: nat := 2
  const AF_INET6: nat := 23
  const REJECT: nat := 0
  const PROCEED: nat := 1
  const V4_MAPPED_PREFIX: nat := 0xFFFF0000   // bytes 00 00 FF FF

  datatype SockAddr = SockAddr(family: nat, sourcePort: nat, destination: Ip, destinationPort: nat,
                               protocol: nat, compartment: nat)

  const ZERO_SOCK_ADDR := SockAddr(0, 0, Ip(0, 0, 0, 0), 0, 0, 0)

  function KeyOf(endpoint: nat, a: SockAddr): Key {
    Key(endpoint, a.family, a.destination, a.destinationPort, a.sourcePort, a.compartment, a.protocol % 0x1_0000)
  }

  /** Equal in every field; of the protocol, the 16 bits that a connection context has room for. */
  predicate SameAddress(a: SockAddr, b: SockAddr) {
    && a.family == b.family && a.destination == b.destination && a.destinationPort == b.destinationPort
    && a.sourcePort == b.sourcePort && a.compartment == b.compartment && a.protocol % 0x1_0000 == b.protocol % 0x1_0000
  }

  /** Two connections share a key exactly when they have the same endpoint and the same address. */
  lemma KeyExactly(endpoint: nat, a: SockAddr, other: nat, b: SockAddr)
    ensures KeyOf(endpoint, a) == KeyOf(other, b) <==> endpoint == other && SameAddress(a, b)
  {
  }

  /** An IPv6 socket address that stands for an IPv4 one (section 2.5.5.2 of RFC 4291). */
  predicate V4Mapped(a: SockAddr) {
    a.family == AF_INET6 && a.destination.w0 == 0 && a.destination.w1 == 0 && a.destination.w2 == V4_MAPPED_PREFIX
  }

  function ToV4(a: SockAddr): SockAddr {
    a.(family := AF_INET, destination := Ip(a.destination.w3, 0, 0, 0))
  }

  function ToV4Mapped(a: SockAddr): SockAddr {
    a.(family := AF_INET6, destination := Ip(0, 0, V4_MAPPED_PREFIX, a.destination.w0))
  }

  /** An address is in IPv4-mapped form exactly when it comes back from its IPv4 form. */
  lemma MappedExactly(a: SockAddr)
    ensures V4Mapped(a) <==> ToV4Mapped(ToV4(a)) == a
    ensures a.family == AF_INET && a.destination == Ip(a.destination.w0, 0, 0, 0) ==>
              V4Mapped(ToV4Mapped(a)) && ToV4(ToV4Mapped(a)) == a
  {
  }

  /** The loopback address, in both forms. */
  lemma MappedLoopback(sourcePort: nat, port: nat, protocol: nat, compartment: nat)
    ensures var a := SockAddr(23, sourcePort, Ip(0, 0, 0xFFFF0000, 0x0100007F), port, protocol, compartment);
            V4Mapped(a) && ToV4(a) == SockAddr(2, sourcePort, Ip(0x0100007F, 0, 0, 0), port, protocol, compartment)
  {
  }

  /** One call of the CONNECT_REDIRECT callback, with the outcomes of the calls it makes.
      `left` is the socket address as the program left it, `verdict` the verdict variable then. */
  datatype Redirect = Redirect(endpoint: nat, writable: bool, hasFilterContext: bool, detached: bool,
                               address: SockAddr, filterCompartment: nat, entered: bool, redirectedBySelf: bool,
                               v4Attach: bool, handleAcquired: bool, succeeded: bool, verdict: nat, left: SockAddr)
  {
    predicate ForCompartment() {
      Covers(filterCompartment, address.compartment)
    }

    predicate ShouldInvoke() {
      address.family == AF_INET || (V4Mapped(address) <==> v4Attach)
    }

    /** The guards before the program runs. */
    predicate Invokes() {
      && writable && hasFilterContext && !detached && ForCompartment() && entered && !redirectedBySelf
      && ShouldInvoke() && handleAcquired
    }

    /** The verdict and the socket address the callback has when it reaches its exit. */
    function Exit(): (nat, SockAddr) {
      if !writable then (PROCEED, ZERO_SOCK_ADDR)
      else if !hasFilterContext then (REJECT, ZERO_SOCK_ADDR)
      else if detached then (PROCEED, ZERO_SOCK_ADDR)
      else if !ForCompartment() then (PROCEED, address)
      else if !entered then (REJECT, address)
      else if redirectedBySelf then (PROCEED, address)
      else if !ShouldInvoke() then (PROCEED, address)
      else if !handleAcquired then (REJECT, address)
      else if succeeded && verdict == PROCEED && V4Mapped(address) then (PROCEED, ToV4Mapped(left))
      else (verdict, left)
    }

    predicate Rejects() {
      Exit().0 == REJECT
    }

    function ExitKey(): Key {
      KeyOf(endpoint, Exit().1)
    }

    /** The program leaves the destination it was given. */
    predicate KeepsDestination() {
      Invokes() ==> left == if V4Mapped(address) then ToV4(address) else address
    }

    /** The address is in IPv4 form at the exit although WFP gave its IPv4-mapped form. */
    predicate Converted() {
      Invokes() && V4Mapped(address) && !(succeeded && verdict == PROCEED)
    }
  }

  /** One call of the AUTH_CONNECT callback. */
  datatype Auth = Auth(endpoint: nat, hasFilterContext: bool, address: SockAddr, reauthorize: bool,
                       filterCompartment: nat)
  {
    predicate LooksUp() {
      hasFilterContext && !reauthorize && Covers(filterCompartment, address.compartment)
    }

    function LookupKey(): Key {
      KeyOf(endpoint, address)
    }

    /** The action of the callback, given what the lookup finds. */
    predicate Blocks(found: bool) {
      !hasFilterContext || (LooksUp() && found)
    }
  }

  /** Two redirect calls for one connection end on the same key exactly when both or neither end
      with the converted address. So a later call clears what an earlier REJECT stored only then. */
  lemma SameExitKey(r: Redirect, s: Redirect)
    requires r.endpoint == s.endpoint && r.address == s.address
    requires r.KeepsDestination() && s.KeepsDestination()
    requires r.writable && r.hasFilterContext && !r.detached
    requires s.writable && s.hasFilterContext && !s.detached
    ensures r.ExitKey() == s.ExitKey() <==> (r.Converted() <==> s.Converted())
  {
  }

  /** Of two programs, one attached for IPv4 and one for IPv6, exactly one is responsible for an IPv6 connection: the
      IPv4 one for the addresses that have an IPv4 form. An IPv4 connection is never refused by this test. */
  lemma OneProgramIsAsked(r: Redirect)
    ensures r.address.family != AF_INET ==>
            && (r.(v4Attach := true).ShouldInvoke() <==> ToV4Mapped(ToV4(r.address)) == r.address)
            && (r.(v4Attach := false).ShouldInvoke() <==> !r.(v4Attach := true).ShouldInvoke())
    ensures r.address.family == AF_INET ==> r.ShouldInvoke()
  {
    MappedExactly(r.address);
  }

  lemma ExitAddress(r: Redirect)
    requires r.writable && r.hasFilterContext && !r.detached && r.KeepsDestination()
    ensures r.Exit().1 == if r.Converted() then ToV4(r.address) else r.address
  {
  }

  /** The callback decides as the program does whenever the program is invoked. Otherwise it rejects exactly when it is
      responsible for the connection and cannot ask the program: there is no filter context, the client is running
      down, or no redirect handle can be had. */
  lemma RejectsExactly(r: Redirect)
    ensures r.Invokes() ==> (r.Rejects() <==> r.verdict == 0)
    ensures !r.Invokes() ==> (r.Rejects() <==>
              && r.writable
              && (!r.hasFilterContext
                  || (!r.detached && r.ForCompartment() && (!r.entered || (!r.redirectedBySelf && r.ShouldInvoke())))))
  {
  }
}
