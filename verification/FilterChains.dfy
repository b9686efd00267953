/**
 The filter chains of a port's Envoy listener, one per Gateway listener, or a single one for plain
 HTTP (pkg/translator/listener.go, pkg/translator/translator.go).
 */
module FilterChains {
  import opened Options
  import opened Listeners

  datatype ChainKind = HttpChain | TcpChain | UdpChain | EmptyChain

  datatype FilterChain = FilterChain(kind: ChainKind, tls: bool, serverNames: seq<string>)

  function KindOf(p: Protocol): ChainKind {
    match p
    case HTTP => HttpChain
    case HTTPS => HttpChain
    case TCP => TcpChain
    case TLS => TcpChain
    case UDP => UdpChain
    case OtherProtocol => EmptyChain
  }

  function ChainFor(l: Listener): FilterChain {
    FilterChain(KindOf(l.protocol), l.protocol.HTTPS? || l.protocol.TLS?, ServerNames(l))
  }

  /** Listeners that get as far as their filter chain, and are then reported as programmed. */
  predicate Survives(all: seq<Listener>, l: Listener) { KindsValid(l) && ConflictOf(all, l).None? }

  function Surviving(all: seq<Listener>, ls: seq<Listener>): seq<Listener> {
    if ls == [] then []
    else
      var init, l := Surviving(all, ls[..|ls| - 1]), ls[|ls| - 1];
      if Survives(all, l) then init + [l] else init
  }

  function ChainsFor(ls: seq<Listener>): (cs: seq<FilterChain>)
    ensures |cs| == |ls| && forall i :: 0 <= i < |ls| ==> cs[i] == ChainFor(ls[i])
  {
    seq(|ls|, i requires 0 <= i < |ls| => ChainFor(ls[i]))
  }

  /** The chains of a port; none means that it has no Envoy listener. */
  function Emitted(all: seq<Listener>, ls: seq<Listener>): seq<FilterChain> {
    var survivors := Surviving(all, ls);
    if survivors != [] && ls != [] && ls[0].protocol.HTTP? then [ChainFor(ls[0])] else ChainsFor(survivors)
  }

  method BuildFilterChains(all: seq<Listener>, ls: seq<Listener>,
                           conflicts: map<string, Conflict>) returns (chains: seq<FilterChain>)
    requires forall k :: 0 <= k < |ls| ==> Recorded(conflicts, ls[k].name, ConflictOf(all, ls[k]))
    ensures chains == Emitted(all, ls)
  {
    chains := [];
    for n := 0 to |ls|
      invariant chains == ChainsFor(Surviving(all, ls[..n]))
    {
      assert ls[..n + 1][..n] == ls[..n];
      if !KindsValid(ls[n]) || ls[n].name in conflicts {
        continue;
      }
      chains := chains + [ChainFor(ls[n])];
    }
    assert ls[..|ls|] == ls;
    if chains != [] && ls[0].protocol.HTTP? {
      chains := [ChainFor(ls[0])];
    }
  }

  // ---------------------------------------------------------------- Who has a chain

  lemma {:induction false} SurvivorsContents(all: seq<Listener>, ls: seq<Listener>)
    ensures forall l :: l in Surviving(all, ls) <==> l in ls && Survives(all, l)
    ensures UniqueNames(ls) ==> UniqueNames(Surviving(all, ls))
  {
    if ls != [] {
      var init, last := ls[..|ls| - 1], ls[|ls| - 1];
      SurvivorsContents(all, init);
      assert ls == init + [last];
      if UniqueNames(ls) {
        forall l | l in Surviving(all, init)
          ensures l.name != last.name
        {
          var i :| 0 <= i < |init| && init[i] == l;
          assert ls[i].name != last.name;
        }
      }
    }
  }

  /**
   A programmed listener has its filter chain if and only if the port's first listener is not plain
   HTTP or it is plain HTTP itself.
   */
  lemma HasChainIff(all: seq<Listener>, ls: seq<Listener>, l: Listener)
    requires l in ls && Survives(all, l)
    ensures ChainFor(l) in Emitted(all, ls) <==> !ls[0].protocol.HTTP? || l.protocol.HTTP?
  {
    SurvivorsContents(all, ls);
    var survivors := Surviving(all, ls);
    assert l in survivors;
    var i :| 0 <= i < |survivors| && survivors[i] == l;
    assert ChainsFor(survivors)[i] == ChainFor(l);
    assert l.protocol.HTTP? ==> ServerNames(l) == [];
    assert ls[0].protocol.HTTP? ==> ChainFor(ls[0]) == FilterChain(HttpChain, false, []);
  }

  /**
   A chain of a port is that of one of its listeners: HTTP for HTTP and HTTPS, TCP for TCP and TLS,
   UDP for UDP; encrypted for HTTPS and TLS, and then told apart by the listener's hostname.
   */
  lemma ChainByProtocol(all: seq<Listener>, ls: seq<Listener>, c: FilterChain) returns (l: Listener)
    requires c in Emitted(all, ls)
    ensures l in ls
    ensures c.kind == HttpChain <==> l.protocol == HTTP || l.protocol == HTTPS
    ensures c.kind == TcpChain <==> l.protocol == TCP || l.protocol == TLS
    ensures c.kind == UdpChain <==> l.protocol == UDP
    ensures c.tls <==> l.protocol == HTTPS || l.protocol == TLS
    ensures c.serverNames ==
              if c.tls && l.hostname.Some? && l.hostname.value != "" then [l.hostname.value] else []
  {
    SurvivorsContents(all, ls);
    var survivors := Surviving(all, ls);
    if survivors != [] && ls != [] && ls[0].protocol.HTTP? {
      l := ls[0];
    } else {
      var i :| 0 <= i < |survivors| && ChainsFor(survivors)[i] == c;
      l := survivors[i];
      assert l in survivors;
    }
  }

  /** For instance: behind a plain HTTP listener on its port, an HTTPS listener is programmed without a chain. */
  lemma TlsBehindHttpHasNoChain()
    ensures var ls := [Listener("plain", 443, HTTP, Some("a"), None), Listener("secure", 443, HTTPS, Some("b"), None)];
            Survives(ls, ls[1]) && ChainFor(ls[1]) !in Emitted(ls, ls)
  {
    var ls := [Listener("plain", 443, HTTP, Some("a"), None), Listener("secure", 443, HTTPS, Some("b"), None)];
    assert "a"[0] != "b"[0];
    assert !Mixed(ls, 443) && !Clashes(ls, ls[1]);
    HasChainIff(ls, ls, ls[1]);
  }

  /** On a port of encrypted listeners the chains have pairwise distinct server names. */
  lemma ChainsAreDistinct(all: seq<Listener>, port: nat, i: nat, j: nat)
    requires UniqueNames(all) && forall l :: l in all && l.port == port ==> l.protocol.HTTPS? || l.protocol.TLS?
    requires i < j < |Emitted(all, OnPort(all, port))|
    ensures Emitted(all, OnPort(all, port))[i].serverNames != Emitted(all, OnPort(all, port))[j].serverNames
  {
    OnPortContents(all, port);
    var ls := OnPort(all, port);
    SurvivorsContents(all, ls);
    var survivors := Surviving(all, ls);
    assert ls != [] ==> ls[0] in all && ls[0].port == port;
    assert survivors[i] in survivors && survivors[j] in survivors;
    ServerNamesAreDistinct(all, survivors[i], survivors[j]);
  }
}
