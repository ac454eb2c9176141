module IpHop {
  // What `ip_route` does to a datagram on its way (iproute.c): checksum, options, TTL, header rebuilt;
  // and what a datagram is after any number of such hops.

  import opened Bytes
  import opened Ip
  import opened IpHdr
  import opened Lists

  const IP_EOL := 0
  const IP_NOOP := 1
  const IP_LSROUTE := 3
  const IP_RROUTE := 7
  const IP_SSROUTE := 9

  /**
   A node as `ip_route` asks about it: which addresses are its own, the one it uses towards a
   destination, and the gateway to a destination (the destination itself, if it is direct).
   */
  datatype Node = Node(mine: uint32 -> bool, local: uint32 -> uint32, via: uint32 -> Option<uint32>)

  // Options

  /** `OPT_NUMBER` */
  function Number(o: byte): nat { o % 32 }

  /** What options do: drop the datagram, or let it pass, perhaps so changed that its checksum is to be computed anew. */
  datatype Walk = Drop | Walked(ip: Ip, rebuilt: bool, strict: bool)

  /** Our address goes into the route of the option at `i`, and its pointer moves on. */
  function Record(o: Options, i: nat, at: nat, a: uint32): (r: Options)
    requires i + 2 < |o| && at + 4 <= |o|
    ensures |r| == |o|
  {
    var o1 := o[..at] + Put32(a) + o[at + 4..];
    o1[i + 2 := (o1[i + 2] as int + 4) % 256]
  }

  /** The option of `n` octets at `i`. */
  function OneOption(me: Node, ip: Ip, i: nat, n: nat): (w: Walk)
    requires 2 <= n && i + n <= |ip.options|
    ensures w.Walked? ==> |w.ip.options| == |ip.options|
  {
    var o := ip.options;
    var k := Number(o[i]);
    if k == IP_SSROUTE || k == IP_LSROUTE then
      if n < 3 then Drop
      else if !me.mine(ip.dest) || o[i + 2] + 4 > n then Walked(ip, false, k == IP_SSROUTE)
      else
        var at := i + o[i + 2];
        var dest := Get32(o, at);
        Walked(ip.(dest := dest, options := Record(o, i, at, me.local(dest))), true, k == IP_SSROUTE)
    else if k == IP_RROUTE then
      if n < 3 then Drop
      else if o[i + 2] + 4 > n then
        if o[i + 2] != n then Drop else Walked(ip, false, false)
      else Walked(ip.(options := Record(o, i, i + o[i + 2], me.local(ip.dest))), true, false)
    else Walked(ip, false, false)
  }

  /** Whether an option of more than one octet begins at `i` and is all there. */
  predicate Whole(o: Options, i: nat)
    requires i < |o|
  {
    i + 1 < |o| && 2 <= o[i + 1] <= |o| - i
  }

  /** The options from `i` on. */
  function OptionsFrom(me: Node, ip: Ip, rebuilt: bool, strict: bool, i: nat): (w: Walk)
    requires i <= |ip.options|
    ensures w.Walked? ==> |w.ip.options| == |ip.options|
    decreases |ip.options| - i
  {
    var o := ip.options;
    if i == |o| || Number(o[i]) == IP_EOL then Walked(ip, rebuilt, strict)
    else if Number(o[i]) == IP_NOOP then OptionsFrom(me, ip, rebuilt, strict, i + 1)
    else if !Whole(o, i) then Drop
    else
      match OneOption(me, ip, i, o[i + 1])
      case Drop => Drop
      case Walked(ip1, r1, s1) => OptionsFrom(me, ip1, rebuilt || r1, strict || s1, i + o[i + 1])
  }

  /** The option loop of `ip_route`, which edits the header as it goes. */
  method ProcessOptions(me: Node, ip0: Ip) returns (w: Walk)
    ensures w == OptionsFrom(me, ip0, false, false, 0)
  {
    var ip, rebuilt, strict := ip0, false, false;
    var i: nat := 0;
    while i < |ip.options|
      invariant i <= |ip.options|
      invariant OptionsFrom(me, ip, rebuilt, strict, i) == OptionsFrom(me, ip0, false, false, 0)
      decreases |ip.options| - i
    {
      var o := ip.options;
      if Number(o[i]) == IP_EOL {
        break;
      }
      if Number(o[i]) == IP_NOOP {
        i := i + 1;
        continue;
      }
      if !Whole(o, i) {
        return Drop;
      }
      var n := o[i + 1];
      match OneOption(me, ip, i, n) {
        case Drop => return Drop;
        case Walked(ip1, r1, s1) => ip, rebuilt, strict := ip1, rebuilt || r1, strict || s1;
      }
      i := i + n;
    }
    w := Walked(ip, rebuilt, strict);
  }

  /** Only options and destination may have been changed, and those only if the checksum is to be computed anew. */
  predicate Edited(ip: Ip, w: Walk) {
    w.Walked? ==> w.ip == ip.(options := w.ip.options, dest := w.ip.dest) && (!w.rebuilt ==> w.ip == ip)
  }

  lemma OneKeeps(me: Node, ip: Ip, i: nat, n: nat)
    requires 2 <= n && i + n <= |ip.options|
    ensures Edited(ip, OneOption(me, ip, i, n))
  {
  }

  /** `Edited`, by an option loop that had found before whether the checksum is to be computed anew. */
  predicate EditedOn(ip: Ip, rebuilt: bool, w: Walk) { Edited(ip, w) && (w.Walked? && rebuilt ==> w.rebuilt) }

  lemma EditedTwice(ip: Ip, rebuilt: bool, w1: Walk, w2: Walk)
    requires w1.Walked? && Edited(ip, w1) && EditedOn(w1.ip, rebuilt || w1.rebuilt, w2)
    ensures EditedOn(ip, rebuilt, w2)
  {
  }

  /** Options change nothing but themselves and the destination; nothing, if the checksum is not to be computed anew. */
  lemma {:induction false} OptionsKeep(me: Node, ip: Ip, rebuilt: bool, strict: bool, i: nat)
    requires i <= |ip.options|
    ensures EditedOn(ip, rebuilt, OptionsFrom(me, ip, rebuilt, strict, i))
    decreases |ip.options| - i
  {
    var o := ip.options;
    if i < |o| && Number(o[i]) != IP_EOL {
      if Number(o[i]) == IP_NOOP {
        OptionsKeep(me, ip, rebuilt, strict, i + 1);
      } else if Whole(o, i) {
        var w := OneOption(me, ip, i, o[i + 1]);
        OneKeeps(me, ip, i, o[i + 1]);
        if w.Walked? {
          OptionsKeep(me, w.ip, rebuilt || w.rebuilt, strict || w.strict, i + o[i + 1]);
          EditedTwice(ip, rebuilt, w, OptionsFrom(me, ip, rebuilt, strict, i));
        }
      }
    }
  }

  /** Options that a node on the way neither drops nor writes to: well formed, with no route left to record. */
  predicate CalmOption(o: Options, i: nat, n: nat)
    requires 2 <= n && i + n <= |o|
  {
    var k := Number(o[i]);
    if k == IP_SSROUTE || k == IP_LSROUTE then n >= 3
    else if k == IP_RROUTE then n >= 3 && o[i + 2] == n
    else true
  }

  predicate Calm(o: Options, i: nat)
    requires i <= |o|
    decreases |o| - i
  {
    if i == |o| || Number(o[i]) == IP_EOL then true
    else if Number(o[i]) == IP_NOOP then Calm(o, i + 1)
    else Whole(o, i) && CalmOption(o, i, o[i + 1]) && Calm(o, i + o[i + 1])
  }

  /** Whether calm options ask for strict routing. */
  predicate Strict(o: Options, i: nat)
    requires i <= |o|
    decreases |o| - i
  {
    if i == |o| || Number(o[i]) == IP_EOL then false
    else if Number(o[i]) == IP_NOOP then Strict(o, i + 1)
    else Whole(o, i) && (Number(o[i]) == IP_SSROUTE || Strict(o, i + o[i + 1]))
  }

  /** A node that is not the destination passes a datagram with its header as it was if and only if its options are calm. */
  lemma {:induction false} CalmIff(me: Node, ip: Ip, strict: bool, i: nat)
    requires i <= |ip.options| && !me.mine(ip.dest)
    ensures var w := OptionsFrom(me, ip, false, strict, i);
            && (w.Walked? && !w.rebuilt <==> Calm(ip.options, i))
            && (Calm(ip.options, i) ==> w == Walked(ip, false, strict || Strict(ip.options, i)))
    decreases |ip.options| - i
  {
    var o := ip.options;
    if i < |o| && Number(o[i]) != IP_EOL {
      if Number(o[i]) == IP_NOOP {
        CalmIff(me, ip, strict, i + 1);
      } else if Whole(o, i) {
        var w := OneOption(me, ip, i, o[i + 1]);
        if w.Walked? {
          if w.rebuilt {
            OptionsKeep(me, w.ip, true, strict || w.strict, i + o[i + 1]);
          } else {
            CalmIff(me, ip, strict || w.strict, i + o[i + 1]);
          }
        }
      }
    }
  }

  /** A record of the route with no room for an address, and one with room for one: dropped, and written to. */
  lemma RouteRecorded(me: Node, ip: Ip)
    requires ip.options == [7, 3, 4, 0] || ip.options == [7, 8, 4, 0, 0, 0, 0, 0]
    ensures var w := OptionsFrom(me, ip, false, false, 0);
            if |ip.options| == 4 then w == Drop
            else w == Walked(ip.(options := [7, 8, 8, 0] + Put32(me.local(ip.dest))), true, false)
  {
    if |ip.options| == 8 {
      var o1 := Record(ip.options, 0, 4, me.local(ip.dest));
      assert o1 == [7, 8, 8, 0] + Put32(me.local(ip.dest));
      assert OneOption(me, ip, 0, 8) == Walked(ip.(options := o1), true, false);
    }
  }

  // One hop

  /** There is a way to the destination, and a direct one if that is asked for. */
  predicate Passes(me: Node, dest: uint32, strict: bool) {
    me.via(dest).Some? && (strict ==> me.via(dest).value == dest)
  }

  /** What a node sends on once the options are done; a datagram for the node itself goes no further. */
  function Onward(me: Node, w: Walk, data: Data): Option<Data> {
    if w.Drop? then None
    else
      var f := Forwarded(w.ip);
      if me.mine(f.dest) || f.ttl == 0 || !Passes(me, f.dest, w.strict) then None
      else Some(Hton(f, !w.rebuilt) + data)
  }

  /** What a node sends on of a packet, if anything. */
  function Hop(me: Node, d: Data): Option<Data> {
    match Ntoh(d)
    case None => None
    case Some(g) =>
      if !Verifies(d[..g.ip.HdrLen()]) || g.ip.version != 4 then None
      else Onward(me, OptionsFrom(me, g.ip, false, false, 0), g.data)
  }

  /** A header that may be on the wire. */
  ghost predicate Good(ip: Ip) { Legal(ip) && ip.version == 4 && ip.ttl > 0 && Verifies(Hton(ip, true)) }

  /** The header `g` is `ip` after `n` hops, perhaps with its options and destination changed. */
  predicate Hopped(ip: Ip, g: Ip, n: nat) {
    && n < ip.ttl && g == ip.(ttl := ip.ttl - n, checksum := g.checksum, options := g.options, dest := g.dest)
    && |g.options| == |ip.options|
  }

  lemma HopParses(me: Node, ip: Ip, data: Data)
    requires Good(ip)
    ensures Hop(me, Hton(ip, true) + data) == Onward(me, OptionsFrom(me, ip, false, false, 0), data)
  {
    HeaderRoundTrip(ip, data);
    EncodeAt(ip, ip.checksum, data);
    assert (Hton(ip, true) + data)[..ip.HdrLen()] == Hton(ip, true);
  }

  /** Whatever the options, what a node sends on has a good header, one hop on, and the same data. */
  lemma HopKeeps(me: Node, ip: Ip, data: Data) returns (g: Ip)
    requires Good(ip)
    ensures var d := Hop(me, Hton(ip, true) + data);
            d.Some? ==> d.value == Hton(g, true) + data && Good(g) && Hopped(ip, g, 1)
  {
    HopParses(me, ip, data);
    OptionsKeep(me, ip, false, false, 0);
    g := ip;
    var w := OptionsFrom(me, ip, false, false, 0);
    if w.Walked? {
      g := SentOn(ip, w);
    }
  }

  lemma SentOn(ip: Ip, w: Walk) returns (g: Ip)
    requires Good(ip) && w.Walked? && |w.ip.options| == |ip.options|
    requires Edited(ip, w)
    ensures ip.ttl > 1 ==> Hton(Forwarded(w.ip), !w.rebuilt) == Hton(g, true) && Good(g) && Hopped(ip, g, 1)
  {
    var f := Forwarded(w.ip);
    if w.rebuilt {
      SendVerifies(f);
      g := f.(checksum := HeaderSum(Encode(f, 0)));
    } else {
      HopVerifies(ip);
      g := f;
    }
  }

  // Any number of hops

  function Cross(ns: seq<Node>, d: Data): Option<Data>
    decreases |ns|
  {
    if ns == [] then Some(d)
    else match Hop(ns[0], d) case None => None case Some(e) => Cross(ns[1..], e)
  }

  /**
   Over any number of hops, whatever the options and whatever the nodes: what comes out, if anything
   does, is the same data behind a header that verifies, with as many hops taken off the TTL, and
   in which nothing but checksum, options and destination has changed.
   */
  lemma {:induction false} CrossVerifies(ns: seq<Node>, ip: Ip, data: Data) returns (g: Ip)
    requires Good(ip)
    ensures var d := Cross(ns, Hton(ip, true) + data);
            d.Some? ==> d.value == Hton(g, true) + data && Good(g) && Hopped(ip, g, |ns|)
    decreases |ns|
  {
    g := ip;
    if ns != [] {
      var g1 := HopKeeps(ns[0], ip, data);
      if Hop(ns[0], Hton(ip, true) + data).Some? {
        g := CrossVerifies(ns[1..], g1, data);
      }
    }
  }

  /** A node on the way to the destination. */
  predicate Transit(me: Node, ip: Ip) { !me.mine(ip.dest) && Passes(me, ip.dest, Strict(ip.options, 0)) }

  lemma StillTransit(ns: seq<Node>, ip: Ip)
    requires ns != [] && forall me :: me in ns ==> Transit(me, ip)
    ensures forall me :: me in ns[1..] ==> Transit(me, Forwarded(ip))
  {
    assert forall me :: me in ns[1..] ==> me in ns;
  }

  lemma HopCalm(me: Node, ip: Ip, data: Data)
    requires Good(ip) && Calm(ip.options, 0) && Transit(me, ip)
    ensures Hop(me, Hton(ip, true) + data) == if ip.ttl == 1 then None else Some(Hton(Forwarded(ip), true) + data)
    ensures ip.ttl > 1 ==> Good(Forwarded(ip))
  {
    HopParses(me, ip, data);
    CalmIff(me, ip, false, 0);
    HopVerifies(ip);
  }

  /**
   With calm options, a datagram crosses the nodes on the way to its destination for exactly as many
   hops as its TTL allows, and only TTL and checksum change.
   */
  lemma {:induction false} HopsOnWire(ns: seq<Node>, ip: Ip, data: Data)
    requires Good(ip) && Calm(ip.options, 0) && forall me :: me in ns ==> Transit(me, ip)
    ensures Cross(ns, Hton(ip, true) + data) ==
            if |ns| < ip.ttl then Some(Hton(AfterHops(ip, |ns|), true) + data) else None
    decreases |ns|
  {
    if ns != [] {
      HopCalm(ns[0], ip, data);
      if ip.ttl > 1 {
        StillTransit(ns, ip);
        HopsOnWire(ns[1..], Forwarded(ip), data);
      }
    }
  }
}
