module IpReasm {
  // Reassembly of IP fragments (ip.c): descriptors, their fragment lists, and `fraghandle`.

  import opened Bytes
  import opened Ip
  import opened Lists

  datatype Key = Key(source: uint32, dest: uint32, id: uint16, protocol: byte)

  function KeyOf(ip: Ip): Key { Key(ip.source, ip.dest, ip.id, ip.protocol) }

  /**
   One entry of a descriptor's list: the octets from `offset` up to `last`. It is `stale` when its
   link back is to an entry that has been freed.
   */
  datatype Frag = Frag(offset: nat, last: nat, buf: Data, stale: bool)

  datatype Reasm = Reasm(key: Key, frags: seq<Frag>, length: uint16)

  /** `Fault` stands for the source following a bad link: null at line 284, or to a freed entry at 281. */
  datatype Outcome = Incomplete | Complete(ip: Ip, data: Data) | Fault

  // The list algorithm on one descriptor

  /** Index of the first entry at or after `k` that begins after `off`. */
  function NextIndex(fs: seq<Frag>, k: nat, off: nat): (r: nat)
    requires k <= |fs|
    ensures k <= r <= |fs| && (r < |fs| ==> fs[r].offset > off)
    ensures forall i :: k <= i < r ==> fs[i].offset <= off
    decreases |fs| - k
  {
    if k == |fs| || fs[k].offset > off then k else NextIndex(fs, k + 1, off)
  }

  predicate Superseded(f: Frag, last: nat) { f.offset < last && |f.buf| <= last - f.offset }

  function TrimFront(f: Frag, last: nat): Frag
    requires f.offset < last <= f.offset + |f.buf|
  {
    f.(offset := last, buf := f.buf[last - f.offset..])
  }

  /** The second loop's result: the entries trimmed, and those it did not come to; or a bad link followed. */
  datatype Swept = Lost | Swept(trimmed: seq<Frag>, rest: seq<Frag>)

  /** The list without its first entry; the link back of the next one is repaired unless that is the last. */
  function Unlinked(fs: seq<Frag>): seq<Frag>
    requires |fs| >= 2
  {
    [fs[1].(stale := |fs| == 2)] + fs[2..]
  }

  /** The second loop, over the entries that begin after the new fragment: those it covers are unlinked. */
  function Sweep(fs: seq<Frag>, last: nat): Swept
    decreases |fs|
  {
    if fs == [] || fs[0].offset >= last then Swept([], fs)
    else if !Superseded(fs[0], last) then
      match Sweep(fs[1..], last)
      case Lost => Lost
      case Swept(trimmed, rest) => Swept([TrimFront(fs[0], last)] + trimmed, rest)
    else if fs[0].stale || |fs| == 1 then Lost
    else Sweep(Unlinked(fs), last)
  }

  /** The first entry's link back is set. */
  function Relinked(fs: seq<Frag>): seq<Frag> { if fs == [] then [] else [fs[0].(stale := false)] + fs[1..] }

  predicate JoinsBefore(front: seq<Frag>, off: nat) { front != [] && front[|front| - 1].last == off }

  predicate JoinsAfter(rest: seq<Frag>, last: nat) { rest != [] && rest[0].offset == last }

  /** Put the octets `[off, last)` between the entries before them and those after them. */
  function Link(front: seq<Frag>, trimmed: seq<Frag>, rest: seq<Frag>, off: nat, last: nat, data: Data): seq<Frag> {
    if JoinsBefore(front, off) then
      var p, before := front[|front| - 1], front[..|front| - 1];
      if JoinsAfter(rest, last) then
        before + [p.(last := rest[0].last, buf := p.buf + data + rest[0].buf)] + Relinked(rest[1..])
      else before + [p.(last := last, buf := p.buf + data)] + trimmed + rest
    else if JoinsAfter(rest, last) then
      front + trimmed + [rest[0].(offset := off, buf := data + rest[0].buf)] + rest[1..]
    else front + [Frag(off, last, data, false)] + Relinked(rest)
  }

  datatype Inserted = Nothing | Broken | Into(frags: seq<Frag>)

  /** How many octets the entry before has of the new fragment. */
  function Overlap(front: seq<Frag>, off: nat): nat {
    if front != [] && off < front[|front| - 1].last then front[|front| - 1].last - off else 0
  }

  /** The octets from `off` on go between `front` and what the second loop leaves of `after`. */
  function Placed(front: seq<Frag>, after: seq<Frag>, off: nat, last: nat, data: Data): Inserted {
    match Sweep(after, last)
    case Lost => Broken
    case Swept(trimmed, rest) => Into(Link(front, trimmed, rest, off, last, data))
  }

  /** Strip the overlap with the entry before and relink; `Nothing` when nothing is left of it. */
  function Insert(fs: seq<Frag>, off: nat, last: nat, data: Data): Inserted {
    var k := NextIndex(fs, 0, off);
    var overlap := Overlap(fs[..k], off);
    if overlap > 0 && overlap >= |data| then Nothing
    else Placed(fs[..k], fs[k..], off + overlap, last, data[overlap..])
  }

  function NewReasm(ip: Ip): Reasm { Reasm(KeyOf(ip), [], 0) }

  function LastOf(ip: Ip): uint16 { Wrap16(ip.offset + ip.length - ip.HdrLen()) }

  predicate Whole(ip: Ip) { ip.offset == 0 && !ip.mf }

  datatype Step = Step(outcome: Outcome, next: seq<Reasm>)

  /** The descriptor of the fragment's datagram (none: a new one), knowing its length if this is the last. */
  function Noted(rp: seq<Reasm>, ip: Ip): Reasm
    requires |rp| <= 1
  {
    var r := if rp == [] then NewReasm(ip) else rp[0];
    if ip.mf then r else r.(length := LastOf(ip))
  }

  /** What comes of a descriptor once the fragment is in its list. */
  function Settle(r: Reasm, ip: Ip, ins: Inserted): (s: Step)
    ensures |s.next| <= 1
  {
    match ins
    case Nothing => Step(Incomplete, [r])
    case Broken => Step(Fault, [r])
    case Into(fs) =>
      if fs != [] && fs[0].offset == 0 && |fs| == 1 && r.length != 0 then
        Step(Complete(ip.(length := Wrap16(r.length + ip.HdrLen()), offset := 0, mf := false), fs[0].buf), [])
      else Step(Incomplete, [r.(frags := fs)])
  }

  /** `fraghandle` on the descriptor of the fragment's datagram. */
  function Handle(rp: seq<Reasm>, ip: Ip, data: Data): (s: Step)
    requires |rp| <= 1
    ensures |s.next| <= 1
  {
    if Whole(ip) then Step(Complete(ip, data), [])
    else
      var r := Noted(rp, ip);
      Settle(r, ip, Insert(r.frags, ip.offset, LastOf(ip), data))
  }

  // Bad links

  function FragsOf(rp: seq<Reasm>): seq<Frag> { if rp == [] then [] else rp[0].frags }

  /**
   In a list of any form: entry `i` and all before it begin before `last`; it is covered; and it
   is the last one, or stale with an entry before it (if any) that is not covered, and so leaves it stale.
   */
  ghost predicate BadLink(fs: seq<Frag>, i: nat, last: nat)
    requires i < |fs|
  {
    && (forall j :: 0 <= j <= i ==> fs[j].offset < last) && Superseded(fs[i], last)
    && (i == |fs| - 1 || (fs[i].stale && (i > 0 ==> !Superseded(fs[i - 1], last))))
  }

  lemma {:induction false} SweepLost(fs: seq<Frag>, last: nat)
    ensures Sweep(fs, last) == Lost <==> exists i: nat :: i < |fs| && BadLink(fs, i, last)
    decreases |fs|
  {
    if fs == [] || fs[0].offset >= last {
    } else if !Superseded(fs[0], last) {
      SweepLost(fs[1..], last);
      BadAfter(fs, fs[1..], last);
    } else if fs[0].stale || |fs| == 1 {
      assert BadLink(fs, 0, last);
    } else {
      SweepLost(Unlinked(fs), last);
      BadAfter(fs, Unlinked(fs), last);
    }
  }

  /** The bad links of a list whose first entry is passed over, or unlinked, are those of what is left. */
  lemma BadAfter(fs: seq<Frag>, rest: seq<Frag>, last: nat)
    requires fs != [] && fs[0].offset < last
    requires if Superseded(fs[0], last) then |fs| >= 2 && !fs[0].stale && rest == Unlinked(fs) else rest == fs[1..]
    ensures (exists i: nat :: i < |fs| && BadLink(fs, i, last)) <==> exists i: nat :: i < |rest| && BadLink(rest, i, last)
  {
    forall i: nat | i < |rest| ensures BadLink(rest, i, last) <==> BadLink(fs, i + 1, last) {
      if BadLink(rest, i, last) {
        assert forall j :: 0 < j <= i + 1 ==> fs[j].offset == rest[j - 1].offset;
      }
      if BadLink(fs, i + 1, last) {
        assert forall j :: 0 <= j <= i ==> rest[j].offset == fs[j + 1].offset;
      }
    }
    if i: nat :| i < |fs| && BadLink(fs, i, last) {
      assert i > 0 && BadLink(rest, i - 1, last);
    }
  }

  /** A bad link is followed if and only if a fragment of a datagram has octets to add and covers an entry with one. */
  lemma FaultIff(rp: seq<Reasm>, ip: Ip, data: Data)
    requires |rp| <= 1
    ensures var fs := FragsOf(rp);
            var k := NextIndex(fs, 0, ip.offset);
            var overlap := Overlap(fs[..k], ip.offset);
            Handle(rp, ip, data).outcome == Fault <==>
            && !Whole(ip) && (overlap == 0 || overlap < |data|)
            && exists i: nat :: i < |fs| - k && BadLink(fs[k..], i, LastOf(ip))
  {
    var fs := FragsOf(rp);
    SweepLost(fs[NextIndex(fs, 0, ip.offset)..], LastOf(ip));
    assert Noted(rp, ip).frags == fs;
  }

  /** Octets 8 to 16 of a datagram arrive, and then octets 0 to 24. */
  lemma FaultReached(ip: Ip, d1: Data, d2: Data)
    requires ip.mf && ip.offset == 8 && ip.length == ip.HdrLen() + 8 && |d1| == 8 && |d2| == 24
    ensures |Handle([], ip, d1).next| == 1
    ensures Handle(Handle([], ip, d1).next, ip.(offset := 0, length := ip.HdrLen() + 24), d2).outcome == Fault
  {
    var rp := Handle([], ip, d1).next;
    assert d1[0..] == d1;
    assert FragsOf(rp) == [Frag(8, 16, d1, false)];
  }

  /** The last step when these arrive one after the other. */
  function Fed(rp: seq<Reasm>, ds: seq<Datagram>): Step
    requires |rp| <= 1 && ds != []
    decreases |ds|
  {
    var s := Handle(rp, ds[0].ip, ds[0].data);
    if |ds| == 1 then s else Fed(s.next, ds[1..])
  }

  /** The octets `[o, l)` of a datagram, with more to follow. */
  function Part(ip: Ip, data: Data, o: nat, l: nat): Datagram
    requires o < l <= |data| < 0x1_0000 - ip.HdrLen()
  {
    Datagram(FragHead(ip, o, l - o, true), data[o..l])
  }

  /** The descriptor while the length of the datagram is not known. */
  function Held(ip: Ip, fs: seq<Frag>): seq<Reasm> { if fs == [] then [] else [Reasm(KeyOf(ip), fs, 0)] }

  lemma PartInto(ip: Ip, data: Data, o: nat, l: nat, fs: seq<Frag>, fs': seq<Frag>)
    requires o < l <= |data| < 0x1_0000 - ip.HdrLen()
    requires Insert(fs, o, l, data[o..l]) == Into(fs') && fs' != []
    ensures var p := Part(ip, data, o, l); Handle(Held(ip, fs), p.ip, p.data) == Step(Incomplete, Held(ip, fs'))
  {
  }

  lemma FedMore(ip: Ip, data: Data, o: nat, l: nat, fs: seq<Frag>, fs': seq<Frag>, ds: seq<Datagram>)
    requires o < l <= |data| < 0x1_0000 - ip.HdrLen() && ds != []
    requires Insert(fs, o, l, data[o..l]) == Into(fs') && fs' != []
    ensures Fed(Held(ip, fs), [Part(ip, data, o, l)] + ds) == Fed(Held(ip, fs'), ds)
  {
    PartInto(ip, data, o, l, fs, fs');
    Behead(Part(ip, data, o, l), ds);
  }

  /** Two entries; then octets between them, up to the second one and over the first. */
  lemma LeavesStale(a: Frag, b: Frag, z: Data)
    requires a == Frag(16, 24, a.buf, false) && b == Frag(32, 40, b.buf, false) && |a.buf| == 8 && |z| == 24
    ensures Insert([], 16, 24, a.buf) == Into([a]) && Insert([a], 32, 40, b.buf) == Into([a, b])
    ensures Insert([a, b], 8, 32, z) == Into([Frag(8, 40, z + b.buf, true)])
  {
    assert a.buf[0..] == a.buf && b.buf[0..] == b.buf && z[0..] == z;
    var stale := b.(stale := true);
    assert [a, b][0..] == [a, b] && Unlinked([a, b]) == [stale];
    assert Sweep([a, b], 32) == Sweep([stale], 32) == Swept([], [stale]);
  }

  /** A stale entry; then one after it, and octets that cover it. */
  lemma StaleCovered(c: Frag, f: Frag, v: Data)
    requires c == Frag(8, 40, c.buf, true) && f == Frag(48, 56, f.buf, false) && |c.buf| == 32
    ensures Insert([c], 48, 56, f.buf) == Into([c, f]) && Insert([c, f], 0, 40, v) == Broken
  {
    assert f.buf[0..] == f.buf && [c, f][0..] == [c, f];
  }

  /**
   Octets 16 to 24 and 32 to 40 arrive; then 8 to 32, which leave the entry of the latter stale; then
   48 to 56, so that it is not the last; and then 0 to 40, which cover it.
   */
  lemma StaleReached(ip: Ip, data: Data)
    requires |data| == 56 && ip.HdrLen() < 0x1_0000 - 56
    ensures Fed([], [Part(ip, data, 16, 24), Part(ip, data, 32, 40), Part(ip, data, 8, 32), Part(ip, data, 48, 56),
                     Part(ip, data, 0, 40)]).outcome == Fault
  {
    var d5 := [Part(ip, data, 0, 40)];
    var d4 := [Part(ip, data, 48, 56)] + d5;
    var d3 := [Part(ip, data, 8, 32)] + d4;
    var d2 := [Part(ip, data, 32, 40)] + d3;
    StaleFed(ip, data, d2, d3, d4, d5);
    assert [Part(ip, data, 16, 24)] + d2 == [Part(ip, data, 16, 24), Part(ip, data, 32, 40), Part(ip, data, 8, 32),
                                             Part(ip, data, 48, 56), Part(ip, data, 0, 40)];
  }

  lemma StaleFed(ip: Ip, data: Data, d2: seq<Datagram>, d3: seq<Datagram>, d4: seq<Datagram>, d5: seq<Datagram>)
    requires |data| == 56 && ip.HdrLen() < 0x1_0000 - 56
    requires d2 == [Part(ip, data, 32, 40)] + d3 && d3 == [Part(ip, data, 8, 32)] + d4
    requires d4 == [Part(ip, data, 48, 56)] + d5 && d5 == [Part(ip, data, 0, 40)]
    ensures Fed([], [Part(ip, data, 16, 24)] + d2).outcome == Fault
  {
    var a, b, f := Frag(16, 24, data[16..24], false), Frag(32, 40, data[32..40], false), Frag(48, 56, data[48..56], false);
    var c := Frag(8, 40, data[8..32] + data[32..40], true);
    LeavesStale(a, b, data[8..32]);
    StaleCovered(c, f, data[0..40]);
    FedMore(ip, data, 16, 24, [], [a], d2);
    FedMore(ip, data, 32, 40, [a], [a, b], d3);
    FedMore(ip, data, 8, 32, [a, b], [c], d4);
    FedMore(ip, data, 48, 56, [c], [c, f], d5);
    PartBroken(ip, data, 0, 40, [c, f]);
  }

  lemma PartBroken(ip: Ip, data: Data, o: nat, l: nat, fs: seq<Frag>)
    requires o < l <= |data| < 0x1_0000 - ip.HdrLen() && Insert(fs, o, l, data[o..l]) == Broken
    ensures Fed(Held(ip, fs), [Part(ip, data, o, l)]).outcome == Fault
  {
  }

  // The store through `bpp`

  /** The fragment is joined to the entry after it, and to no other. */
  predicate Prepends(fs: seq<Frag>, off: nat, last: nat, n: nat) {
    var k := NextIndex(fs, 0, off);
    var overlap := Overlap(fs[..k], off);
    && (overlap == 0 || overlap < n)
    && !JoinsBefore(fs[..k], off + overlap)
    && match Sweep(fs[k..], last)
       case Lost => false
       case Swept(_, rest) => JoinsAfter(rest, last)
  }

  /**
   The code as it stands: joining a fragment to the entry after it, line 318 sets not `*bpp` but `bpp` to
   null, and if the datagram is complete then, line 344 stores through it. `Handle` has `*bpp`.
   */
  predicate StoresNull(rp: seq<Reasm>, ip: Ip, data: Data)
    requires |rp| <= 1
  {
    !Whole(ip) && Handle(rp, ip, data).outcome.Complete? && Prepends(FragsOf(rp), ip.offset, LastOf(ip), |data|)
  }

  /** Octets 8 to 16, the last, arrive, and then octets 0 to 8. */
  lemma NullStored(ip: Ip, d1: Data, d2: Data)
    requires !ip.mf && ip.offset == 8 && ip.length == ip.HdrLen() + 8 && |d1| == 8 && |d2| == 8
    ensures |Handle([], ip, d1).next| == 1
    ensures StoresNull(Handle([], ip, d1).next, ip.(offset := 0, mf := true), d2)
  {
    var rp := Handle([], ip, d1).next;
    assert d1[0..] == d1;
    assert FragsOf(rp) == [Frag(8, 16, d1, false)] && rp[0].length == 16;
  }

  // The queue of descriptors

  function Find(q: seq<Reasm>, k: Key): seq<Reasm> {
    if q == [] then [] else if q[0].key == k then [q[0]] else Find(q[1..], k)
  }

  ghost predicate Distinct(q: seq<Reasm>) {
    forall i, j :: 0 <= i < j < |q| ==> q[i].key != q[j].key
  }

  lemma {:induction false} FindAt(q: seq<Reasm>, i: nat)
    requires Distinct(q) && i < |q|
    ensures Find(q, q[i].key) == [q[i]]
  {
    if i > 0 {
      FindAt(q[1..], i - 1);
    }
  }

  lemma {:induction false} FindNone(q: seq<Reasm>, k: Key)
    ensures Find(q, k) == [] <==> forall i :: 0 <= i < |q| ==> q[i].key != k
    ensures |Find(q, k)| <= 1
    ensures forall i :: 0 <= i < |Find(q, k)| ==> Find(q, k)[i].key == k && Find(q, k)[i] in q
  {
    if q != [] {
      FindNone(q[1..], k);
      if forall i :: 0 <= i < |q| ==> q[i].key != k {
        assert forall i :: 0 <= i < |q[1..]| ==> q[1..][i] == q[i + 1];
      } else if q[0].key != k {
        assert exists i :: 0 <= i < |q| && q[i].key == k;
        var i :| 0 <= i < |q| && q[i].key == k;
        assert q[1..][i - 1].key == k;
      }
    }
  }

  /** The global `Reasmq`, kept in most-recently-used order by `lookup_reasm`. */
  class Reassembler {
    var reasmq: seq<Reasm>

    constructor ()
      ensures reasmq == []
    {
      reasmq := [];
    }

    /** `lookup_reasm`: on success the descriptor has moved to the front. */
    method Lookup(k: Key) returns (found: bool)
      requires Distinct(reasmq)
      modifies this
      ensures Distinct(reasmq) && multiset(reasmq) == multiset(old(reasmq))
      ensures forall k' :: Find(reasmq, k') == Find(old(reasmq), k')
      ensures found <==> Find(old(reasmq), k) != []
      ensures found ==> reasmq != [] && reasmq[0].key == k
    {
      var i := 0;
      while i < |reasmq| && reasmq[i].key != k
        invariant i <= |reasmq| && forall j :: 0 <= j < i ==> reasmq[j].key != k
      {
        i := i + 1;
      }
      FindNone(reasmq, k);
      found := i < |reasmq|;
      if found {
        ghost var q := reasmq;
        reasmq := [reasmq[i]] + reasmq[..i] + reasmq[i + 1..];
        MoveToFront(q, i);
      }
    }

    /** `free_reasm` of the descriptor at the front. */
    method FreeFront(k: Key)
      requires Distinct(reasmq) && reasmq != [] && reasmq[0].key == k
      modifies this
      ensures Distinct(reasmq) && Find(reasmq, k) == []
      ensures forall k' :: k' != k ==> Find(reasmq, k') == Find(old(reasmq), k')
    {
      reasmq := reasmq[1..];
      FindNone(reasmq, k);
    }

    method SetFront(r: Reasm)
      requires Distinct(reasmq) && reasmq != [] && reasmq[0].key == r.key
      modifies this
      ensures Distinct(reasmq) && Find(reasmq, r.key) == [r] && reasmq != [] && reasmq[0] == r
      ensures forall k' :: k' != r.key ==> Find(reasmq, k') == Find(old(reasmq), k')
    {
      ghost var q := reasmq;
      reasmq := [r] + reasmq[1..];
      Behead(r, q[1..]);
    }

    method CreateFront(ip: Ip)
      requires Distinct(reasmq) && Find(reasmq, KeyOf(ip)) == []
      modifies this
      ensures Distinct(reasmq) && reasmq != [] && reasmq[0] == NewReasm(ip)
      ensures forall k' :: k' != KeyOf(ip) ==> Find(reasmq, k') == Find(old(reasmq), k')
    {
      FindNone(reasmq, KeyOf(ip));
      Behead(NewReasm(ip), reasmq);
      reasmq := [NewReasm(ip)] + reasmq;
    }

    /** `ip_timeout`: the descriptor is dropped with all its fragments. */
    method Timeout(k: Key)
      requires Distinct(reasmq)
      modifies this
      ensures Distinct(reasmq) && Find(reasmq, k) == []
      ensures forall k' :: k' != k ==> Find(reasmq, k') == Find(old(reasmq), k')
    {
      var found := Lookup(k);
      if found {
        FreeFront(k);
      }
    }

    /** The fragment's descriptor comes to the front, a new one if need be, and learns the length. */
    method NoteArrival(ip: Ip)
      requires Distinct(reasmq)
      modifies this
      ensures Distinct(reasmq) && reasmq != [] && reasmq[0].key == KeyOf(ip)
      ensures |Find(old(reasmq), KeyOf(ip))| <= 1 && reasmq[0] == Noted(Find(old(reasmq), KeyOf(ip)), ip)
      ensures forall k :: k != KeyOf(ip) ==> Find(reasmq, k) == Find(old(reasmq), k)
    {
      FindNone(reasmq, KeyOf(ip));
      var found := Lookup(KeyOf(ip));
      if !found {
        CreateFront(ip);
      } else {
        FindAt(reasmq, 0);
      }
      if !ip.mf {
        SetFront(reasmq[0].(length := LastOf(ip)));
      }
    }

    /** The end of `fraghandle`: a complete datagram is handed over and its descriptor freed. */
    method Finish(ip: Ip, ins: Inserted) returns (o: Outcome)
      requires Distinct(reasmq) && reasmq != [] && reasmq[0].key == KeyOf(ip)
      modifies this
      ensures Distinct(reasmq)
      ensures var s := Settle(old(reasmq[0]), ip, ins); o == s.outcome && Find(reasmq, KeyOf(ip)) == s.next
      ensures forall k :: k != KeyOf(ip) ==> Find(reasmq, k) == Find(old(reasmq), k)
    {
      var rp := reasmq[0];
      FindAt(reasmq, 0);
      match ins
      case Nothing => o := Incomplete;
      case Broken => o := Fault;
      case Into(fs) =>
        if fs != [] && fs[0].offset == 0 && |fs| == 1 && rp.length != 0 {
          o := Complete(ip.(length := Wrap16(rp.length + ip.HdrLen()), offset := 0, mf := false), fs[0].buf);
          FreeFront(KeyOf(ip));
        } else {
          SetFront(rp.(frags := fs));
          o := Incomplete;
        }
    }

    /**
     `fraghandle`: the datagram's descriptor becomes what `Handle` says, no other descriptor
     changes, and the outcome is the one `Handle` gives.
     */
    method FragHandle(ip: Ip, data: Data) returns (o: Outcome)
      requires Distinct(reasmq)
      modifies this
      ensures Distinct(reasmq)
      ensures |Find(old(reasmq), KeyOf(ip))| <= 1
      ensures var s := Handle(Find(old(reasmq), KeyOf(ip)), ip, data);
              o == s.outcome && Find(reasmq, KeyOf(ip)) == s.next
      ensures forall k :: k != KeyOf(ip) ==> Find(reasmq, k) == Find(old(reasmq), k)
    {
      if Whole(ip) {
        FindNone(reasmq, KeyOf(ip));
        var found := Lookup(KeyOf(ip));
        if found {
          FreeFront(KeyOf(ip));
        }
        return Complete(ip, data);
      }
      NoteArrival(ip);
      var ins := InsertFragment(reasmq[0].frags, ip.offset, LastOf(ip), data);
      o := Finish(ip, ins);
    }
  }

  lemma MoveToFront(q: seq<Reasm>, i: nat)
    requires Distinct(q) && i < |q|
    ensures var r := [q[i]] + q[..i] + q[i + 1..];
            && Distinct(r) && multiset(r) == multiset(q) && (forall k :: Find(r, k) == Find(q, k))
  {
    var r := [q[i]] + q[..i] + q[i + 1..];
    assert q == q[..i] + [q[i]] + q[i + 1..];
    assert Distinct(r);
    forall k ensures Find(r, k) == Find(q, k) {
      if exists j :: 0 <= j < |q| && q[j].key == k {
        var j :| 0 <= j < |q| && q[j].key == k;
        FindAt(q, j);
        var j' := if j == i then 0 else if j < i then j + 1 else j;
        assert r[j'] == q[j];
        FindAt(r, j');
      } else {
        FindNone(q, k);
        FindNone(r, k);
      }
    }
  }

  method FindNext(fs: seq<Frag>, offset: nat) returns (k: nat)
    ensures k == NextIndex(fs, 0, offset)
  {
    k := 0;
    while k < |fs| && fs[k].offset <= offset
      invariant k <= |fs| && NextIndex(fs, k, offset) == NextIndex(fs, 0, offset)
    {
      k := k + 1;
    }
  }

  /** The two search loops of `fraghandle`, the trimming they do, and the relinking. */
  method InsertFragment(fs: seq<Frag>, offset: nat, last: nat, data: Data) returns (r: Inserted)
    ensures r == Insert(fs, offset, last, data)
  {
    var k := FindNext(fs, offset);
    var front, i := fs[..k], 0;
    if front != [] && offset < front[k - 1].last {
      i := front[k - 1].last - offset;
      if i >= |data| {
        return Nothing;
      }
    }
    r := Place(front, fs[k..], offset + i, last, data[i..]);
  }

  method Place(front: seq<Frag>, after: seq<Frag>, off: nat, last: nat, data: Data) returns (r: Inserted)
    ensures r == Placed(front, after, off, last, data)
  {
    var ok, trimmed, rest := TrimSuccessors(after, last);
    if !ok {
      return Broken;
    }
    r := Into(Link(front, trimmed, rest, off, last, data));
  }

  method TrimSuccessors(fs: seq<Frag>, last: nat) returns (ok: bool, trimmed: seq<Frag>, rest: seq<Frag>)
    ensures if ok then Sweep(fs, last) == Swept(trimmed, rest) else Sweep(fs, last) == Lost
  {
    trimmed, rest := [], fs;
    while rest != [] && rest[0].offset < last
      invariant Sweep(fs, last) == Behind(trimmed, Sweep(rest, last))
      decreases |rest|
    {
      if |rest[0].buf| <= last - rest[0].offset {
        if rest[0].stale || |rest| == 1 {
          return false, trimmed, rest;
        }
        rest := Unlinked(rest);
      } else {
        BehindOne(trimmed, TrimFront(rest[0], last), Sweep(rest[1..], last));
        trimmed, rest := trimmed + [TrimFront(rest[0], last)], rest[1..];
      }
    }
    ok := true;
    assert trimmed + [] == trimmed;
  }

  function Behind(front: seq<Frag>, s: Swept): Swept {
    if s.Lost? then Lost else Swept(front + s.trimmed, s.rest)
  }

  lemma BehindOne(front: seq<Frag>, f: Frag, s: Swept)
    ensures Behind(front, Behind([f], s)) == Behind(front + [f], s)
  {
    if s.Swept? {
      Assoc(front, [f], s.trimmed);
    }
  }
}
