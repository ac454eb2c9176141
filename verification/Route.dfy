module Route {
  // The IP routing table (iproute.c): hash chains by prefix length, and a last-used cache.

  import opened Bytes
  import opened Lists

  const HASHMOD := 7

  /** A 32-bit address, most significant bit first. */
  type Addr = a: seq<bool> | |a| == 32 witness Zeros(32)

  function Zeros(n: nat): (s: seq<bool>)
    ensures |s| == n && forall i :: 0 <= i < n ==> !s[i]
  {
    if n == 0 then [] else [false] + Zeros(n - 1)
  }

  /** An interface by number; number 0 is the pseudo-interface `Encap`. */
  type Iface = nat

  const ENCAP: Iface := 0

  datatype Route = Route(target: Addr, bits: nat, gateway: Addr, iface: Iface, metric: int, private: bool)

  datatype CacheEntry = CacheEntry(target: Addr, route: Option<Route>)

  datatype Key = Key(bits: nat, target: Addr)

  type Table = map<Key, Route>

  // Prefixes

  /** `a & (~0 << (32 - n))`: the first `n` bits kept, the rest cleared. */
  function Mask(a: Addr, n: nat): Addr
    requires n <= 32
  {
    a[..n] + Zeros(32 - n)
  }

  /** A shorter prefix can be cut from a longer one. */
  lemma MaskMask(a: Addr, n: nat, m: nat)
    requires n <= m <= 32
    ensures Mask(Mask(a, m), n) == Mask(a, n)
  {
    assert Mask(a, m)[..n] == a[..n];
  }

  lemma FullMask(a: Addr)
    ensures Mask(a, 32) == a
  {
  }

  // Longest-prefix match

  /** A tunnel is not used to reach its own far end. */
  predicate Usable(r: Route, a: Addr) { !(r.iface == ENCAP && r.gateway == a) }

  predicate Matches(t: Table, a: Addr, n: nat)
    requires n <= 32
  {
    Key(n, Mask(a, n)) in t && Usable(t[Key(n, Mask(a, n))], a)
  }

  /** The usable entry with the longest prefix of at most `n` bits, or else the default route. */
  function Longest(t: Table, d: Option<Route>, a: Addr, n: nat): Option<Route>
    requires n <= 32
  {
    if n == 0 then d
    else if Matches(t, a, n) then Some(t[Key(n, Mask(a, n))])
    else Longest(t, d, a, n - 1)
  }

  ghost predicate WellKeyed(t: Table) {
    forall k :: k in t ==> 1 <= k.bits <= 32 && t[k].bits == k.bits && t[k].target == k.target == Mask(k.target, k.bits)
  }

  /** The default route is the entry of no bits. */
  predicate DefaultOk(d: Option<Route>) { d.Some? ==> d.value.bits == 0 }

  /** Entry `r` covers address `a`. */
  predicate Covers(r: Route, a: Addr)
    requires r.bits <= 32
  {
    r.target == Mask(a, r.bits)
  }

  /** `Longest` is longest-prefix match over the set of entries. */
  lemma {:induction false} LongestIsBest(t: Table, d: Option<Route>, a: Addr, n: nat)
    requires WellKeyed(t) && n <= 32
    ensures var r := Longest(t, d, a, n);
            if exists k :: k in t && k.bits <= n && Covers(t[k], a) && Usable(t[k], a) then
              && r.Some? && Key(r.value.bits, r.value.target) in t && t[Key(r.value.bits, r.value.target)] == r.value
              && r.value.bits <= n && Covers(r.value, a) && Usable(r.value, a)
              && (forall k :: k in t && k.bits <= n && Covers(t[k], a) && Usable(t[k], a) ==> k.bits <= r.value.bits)
            else r == d
  {
    if n > 0 {
      if Matches(t, a, n) {
        var k := Key(n, Mask(a, n));
        assert k in t && Covers(t[k], a) && Usable(t[k], a);
      } else {
        LongestIsBest(t, d, a, n - 1);
        forall k | k in t && k.bits == n ensures !(Covers(t[k], a) && Usable(t[k], a)) {
          assert Covers(t[k], a) ==> k == Key(n, Mask(a, n));
        }
      }
    }
  }

  // The table

  type Chains = seq<seq<seq<Route>>>

  ghost predicate HashOk(hash: Addr -> nat) { forall a :: hash(a) < HASHMOD }

  /** A chain holds exactly the entries of its length and hash, each once. */
  ghost predicate ChainOk(c: seq<Route>, b: nat, h: nat, hash: Addr -> nat, t: Table) {
    && (forall i :: 0 <= i < |c| ==> Belongs(c[i], b, h, hash, t))
    && (forall i, j :: 0 <= i < j < |c| ==> c[i].target != c[j].target)
    && (forall k :: k in t && k.bits == b + 1 && hash(k.target) == h ==> t[k] in c)
  }

  ghost predicate Belongs(r: Route, b: nat, h: nat, hash: Addr -> nat, t: Table) {
    r.bits == b + 1 && hash(r.target) == h && Key(b + 1, r.target) in t && t[Key(b + 1, r.target)] == r
  }

  ghost predicate ChainsOk(rs: Chains, hash: Addr -> nat, t: Table) {
    && |rs| == 32 && (forall b :: 0 <= b < 32 ==> |rs[b]| == HASHMOD)
    && (forall b, h :: 0 <= b < 32 && 0 <= h < HASHMOD ==> ChainOk(rs[b][h], b, h, hash, t))
  }

  /** A cached route is the one a full lookup would find. */
  ghost predicate CacheOk(cache: seq<CacheEntry>, t: Table, d: Option<Route>) {
    && |cache| == HASHMOD
    && (forall i :: 0 <= i < |cache| && cache[i].route.Some? ==> cache[i].route == Longest(t, d, cache[i].target, 32))
  }

  ghost predicate Flushed(cache: seq<CacheEntry>) {
    |cache| == HASHMOD && forall i :: 0 <= i < |cache| ==> cache[i].route == None
  }

  lemma ChainHas(c: seq<Route>, b: nat, h: nat, hash: Addr -> nat, t: Table, target: Addr)
    requires ChainOk(c, b, h, hash, t) && hash(target) == h && WellKeyed(t)
    ensures Key(b + 1, target) in t <==> exists i :: 0 <= i < |c| && c[i].target == target
    ensures forall i :: 0 <= i < |c| && c[i].target == target ==> t[Key(b + 1, target)] == c[i]
  {
    if Key(b + 1, target) in t {
      assert t[Key(b + 1, target)] in c;
    }
    forall i | 0 <= i < |c| && c[i].target == target ensures Key(b + 1, target) in t && t[Key(b + 1, target)] == c[i] {
      assert Belongs(c[i], b, h, hash, t);
    }
  }

  /** Replacing one chain and the table together keeps the other chains exact. */
  lemma ChainReplaced(rs: Chains, b: nat, h: nat, c: seq<Route>, hash: Addr -> nat, t: Table, t': Table)
    requires ChainsOk(rs, hash, t) && b < 32 && h < HASHMOD && ChainOk(c, b, h, hash, t')
    requires forall k: Key :: k.bits != b + 1 || hash(k.target) != h ==> SameAt(t, t', k)
    ensures ChainsOk(rs[b := rs[b][h := c]], hash, t')
  {
    var rs' := rs[b := rs[b][h := c]];
    forall b', h' | 0 <= b' < 32 && 0 <= h' < HASHMOD ensures ChainOk(rs'[b'][h'], b', h', hash, t') {
      if b' != b || h' != h {
        assert rs'[b'][h'] == rs[b'][h'] && ChainOk(rs[b'][h'], b', h', hash, t);
        ChainUntouched(rs[b'][h'], b', h', b, h, hash, t, t');
      }
    }
  }

  lemma ChainUntouched(c: seq<Route>, b: nat, h: nat, b0: nat, h0: nat, hash: Addr -> nat, t: Table, t': Table)
    requires ChainOk(c, b, h, hash, t) && (b != b0 || h != h0)
    requires forall k: Key :: k.bits != b0 + 1 || hash(k.target) != h0 ==> SameAt(t, t', k)
    ensures ChainOk(c, b, h, hash, t')
  {
    forall i | 0 <= i < |c| ensures Belongs(c[i], b, h, hash, t') {
      assert Belongs(c[i], b, h, hash, t) && SameAt(t, t', Key(b + 1, c[i].target));
    }
    forall k | k in t' && k.bits == b + 1 && hash(k.target) == h ensures t'[k] in c {
      assert SameAt(t, t', k);
    }
  }

  predicate SameAt(t: Table, t': Table, k: Key) {
    (k in t <==> k in t') && (k in t ==> t[k] == t'[k])
  }

  /** The chain after an entry is overwritten or put at the head. */
  lemma InsertChain(c: seq<Route>, i: nat, entry: Route, b: nat, h: nat, hash: Addr -> nat, t: Table)
    requires ChainOk(c, b, h, hash, t) && WellKeyed(t) && entry.bits == b + 1 && hash(entry.target) == h && i <= |c|
    requires if i < |c| then c[i].target == entry.target else forall j :: 0 <= j < |c| ==> c[j].target != entry.target
    ensures ChainOk(Placed(c, i, entry), b, h, hash, t[Key(entry.bits, entry.target) := entry])
  {
    var t' := t[Key(entry.bits, entry.target) := entry];
    var c' := Placed(c, i, entry);
    forall j | 0 <= j < |c'| ensures Belongs(c'[j], b, h, hash, t') {
      if c'[j] != entry {
        assert Belongs(c[if i < |c| then j else j - 1], b, h, hash, t);
      }
    }
    forall k | k in t' && k.bits == b + 1 && hash(k.target) == h ensures t'[k] in c' {
      PlacedIn(c, i, entry, t'[k]);
    }
  }

  function Placed(c: seq<Route>, i: nat, entry: Route): (r: seq<Route>) {
    if i < |c| then c[i := entry] else [entry] + c
  }

  lemma PlacedIn(c: seq<Route>, i: nat, entry: Route, r: Route)
    requires i < |c| ==> c[i].target == entry.target
    requires r == entry || (r in c && r.target != entry.target)
    ensures r in Placed(c, i, entry)
  {
    if r == entry {
      assert Placed(c, i, entry)[if i < |c| then i else 0] == r;
    } else {
      var j :| 0 <= j < |c| && c[j] == r;
      assert Placed(c, i, entry)[if i < |c| then j else j + 1] == r;
    }
  }

  lemma Inserted(rs: Chains, b: nat, h: nat, i: nat, entry: Route, hash: Addr -> nat, t: Table)
    requires ChainsOk(rs, hash, t) && WellKeyed(t) && b < 32 && h < HASHMOD && entry.bits == b + 1
    requires hash(entry.target) == h && entry.target == Mask(entry.target, entry.bits) && i <= |rs[b][h]|
    requires if i < |rs[b][h]| then rs[b][h][i].target == entry.target
             else forall j :: 0 <= j < |rs[b][h]| ==> rs[b][h][j].target != entry.target
    ensures var t' := t[Key(entry.bits, entry.target) := entry];
            WellKeyed(t') && ChainsOk(rs[b := rs[b][h := Placed(rs[b][h], i, entry)]], hash, t')
  {
    InsertChain(rs[b][h], i, entry, b, h, hash, t);
    ChainReplaced(rs, b, h, Placed(rs[b][h], i, entry), hash, t, t[Key(entry.bits, entry.target) := entry]);
  }

  function Unlinked(c: seq<Route>, i: nat): (r: seq<Route>)
    requires i < |c|
    ensures |r| == |c| - 1 && forall j :: 0 <= j < |r| ==> r[j] == c[if j < i then j else j + 1]
  {
    c[..i] + c[i + 1..]
  }

  /** The chain after an entry is unlinked. */
  lemma DropChain(c: seq<Route>, i: nat, b: nat, h: nat, hash: Addr -> nat, t: Table)
    requires ChainOk(c, b, h, hash, t) && WellKeyed(t) && i < |c|
    ensures ChainOk(Unlinked(c, i), b, h, hash, t - {Key(b + 1, c[i].target)})
  {
    var t' := t - {Key(b + 1, c[i].target)};
    var c' := Unlinked(c, i);
    StillDistinct(c, i);
    forall j | 0 <= j < |c'| ensures Belongs(c'[j], b, h, hash, t') {
      var j0 := if j < i then j else j + 1;
      assert Belongs(c[j0], b, h, hash, t) && c[j0].target != c[i].target;
    }
    forall k | k in t' && k.bits == b + 1 && hash(k.target) == h ensures t'[k] in c' {
      StillIn(c, i, t[k]);
    }
  }

  lemma StillDistinct(c: seq<Route>, i: nat)
    requires i < |c| && forall j, k :: 0 <= j < k < |c| ==> c[j].target != c[k].target
    ensures forall j, k :: 0 <= j < k < |Unlinked(c, i)| ==> Unlinked(c, i)[j].target != Unlinked(c, i)[k].target
  {
  }

  lemma StillIn(c: seq<Route>, i: nat, r: Route)
    requires i < |c| && r in c && r.target != c[i].target
    ensures r in Unlinked(c, i)
  {
    var j :| 0 <= j < |c| && c[j] == r;
    assert Unlinked(c, i)[if j < i then j else j - 1] == r;
  }

  class Router {
    const hash: Addr -> nat
    const mine: set<Addr>
    var routes: seq<seq<seq<Route>>>
    var dflt: Option<Route>
    var cache: seq<CacheEntry>
    ghost var table: Table

    ghost predicate Valid()
      reads this
    {
      && HashOk(hash) && WellKeyed(table) && DefaultOk(dflt)
      && ChainsOk(routes, hash, table) && CacheOk(cache, table, dflt)
    }

    constructor (hash: Addr -> nat, mine: set<Addr>)
      requires forall a :: hash(a) < HASHMOD
      ensures Valid() && table == map[] && dflt == None && this.hash == hash && this.mine == mine
    {
      this.hash, this.mine := hash, mine;
      routes := seq(32, _ => seq(HASHMOD, _ => []));
      cache := seq(HASHMOD, _ => CacheEntry(Zeros(32), None));
      dflt, table := None, map[];
    }

    method FlushCache()
      requires Valid()
      modifies this`cache
      ensures Valid() && Flushed(cache)
    {
      var i := 0;
      while i < HASHMOD
        invariant 0 <= i <= HASHMOD && Valid()
        invariant forall j :: 0 <= j < i ==> cache[j].route == None
      {
        cache := cache[i := cache[i].(route := None)];
        i := i + 1;
      }
    }

    /** Position of `target` in a chain, or the chain's length. */
    method Search(c: seq<Route>, target: Addr) returns (i: nat)
      ensures i <= |c| && (i < |c| ==> c[i].target == target)
      ensures forall j :: 0 <= j < i ==> c[j].target != target
    {
      i := 0;
      while i < |c| && c[i].target != target
        invariant i <= |c| && forall j :: 0 <= j < i ==> c[j].target != target
      {
        i := i + 1;
      }
    }

    /** `rt_blookup` */
    method BLookup(target: Addr, bits: nat) returns (r: Option<Route>)
      requires Valid() && bits <= 32
      ensures r == if bits == 0 then dflt
                   else if Key(bits, Mask(target, bits)) in table then Some(table[Key(bits, Mask(target, bits))])
                   else None
    {
      if bits == 0 {
        return dflt;
      }
      var masked := Mask(target, bits);
      var h := hash(masked);
      ChainHas(routes[bits - 1][h], bits - 1, h, hash, table, masked);
      var i := Search(routes[bits - 1][h], masked);
      r := if i < |routes[bits - 1][h]| then Some(routes[bits - 1][h][i]) else None;
    }

    /** `rt_add`; the result is the entry now in the table, if the request was acceptable. */
    method Add(target: Addr, bits0: nat, gateway: Addr, iface: Option<Iface>, metric: int, private: bool)
      returns (r: Option<Route>)
      requires Valid()
      modifies this
      ensures Valid()
      ensures var bits := Min(bits0, 32);
              var masked := Mask(target, bits);
              if Refused(target, bits, gateway, iface) then
                r == None && table == old(table) && dflt == old(dflt)
              else
                && r == Some(Route(masked, bits, gateway, iface.value, metric, private))
                && (if bits == 0 then dflt == r && table == old(table)
                    else dflt == old(dflt) && table == old(table)[Key(bits, masked) := r.value])
    {
      if iface == None {
        return None;
      }
      var bits := if bits0 > 32 then 32 else bits0;
      if bits == 32 && target in mine {
        return None;
      }
      var masked := Mask(target, bits);
      if iface.value == ENCAP && (gateway == Zeros(32) || gateway in mine) {
        return None;
      }
      FlushCache();
      var entry := Route(masked, bits, gateway, iface.value, metric, private);
      r := Some(entry);
      if bits == 0 {
        dflt := r;
      } else {
        MaskMask(target, bits, bits);
        Insert(entry);
      }
    }

    predicate Refused(target: Addr, bits: nat, gateway: Addr, iface: Option<Iface>) {
      || iface == None
      || (bits == 32 && target in mine)
      || (iface.value == ENCAP && (gateway == Zeros(32) || gateway in mine))
    }

    /** Overwrite the entry for a prefix, or put a new one at the head of its chain. */
    method Insert(entry: Route)
      requires Valid() && Flushed(cache)
      requires 1 <= entry.bits <= 32 && entry.target == Mask(entry.target, entry.bits)
      modifies this`routes, this`table
      ensures Valid() && table == old(table)[Key(entry.bits, entry.target) := entry]
    {
      var b, h := entry.bits - 1, hash(entry.target);
      var c := routes[b][h];
      var i := Search(c, entry.target);
      Inserted(routes, b, h, i, entry, hash, table);
      routes := routes[b := routes[b][h := Placed(c, i, entry)]];
      table := table[Key(entry.bits, entry.target) := entry];
    }

    /** `rt_drop`; false where the source returns -1. */
    method Drop(target: Addr, bits0: nat) returns (ok: bool)
      requires Valid()
      modifies this
      ensures Valid()
      ensures var bits := Min(bits0, 32);
              var k := Key(bits, Mask(target, bits));
              if bits == 0 then ok && dflt == None && table == old(table)
              else ok == (k in old(table)) && dflt == old(dflt) && table == old(table) - {k}
    {
      FlushCache();
      if bits0 == 0 {
        dflt := None;
        return true;
      }
      var bits := if bits0 > 32 then 32 else bits0;
      var masked := Mask(target, bits);
      var b, h := bits - 1, hash(masked);
      var c := routes[b][h];
      ChainHas(c, b, h, hash, table, masked);
      var i := Search(c, masked);
      if i == |c| {
        return false;
      }
      ghost var t := table - {Key(bits, masked)};
      DropChain(c, i, b, h, hash, table);
      ChainReplaced(routes, b, h, Unlinked(c, i), hash, table, t);
      routes := routes[b := routes[b][h := Unlinked(c, i)]];
      table := t;
      ok := true;
    }

    /** `rt_lookup`: the cache, then the chains from the longest prefix down, then the default. */
    method Lookup(target: Addr) returns (r: Option<Route>)
      requires Valid()
      modifies this`cache
      ensures Valid() && r == Longest(table, dflt, target, 32)
    {
      var slot := hash(target);
      if cache[slot].target == target && cache[slot].route.Some? {
        return cache[slot].route;
      }
      var masked, n := target, 32;
      FullMask(target);
      while n > 0
        invariant n <= 32 && masked == Mask(target, n) && cache == old(cache)
        invariant Longest(table, dflt, target, n) == Longest(table, dflt, target, 32)
      {
        r := Probe(n, masked, target);
        if r.Some? {
          Stash(slot, target, r);
          return;
        }
        n := n - 1;
        MaskMask(target, n, n + 1);
        masked := Mask(masked, n);
      }
      r := dflt;
      if r.Some? {
        Stash(slot, target, r);
      }
    }

    /** The first entry of a chain for the masked target that may be used for `target`. */
    method Scan(c: seq<Route>, masked: Addr, target: Addr) returns (i: nat)
      ensures i <= |c| && (i < |c| ==> c[i].target == masked && Usable(c[i], target))
      ensures forall j :: 0 <= j < i ==> c[j].target != masked || !Usable(c[j], target)
    {
      i := 0;
      while i < |c| && (c[i].target != masked || !Usable(c[i], target))
        invariant i <= |c|
        invariant forall j :: 0 <= j < i ==> c[j].target != masked || !Usable(c[j], target)
      {
        i := i + 1;
      }
    }

    /** The hash chain for the first `n` bits of the target. */
    method Probe(n: nat, masked: Addr, target: Addr) returns (r: Option<Route>)
      requires Valid() && 0 < n <= 32 && masked == Mask(target, n)
      ensures r == if Matches(table, target, n) then Some(table[Key(n, masked)]) else None
    {
      var h := hash(masked);
      var c := routes[n - 1][h];
      ChainHas(c, n - 1, h, hash, table, masked);
      var i := Scan(c, masked, target);
      r := if i < |c| then Some(c[i]) else None;
    }

    method Stash(slot: nat, target: Addr, r: Option<Route>)
      requires Valid() && slot < |cache| && r == Longest(table, dflt, target, 32)
      modifies this`cache
      ensures Valid()
    {
      cache := cache[slot := CacheEntry(target, r)];
    }

    /** The inner loop of `rt_merge`: is there a less specific entry with the same way out? */
    method FindSame(r: Route) returns (found: bool)
      requires Valid() && 1 <= r.bits <= 32
      ensures found == Redundant(table, dflt, r, r.bits - 1)
    {
      var j := r.bits - 1;
      while true
        invariant 0 <= j < r.bits
        invariant Redundant(table, dflt, r, j) == Redundant(table, dflt, r, r.bits - 1)
        decreases j
      {
        var e := BLookup(r.target, j);
        if e.Some? && SameWay(e.value, r) {
          return true;
        }
        if j == 0 {
          return false;
        }
        j := j - 1;
      }
    }

    /** One chain of `rt_merge`: every redundant entry on it goes. */
    method MergeChain(bits: nat, h: nat, ghost t0: Table)
      requires Valid() && 1 <= bits <= 32 && h < HASHMOD
      requires Progress(t0, table, dflt, hash, bits, h, {})
      modifies this
      ensures Valid() && dflt == old(dflt)
      ensures Progress(t0, table, dflt, hash, bits, h + 1, {})
    {
      var c := routes[bits - 1][h];
      ghost var start := table;
      ghost var done: set<Addr> := {};
      assert ChainOk(c, bits - 1, h, hash, table);
      var q := 0;
      while q < |c|
        invariant q <= |c| && Valid() && dflt == old(dflt)
        invariant DoneTo(c, done, q)
        invariant Progress(t0, table, dflt, hash, bits, h, done)
        invariant Thinned(start, table, bits, done)
      {
        var rp := c[q];
        assert Belongs(rp, bits - 1, h, hash, start) && SameAt(start, table, Key(bits, rp.target));
        var redundant := FindSame(rp);
        ghost var before := table;
        if redundant {
          var _ := Drop(rp.target, bits);
        }
        ProgressOne(t0, before, table, dflt, hash, bits, h, done, rp);
        ThinnedOne(start, before, table, bits, done, rp.target);
        DoneGrows(c, done, q);
        done := done + {rp.target};
        q := q + 1;
      }
      ProgressChain(t0, start, table, dflt, hash, bits, h, done, c);
    }

    /** `rt_merge` */
    method Merge()
      requires Valid()
      modifies this
      ensures Valid() && dflt == old(dflt) && table == Merged(old(table), dflt)
    {
      ghost var t0 := table;
      var bits := 32;
      while bits > 0
        invariant 0 <= bits <= 32 && Valid() && dflt == old(dflt) && WellKeyed(t0)
        invariant Progress(t0, table, dflt, hash, bits, 0, {})
      {
        var h := 0;
        while h < HASHMOD
          invariant 0 <= h <= HASHMOD && Valid() && dflt == old(dflt)
          invariant Progress(t0, table, dflt, hash, bits, h, {})
        {
          MergeChain(bits, h, t0);
          h := h + 1;
        }
        ProgressLevel(t0, table, dflt, hash, bits);
        bits := bits - 1;
      }
      ProgressDone(t0, table, dflt, hash);
    }
  }

  // Merging

  /** Same interface and same gateway. */
  predicate SameWay(r: Route, s: Route) { r.iface == s.iface && r.gateway == s.gateway }

  function EntryAt(t: Table, d: Option<Route>, a: Addr, j: nat): Option<Route>
    requires j <= 32
  {
    if j == 0 then d else if Key(j, Mask(a, j)) in t then Some(t[Key(j, Mask(a, j))]) else None
  }

  /** Some entry of at most `j` bits that encloses `r` has the same way out. */
  predicate Redundant(t: Table, d: Option<Route>, r: Route, j: nat)
    requires j <= 32
  {
    var e := EntryAt(t, d, r.target, j);
    if e.Some? && SameWay(e.value, r) then true else if j == 0 then false else Redundant(t, d, r, j - 1)
  }

  predicate Goes(t: Table, d: Option<Route>, k: Key) {
    k in t && 1 <= t[k].bits <= 32 && Redundant(t, d, t[k], t[k].bits - 1)
  }

  /** The table without the entries that were redundant in it. */
  function Merged(t: Table, d: Option<Route>): Table {
    map k | k in t && !Goes(t, d, k) :: t[k]
  }

  /** How far merging has come at `k`: entries longer than `bits` are done, those of `bits` if `also`. */
  ghost predicate MergedAt(t0: Table, t: Table, d: Option<Route>, k: Key, bits: nat, also: bool) {
    && (k in t ==> k in t0 && t[k] == t0[k])
    && (k in t0 && k !in t ==> k.bits >= bits && Goes(t0, d, k))
    && (k in t && (k.bits > bits || (k.bits == bits && also)) ==> !Goes(t0, d, k))
  }

  /** Chains below `h` of this length are done, and of chain `h` the targets in `done`. */
  ghost predicate Progress(t0: Table, t: Table, d: Option<Route>, hash: Addr -> nat, bits: nat, h: nat, done: set<Addr>) {
    && WellKeyed(t0)
    && (forall k: Key :: MergedAt(t0, t, d, k, bits, Passed(k, hash, h, done)))
  }

  predicate Passed(k: Key, hash: Addr -> nat, h: nat, done: set<Addr>) { hash(k.target) < h || k.target in done }

  /** Only entries of this length with their targets in `done` have gone. */
  ghost predicate Thinned(start: Table, t: Table, bits: nat, done: set<Addr>) {
    && (forall k: Key :: k.bits != bits || k.target !in done ==> SameAt(start, t, k))
    && (forall k :: k in t ==> k in start && start[k] == t[k])
  }

  /** The targets of the first `q` entries of a chain. */
  ghost predicate DoneTo(c: seq<Route>, done: set<Addr>, q: nat) {
    forall i :: 0 <= i < |c| ==> (c[i].target in done <==> i < q)
  }

  lemma DoneGrows(c: seq<Route>, done: set<Addr>, q: nat)
    requires DoneTo(c, done, q) && q < |c| && forall i, j :: 0 <= i < j < |c| ==> c[i].target != c[j].target
    ensures DoneTo(c, done + {c[q].target}, q + 1)
  {
  }

  lemma ThinnedOne(start: Table, t: Table, t': Table, bits: nat, done: set<Addr>, target: Addr)
    requires Thinned(start, t, bits, done) && t' in {t, t - {Key(bits, target)}}
    ensures Thinned(start, t', bits, done + {target})
  {
    forall k: Key | k.bits != bits || k.target !in done + {target} ensures SameAt(start, t', k) {
      assert SameAt(start, t, k);
    }
  }

  lemma ProgressOne(t0: Table, t: Table, t': Table, d: Option<Route>, hash: Addr -> nat,
                    bits: nat, h: nat, done: set<Addr>, r: Route)
    requires Progress(t0, t, d, hash, bits, h, done) && 1 <= bits <= 32 && hash(r.target) == h
    requires r.bits == bits && Key(bits, r.target) in t && t[Key(bits, r.target)] == r
    requires r.target == Mask(r.target, bits)
    requires t' == if Redundant(t, d, r, bits - 1) then t - {Key(bits, r.target)} else t
    ensures Progress(t0, t', d, hash, bits, h, done + {r.target})
  {
    forall k: Key | k.bits <= bits - 1 ensures SameAt(t0, t, k) {
      assert MergedAt(t0, t, d, k, bits, Passed(k, hash, h, done));
    }
    RedundantSame(t0, t, d, r, bits - 1);
    assert MergedAt(t0, t, d, Key(bits, r.target), bits, Passed(Key(bits, r.target), hash, h, done));
    forall k: Key ensures MergedAt(t0, t', d, k, bits, Passed(k, hash, h, done + {r.target})) {
      assert MergedAt(t0, t, d, k, bits, Passed(k, hash, h, done));
    }
  }

  lemma ProgressChain(t0: Table, start: Table, t: Table, d: Option<Route>, hash: Addr -> nat,
                      bits: nat, h: nat, done: set<Addr>, c: seq<Route>)
    requires Progress(t0, t, d, hash, bits, h, done) && 1 <= bits && ChainOk(c, bits - 1, h, hash, start)
    requires forall i :: 0 <= i < |c| ==> c[i].target in done
    requires Thinned(start, t, bits, done)
    requires WellKeyed(start)
    ensures Progress(t0, t, d, hash, bits, h + 1, {})
  {
    var h1 := h + 1;
    forall k: Key ensures MergedAt(t0, t, d, k, bits, Passed(k, hash, h1, {})) {
      assert MergedAt(t0, t, d, k, bits, Passed(k, hash, h, done));
      if k in t && k.bits == bits && hash(k.target) == h {
        assert start[k] in c;
        var i :| 0 <= i < |c| && c[i] == start[k];
        assert c[i].target in done;
      }
    }
  }

  lemma ProgressLevel(t0: Table, t: Table, d: Option<Route>, hash: Addr -> nat, bits: nat)
    requires Progress(t0, t, d, hash, bits, HASHMOD, {}) && HashOk(hash) && 1 <= bits
    ensures Progress(t0, t, d, hash, bits - 1, 0, {})
  {
    var b := bits - 1;
    forall k: Key ensures MergedAt(t0, t, d, k, b, Passed(k, hash, 0, {})) {
      assert MergedAt(t0, t, d, k, bits, Passed(k, hash, HASHMOD, {}));
    }
  }

  lemma ProgressDone(t0: Table, t: Table, d: Option<Route>, hash: Addr -> nat)
    requires Progress(t0, t, d, hash, 0, 0, {})
    ensures t == Merged(t0, d)
  {
    forall k: Key ensures k in t <==> k in Merged(t0, d) {
      assert MergedAt(t0, t, d, k, 0, Passed(k, hash, 0, {}));
    }
    forall k: Key | k in t ensures t[k] == Merged(t0, d)[k] {
      assert MergedAt(t0, t, d, k, 0, Passed(k, hash, 0, {}));
    }
  }

  /** Whether an entry is redundant depends only on shorter ones, which are still all there. */
  lemma {:induction false} RedundantSame(t0: Table, t: Table, d: Option<Route>, r: Route, j: nat)
    requires j < 32
    requires forall k: Key :: k.bits <= j ==> SameAt(t0, t, k)
    ensures Redundant(t0, d, r, j) == Redundant(t, d, r, j)
    decreases j
  {
    assert SameAt(t0, t, Key(j, Mask(r.target, j)));
    if j > 0 {
      RedundantSame(t0, t, d, r, j - 1);
    }
  }

  // What merging does to routing

  /** The entry with the longest prefix of at most `j` bits around an address, usable or not. */
  function Encloser(t: Table, d: Option<Route>, a: Addr, j: nat): Option<Route>
    requires j <= 32
  {
    if j == 0 || EntryAt(t, d, a, j).Some? then EntryAt(t, d, a, j) else Encloser(t, d, a, j - 1)
  }

  /** Nothing with another interface or gateway lies directly around an entry that goes. */
  ghost predicate Tight(t: Table, d: Option<Route>, k: Key)
    requires k in t && 1 <= t[k].bits <= 32
  {
    var e := Encloser(t, d, t[k].target, t[k].bits - 1);
    e.Some? && SameWay(e.value, t[k])
  }

  ghost predicate AllTight(t: Table, d: Option<Route>)
    requires WellKeyed(t)
  {
    forall k :: Goes(t, d, k) ==> Tight(t, d, k)
  }

  /** The interface and gateway chosen. */
  datatype Way = NoWay | Way(iface: Iface, gateway: Addr)

  function WayOf(r: Option<Route>): Way { if r.Some? then Way(r.value.iface, r.value.gateway) else NoWay }

  function Chosen(t: Table, d: Option<Route>, a: Addr, n: nat): Way
    requires n <= 32
  {
    WayOf(Longest(t, d, a, n))
  }

  lemma {:induction false} SameEncloser(t: Table, d: Option<Route>, a: Addr, b: Addr, n: nat, j: nat)
    requires j <= n <= 32 && Mask(a, n) == Mask(b, n)
    ensures Encloser(t, d, a, j) == Encloser(t, d, b, j)
    decreases j
  {
    MaskMask(a, j, n);
    MaskMask(b, j, n);
    if j > 0 {
      SameEncloser(t, d, a, b, n, j - 1);
    }
  }

  /** When the entry directly around an address can be used for it, that is what is chosen. */
  lemma {:induction false} EncloserChosen(t: Table, d: Option<Route>, a: Addr, j: nat)
    requires j <= 32 && Encloser(t, d, a, j).Some? && Usable(Encloser(t, d, a, j).value, a)
    ensures Longest(t, d, a, j) == Encloser(t, d, a, j)
    decreases j
  {
    if j > 0 && EntryAt(t, d, a, j).None? {
      EncloserChosen(t, d, a, j - 1);
    }
  }

  /** Below `n`, merging changes no choice if the entries that go below `n` are tight. */
  lemma {:induction false} MergeKeepsBelow(t: Table, d: Option<Route>, a: Addr, n: nat)
    requires WellKeyed(t) && n <= 32 && forall k :: Goes(t, d, k) && k.bits <= n ==> Tight(t, d, k)
    ensures Chosen(Merged(t, d), d, a, n) == Chosen(t, d, a, n)
    decreases n
  {
    if n > 0 {
      MergeKeepsBelow(t, d, a, n - 1);
      var k := Key(n, Mask(a, n));
      if Matches(t, a, n) && Goes(t, d, k) {
        MaskMask(a, n, n);
        SameEncloser(t, d, a, t[k].target, n, n - 1);
        EncloserChosen(t, d, a, n - 1);
      }
    }
  }

  /** `rt_merge` changes no choice when every entry it drops is directly enclosed by its like. */
  lemma MergeKeepsRouting(t: Table, d: Option<Route>, a: Addr)
    requires WellKeyed(t) && AllTight(t, d)
    ensures Chosen(Merged(t, d), d, a, 32) == Chosen(t, d, a, 32)
  {
    MergeKeepsBelow(t, d, a, 32);
  }

  /** An address only this entry serves, which the entry directly around it could serve too. */
  ghost predicate Own(t: Table, d: Option<Route>, k: Key, a: Addr)
    requires k in t && 1 <= t[k].bits <= 32
  {
    && Longest(t, d, a, 32) == Some(t[k]) && Covers(t[k], a)
    && (var e := Encloser(t, d, a, t[k].bits - 1); e.Some? ==> Usable(e.value, a))
  }

  lemma {:induction false} NothingLonger(t: Table, d: Option<Route>, a: Addr, n: nat, m: nat)
    requires WellKeyed(t) && n <= m <= 32 && Longest(t, d, a, m).Some? && Longest(t, d, a, m) != d
    requires Longest(t, d, a, m).value.bits <= n
    ensures Longest(Merged(t, d), d, a, m) == Longest(Merged(t, d), d, a, n)
    ensures Longest(t, d, a, m) == Longest(t, d, a, n)
    decreases m
  {
    if n < m {
      NothingLonger(t, d, a, n, m - 1);
    }
  }

  /** The shortest of the entries that go and are not tight. */
  lemma ShortestLoose(t: Table, d: Option<Route>, k0: Key) returns (k: Key)
    requires WellKeyed(t) && Goes(t, d, k0) && !Tight(t, d, k0)
    ensures Goes(t, d, k) && !Tight(t, d, k)
    ensures forall k' :: Goes(t, d, k') && k'.bits < k.bits ==> Tight(t, d, k')
    decreases k0.bits
  {
    k := k0;
    if k' :| Goes(t, d, k') && k'.bits < k0.bits && !Tight(t, d, k') {
      k := ShortestLoose(t, d, k');
    }
  }

  /** A dropped entry that is not tight misroutes the addresses it alone served. */
  lemma LooseMisroutes(t: Table, d: Option<Route>, k: Key, a: Addr)
    requires WellKeyed(t) && Goes(t, d, k) && !Tight(t, d, k) && Own(t, d, k, a)
    requires forall k' :: Goes(t, d, k') && k'.bits < k.bits ==> Tight(t, d, k')
    requires DefaultOk(d)
    ensures Chosen(Merged(t, d), d, a, 32) != Chosen(t, d, a, 32)
  {
    var n := k.bits;
    NothingLonger(t, d, a, n, 32);
    MaskMask(a, n, n);
    assert Key(n, Mask(a, n)) == k;
    MergeKeepsBelow(t, d, a, n - 1);
    SameEncloser(t, d, a, t[k].target, n, n - 1);
    RedundantEncloses(t, d, t[k], n - 1);
    EncloserChosen(t, d, a, n - 1);
  }

  lemma {:induction false} RedundantEncloses(t: Table, d: Option<Route>, r: Route, j: nat)
    requires j <= 32 && Redundant(t, d, r, j)
    ensures Encloser(t, d, r.target, j).Some?
    decreases j
  {
    if j > 0 && EntryAt(t, d, r.target, j).None? {
      RedundantEncloses(t, d, r, j - 1);
    }
  }

  /**
   Exactly when `rt_merge` is harmless: if every entry it drops serves some address of its own,
   routing is unchanged for all addresses if and only if every dropped entry's direct encloser
   has its interface and gateway.
   */
  lemma MergeHarmless(t: Table, d: Option<Route>)
    requires WellKeyed(t) && DefaultOk(d) && (forall k :: Goes(t, d, k) ==> exists a :: Own(t, d, k, a))
    ensures (forall a :: Chosen(Merged(t, d), d, a, 32) == Chosen(t, d, a, 32)) <==> AllTight(t, d)
  {
    if AllTight(t, d) {
      forall a ensures Chosen(Merged(t, d), d, a, 32) == Chosen(t, d, a, 32) {
        MergeKeepsRouting(t, d, a);
      }
    } else {
      var k0 :| Goes(t, d, k0) && !Tight(t, d, k0);
      var k := ShortestLoose(t, d, k0);
      var a :| Own(t, d, k, a);
      LooseMisroutes(t, d, k, a);
    }
  }

  /** The usable entry around an address with the longest prefix of at most `n` bits that does not go; or the default. */
  ghost function Stands(t: Table, d: Option<Route>, a: Addr, n: nat): Option<Route>
    requires n <= 32 && WellKeyed(t)
  {
    if n == 0 then d
    else if Matches(t, a, n) && !Goes(t, d, Key(n, Mask(a, n))) then Some(t[Key(n, Mask(a, n))])
    else Stands(t, d, a, n - 1)
  }

  ghost predicate Dropped(t: Table, d: Option<Route>, r: Option<Route>)
    requires WellKeyed(t)
  {
    r.Some? && Goes(t, d, Key(r.value.bits, r.value.target))
  }

  lemma {:induction false} StandsIsChosen(t: Table, d: Option<Route>, a: Addr, n: nat)
    requires WellKeyed(t) && n <= 32
    ensures Longest(Merged(t, d), d, a, n) == Stands(t, d, a, n)
    decreases n
  {
    if n > 0 {
      StandsIsChosen(t, d, a, n - 1);
    }
  }

  lemma {:induction false} StandsFor(t: Table, d: Option<Route>, a: Addr, n: nat)
    requires WellKeyed(t) && DefaultOk(d) && n <= 32
    ensures var r := Longest(t, d, a, n);
            if Dropped(t, d, r) then r.value.bits > 0 && Stands(t, d, a, n) == Stands(t, d, a, r.value.bits - 1)
            else Stands(t, d, a, n) == r
    decreases n
  {
    if n > 0 {
      StandsFor(t, d, a, n - 1);
    }
  }

  /** What stands in for an entry that goes, at an address it serves, has its interface and gateway. */
  ghost predicate StandIn(t: Table, d: Option<Route>, a: Addr)
    requires WellKeyed(t)
  {
    var r := Longest(t, d, a, 32);
    Dropped(t, d, r) ==> WayOf(Stands(t, d, a, r.value.bits - 1)) == WayOf(r)
  }

  /**
   In every table: routing is unchanged for an address if and only if what serves it stays, or the next
   entry around it that stays, however far out, has the same interface and gateway.
   */
  lemma MergeExactly(t: Table, d: Option<Route>, a: Addr)
    requires WellKeyed(t) && DefaultOk(d)
    ensures Chosen(Merged(t, d), d, a, 32) == Chosen(t, d, a, 32) <==> StandIn(t, d, a)
  {
    StandsIsChosen(t, d, a, 32);
    StandsFor(t, d, a, 32);
  }

  lemma {:induction false} NoneBetween(t: Table, d: Option<Route>, a: Addr, n: nat, m: nat)
    requires n <= m <= 32 && forall k :: k in t ==> !(n < k.bits <= m)
    ensures Longest(t, d, a, m) == Longest(t, d, a, n)
    decreases m
  {
    if n < m {
      NoneBetween(t, d, a, n, m - 1);
    }
  }

  function Toward(bits: nat, iface: Iface): Route { Route(Zeros(32), bits, Zeros(32), iface, 0, false) }

  /** A /24 inside a /16 elsewhere inside a /8 like the /24. */
  function Nested(): Table {
    map[Key(24, Zeros(32)) := Toward(24, 1), Key(16, Zeros(32)) := Toward(16, 2), Key(8, Zeros(32)) := Toward(8, 1)]
  }

  /** Merging sends the /24 elsewhere. */
  lemma MergeMisroutes()
    ensures var z, t := Zeros(32), Nested();
            && WellKeyed(t)
            && Chosen(t, None, z, 32) == Way(1, z) && Chosen(Merged(t, None), None, z, 32) == Way(2, z)
  {
    MaskZeros();
    NestedMerged();
    OnlyUpTo(Nested(), 24);
    OnlyUpTo(Merged(Nested(), None), 16);
  }

  /** Of a table with no longer entry, one of `n` bits is chosen. */
  lemma OnlyUpTo(t: Table, n: nat)
    requires 0 < n <= 32 && Key(n, Zeros(32)) in t && t[Key(n, Zeros(32))].iface != ENCAP
    requires forall k :: k in t ==> k.bits <= n
    ensures Longest(t, None, Zeros(32), 32) == Some(t[Key(n, Zeros(32))])
  {
    MaskZeros();
    NoneBetween(t, None, Zeros(32), n, 32);
  }

  lemma NestedMerged()
    ensures var z, t := Zeros(32), Nested();
            Key(24, z) !in Merged(t, None) && Key(16, z) in Merged(t, None) && Merged(t, None)[Key(16, z)] == Toward(16, 2)
  {
    var z, t := Zeros(32), Nested();
    MaskZeros();
    RedundantAt(t, None, t[Key(24, z)], 8, 23);
    NoneBelow(t, None, t[Key(16, z)], 15);
  }

  lemma MaskZeros()
    ensures forall n: nat :: n <= 32 ==> Mask(Zeros(32), n) == Zeros(32)
  {
    forall n: nat | n <= 32 ensures Mask(Zeros(32), n) == Zeros(32) {
      var m := Mask(Zeros(32), n);
      assert forall i :: 0 <= i < 32 ==> m[i] == Zeros(32)[i];
    }
  }

  lemma {:induction false} RedundantAt(t: Table, d: Option<Route>, r: Route, j: nat, m: nat)
    requires j <= m <= 32 && EntryAt(t, d, r.target, j).Some? && SameWay(EntryAt(t, d, r.target, j).value, r)
    ensures Redundant(t, d, r, m)
    decreases m
  {
    if j < m {
      RedundantAt(t, d, r, j, m - 1);
    }
  }

  lemma {:induction false} NoneBelow(t: Table, d: Option<Route>, r: Route, m: nat)
    requires m <= 32 && forall j: nat :: j <= m ==>
               EntryAt(t, d, r.target, j).Some? ==> !SameWay(EntryAt(t, d, r.target, j).value, r)
    ensures !Redundant(t, d, r, m)
    decreases m
  {
    if m > 0 {
      NoneBelow(t, d, r, m - 1);
    }
  }
}
