/** Message buffers (mbuf.c): linked, shared, reference-counted; their meaning is a flat run of octets. */
module Mbuf {
  import opened Bytes
  import opened Lists

  /** The address of an mbuf. */
  type Id = nat

  /** A header; `at` is where its data starts, in its own buffer or in that of the mbuf it duplicates. */
  datatype Header = Header(next: Option<Id>, size: nat, refcnt: nat, dup: Option<Id>, at: nat, cnt: nat)

  /**
   All mbufs: their headers and buffers, the free cache by size, and the headers that packets hold
   (a buffer outlives its own header while duplicates refer to it).
   */
  datatype Mem = Mem(hdr: map<Id, Header>, bytes: map<Id, Data>, cache: map<nat, seq<Id>>, live: set<Id>)

  const SMALL := 32
  const MED := 128
  const LARGE := 2048

  predicate Cached(size: nat) { size == SMALL || size == MED || size == LARGE }

  function Rounded(size: nat): (r: nat)
    ensures r >= size
  {
    if size <= SMALL then SMALL else if size <= MED then MED else if size <= LARGE then LARGE else size
  }

  /** Whose buffer the data of header `h` is in. */
  function Owner(m: Mem, h: Id): Id
    requires h in m.hdr
  {
    if m.hdr[h].dup.Some? then m.hdr[h].dup.value else h
  }

  /** The headers that keep buffer `b`: its own, and its duplicates. */
  ghost function Users(m: Mem, b: Id): set<Id> { set h | h in m.live && Uses(m, h, b) }

  ghost predicate Uses(m: Mem, h: Id, b: Id) { h == b || (h in m.hdr && m.hdr[h].dup == Some(b)) }

  /** A header that a packet holds. */
  ghost predicate HeaderOk(m: Mem, h: Id) {
    && h in m.hdr && Owner(m, h) in m.hdr && m.hdr[Owner(m, h)].dup == None
    && Owner(m, h) in m.bytes && m.hdr[h].at + m.hdr[h].cnt <= |m.bytes[Owner(m, h)]|
  }

  /** Buffer `b` counts its users, and one more if it is in `extra`. */
  ghost predicate BufferOk(m: Mem, b: Id, extra: set<Id>)
    requires b in m.hdr
  {
    && m.hdr[b].refcnt == |Users(m, b)| + (if b in extra then 1 else 0) && b in m.bytes && |m.bytes[b]| == m.hdr[b].size
    && (m.hdr[b].refcnt == 0 ==> Cached(m.hdr[b].size) && m.hdr[b].size in m.cache && b in m.cache[m.hdr[b].size])
  }

  ghost predicate CacheOk(m: Mem) {
    && SMALL in m.cache && MED in m.cache && LARGE in m.cache
    && (forall s, i :: s in m.cache && 0 <= i < |m.cache[s]| ==> FreeAt(m, s, m.cache[s][i]))
    && (forall s, i, j :: s in m.cache && 0 <= i < j < |m.cache[s]| ==> m.cache[s][i] != m.cache[s][j])
  }

  ghost predicate FreeAt(m: Mem, s: nat, b: Id) { Cached(s) && b in m.hdr && m.hdr[b].size == s && m.hdr[b].refcnt == 0 }

  /**
   Reference counts are exact, no duplicate names a duplicate, and the cache holds
   every buffer that nothing refers to, once, and no other.
   */
  ghost predicate Ok(m: Mem) { OkBut(m, {}) }

  ghost predicate HeadersOk(m: Mem) { forall h :: h in m.live ==> HeaderOk(m, h) }

  /** The same, but for a reference yet to be dropped from each of `extra`. */
  ghost predicate OkBut(m: Mem, extra: set<Id>) {
    && HeadersOk(m) && CacheOk(m) && extra <= m.hdr.Keys
    && (forall b {:trigger BufferOk(m, b, extra)} :: b in m.hdr ==> BufferOk(m, b, extra))
  }

  /** An mbuf is in the free cache exactly when no packet holds its header or sees its octets. */
  lemma CachedIff(m: Mem, b: Id)
    requires Ok(m) && b in m.hdr
    ensures (exists s :: s in m.cache && b in m.cache[s]) <==>
            (b !in m.live && forall h :: h in m.live && HeaderOk(m, h) ==> Owner(m, h) != b)
  {
    assert BufferOk(m, b, {});
    if s :| s in m.cache && b in m.cache[s] {
      var i :| 0 <= i < |m.cache[s]| && m.cache[s][i] == b;
      assert FreeAt(m, s, m.cache[s][i]);
      assert Users(m, b) == {};
      assert b in m.live ==> b in Users(m, b);
      forall h | h in m.live && HeaderOk(m, h) ensures Owner(m, h) != b {
        assert h !in Users(m, b);
      }
    } else {
      var h :| h in Users(m, b);
      assert HeaderOk(m, h);
      assert h == b || Owner(m, h) == b;
    }
  }

  // What packets see

  function Seen(m: Mem, h: Id): Data
    requires HeaderOk(m, h)
  {
    m.bytes[Owner(m, h)][m.hdr[h].at..m.hdr[h].at + m.hdr[h].cnt]
  }

  /** The headers of a packet, in order. */
  ghost predicate Chain(m: Mem, head: Option<Id>, ids: seq<Id>)
    decreases |ids|
  {
    if ids == [] then head == None
    else head == Some(ids[0]) && ids[0] in m.hdr && Chain(m, m.hdr[ids[0]].next, ids[1..])
  }

  ghost predicate Packet(m: Mem, head: Option<Id>, ids: seq<Id>) {
    && Chain(m, head, ids) && (forall h :: h in ids ==> h in m.live && HeaderOk(m, h))
    && NoDup(ids)
  }

  ghost function Flat(m: Mem, ids: seq<Id>): Data
    requires forall h :: h in ids ==> HeaderOk(m, h)
  {
    if ids == [] then [] else Seen(m, ids[0]) + Flat(m, ids[1..])
  }

  /** Header `h` is still held, links to the same mbuf and sees the same octets. */
  ghost predicate Kept(m: Mem, m': Mem, h: Id) {
    && h in m.live && h in m'.live && HeaderOk(m, h) && HeaderOk(m', h)
    && m'.hdr[h].next == m.hdr[h].next && Seen(m', h) == Seen(m, h)
  }

  /** All headers but those of `mine` are as they were. */
  ghost predicate OthersKept(m: Mem, m': Mem, mine: seq<Id>) {
    forall h :: h in m.live && h !in mine ==> Kept(m, m', h)
  }

  lemma {:induction false} KeptFlat(m: Mem, m': Mem, head: Option<Id>, ids: seq<Id>)
    requires Packet(m, head, ids) && forall h :: h in ids ==> Kept(m, m', h)
    ensures Packet(m', head, ids) && Flat(m', ids) == Flat(m, ids)
    decreases |ids|
  {
    if ids != [] {
      assert ids[0] in ids;
      KeptFlat(m, m', m.hdr[ids[0]].next, ids[1..]);
    }
  }

  /** No packet sees a change in a packet it shares no header with. */
  lemma OthersFlat(m: Mem, m': Mem, mine: seq<Id>, head: Option<Id>, ids: seq<Id>)
    requires OthersKept(m, m', mine) && Packet(m, head, ids) && forall h :: h in ids ==> h !in mine
    ensures Packet(m', head, ids) && Flat(m', ids) == Flat(m, ids)
  {
    KeptFlat(m, m', head, ids);
  }

  // Taking and giving back headers

  /** Header `b`, not in use, becomes one of a packet, with an empty buffer of `size` octets. */
  function Taken(m: Mem, b: Id, data: Data): Mem {
    m.(hdr := m.hdr[b := Header(None, |data|, 1, None, 0, 0)], bytes := m.bytes[b := data], live := m.live + {b})
  }

  lemma UsersTaken(m: Mem, b: Id, data: Data, c: Id)
    requires HeadersOk(m) && Users(m, b) == {}
    ensures Users(Taken(m, b, data), c) == if c == b then {b} else Users(m, c)
  {
    var m' := Taken(m, b, data);
    forall h ensures h in Users(m', c) <==> h in if c == b then {b} else Users(m, c) {
      if h in m.live && c == b {
        assert h !in Users(m, b);
      }
    }
  }

  lemma TakenHeaders(m: Mem, b: Id, data: Data)
    requires HeadersOk(m) && Users(m, b) == {}
    ensures HeadersOk(Taken(m, b, data)) && OthersKept(m, Taken(m, b, data), []) && b !in m.live
  {
    var m' := Taken(m, b, data);
    assert b in m.live ==> b in Users(m, b);
    forall h | h in m.live ensures HeaderOk(m', h) && Kept(m, m', h) {
      assert HeaderOk(m, h);
      assert Owner(m, h) == b ==> h in Users(m, b);
    }
  }

  lemma TakenBuffer(m: Mem, b: Id, data: Data, c: Id)
    requires HeadersOk(m) && Users(m, b) == {} && (c != b ==> c in m.hdr && BufferOk(m, c, {}))
    ensures BufferOk(Taken(m, b, data), c, {})
  {
    UsersTaken(m, b, data, c);
  }

  lemma NoUsers(m: Mem, b: Id)
    requires HeadersOk(m) && b !in m.hdr
    ensures Users(m, b) == {}
  {
    forall h | h in m.live ensures h !in Users(m, b) {
      assert HeaderOk(m, h);
    }
  }

  /** A header straight from the heap. */
  lemma NewKeeps(m: Mem, b: Id, data: Data)
    requires Ok(m) && b !in m.hdr
    ensures Ok(Taken(m, b, data)) && OthersKept(m, Taken(m, b, data), []) && b !in m.live
  {
    var m' := Taken(m, b, data);
    NoUsers(m, b);
    TakenHeaders(m, b, data);
    forall c | c in m'.hdr ensures BufferOk(m', c, {}) {
      TakenBuffer(m, b, data, c);
    }
    forall s, i | s in m'.cache && 0 <= i < |m'.cache[s]| ensures FreeAt(m', s, m'.cache[s][i]) {
      assert FreeAt(m, s, m.cache[s][i]);
    }
  }

  /** The cache of size `s` without its first mbuf. */
  function Popped(m: Mem, s: nat): Mem
    requires s in m.cache && m.cache[s] != []
  {
    m.(cache := m.cache[s := m.cache[s][1..]])
  }

  /** A header from the cache. */
  lemma ReuseKeeps(m: Mem, s: nat)
    requires Ok(m) && Cached(s) && m.cache[s] != []
    ensures var b := m.cache[s][0];
            && b in m.bytes && |m.bytes[b]| == s && b !in m.live && b in m.hdr
            && (var m' := Taken(Popped(m, s), b, m.bytes[b]); Ok(m') && OthersKept(m, m', []))
  {
    var b := m.cache[s][0];
    assert FreeAt(m, s, b) && BufferOk(m, b, {});
    PoppedHeaders(m, s);
    PoppedUsers(m, s, b);
    TakenHeaders(Popped(m, s), b, m.bytes[b]);
    var m' := Taken(Popped(m, s), b, m.bytes[b]);
    forall c | c in m'.hdr ensures BufferOk(m', c, {}) {
      ReusedBuffer(m, s, c);
    }
    ReuseCache(m, s);
    PoppedOthers(m, s, m');
  }

  lemma ReuseStep(m: Mem, s: nat)
    requires Ok(m) && Cached(s) && s in m.cache && m.cache[s] != []
    ensures var b := m.cache[s][0];
            && b in m.hdr && b in m.bytes && |m.bytes[b]| == s && b !in m.live
            && (var m' := Mem(m.hdr[b := Header(None, s, 1, None, 0, 0)], m.bytes, m.cache[s := m.cache[s][1..]], m.live + {b});
                Ok(m') && OthersKept(m, m', []))
  {
    ReuseKeeps(m, s);
    var b := m.cache[s][0];
    assert m.bytes[b := m.bytes[b]] == m.bytes;
  }

  lemma PoppedOthers(m: Mem, s: nat, m': Mem)
    requires HeadersOk(m) && s in m.cache && m.cache[s] != [] && OthersKept(Popped(m, s), m', [])
    ensures OthersKept(m, m', [])
  {
    forall h | h in m.live ensures Kept(m, m', h) {
      assert HeaderOk(m, h) && Kept(Popped(m, s), m', h);
    }
  }

  lemma PoppedUsers(m: Mem, s: nat, c: Id)
    requires s in m.cache && m.cache[s] != []
    ensures Users(Popped(m, s), c) == Users(m, c)
  {
  }

  lemma PoppedHeaders(m: Mem, s: nat)
    requires HeadersOk(m) && s in m.cache && m.cache[s] != []
    ensures HeadersOk(Popped(m, s))
  {
    forall h | h in m.live ensures HeaderOk(Popped(m, s), h) {
      assert HeaderOk(m, h);
    }
  }

  lemma ReusedBuffer(m: Mem, s: nat, c: Id)
    requires HeadersOk(m) && CacheOk(m) && Cached(s) && m.cache[s] != [] && Users(m, m.cache[s][0]) == {}
    requires m.cache[s][0] in m.bytes && c in m.hdr && BufferOk(m, c, {})
    ensures BufferOk(Taken(Popped(m, s), m.cache[s][0], m.bytes[m.cache[s][0]]), c, {})
  {
    var b := m.cache[s][0];
    PoppedHeaders(m, s);
    PoppedUsers(m, s, c);
    PoppedUsers(m, s, b);
    if c != b && m.hdr[c].refcnt == 0 && m.hdr[c].size == s {
      var i :| 0 <= i < |m.cache[s]| && m.cache[s][i] == c;
      assert m.cache[s][1..][i - 1] == c;
    }
    TakenBuffer(Popped(m, s), b, m.bytes[b], c);
  }

  lemma ReuseCache(m: Mem, s: nat)
    requires CacheOk(m) && Cached(s) && m.cache[s] != [] && m.cache[s][0] in m.bytes
    ensures CacheOk(Taken(Popped(m, s), m.cache[s][0], m.bytes[m.cache[s][0]]))
  {
    var b := m.cache[s][0];
    var m' := Taken(Popped(m, s), b, m.bytes[b]);
    forall t, i | t in m'.cache && 0 <= i < |m'.cache[t]| ensures FreeAt(m', t, m'.cache[t][i]) {
      var i0 := if t == s then i + 1 else i;
      assert FreeAt(m, t, m.cache[t][i0]) && m'.cache[t][i] == m.cache[t][i0];
      assert FreeAt(m, s, m.cache[s][0]);
      if t == s { assert m.cache[s][0] != m.cache[s][i0]; }
    }
    forall t, i, j | t in m'.cache && 0 <= i < j < |m'.cache[t]| ensures m'.cache[t][i] != m'.cache[t][j] {
      var d := if t == s then 1 else 0;
      assert m.cache[t][i + d] != m.cache[t][j + d];
    }
  }

  // Changing a header or a buffer in place

  function WithHeader(m: Mem, h: Id, hd: Header): Mem { m.(hdr := m.hdr[h := hd]) }

  /** Moving or relinking header `h` concerns nobody else. */
  lemma EditKeeps(m: Mem, h: Id, hd: Header)
    requires Ok(m) && h in m.live && h in m.hdr && hd.size == m.hdr[h].size && hd.refcnt == m.hdr[h].refcnt
    requires hd.dup == m.hdr[h].dup && Owner(m, h) in m.bytes && hd.at + hd.cnt <= |m.bytes[Owner(m, h)]|
    ensures Ok(WithHeader(m, h, hd)) && OthersKept(m, WithHeader(m, h, hd), [h])
  {
    EditHeaders(m, h, hd);
    var m' := WithHeader(m, h, hd);
    forall b | b in m'.hdr ensures BufferOk(m', b, {}) {
      EditBuffer(m, h, hd, b);
    }
    SameCache(m, m');
  }

  lemma EditHeaders(m: Mem, h: Id, hd: Header)
    requires HeadersOk(m) && h in m.live && h in m.hdr && hd.dup == m.hdr[h].dup
    requires Owner(m, h) in m.bytes && hd.at + hd.cnt <= |m.bytes[Owner(m, h)]|
    ensures HeadersOk(WithHeader(m, h, hd)) && OthersKept(m, WithHeader(m, h, hd), [h])
  {
    var m' := WithHeader(m, h, hd);
    forall x | x in m.live ensures HeaderOk(m', x) && (x != h ==> Kept(m, m', x)) {
      assert HeaderOk(m, x);
    }
    assert forall x :: x !in [h] ==> x != h;
  }

  lemma EditBuffer(m: Mem, h: Id, hd: Header, b: Id)
    requires h in m.hdr && hd.size == m.hdr[h].size && hd.refcnt == m.hdr[h].refcnt && hd.dup == m.hdr[h].dup
    requires b in m.hdr && BufferOk(m, b, {})
    ensures BufferOk(WithHeader(m, h, hd), b, {})
  {
    SameUsers(m, WithHeader(m, h, hd), b);
  }

  lemma SameUsers(m: Mem, m': Mem, b: Id)
    requires m'.live == m.live && m'.hdr.Keys == m.hdr.Keys
    requires forall h :: h in m.hdr ==> m'.hdr[h].dup == m.hdr[h].dup
    ensures Users(m', b) == Users(m, b)
  {
  }

  lemma SameCache(m: Mem, m': Mem)
    requires CacheOk(m) && m'.cache == m.cache
    requires forall b :: b in m.hdr ==> b in m'.hdr && m'.hdr[b].size == m.hdr[b].size && (m.hdr[b].refcnt == 0 ==> m'.hdr[b].refcnt == 0)
    ensures CacheOk(m')
  {
    forall s, i | s in m'.cache && 0 <= i < |m'.cache[s]| ensures FreeAt(m', s, m'.cache[s][i]) {
      assert FreeAt(m, s, m.cache[s][i]);
    }
  }

  /** A buffer with one reference can be written without anyone else seeing it. */
  lemma WriteKeeps(m: Mem, b: Id, data: Data)
    requires Ok(m) && b in m.live && b in m.hdr && m.hdr[b].dup == None && m.hdr[b].refcnt == 1
    requires |data| == m.hdr[b].size
    ensures Ok(m.(bytes := m.bytes[b := data])) && OthersKept(m, m.(bytes := m.bytes[b := data]), [b])
  {
    var m' := m.(bytes := m.bytes[b := data]);
    assert BufferOk(m, b, {});
    OnlyUser(m, b);
    WriteHeaders(m, b, data);
    forall c | c in m'.hdr ensures BufferOk(m', c, {}) {
      WriteBuffer(m, b, data, c);
    }
    SameCache(m, m');
  }

  lemma WriteHeaders(m: Mem, b: Id, data: Data)
    requires HeadersOk(m) && Users(m, b) == {b} && b in m.bytes && |data| == |m.bytes[b]|
    ensures HeadersOk(m.(bytes := m.bytes[b := data])) && OthersKept(m, m.(bytes := m.bytes[b := data]), [b])
  {
    var m' := m.(bytes := m.bytes[b := data]);
    forall x | x in m.live ensures HeaderOk(m', x) && (x != b ==> Kept(m, m', x)) {
      assert HeaderOk(m, x);
      assert Owner(m, x) == b ==> x in Users(m, b);
    }
    assert forall x :: x !in [b] ==> x != b;
  }

  lemma WriteBuffer(m: Mem, b: Id, data: Data, c: Id)
    requires b in m.hdr && |data| == m.hdr[b].size && c in m.hdr && BufferOk(m, c, {})
    ensures BufferOk(m.(bytes := m.bytes[b := data]), c, {})
  {
    SameUsers(m, m.(bytes := m.bytes[b := data]), c);
  }

  lemma OnlyUser(m: Mem, b: Id)
    requires b in m.live && |Users(m, b)| == 1
    ensures Users(m, b) == {b}
  {
    assert b in Users(m, b);
    if x :| x in Users(m, b) && x != b {
      assert {b, x} <= Users(m, b);
      SubsetSize({b, x}, Users(m, b));
    }
  }

  lemma SubsetSize(a: set<Id>, b: set<Id>)
    requires a <= b
    ensures |a| <= |b|
  {
    assert b == a + (b - a);
  }

  function Rewritten(m: Mem, b: Id, hd: Header, data: Data): Mem {
    m.(hdr := m.hdr[b := hd], bytes := m.bytes[b := data])
  }

  /** So can its header and buffer be written together. */
  lemma RewriteKeeps(m: Mem, b: Id, hd: Header, data: Data)
    requires Ok(m) && b in m.live && b in m.hdr && m.hdr[b].dup == None && m.hdr[b].refcnt == 1
    requires |data| == m.hdr[b].size == hd.size && hd.refcnt == 1 && hd.dup == None && hd.at + hd.cnt <= |data|
    ensures Ok(Rewritten(m, b, hd, data)) && OthersKept(m, Rewritten(m, b, hd, data), [b])
    ensures HeaderOk(Rewritten(m, b, hd, data), b) && Seen(Rewritten(m, b, hd, data), b) == data[hd.at..hd.at + hd.cnt]
  {
    var m1 := m.(bytes := m.bytes[b := data]);
    WriteKeeps(m, b, data);
    EditKeeps(m1, b, hd);
    KeptBoth(m, m1, WithHeader(m1, b, hd), b);
    assert HeaderOk(WithHeader(m1, b, hd), b);
  }

  lemma KeptBoth(m: Mem, m1: Mem, m2: Mem, b: Id)
    requires OthersKept(m, m1, [b]) && OthersKept(m1, m2, [b])
    ensures OthersKept(m, m2, [b])
  {
    forall h | h in m.live && h !in [b] ensures Kept(m, m2, h) {
      assert Kept(m, m1, h) && Kept(m1, m2, h);
    }
  }

  /** Header `c` made a duplicate of `count` octets of buffer `o`. */
  function Dupped(m: Mem, c: Id, o: Id, at: nat, count: nat): Mem
    requires c in m.hdr && o in m.hdr && c != o
  {
    m.(hdr := m.hdr[o := m.hdr[o].(refcnt := m.hdr[o].refcnt + 1)][c := m.hdr[c].(dup := Some(o), at := at, cnt := count)])
  }

  lemma DupKeeps(m: Mem, c: Id, o: Id, at: nat, count: nat)
    requires Ok(m) && c in m.live && c in m.hdr && o in m.hdr && c != o && m.hdr[c].dup == None && m.hdr[c].refcnt == 1
    requires m.hdr[o].dup == None && m.hdr[o].refcnt > 0 && o in m.bytes && at + count <= |m.bytes[o]|
    ensures Ok(Dupped(m, c, o, at, count)) && OthersKept(m, Dupped(m, c, o, at, count), [c])
  {
    var m' := Dupped(m, c, o, at, count);
    assert BufferOk(m, c, {});
    OnlyUser(m, c);
    DupHeaders(m, c, o, at, count);
    forall b | b in m'.hdr ensures BufferOk(m', b, {}) {
      DupBuffer(m, c, o, at, count, b);
    }
    SameCache(m, m');
  }

  lemma DupHeaders(m: Mem, c: Id, o: Id, at: nat, count: nat)
    requires HeadersOk(m) && c in m.live && c in m.hdr && o in m.hdr && c != o && Users(m, c) == {c}
    requires m.hdr[o].dup == None && o in m.bytes && at + count <= |m.bytes[o]|
    ensures HeadersOk(Dupped(m, c, o, at, count)) && OthersKept(m, Dupped(m, c, o, at, count), [c])
  {
    var m' := Dupped(m, c, o, at, count);
    forall x | x in m.live ensures HeaderOk(m', x) && (x != c ==> Kept(m, m', x)) {
      assert HeaderOk(m, x);
      assert Owner(m, x) == c ==> x in Users(m, c);
    }
    assert forall x :: x !in [c] ==> x != c;
  }

  lemma DupBuffer(m: Mem, c: Id, o: Id, at: nat, count: nat, b: Id)
    requires c in m.live && c in m.hdr && o in m.hdr && c != o && m.hdr[c].dup == None
    requires b in m.hdr && BufferOk(m, b, {}) && (b == o ==> m.hdr[o].refcnt > 0)
    ensures BufferOk(Dupped(m, c, o, at, count), b, {})
  {
    DupUsers(m, c, o, at, count, b);
  }

  lemma DupUsers(m: Mem, c: Id, o: Id, at: nat, count: nat, b: Id)
    requires c in m.live && c in m.hdr && o in m.hdr && c != o && m.hdr[c].dup == None
    ensures |Users(Dupped(m, c, o, at, count), b)| == |Users(m, b)| + (if b == o then 1 else 0)
  {
    var m' := Dupped(m, c, o, at, count);
    if b == o {
      assert Users(m', o) == Users(m, o) + {c};
    } else {
      assert Users(m', b) == Users(m, b);
    }
  }

  // Dropping references

  /** One reference fewer to `b`; the last one sends it to the cache, or back to the heap. */
  function Unref(m: Mem, b: Id): Mem
    requires b in m.hdr && m.hdr[b].refcnt > 0
  {
    var hd := m.hdr[b].(refcnt := m.hdr[b].refcnt - 1);
    if hd.refcnt > 0 then m.(hdr := m.hdr[b := hd])
    else if Cached(hd.size) && hd.size in m.cache then
      m.(hdr := m.hdr[b := hd], cache := m.cache[hd.size := [b] + m.cache[hd.size]])
    else m.(hdr := m.hdr - {b}, bytes := m.bytes - {b})
  }

  lemma UnrefHeaders(m: Mem, b: Id)
    requires HeadersOk(m) && b in m.hdr && m.hdr[b].refcnt > 0 && (m.hdr[b].refcnt == 1 ==> Users(m, b) == {})
    ensures HeadersOk(Unref(m, b)) && OthersKept(m, Unref(m, b), [])
  {
    var m' := Unref(m, b);
    forall x | x in m.live ensures HeaderOk(m', x) && Kept(m, m', x) {
      assert HeaderOk(m, x);
      assert Owner(m, x) == b || x == b ==> x in Users(m, b);
    }
  }

  lemma UnrefBuffer(m: Mem, b: Id, extra: set<Id>, c: Id)
    requires b in m.hdr && b in extra && c in m.hdr && BufferOk(m, c, extra) && m.hdr[b].refcnt > 0
    requires HeadersOk(m) && (m.hdr[b].refcnt == 1 ==> Users(m, b) == {}) && c in Unref(m, b).hdr
    requires SMALL in m.cache && MED in m.cache && LARGE in m.cache
    ensures BufferOk(Unref(m, b), c, extra - {b})
  {
    var m' := Unref(m, b);
    forall x ensures x in Users(m', c) <==> x in Users(m, c) {
      if x in m.live {
        assert HeaderOk(m, x);
        assert x == b ==> x in Users(m, b);
      }
    }
    assert Users(m', c) == Users(m, c);
    if m'.hdr[c].refcnt == 0 && m'.cache != m.cache {
      PushedIn(m.cache, b, m.hdr[b].size, c, m'.hdr[c].size);
    }
  }

  lemma PushedIn(cache: map<nat, seq<Id>>, b: Id, s: nat, c: Id, t: nat)
    requires s in cache && ((c == b && s == t) || (t in cache && c in cache[t]))
    ensures c in cache[s := [b] + cache[s]][t]
  {
    if c == b && s == t {
      assert ([b] + cache[s])[0] == b;
    }
  }

  lemma UnrefCache(m: Mem, b: Id)
    requires CacheOk(m) && b in m.hdr && m.hdr[b].refcnt > 0
    ensures CacheOk(Unref(m, b))
  {
    var m', size := Unref(m, b), m.hdr[b].size;
    forall s, i | s in m.cache && 0 <= i < |m.cache[s]| ensures m.cache[s][i] != b {
      assert FreeAt(m, s, m.cache[s][i]);
    }
    var pushed := m'.cache != m.cache;
    forall s, i | s in m'.cache && 0 <= i < |m'.cache[s]| ensures FreeAt(m', s, m'.cache[s][i]) {
      var d := if pushed && s == size then 1 else 0;
      if i >= d {
        assert FreeAt(m, s, m.cache[s][i - d]);
      }
    }
    forall s, i, j | s in m'.cache && 0 <= i < j < |m'.cache[s]| ensures m'.cache[s][i] != m'.cache[s][j] {
      var d := if pushed && s == size then 1 else 0;
      if i >= d {
        assert m.cache[s][i - d] != m.cache[s][j - d];
      }
    }
  }

  lemma UnrefKeeps(m: Mem, b: Id, extra: set<Id>)
    requires OkBut(m, extra) && b in extra
    ensures b in m.hdr && m.hdr[b].refcnt > 0
    ensures OkBut(Unref(m, b), extra - {b}) && OthersKept(m, Unref(m, b), [])
  {
    assert BufferOk(m, b, extra);
    UnrefHeaders(m, b);
    UnrefCache(m, b);
    forall c | c in Unref(m, b).hdr ensures BufferOk(Unref(m, b), c, extra - {b}) {
      assert BufferOk(m, c, extra);
      UnrefBuffer(m, b, extra, c);
    }
    UnrefKeys(m, b, extra);
  }

  lemma UnrefKeys(m: Mem, b: Id, extra: set<Id>)
    requires b in m.hdr && m.hdr[b].refcnt > 0 && extra <= m.hdr.Keys
    ensures extra - {b} <= Unref(m, b).hdr.Keys
  {
  }

  /** The packet lets go of header `h`, whose references are still to be dropped. */
  function LetGo(m: Mem, h: Id): Mem
    requires h in m.hdr
  {
    m.(hdr := m.hdr[h := m.hdr[h].(dup := None)], live := m.live - {h})
  }

  lemma LetGoKeeps(m: Mem, h: Id)
    requires Ok(m) && h in m.live && h in m.hdr
    ensures OkBut(LetGo(m, h), {h, Owner(m, h)}) && OthersKept(m, LetGo(m, h), [h])
  {
    var m' := LetGo(m, h);
    assert HeaderOk(m, h);
    LetGoHeaders(m, h);
    forall c | c in m'.hdr ensures BufferOk(m', c, {h, Owner(m, h)}) {
      LetGoBuffer(m, h, c);
    }
    SameCache(m, m');
  }

  lemma LetGoBuffer(m: Mem, h: Id, c: Id)
    requires HeadersOk(m) && h in m.live && h in m.hdr && c in m.hdr && BufferOk(m, c, {})
    ensures BufferOk(LetGo(m, h), c, {h, Owner(m, h)})
  {
    LetGoUsers(m, h, c);
  }

  lemma LetGoHeaders(m: Mem, h: Id)
    requires HeadersOk(m) && h in m.live && h in m.hdr
    ensures HeadersOk(LetGo(m, h)) && OthersKept(m, LetGo(m, h), [h])
  {
    var m' := LetGo(m, h);
    forall x | x in m'.live ensures HeaderOk(m', x) && Kept(m, m', x) {
      assert HeaderOk(m, x);
    }
    assert forall x :: x !in [h] ==> x != h;
  }

  lemma LetGoUsers(m: Mem, h: Id, c: Id)
    requires HeadersOk(m) && h in m.live && h in m.hdr
    ensures |Users(LetGo(m, h), c)| + (if c in {h, Owner(m, h)} then 1 else 0) == |Users(m, c)|
  {
    var m' := LetGo(m, h);
    if c == h || m.hdr[h].dup == Some(c) {
      assert Users(m', c) == Users(m, c) - {h};
      assert h in Users(m, c);
    } else {
      assert Users(m', c) == Users(m, c);
    }
  }

  /** `free_mbuf` of a header with its own data. */
  lemma FreeOwn(m: Mem, h: Id)
    requires Ok(m) && h in m.live && h in m.hdr && m.hdr[h].dup == None
    ensures LetGo(m, h).hdr[h].refcnt > 0
    ensures var m' := Unref(LetGo(m, h), h); Ok(m') && OthersKept(m, m', [h]) && m'.live == m.live - {h}
  {
    LetGoKeeps(m, h);
    assert {h, h} - {h} == {};
    UnrefKeeps(LetGo(m, h), h, {h, h});
    KeptTwice(m, LetGo(m, h), Unref(LetGo(m, h), h), h);
  }

  /** `free_mbuf` of a duplicate: first the mbuf duplicated loses a reference. */
  lemma FreeDup(m: Mem, h: Id, o: Id)
    requires Ok(m) && h in m.live && h in m.hdr && m.hdr[h].dup == Some(o)
    ensures o in m.hdr && o != h && LetGo(m, h).hdr[o].refcnt > 0
    ensures var m2 := Unref(LetGo(m, h), o); h in m2.hdr && m2.hdr[h].refcnt > 0
    ensures var m' := Unref(Unref(LetGo(m, h), o), h); Ok(m') && OthersKept(m, m', [h]) && m'.live == m.live - {h}
  {
    assert HeaderOk(m, h);
    LetGoKeeps(m, h);
    var m1 := LetGo(m, h);
    UnrefKeeps(m1, o, {h, o});
    KeptTwice(m, m1, Unref(m1, o), h);
    assert {h, o} - {o} == {h} && {h} - {h} == {};
    FreeRest(m, Unref(m1, o), h);
  }

  lemma FreeRest(m: Mem, m2: Mem, h: Id)
    requires OkBut(m2, {h}) && OthersKept(m, m2, [h]) && m2.live == m.live - {h}
    ensures h in m2.hdr && m2.hdr[h].refcnt > 0
    ensures Ok(Unref(m2, h)) && OthersKept(m, Unref(m2, h), [h]) && Unref(m2, h).live == m.live - {h}
  {
    assert {h} - {h} == {};
    UnrefKeeps(m2, h, {h});
    KeptTwice(m, m2, Unref(m2, h), h);
  }

  lemma KeptTwice(m: Mem, m1: Mem, m2: Mem, h: Id)
    requires OthersKept(m, m1, [h]) && OthersKept(m1, m2, [])
    ensures OthersKept(m, m2, [h])
  {
    forall x | x in m.live && x !in [h] ensures Kept(m, m2, x) {
      assert Kept(m, m1, x) && Kept(m1, m2, x);
    }
  }

  // Walking a packet

  lemma PacketTail(m: Mem, head: Option<Id>, ids: seq<Id>)
    requires Packet(m, head, ids) && ids != []
    ensures head == Some(ids[0]) && ids[0] in m.live && HeaderOk(m, ids[0]) && ids[0] !in ids[1..]
    ensures Packet(m, m.hdr[ids[0]].next, ids[1..]) && Flat(m, ids) == Seen(m, ids[0]) + Flat(m, ids[1..])
  {
    assert ids[0] in ids;
  }

  ghost predicate Advanced(m: Mem, m': Mem, b: Id, n: nat) {
    && m'.live == m.live && HeaderOk(m, b) && HeaderOk(m', b) && n <= m.hdr[b].cnt && Seen(m', b) == Seen(m, b)[n..]
    && m'.hdr[b].next == m.hdr[b].next && m'.hdr[b].cnt == m.hdr[b].cnt - n
  }

  lemma AdvanceStep(m: Mem, b: Id, n: nat)
    requires Ok(m) && b in m.live && b in m.hdr && n <= m.hdr[b].cnt
    ensures var m' := WithHeader(m, b, m.hdr[b].(at := m.hdr[b].at + n, cnt := m.hdr[b].cnt - n));
            Ok(m') && Advanced(m, m', b, n) && OthersKept(m, m', [b])
  {
    assert HeaderOk(m, b);
    var hd := m.hdr[b].(at := m.hdr[b].at + n, cnt := m.hdr[b].cnt - n);
    EditKeeps(m, b, hd);
    AdvanceSeen(m, b, hd, n);
  }

  lemma AdvanceSeen(m: Mem, b: Id, hd: Header, n: nat)
    requires HeaderOk(m, b) && n <= m.hdr[b].cnt && hd == m.hdr[b].(at := m.hdr[b].at + n, cnt := m.hdr[b].cnt - n)
    ensures HeaderOk(WithHeader(m, b, hd), b) && Seen(WithHeader(m, b, hd), b) == Seen(m, b)[n..]
  {
  }

  lemma {:induction false} FlatAppend(m: Mem, a: seq<Id>, b: seq<Id>)
    requires forall h :: h in a + b ==> HeaderOk(m, h)
    ensures (forall h :: h in a ==> HeaderOk(m, h)) && (forall h :: h in b ==> HeaderOk(m, h))
    ensures Flat(m, a + b) == Flat(m, a) + Flat(m, b)
  {
    assert forall h :: h in a ==> h in a + b;
    assert forall h :: h in b ==> h in a + b;
    if a == [] {
      assert a + b == b;
    } else {
      assert (a + b)[1..] == a[1..] + b;
      FlatAppend(m, a[1..], b);
      Assoc(Seen(m, a[0]), Flat(m, a[1..]), Flat(m, b));
    }
  }

  lemma {:induction false} FlatKept(m: Mem, m': Mem, ids: seq<Id>)
    requires forall h :: h in ids ==> Kept(m, m', h)
    ensures (forall h :: h in ids ==> HeaderOk(m, h) && HeaderOk(m', h)) && Flat(m', ids) == Flat(m, ids)
  {
    assert forall h :: h in ids ==> Kept(m, m', h) ==> HeaderOk(m, h) && HeaderOk(m', h);
    if ids != [] {
      assert ids[0] in ids;
      FlatKept(m, m', ids[1..]);
    }
  }

  /** Two chains are one when the last of the first links to the second. */
  lemma {:induction false} ChainJoin(m: Mem, m': Mem, head: Option<Id>, a: seq<Id>, head2: Option<Id>, b: seq<Id>)
    requires Chain(m, head, a) && a != [] && Chain(m', head2, b)
    requires forall i :: 0 <= i < |a| ==> a[i] in m.hdr && a[i] in m'.hdr
    requires forall i :: 0 <= i < |a| - 1 ==> m'.hdr[a[i]].next == m.hdr[a[i]].next
    requires m'.hdr[a[|a| - 1]].next == head2
    ensures Chain(m', head, a + b)
    decreases |a|
  {
    assert (a + b)[1..] == a[1..] + b;
    if |a| == 1 {
      assert a[1..] + b == b;
    } else {
      ChainJoin(m, m', m.hdr[a[0]].next, a[1..], head2, b);
    }
  }

  lemma {:induction false} ChainEnd(m: Mem, head: Option<Id>, a: seq<Id>)
    requires Chain(m, head, a) && a != []
    ensures a[|a| - 1] in m.hdr && m.hdr[a[|a| - 1]].next == None
    decreases |a|
  {
    if |a| > 1 {
      ChainEnd(m, m.hdr[a[0]].next, a[1..]);
    }
  }

  /** A packet `a + [z]`, and what hangs from its last header once that is relinked. */
  lemma Joined(m: Mem, m': Mem, head: Option<Id>, a: seq<Id>, z: Id, head2: Option<Id>, b: seq<Id>)
    requires Packet(m, head, a + [z]) && Packet(m', head2, b) && OthersKept(m, m', [z])
    requires z in m'.live && HeaderOk(m', z) && m'.hdr[z].next == head2
    requires forall h :: h in b ==> h !in a + [z]
    ensures Packet(m', head, a + [z] + b)
    ensures forall h :: h in a ==> HeaderOk(m, h)
    ensures Flat(m', a + [z] + b) == Flat(m, a) + Seen(m', z) + Flat(m', b)
  {
    var az := a + [z];
    LastOnce(a, z);
    forall i | 0 <= i < |a| ensures Kept(m, m', a[i]) {
      assert az[i] == a[i] && az[|a|] == z && az[i] in az;
    }
    assert forall i :: 0 <= i < |az| ==> az[i] in az;
    ChainJoin(m, m', head, az, head2, b);
    forall h | h in az + b ensures h in m'.live && HeaderOk(m', h) {
      assert h in a || h == z || h in b;
    }
    NoDupAppend(az, b);
    FlatAppend(m', az, b);
    FlatAppend(m', a, [z]);
    FlatKept(m, m', a);
    assert Flat(m', [z]) == Seen(m', z) by { assert [z][1..] == []; }
  }

  /** At most `n` octets from `offset` on. */
  function Slice(s: Data, offset: nat, n: nat): Data {
    if offset >= |s| then [] else s[offset..Min(offset + n, |s|)]
  }

  lemma SliceSkip(s: Data, t: Data, offset: nat, n: nat)
    requires |s| <= offset
    ensures Slice(s + t, offset, n) == Slice(t, offset - |s|, n)
  {
  }

  lemma SliceStep(s: Data, t: Data, offset: nat, n: nat)
    requires offset <= |s|
    ensures var k := Min(n, |s| - offset);
            Slice(s + t, offset, n) == s[offset..offset + k] + Slice(t, 0, n - k)
  {
  }

  /** Of the headers `ids`, only `rest` are still held. */
  ghost predicate Left(m: Mem, m': Mem, ids: seq<Id>, rest: seq<Id>) {
    && (forall h :: h in m'.live <==> h in m.live && (h in ids ==> h in rest))
    && OthersKept(m, m', ids) && forall h :: h in rest ==> h in ids
  }

  /** In the middle of `dup_p`: header `cp`, on the end of the copy, is for what follows at `offset` of mbuf `bp`. */
  ghost predicate Copying(m: Mem, m1: Mem, hp: Option<Id>, done: seq<Id>, cp: Id, bp: Option<Id>, offset: nat, cnt: nat,
                          rest: seq<Id>, want: Data, tot: nat) {
    && Packet(m1, hp, done + [cp]) && Fresh(m, m1, done + [cp])
    && cp in m1.hdr && m1.hdr[cp] == Header(None, SMALL, 1, None, 0, 0)
    && bp.Some? && bp.value in m1.hdr && offset <= m1.hdr[bp.value].cnt && Packet(m, bp, rest) && cnt > 0
    && (forall h :: h in done ==> HeaderOk(m1, h)) && tot == |Flat(m1, done)|
    && Flat(m1, done) + Slice(Flat(m, rest), offset, cnt) == want
  }

  /** The copy is finished. */
  ghost predicate Copied(m: Mem, m1: Mem, hp: Option<Id>, copy: seq<Id>, want: Data, tot: nat) {
    Packet(m1, hp, copy) && Fresh(m, m1, copy) && Flat(m1, copy) == want && tot == |want|
  }

  /** What is neither in the packet nor in the mbuf put in front of it is left alone by both. */
  lemma PushPullKeeps(m: Mem, m1: Mem, m2: Mem, ids: seq<Id>, pushed: seq<Id>)
    requires OthersKept(m, m1, ids) && OthersKept(m1, m2, pushed)
    requires pushed == ids || (pushed != [] && pushed[1..] == ids && pushed[0] !in m.live)
    ensures OthersKept(m, m2, ids)
  {
    forall h | h in m.live && h !in ids ensures Kept(m, m2, h) {
      assert Kept(m, m1, h) && h !in pushed;
    }
  }

  lemma SameParts(a: Data, s: Data, b: Data, t: Data)
    requires a + s == b + t && |a| == |b|
    ensures a == b && s == t
  {
    assert a == (a + s)[..|a|] && b == (b + t)[..|b|];
    assert s == (a + s)[|a|..] && t == (b + t)[|b|..];
  }

  lemma KeptThen(m: Mem, m1: Mem, m2: Mem, ids: seq<Id>, b: Id)
    requires OthersKept(m, m1, ids) && OthersKept(m1, m2, [b]) && b in ids
    ensures OthersKept(m, m2, ids)
  {
    forall h | h in m.live && h !in ids ensures Kept(m, m2, h) {
      assert Kept(m, m1, h) && h !in [b];
      assert Kept(m1, m2, h);
    }
  }

  /** After its first header is given back, the rest of a packet is a packet still. */
  lemma FirstFreed(m: Mem, m1: Mem, m2: Mem, ids: seq<Id>, head: Option<Id>, rest: seq<Id>)
    requires Left(m, m1, ids, rest) && Packet(m1, head, rest) && rest != []
    requires m2.live == m1.live - {rest[0]} && OthersKept(m1, m2, [rest[0]])
    ensures Left(m, m2, ids, rest[1..]) && rest[0] in m1.hdr && Packet(m2, m1.hdr[rest[0]].next, rest[1..])
    ensures Flat(m2, rest[1..]) == Flat(m1, rest[1..])
  {
    PacketTail(m1, head, rest);
    KeptThen(m, m1, m2, ids, rest[0]);
    OthersFlat(m1, m2, [rest[0]], m1.hdr[rest[0]].next, rest[1..]);
  }

  /** Changing the first header's view changes the first piece only. */
  lemma FirstEdited(m: Mem, m1: Mem, m2: Mem, ids: seq<Id>, head: Option<Id>, rest: seq<Id>)
    requires Left(m, m1, ids, rest) && Packet(m1, head, rest) && rest != [] && m2.live == m1.live && HeadersOk(m2)
    requires OthersKept(m1, m2, [rest[0]])
    requires rest[0] in m1.hdr && rest[0] in m2.hdr && m2.hdr[rest[0]].next == m1.hdr[rest[0]].next
    ensures HeaderOk(m2, rest[0]) && Left(m, m2, ids, rest) && Packet(m2, head, rest)
    ensures Packet(m1, m1.hdr[rest[0]].next, rest[1..]) && Flat(m2, rest) == Seen(m2, rest[0]) + Flat(m1, rest[1..])
  {
    PacketTail(m1, head, rest);
    KeptThen(m, m1, m2, ids, rest[0]);
    OthersFlat(m1, m2, [rest[0]], m1.hdr[rest[0]].next, rest[1..]);
    assert forall i :: 0 <= i < |rest| ==> rest[i] == rest[0] || rest[i] in rest[1..];
  }

  // The primitives

  /** Some memory, and the counters and lists that go with it. */
  ghost predicate Bounded(hdr: map<Id, Header>, top: Id) { forall b :: b in hdr ==> b < top }

  class Buffers {
    var hdr: map<Id, Header>
    var bytes: map<Id, Data>
    var cache: map<nat, seq<Id>>
    var top: Id
    /** The headers that packets hold. */
    ghost var live: set<Id>

    ghost function Now(): Mem
      reads this
    {
      Mem(hdr, bytes, cache, live)
    }

    ghost predicate Valid()
      reads this
    {
      Ok(Now()) && Bounded(hdr, top)
    }

    constructor ()
      ensures Valid() && live == {}
    {
      hdr, bytes, top := map[], map[], 0;
      cache := map[SMALL := [], MED := [], LARGE := []];
      live := {};
    }

    /** `alloc_mbuf`, where memory is never short. */
    method AllocMbuf(size0: nat) returns (b: Id)
      requires Valid()
      modifies this
      ensures Valid() && b !in old(live) && live == old(live) + {b} && OthersKept(old(Now()), Now(), [])
      ensures b in hdr && hdr[b] == Header(None, Rounded(size0), 1, None, 0, 0)
      ensures b in bytes && |bytes[b]| == Rounded(size0)
    {
      var size := Rounded(size0);
      if Cached(size) && cache[size] != [] {
        b := Reuse(size);
      } else {
        b := top;
        var data := seq(size, _ => 0);
        NewKeeps(Now(), b, data);
        hdr, bytes, top := hdr[b := Header(None, |data|, 1, None, 0, 0)], bytes[b := data], top + 1;
        live := live + {b};
      }
    }

    method Reuse(size: nat) returns (b: Id)
      requires Valid() && Cached(size) && size in cache && cache[size] != []
      modifies this`hdr, this`cache, this`live
      ensures Valid() && b !in old(live) && live == old(live) + {b} && OthersKept(old(Now()), Now(), [])
      ensures b in hdr && hdr[b] == Header(None, size, 1, None, 0, 0)
      ensures b in bytes && |bytes[b]| == size
    {
      ReuseStep(Now(), size);
      b := cache[size][0];
      cache := cache[size := cache[size][1..]];
      hdr := hdr[b := Header(None, size, 1, None, 0, 0)];
      live := live + {b};
    }

    method UnrefMbuf(b: Id)
      requires b in hdr && hdr[b].refcnt > 0
      modifies this`hdr, this`bytes, this`cache
      ensures Now() == Unref(old(Now()), b) && (old(Bounded(hdr, top)) ==> Bounded(hdr, top))
    {
      var hd := hdr[b].(refcnt := hdr[b].refcnt - 1);
      if hd.refcnt > 0 {
        hdr := hdr[b := hd];
      } else if Cached(hd.size) && hd.size in cache {
        hdr, cache := hdr[b := hd], cache[hd.size := [b] + cache[hd.size]];
      } else {
        hdr, bytes := hdr - {b}, bytes - {b};
      }
    }

    /** `free_mbuf` */
    method FreeMbuf(b: Id) returns (next: Option<Id>)
      requires Valid() && b in live && b in hdr
      modifies this`hdr, this`bytes, this`cache, this`live
      ensures Valid() && live == old(live) - {b} && OthersKept(old(Now()), Now(), [b])
      ensures next == old(hdr[b].next)
    {
      next := hdr[b].next;
      var dup := hdr[b].dup;
      if dup.Some? {
        FreeDup(Now(), b, dup.value);
      } else {
        FreeOwn(Now(), b);
      }
      live := live - {b};
      hdr := hdr[b := hdr[b].(dup := None)];
      if dup.Some? {
        UnrefMbuf(dup.value);
      }
      UnrefMbuf(b);
    }

    /** `free_p` of a single packet. */
    method FreeP(head: Option<Id>, ghost ids: seq<Id>)
      requires Valid() && Packet(Now(), head, ids)
      modifies this`hdr, this`bytes, this`cache, this`live
      ensures Valid() && Left(old(Now()), Now(), ids, [])
    {
      ghost var m := Now();
      var bp := head;
      ghost var rest := ids;
      LeftAll(m, ids);
      while bp != None
        invariant Valid() && Packet(Now(), bp, rest) && Left(m, Now(), ids, rest)
        decreases |rest|
      {
        ghost var m1 := Now();
        PacketTail(Now(), bp, rest);
        var next := FreeMbuf(bp.value);
        FirstFreed(m, m1, Now(), ids, bp, rest);
        bp, rest := next, rest[1..];
      }
    }

    /** The first `n` octets of header `b` are consumed. */
    method Advance(b: Id, n: nat)
      requires Valid() && b in live && b in hdr && n <= hdr[b].cnt
      modifies this`hdr
      ensures Valid() && Advanced(old(Now()), Now(), b, n) && OthersKept(old(Now()), Now(), [b])
    {
      ghost var m := Now();
      var hd := hdr[b].(at := hdr[b].at + n, cnt := hdr[b].cnt - n);
      hdr := hdr[b := hd];
      assert Now() == WithHeader(m, b, hd);
      AdvanceStep(m, b, n);
    }

    /** At most `cnt` octets from the first header. */
    method PullPiece(head: Option<Id>, cnt: nat, ghost m: Mem, ghost ids: seq<Id>, ghost rest: seq<Id>)
      returns (piece: Data)
      requires Valid() && Packet(Now(), head, rest) && Left(m, Now(), ids, rest) && rest != []
      modifies this`hdr
      ensures Valid() && Packet(Now(), head, rest) && Left(m, Now(), ids, rest)
      ensures piece + Flat(Now(), rest) == old(Flat(Now(), rest)) && |piece| <= cnt
      ensures head.Some? && head.value in hdr && (|piece| < cnt ==> hdr[head.value].cnt == 0)
    {
      ghost var m1 := Now();
      PacketTail(m1, head, rest);
      var b := head.value;
      var n := Min(cnt, hdr[b].cnt);
      piece := View(b)[..n];
      Advance(b, n);
      FirstEdited(m, m1, Now(), ids, head, rest);
      Regroup(Seen(m1, b), n, Flat(m1, rest[1..]));
    }

    /** An exhausted first header goes. */
    method DropEmpty(head: Option<Id>, ghost m: Mem, ghost ids: seq<Id>, ghost rest: seq<Id>)
      returns (next: Option<Id>)
      requires Valid() && Packet(Now(), head, rest) && Left(m, Now(), ids, rest) && rest != []
      requires head.Some? && head.value in hdr && hdr[head.value].cnt == 0
      modifies this`hdr, this`bytes, this`cache, this`live
      ensures Valid() && Packet(Now(), next, rest[1..]) && Left(m, Now(), ids, rest[1..])
      ensures Flat(Now(), rest[1..]) == old(Flat(Now(), rest))
    {
      ghost var m1 := Now();
      PacketTail(m1, head, rest);
      next := FreeMbuf(head.value);
      FirstFreed(m, m1, Now(), ids, head, rest);
    }

    /** `pullup` of a single packet: the octets taken, and what is left of the packet. */
    method PullUp(head: Option<Id>, count: nat, ghost ids: seq<Id>)
      returns (out: Data, head': Option<Id>, ghost rest: seq<Id>)
      requires Valid() && Packet(Now(), head, ids)
      modifies this`hdr, this`bytes, this`cache, this`live
      ensures Valid() && Packet(Now(), head', rest) && Left(old(Now()), Now(), ids, rest)
      ensures |out| == Min(count, |Flat(old(Now()), ids)|) && out + Flat(Now(), rest) == Flat(old(Now()), ids)
    {
      ghost var m := Now();
      var cnt: nat := count;
      out, head', rest := [], head, ids;
      LeftAll(m, ids);
      assert [] + Flat(m, ids) == Flat(m, ids);
      while cnt != 0 && head' != None
        invariant Valid() && Packet(Now(), head', rest) && Left(m, Now(), ids, rest)
        invariant out + Flat(Now(), rest) == Flat(m, ids) && |out| + cnt == count
        decreases |rest|, cnt
      {
        var piece := PullPiece(head', cnt, m, ids, rest);
        Assoc(out, piece, Flat(Now(), rest));
        out, cnt := out + piece, cnt - |piece|;
        if hdr[head'.value].cnt == 0 {
          head' := DropEmpty(head', m, ids, rest);
          rest := rest[1..];
        }
      }
    }

    /** The octets header `b` sees. */
    function View(b: Id): (d: Data)
      requires Valid() && b in live
      reads this
      ensures HeaderOk(Now(), b) && d == Seen(Now(), b)
    {
      assert HeaderOk(Now(), b);
      var o := if hdr[b].dup.Some? then hdr[b].dup.value else b;
      bytes[o][hdr[b].at..hdr[b].at + hdr[b].cnt]
    }

    /** The header and the buffer of `b`, to which there is one reference, written together. */
    method Rewrite(b: Id, hd: Header, data: Data)
      requires Valid() && b in live && b in hdr && hdr[b].dup == None && hdr[b].refcnt == 1
      requires |data| == hdr[b].size == hd.size && hd.refcnt == 1 && hd.dup == None && hd.at + hd.cnt <= |data|
      modifies this`hdr, this`bytes
      ensures Valid() && OthersKept(old(Now()), Now(), [b]) && b in hdr && hdr[b] == hd
      ensures HeaderOk(Now(), b) && Seen(Now(), b) == data[hd.at..hd.at + hd.cnt]
    {
      ghost var m := Now();
      hdr, bytes := hdr[b := hd], bytes[b := data];
      assert Now() == Rewritten(m, b, hd, data);
      RewriteKeeps(m, b, hd, data);
    }

    /**
     `pushdown`: the octets go in front of the packet, in its first buffer if nobody else refers
     to it and there is room, or else in a new one.
     */
    method PushDown(head: Option<Id>, buf: Data, ghost ids: seq<Id>) returns (head': Option<Id>, ghost ids': seq<Id>)
      requires Valid() && Packet(Now(), head, ids)
      modifies this
      ensures Valid() && Packet(Now(), head', ids') && OthersKept(old(Now()), Now(), ids)
      ensures Flat(Now(), ids') == buf + Flat(old(Now()), ids)
      ensures ids' == ids || (|ids'| == |ids| + 1 && ids'[1..] == ids && ids'[0] !in old(live))
    {
      head', ids' := head, ids;
      if head.Some? {
        PacketTail(Now(), head, ids);
      }
      if head.Some? && hdr[head.value].refcnt == 1 && hdr[head.value].dup == None && hdr[head.value].at >= |buf| {
        PushInPlace(head, buf, ids);
      } else {
        head', ids' := PushNew(head, buf, ids);
      }
    }

    /** `pullup` undoes `pushdown`: the octets come back, the packet has those it had, and so has every other. */
    method PushPull(head: Option<Id>, buf: Data, ghost ids: seq<Id>)
      returns (out: Data, head': Option<Id>, ghost rest: seq<Id>)
      requires Valid() && Packet(Now(), head, ids)
      modifies this
      ensures Valid() && Packet(Now(), head', rest) && OthersKept(old(Now()), Now(), ids)
      ensures out == buf && Flat(Now(), rest) == Flat(old(Now()), ids)
    {
      var pushed: Option<Id>;
      ghost var ids': seq<Id>;
      pushed, ids' := PushDown(head, buf, ids);
      ghost var m1 := Now();
      out, head', rest := PullUp(pushed, |buf|, ids');
      PushPullKeeps(old(Now()), m1, Now(), ids, ids');
      SameParts(buf, Flat(old(Now()), ids), out, Flat(Now(), rest));
    }

    method PushInPlace(head: Option<Id>, buf: Data, ghost ids: seq<Id>)
      requires Valid() && Packet(Now(), head, ids) && ids != [] && head.Some? && head.value in hdr
      requires hdr[head.value].refcnt == 1 && hdr[head.value].dup == None && hdr[head.value].at >= |buf|
      modifies this`hdr, this`bytes
      ensures Valid() && Packet(Now(), head, ids) && OthersKept(old(Now()), Now(), ids)
      ensures Flat(Now(), ids) == buf + Flat(old(Now()), ids)
    {
      ghost var m := Now();
      LeftAll(m, ids);
      PacketTail(m, head, ids);
      var b := head.value;
      var at, n, d := hdr[b].at - |buf|, |buf|, bytes[b];
      ghost var cnt := hdr[b].cnt;
      assert BufferOk(m, b, {});
      var data := d[..at] + buf + d[at + n..];
      InFront(d, at, buf, cnt);
      assert Seen(m, b) == d[at + n..at + n + cnt];
      Rewrite(b, hdr[b].(at := at, cnt := hdr[b].cnt + n), data);
      assert Seen(Now(), b) == buf + Seen(m, b);
      FirstEdited(m, m, Now(), ids, head, ids);
      Assoc(buf, Seen(m, b), Flat(m, ids[1..]));
    }

    method PushNew(head: Option<Id>, buf: Data, ghost ids: seq<Id>) returns (head': Option<Id>, ghost ids': seq<Id>)
      requires Valid() && Packet(Now(), head, ids)
      modifies this
      ensures Valid() && Packet(Now(), head', ids') && OthersKept(old(Now()), Now(), [])
      ensures Flat(Now(), ids') == buf + Flat(old(Now()), ids)
      ensures |ids'| == |ids| + 1 && ids'[1..] == ids && ids'[0] !in old(live)
    {
      ghost var m := Now();
      var b := AllocMbuf(|buf|);
      ghost var m1 := Now();
      var data := buf + bytes[b][|buf|..];
      Rewrite(b, hdr[b].(next := head, cnt := |buf|), data);
      KeptFresh(m, m1, Now(), b);
      OthersFlat(m, Now(), [], head, ids);
      assert data[0..0 + |buf|] == buf;
      head', ids' := Some(b), [b] + ids;
      Prefixed(Now(), b, head, ids);
    }

    /** `append`: the second packet goes on the end of the first. */
    method Append(head1: Option<Id>, head2: Option<Id>, ghost ids1: seq<Id>, ghost ids2: seq<Id>) returns (head: Option<Id>)
      requires Valid() && Packet(Now(), head1, ids1) && Packet(Now(), head2, ids2)
      requires forall h :: h in ids2 ==> h !in ids1
      modifies this`hdr
      ensures Valid() && Packet(Now(), head, ids1 + ids2) && OthersKept(old(Now()), Now(), ids1)
      ensures Flat(Now(), ids1 + ids2) == Flat(old(Now()), ids1) + Flat(old(Now()), ids2)
    {
      if head2 == None || head1 == None {
        LeftAll(Now(), ids1);
        assert ids1 + [] == ids1 && [] + ids2 == ids2;
        assert forall d: Data :: d + [] == d && [] + d == d;
        return if head1 == None then head2 else head1;
      }
      var p := FindLast(head1, ids1);
      ghost var m, a := Now(), ids1[..|ids1| - 1];
      assert a + [p] == ids1;
      Relink(p, head2);
      OthersFlat(m, Now(), [p], head2, ids2);
      FlatAppend(m, a, [p]);
      Joined(m, Now(), head1, a, p, head2, ids2);
      Single(m, p);
      WidenKept(m, Now(), p, ids1);
      head := head1;
    }

    method FindLast(head: Option<Id>, ghost ids: seq<Id>) returns (p: Id)
      requires Valid() && Packet(Now(), head, ids) && ids != []
      ensures p == ids[|ids| - 1] && p in hdr && p in live && hdr[p].next == None
    {
      p := head.value;
      ghost var rest := ids;
      PacketTail(Now(), head, ids);
      while hdr[p].next != None
        invariant rest != [] && Packet(Now(), Some(p), rest) && p in hdr && p in live && p == rest[0]
        invariant rest[|rest| - 1] == ids[|ids| - 1]
        decreases |rest|
      {
        PacketTail(Now(), Some(p), rest);
        p, rest := hdr[p].next.value, rest[1..];
        PacketTail(Now(), Some(p), rest);
      }
      PacketTail(Now(), Some(p), rest);
    }

    method Relink(p: Id, next: Option<Id>)
      requires Valid() && p in live && p in hdr
      modifies this`hdr
      ensures Valid() && OthersKept(old(Now()), Now(), [p]) && HeaderOk(old(Now()), p) && HeaderOk(Now(), p)
      ensures Seen(Now(), p) == Seen(old(Now()), p) && hdr == old(hdr)[p := old(hdr[p]).(next := next)]
    {
      ghost var m := Now();
      var hd := hdr[p].(next := next);
      hdr := hdr[p := hd];
      assert Now() == WithHeader(m, p, hd);
      RelinkStep(m, p, next);
    }

    /** Header `cp`, just allocated, comes to share `n` octets of what `bp` sees. */
    method Share(cp: Id, bp: Id, offset: nat, n: nat)
      requires Valid() && cp in live && cp in hdr && hdr[cp].dup == None && hdr[cp].refcnt == 1
      requires bp in live && bp in hdr && bp != cp && offset + n <= hdr[bp].cnt
      modifies this`hdr
      ensures Valid() && OthersKept(old(Now()), Now(), [cp]) && cp in hdr && hdr[cp].next == old(hdr[cp].next)
      ensures HeaderOk(old(Now()), bp) && HeaderOk(Now(), cp)
      ensures Seen(Now(), cp) == Seen(old(Now()), bp)[offset..offset + n]
    {
      ghost var m := Now();
      assert HeaderOk(m, bp) && HeaderOk(m, cp);
      var o := if hdr[bp].dup.Some? then hdr[bp].dup.value else bp;
      var at := hdr[bp].at + offset;
      OwnerOther(m, bp, cp);
      hdr := hdr[o := hdr[o].(refcnt := hdr[o].refcnt + 1)];
      hdr := hdr[cp := hdr[cp].(dup := Some(o), at := at, cnt := n)];
      assert Now() == Dupped(m, cp, o, at, n);
      SharedView(m, cp, bp, offset, n);
      ShareKeeps(m, cp, bp, at, n);
    }

    /** Headers that see less than `offset` octets are skipped. */
    method Skip(head: Option<Id>, offset0: nat, ghost ids: seq<Id>) returns (bp: Option<Id>, offset: nat, ghost rest: seq<Id>)
      requires Valid() && Packet(Now(), head, ids)
      ensures Packet(Now(), bp, rest) && |rest| <= |ids| && rest == ids[|ids| - |rest|..]
      ensures forall n :: Slice(Flat(Now(), rest), offset, n) == Slice(Flat(Now(), ids), offset0, n)
      ensures bp.Some? ==> bp.value in hdr && offset < hdr[bp.value].cnt
    {
      bp, offset, rest := head, offset0, ids;
      while bp != None && hdr[bp.value].cnt <= offset
        invariant Packet(Now(), bp, rest) && |rest| <= |ids| && rest == ids[|ids| - |rest|..]
        invariant forall n :: Slice(Flat(Now(), rest), offset, n) == Slice(Flat(Now(), ids), offset0, n)
        invariant bp.Some? ==> bp.value in hdr
        decreases |rest|
      {
        PacketTail(Now(), bp, rest);
        SkipOne(Now(), rest, offset);
        offset := offset - hdr[bp.value].cnt;
        bp, rest := hdr[bp.value].next, rest[1..];
      }
    }

    /** One turn of `extract`: what the first header has of the octets wanted. */
    method ExtractOne(bp: Id, offset: nat, len: nat, ghost rest: seq<Id>)
      returns (piece: Data, next: Option<Id>, len': nat, ghost left: seq<Id>)
      requires Valid() && Packet(Now(), Some(bp), rest) && bp in hdr && offset <= hdr[bp].cnt
      ensures Packet(Now(), next, left) && (|left| < |rest| || (left == rest && len' == 0)) && len' <= len
      ensures piece + Slice(Flat(Now(), left), 0, len') == Slice(Flat(Now(), rest), offset, len)
    {
      PacketTail(Now(), Some(bp), rest);
      var view := View(bp);
      var n := Min(len, |view| - offset);
      SliceStep(view, Flat(Now(), rest[1..]), offset, len);
      piece, len' := view[offset..offset + n], len - n;
      if n + offset == |view| {
        next, left := hdr[bp].next, rest[1..];
      } else {
        next, left := Some(bp), rest;
        SliceNone(Flat(Now(), rest), Flat(Now(), rest[1..]));
      }
    }

    /** `extract`: a copy of at most `len` octets from `offset` on. */
    method Extract(head: Option<Id>, offset0: nat, len0: nat, ghost ids: seq<Id>) returns (out: Data)
      requires Valid() && Packet(Now(), head, ids)
      ensures out == Slice(Flat(Now(), ids), offset0, len0)
    {
      var bp, offset: nat, rest := Skip(head, offset0, ids);
      var len: nat := len0;
      out := [];
      ghost var want := Slice(Flat(Now(), ids), offset0, len0);
      assert [] + want == want;
      while bp != None && len != 0
        invariant Packet(Now(), bp, rest) && (bp.Some? ==> bp.value in hdr && offset <= hdr[bp.value].cnt)
        invariant out + Slice(Flat(Now(), rest), offset, len) == want
        decreases |rest|, len
      {
        var piece;
        piece, bp, len, rest := ExtractOne(bp.value, offset, len, rest);
        offset := 0;
        Assoc(out, piece, Slice(Flat(Now(), rest), 0, len));
        out := out + piece;
        if bp.Some? {
          PacketTail(Now(), bp, rest);
        }
      }
      SliceNone(Flat(Now(), rest), []);
      assert out + [] == out;
    }

    /** One turn of `dup_p`: the last header `cp` of the copy shares what it can of what `bp` sees. */
    method DupOne(hp: Option<Id>, cp: Id, bp: Id, offset: nat, cnt: nat, ghost done: seq<Id>, ghost rest: seq<Id>)
      returns (next: Option<Id>, n: nat)
      requires Valid() && Packet(Now(), hp, done + [cp]) && Packet(Now(), Some(bp), rest)
      requires cp in hdr && hdr[cp].dup == None && hdr[cp].refcnt == 1 && hdr[cp].next == None
      requires bp in hdr && offset <= hdr[bp].cnt && forall h :: h in rest ==> h !in done + [cp]
      modifies this`hdr
      ensures Valid() && OthersKept(old(Now()), Now(), [cp]) && n <= cnt
      ensures rest != [] && Packet(Now(), hp, done + [cp]) && Packet(Now(), next, rest[1..])
      ensures cp in hdr && hdr[cp].next == None && HeaderOk(Now(), cp) && |Seen(Now(), cp)| == n
      ensures old(Packet(Now(), hp, done + [cp])) && forall h :: h in done ==> HeaderOk(old(Now()), h)
      ensures Flat(Now(), done + [cp]) == Flat(old(Now()), done) + Seen(Now(), cp)
      ensures Seen(Now(), cp) + Slice(Flat(Now(), rest[1..]), 0, cnt - n) == Slice(Flat(old(Now()), rest), offset, cnt)
    {
      ghost var m := Now();
      PacketTail(m, Some(bp), rest);
      assert (done + [cp])[|done|] == cp && cp in done + [cp];
      assert rest[0] in rest;
      n := Min(cnt, hdr[bp].cnt - offset);
      next := hdr[bp].next;
      Share(cp, bp, offset, n);
      OthersFlat(m, Now(), [cp], next, rest[1..]);
      SliceStep(Seen(m, bp), Flat(m, rest[1..]), offset, cnt);
      Joined(m, Now(), hp, done, cp, None, []);
      assert done + [cp] + [] == done + [cp];
      DropNil(Flat(m, done) + Seen(Now(), cp));
    }

    /** A new empty header on the end of a packet. */
    method Extend(hp: Option<Id>, cp: Id, ghost done: seq<Id>) returns (b: Id)
      requires Valid() && Packet(Now(), hp, done + [cp]) && cp in hdr && hdr[cp].next == None
      modifies this
      ensures Valid() && b !in old(live) && live == old(live) + {b} && OthersKept(old(Now()), Now(), [cp])
      ensures Packet(Now(), hp, done + [cp] + [b]) && b in hdr && hdr[b] == Header(None, SMALL, 1, None, 0, 0)
      ensures (forall h :: h in done + [cp] ==> HeaderOk(Now(), h) && HeaderOk(old(Now()), h))
      ensures Flat(Now(), done + [cp]) == Flat(old(Now()), done + [cp])
    {
      ghost var m := Now();
      b := AllocMbuf(0);
      ghost var m1 := Now();
      OthersFlat(m, m1, [], hp, done + [cp]);
      assert (done + [cp])[|done|] == cp && cp in done + [cp];
      Relink(cp, Some(b));
      assert Kept(m1, Now(), b);
      Alone(Now(), b);
      Joined(m1, Now(), hp, done, cp, Some(b), [b]);
      LastOnce(done, cp);
      FlatLast(m1, Now(), done, cp);
      KeptAfter(m, m1, Now(), cp);
    }

    /**
     `dup_p`: a packet that shares at most `count` octets from `offset` on, copying none.
     No packet that was there before sees any change.
     */
    method DupP(head: Option<Id>, offset0: nat, count: nat, ghost ids: seq<Id>)
      returns (hp: Option<Id>, tot: nat, ghost copy: seq<Id>)
      requires Valid() && Packet(Now(), head, ids)
      modifies this
      ensures Valid() && Packet(Now(), hp, copy) && Fresh(old(Now()), Now(), copy)
      ensures Flat(Now(), copy) == Slice(Flat(old(Now()), ids), offset0, count) && tot == |Flat(Now(), copy)|
    {
      ghost var m := Now();
      hp, tot, copy := None, 0, [];
      if count == 0 || head == None {
        LeftAll(m, []);
        assert Slice(Flat(m, ids), offset0, count) == [];
        return;
      }
      var cp := AllocMbuf(0);
      OthersFlat(m, Now(), [], head, ids);
      var bp, offset: nat, rest := Skip(head, offset0, ids);
      assert Slice(Flat(Now(), rest), offset, count) == Slice(Flat(m, ids), offset0, count);
      if bp == None {
        ghost var m1 := Now();
        var _ := FreeMbuf(cp);
        KeptFresh(m, m1, Now(), cp);
        return;
      }
      Suffix(m, head, ids, |ids| - |rest|);
      OthersFlat(m, Now(), [], bp, rest);
      Alone(Now(), cp);
      hp := Some(cp);
      tot, copy := DupRest(hp, cp, bp.value, offset, count, m, rest);
    }

    method DupTurn(hp: Option<Id>, cp: Id, bp: Id, offset: nat, cnt: nat,
                   ghost m: Mem, ghost done: seq<Id>, ghost rest: seq<Id>, ghost want: Data)
      returns (next: Option<Id>, n: nat, last: bool)
      requires Valid() && Packet(Now(), hp, done + [cp]) && Fresh(m, Now(), done + [cp]) && Packet(m, Some(bp), rest)
      requires cp in hdr && hdr[cp] == Header(None, SMALL, 1, None, 0, 0)
      requires bp in hdr && offset <= hdr[bp].cnt && cnt > 0 && forall h :: h in done ==> HeaderOk(Now(), h)
      requires Flat(Now(), done) + Slice(Flat(m, rest), offset, cnt) == want
      modifies this`hdr
      ensures Valid() && Packet(Now(), hp, done + [cp]) && Fresh(m, Now(), done + [cp])
      ensures cp in hdr && hdr[cp].next == None && n <= cnt && rest != [] && Packet(m, next, rest[1..])
      ensures forall h :: h in done ==> HeaderOk(old(Now()), h)
      ensures |Flat(Now(), done + [cp])| == |Flat(old(Now()), done)| + n && last == (n == cnt || next == None)
      ensures last ==> Flat(Now(), done + [cp]) == want
      ensures !last ==> next.value in hdr && Flat(Now(), done + [cp]) + Slice(Flat(m, rest[1..]), 0, cnt - n) == want
    {
      next, n := DupFresh(hp, cp, bp, offset, cnt, m, done, rest);
      ghost var more := Slice(Flat(m, rest[1..]), 0, cnt - n);
      Regrouped(Flat(old(Now()), done), Seen(Now(), cp), more, Slice(Flat(m, rest), offset, cnt),
                Flat(Now(), done + [cp]), want);
      last := n == cnt || next == None;
      if last {
        assert more == [];
      } else {
        PacketTail(Now(), next, rest[1..]);
      }
    }

    /** The turn as it changes the heap: new headers, and the packet duplicated reads as before. */
    method DupFresh(hp: Option<Id>, cp: Id, bp: Id, offset: nat, cnt: nat,
                    ghost m: Mem, ghost done: seq<Id>, ghost rest: seq<Id>)
      returns (next: Option<Id>, n: nat)
      requires Valid() && Packet(Now(), hp, done + [cp]) && Fresh(m, Now(), done + [cp]) && Packet(m, Some(bp), rest)
      requires cp in hdr && hdr[cp] == Header(None, SMALL, 1, None, 0, 0)
      requires bp in hdr && offset <= hdr[bp].cnt && forall h :: h in done ==> HeaderOk(Now(), h)
      modifies this`hdr
      ensures Valid() && Packet(Now(), hp, done + [cp]) && Fresh(m, Now(), done + [cp])
      ensures cp in hdr && hdr[cp].next == None && HeaderOk(Now(), cp) && |Seen(Now(), cp)| == n <= cnt
      ensures rest != [] && Packet(m, next, rest[1..]) && Packet(Now(), next, rest[1..])
      ensures forall h :: h in done ==> HeaderOk(old(Now()), h)
      ensures Flat(Now(), done + [cp]) == Flat(old(Now()), done) + Seen(Now(), cp)
      ensures Seen(Now(), cp) + Slice(Flat(m, rest[1..]), 0, cnt - n) == Slice(Flat(m, rest), offset, cnt)
    {
      ghost var m1 := Now();
      OthersFlat(m, m1, [], Some(bp), rest);
      assert forall h :: h in rest ==> h in m.live;
      next, n := DupOne(hp, cp, bp, offset, cnt, done, rest);
      KeptFresh(m, m1, Now(), cp);
      PacketTail(m, Some(bp), rest);
      assert Kept(m, m1, bp);
      assert m1.hdr[bp].next == next;
      OthersFlat(m, Now(), [], next, rest[1..]);
    }

    method NextCopy(hp: Option<Id>, cp: Id, ghost m: Mem, ghost done: seq<Id>) returns (b: Id)
      requires Valid() && Packet(Now(), hp, done + [cp]) && Fresh(m, Now(), done + [cp])
      requires cp in hdr && hdr[cp].next == None
      modifies this
      ensures Valid() && Packet(Now(), hp, done + [cp] + [b]) && Fresh(m, Now(), done + [cp] + [b])
      ensures b in hdr && hdr[b] == Header(None, SMALL, 1, None, 0, 0)
      ensures (forall h :: h in done + [cp] ==> HeaderOk(Now(), h) && HeaderOk(old(Now()), h))
      ensures Flat(Now(), done + [cp]) == Flat(old(Now()), done + [cp])
    {
      ghost var m1 := Now();
      assert (done + [cp])[|done|] == cp && cp in done + [cp];
      b := Extend(hp, cp, done);
      KeptFresh(m, m1, Now(), cp);
      forall h ensures h in done + [cp] + [b] <==> h in done + [cp] || h == b {
      }
      assert b !in m.live by {
        assert b in m.live ==> Kept(m, m1, b);
      }
    }

    /** One turn of the loop of `dup_p`: an mbuf is shared, and a new header is added if there is more to come. */
    method DupStep(hp: Option<Id>, cp: Id, bp: Option<Id>, offset: nat, cnt: nat, tot: nat,
                   ghost m: Mem, ghost done: seq<Id>, ghost rest: seq<Id>, ghost want: Data)
      returns (cp': Id, bp': Option<Id>, cnt': nat, tot': nat, last: bool, ghost done': seq<Id>, ghost rest': seq<Id>)
      requires Valid() && Copying(m, Now(), hp, done, cp, bp, offset, cnt, rest, want, tot)
      modifies this
      ensures Valid() && (!last ==> |rest'| < |rest|)
      ensures if last then Copied(m, Now(), hp, done' + [cp'], want, tot')
              else Copying(m, Now(), hp, done', cp', bp', 0, cnt', rest', want, tot')
    {
      var n;
      bp', n, last := DupTurn(hp, cp, bp.value, offset, cnt, m, done, rest, want);
      cp', cnt', tot', done', rest' := cp, cnt - n, tot + n, done, rest[1..];
      if !last {
        cp' := NextCopy(hp, cp, m, done);
        done' := done + [cp];
        PacketTail(m, bp', rest');
        assert Kept(m, Now(), bp'.value);
      }
    }

    /** The loop of `dup_p`. */
    method DupRest(hp: Option<Id>, cp0: Id, bp0: Id, offset0: nat, count: nat, ghost m: Mem, ghost ids: seq<Id>)
      returns (tot: nat, ghost copy: seq<Id>)
      requires Valid() && Packet(m, Some(bp0), ids) && Packet(Now(), hp, [cp0]) && Fresh(m, Now(), [cp0])
      requires cp0 in hdr && hdr[cp0] == Header(None, SMALL, 1, None, 0, 0)
      requires bp0 in hdr && offset0 <= hdr[bp0].cnt && count > 0
      modifies this
      ensures Valid() && Packet(Now(), hp, copy) && Fresh(m, Now(), copy)
      ensures Flat(Now(), copy) == Slice(Flat(m, ids), offset0, count) && tot == |Flat(Now(), copy)|
    {
      var cp, bp, offset: nat, cnt: nat := cp0, Some(bp0), offset0, count;
      ghost var done, rest := [], ids;
      ghost var want := Slice(Flat(m, ids), offset0, count);
      tot := 0;
      OthersFlat(m, Now(), [], bp, ids);
      assert [] + [cp0] == [cp0] && [] + want == want;
      var last := false;
      while !last
        invariant Valid()
        invariant if last then Copied(m, Now(), hp, done + [cp], want, tot)
                  else Copying(m, Now(), hp, done, cp, bp, offset, cnt, rest, want, tot)
        decreases !last, |rest|
      {
        cp, bp, cnt, tot, last, done, rest := DupStep(hp, cp, bp, offset, cnt, tot, m, done, rest, want);
        offset := 0;
      }
      copy := done + [cp];
    }

    /** `copy_p`: a copy of the first `count` octets in one new mbuf. */
    method CopyP(head: Option<Id>, count: nat, ghost ids: seq<Id>) returns (cp: Option<Id>, ghost copy: seq<Id>)
      requires Valid() && Packet(Now(), head, ids)
      modifies this
      ensures Valid() && Packet(Now(), cp, copy) && Fresh(old(Now()), Now(), copy) && |copy| <= 1
      ensures Flat(Now(), copy) == Slice(Flat(old(Now()), ids), 0, count)
    {
      ghost var m := Now();
      cp, copy := None, [];
      if head == None || count == 0 {
        LeftAll(m, []);
        assert Slice(Flat(m, ids), 0, count) == [];
        return;
      }
      var b := AllocMbuf(count);
      ghost var m1 := Now();
      OthersFlat(m, m1, [], head, ids);
      var out := Gather(head, count, ids);
      var data := out + bytes[b][|out|..];
      assert data[0..0 + |out|] == out;
      Rewrite(b, hdr[b].(cnt := |out|), data);
      KeptFresh(m, m1, Now(), b);
      Alone(Now(), b);
      Single(Now(), b);
      cp, copy := Some(b), [b];
    }

    /** The loop of `copy_p`. */
    method Gather(head: Option<Id>, count: nat, ghost ids: seq<Id>) returns (out: Data)
      requires Valid() && Packet(Now(), head, ids)
      ensures out == Slice(Flat(Now(), ids), 0, count) && |out| <= count
    {
      var bp, cnt: nat := head, count;
      ghost var rest := ids;
      out := [];
      ghost var want := Slice(Flat(Now(), ids), 0, count);
      assert [] + want == want;
      while cnt != 0 && bp != None
        invariant Packet(Now(), bp, rest) && out + Slice(Flat(Now(), rest), 0, cnt) == want
        decreases |rest|, cnt
      {
        PacketTail(Now(), bp, rest);
        var piece;
        piece, bp, cnt, rest := ExtractOne(bp.value, 0, cnt, rest);
        Assoc(out, piece, Slice(Flat(Now(), rest), 0, cnt));
        out := out + piece;
      }
      SliceNone(Flat(Now(), rest), []);
      DropNil(out);
    }

    /** `mbuf_crunch`: the same octets in one mbuf, unless the first is shared or nothing would be gained. */
    method Crunch(head: Id, ghost ids: seq<Id>) returns (head': Id, ghost ids': seq<Id>)
      requires Valid() && Packet(Now(), Some(head), ids)
      modifies this
      ensures Valid() && Packet(Now(), Some(head'), ids') && OthersKept(old(Now()), Now(), ids)
      ensures Flat(Now(), ids') == Flat(old(Now()), ids) && (ids' == ids || |ids'| == 1)
    {
      ghost var m := Now();
      head', ids' := head, ids;
      LeftAll(m, ids);
      PacketTail(m, Some(head), ids);
      if hdr[head].refcnt > 1 || hdr[head].dup != None || (hdr[head].next == None && hdr[head].cnt == hdr[head].size) {
        return;
      }
      var len := LenP(Some(head), ids);
      var cp, copy := CopyP(Some(head), len, ids);
      assert Slice(Flat(m, ids), 0, len) == Flat(m, ids);
      if cp == None {
        OthersFlat(m, Now(), [], Some(head), ids);
        return;
      }
      ghost var m1 := Now();
      OthersFlat(m, m1, [], Some(head), ids);
      assert forall h :: h in ids ==> h in m.live;
      FreeP(Some(head), ids);
      OthersFlat(m1, Now(), ids, cp, copy);
      KeptBefore(m, m1, Now(), ids);
      head', ids' := cp.value, copy;
    }

    /** `len_p` */
    method LenP(head: Option<Id>, ghost ids: seq<Id>) returns (cnt: nat)
      requires Valid() && Packet(Now(), head, ids)
      ensures cnt == |Flat(Now(), ids)|
    {
      cnt := 0;
      var bp := head;
      ghost var rest := ids;
      while bp != None
        invariant Packet(Now(), bp, rest) && cnt + |Flat(Now(), rest)| == |Flat(Now(), ids)|
        decreases |rest|
      {
        PacketTail(Now(), bp, rest);
        cnt := cnt + hdr[bp.value].cnt;
        bp, rest := hdr[bp.value].next, rest[1..];
      }
    }

    /** `trim_mbuf`: the packet cut to its first `length` octets. */
    method Trim(head: Option<Id>, length: nat, ghost ids: seq<Id>) returns (head': Option<Id>, ghost kept: seq<Id>)
      requires Valid() && Packet(Now(), head, ids)
      modifies this`hdr, this`bytes, this`cache, this`live
      ensures Valid() && Packet(Now(), head', kept) && Left(old(Now()), Now(), ids, kept)
      ensures Flat(Now(), kept) == Slice(Flat(old(Now()), ids), 0, length)
    {
      head', kept := head, ids;
      LeftAll(Now(), ids);
      if length == 0 {
        FreeP(head, ids);
        head', kept := None, [];
        return;
      }
      var tot: nat, bp := 0, head;
      ghost var k := 0;
      while bp != None && tot + hdr[bp.value].cnt < length
        invariant Valid() && Now() == old(Now()) && Packet(Now(), head, ids)
        invariant k <= |ids| && Packet(Now(), bp, ids[k..]) && tot < length
        invariant forall h :: h in ids[..k] ==> HeaderOk(Now(), h)
        invariant tot == |Flat(Now(), ids[..k])|
        decreases |ids| - k
      {
        PacketTail(Now(), bp, ids[k..]);
        TakeMore(Now(), ids, k);
        tot := tot + hdr[bp.value].cnt;
        bp := hdr[bp.value].next;
        assert ids[k..][1..] == ids[k + 1..];
        k := k + 1;
      }
      if bp != None {
        PacketTail(Now(), bp, ids[k..]);
        assert ids == ids[..k] + [bp.value] + ids[k + 1..];
        kept := Cut(head, bp.value, length - tot, ids[..k], ids[k + 1..]);
      } else {
        assert ids[..k] == ids;
      }
    }

    /** The packet ends with the first `n` octets of header `z`; the rest is given back. */
    method Cut(head: Option<Id>, z: Id, n: nat, ghost a: seq<Id>, ghost b: seq<Id>) returns (ghost kept: seq<Id>)
      requires Valid() && Packet(Now(), head, a + [z] + b) && z in hdr && n <= hdr[z].cnt
      requires forall h :: h in a ==> HeaderOk(Now(), h)
      modifies this`hdr, this`bytes, this`cache, this`live
      ensures Valid() && kept == a + [z] && Packet(Now(), head, kept) && Left(old(Now()), Now(), a + [z] + b, kept)
      ensures Flat(Now(), kept) == Slice(Flat(old(Now()), a + [z] + b), 0, |Flat(old(Now()), a)| + n)
    {
      ghost var m := Now();
      kept := a + [z];
      assert (a + [z] + b)[|a|] == z && z in a + [z] + b;
      var next := hdr[z].next;
      Shorten(z, n);
      ghost var m1 := Now();
      SplitAt(m, m1, head, a, z, b);
      FreeP(next, b);
      OthersFlat(m1, Now(), b, head, kept);
      CutSlice(m, a, z, b, n);
      CutLeft(m, m1, Now(), a, z, b);
    }

    method Shorten(z: Id, n: nat)
      requires Valid() && z in live && z in hdr && n <= hdr[z].cnt
      modifies this`hdr
      ensures Valid() && OthersKept(old(Now()), Now(), [z]) && HeaderOk(old(Now()), z) && HeaderOk(Now(), z)
      ensures Seen(Now(), z) == Seen(old(Now()), z)[..n] && hdr[z].next == None && live == old(live)
    {
      ghost var m := Now();
      var hd := hdr[z].(cnt := n, next := None);
      hdr := hdr[z := hd];
      assert Now() == WithHeader(m, z, hd);
      assert HeaderOk(m, z);
      EditKeeps(m, z, hd);
      assert HeaderOk(Now(), z);
    }
  }

  lemma Regroup(piece: Data, n: nat, more: Data)
    requires n <= |piece|
    ensures piece[..n] + (piece[n..] + more) == piece + more
  {
  }

  lemma InFront(d: Data, at: nat, buf: Data, cnt: nat)
    requires at + |buf| + cnt <= |d|
    ensures (d[..at] + buf + d[at + |buf|..])[at..at + (cnt + |buf|)] == buf + d[at + |buf|..at + |buf| + cnt]
  {
  }

  lemma KeptFresh(m: Mem, m1: Mem, m2: Mem, b: Id)
    requires OthersKept(m, m1, []) && OthersKept(m1, m2, [b]) && b !in m.live
    ensures OthersKept(m, m2, [])
  {
    forall h | h in m.live ensures Kept(m, m2, h) {
      assert Kept(m, m1, h) && h !in [b];
      assert Kept(m1, m2, h);
    }
  }

  /** A header linked before a packet makes a longer packet. */
  lemma Prefixed(m: Mem, b: Id, head: Option<Id>, ids: seq<Id>)
    requires Packet(m, head, ids) && b in m.live && HeaderOk(m, b) && m.hdr[b].next == head && b !in ids
    ensures Packet(m, Some(b), [b] + ids) && Flat(m, [b] + ids) == Seen(m, b) + Flat(m, ids)
  {
    assert ([b] + ids)[1..] == ids;
  }

  lemma Single(m: Mem, p: Id)
    requires HeaderOk(m, p)
    ensures Flat(m, [p]) == Seen(m, p)
  {
    assert [p][1..] == [];
  }

  lemma WidenKept(m: Mem, m': Mem, p: Id, ids: seq<Id>)
    requires OthersKept(m, m', [p]) && p in ids
    ensures OthersKept(m, m', ids)
  {
  }

  lemma OwnerOther(m: Mem, h: Id, c: Id)
    requires Ok(m) && h in m.live && c in m.live && c in m.hdr && c != h && m.hdr[c].dup == None && m.hdr[c].refcnt == 1
    requires HeaderOk(m, h)
    ensures Owner(m, h) != c
  {
    assert BufferOk(m, c, {});
    OnlyUser(m, c);
    assert Owner(m, h) == c ==> h in Users(m, c);
  }

  lemma OwnerCounted(m: Mem, h: Id)
    requires Ok(m) && h in m.live && HeaderOk(m, h)
    ensures m.hdr[Owner(m, h)].refcnt > 0
  {
    assert BufferOk(m, Owner(m, h), {});
    assert h in Users(m, Owner(m, h));
  }

  lemma SharedView(m: Mem, cp: Id, bp: Id, offset: nat, n: nat)
    requires cp in m.hdr && HeaderOk(m, bp) && bp != cp && offset + n <= m.hdr[bp].cnt && Owner(m, bp) != cp
    ensures var m' := Dupped(m, cp, Owner(m, bp), m.hdr[bp].at + offset, n);
            HeaderOk(m', cp) && Seen(m', cp) == Seen(m, bp)[offset..offset + n]
  {
  }

  lemma ShareKeeps(m: Mem, cp: Id, bp: Id, at: nat, n: nat)
    requires Ok(m) && cp in m.live && cp in m.hdr && m.hdr[cp].dup == None && m.hdr[cp].refcnt == 1
    requires bp in m.live && HeaderOk(m, bp) && Owner(m, bp) != cp && at + n <= |m.bytes[Owner(m, bp)]|
    ensures Ok(Dupped(m, cp, Owner(m, bp), at, n)) && OthersKept(m, Dupped(m, cp, Owner(m, bp), at, n), [cp])
  {
    OwnerCounted(m, bp);
    DupKeeps(m, cp, Owner(m, bp), at, n);
  }

  lemma RelinkStep(m: Mem, p: Id, next: Option<Id>)
    requires Ok(m) && p in m.live && p in m.hdr
    ensures HeaderOk(m, p)
    ensures var m' := WithHeader(m, p, m.hdr[p].(next := next));
            Ok(m') && OthersKept(m, m', [p]) && HeaderOk(m', p) && Seen(m', p) == Seen(m, p)
  {
    assert HeaderOk(m, p);
    EditKeeps(m, p, m.hdr[p].(next := next));
  }

  lemma DropNil(d: Data)
    ensures d + [] == d
  {
  }

  /** The octets got, those now seen, and those still to come are what is wanted. */
  lemma Regrouped(got: Data, seen: Data, more: Data, tail: Data, all: Data, want: Data)
    requires all == got + seen && seen + more == tail && got + tail == want
    ensures all + more == want && (more == [] ==> all == want)
  {
  }

  /** The headers of `copy` are new, and nothing else has changed. */
  ghost predicate Fresh(m: Mem, m': Mem, copy: seq<Id>) {
    && OthersKept(m, m', []) && (forall h :: h in copy ==> h !in m.live)
    && (forall h :: h in m'.live <==> h in m.live || h in copy)
  }

  /** A header that links to nothing is a packet. */
  lemma Alone(m: Mem, b: Id)
    requires b in m.live && HeaderOk(m, b) && m.hdr[b].next == None
    ensures Packet(m, Some(b), [b])
  {
    assert [b][1..] == [];
  }

  lemma FlatLast(m: Mem, m': Mem, a: seq<Id>, z: Id)
    requires OthersKept(m, m', [z]) && z !in a && HeaderOk(m, z) && HeaderOk(m', z) && Seen(m', z) == Seen(m, z)
    requires z in m'.live && forall h :: h in a + [z] ==> h in m.live && HeaderOk(m, h)
    ensures (forall h :: h in a + [z] ==> HeaderOk(m', h)) && Flat(m', a + [z]) == Flat(m, a + [z])
  {
    forall h | h in a ensures Kept(m, m', h) {
      assert h in a + [z] && h !in [z];
    }
    FlatKept(m, m', a);
    FlatAppend(m, a, [z]);
    FlatAppend(m', a, [z]);
    Single(m, z);
    Single(m', z);
  }

  lemma KeptAfter(m: Mem, m1: Mem, m2: Mem, b: Id)
    requires OthersKept(m, m1, []) && OthersKept(m1, m2, [b])
    ensures OthersKept(m, m2, [b])
  {
    forall h | h in m.live && h !in [b] ensures Kept(m, m2, h) {
      assert Kept(m, m1, h) && Kept(m1, m2, h);
    }
  }

  lemma KeptBefore(m: Mem, m1: Mem, m2: Mem, ids: seq<Id>)
    requires OthersKept(m, m1, []) && OthersKept(m1, m2, ids)
    ensures OthersKept(m, m2, ids)
  {
    forall h | h in m.live && h !in ids ensures Kept(m, m2, h) {
      assert Kept(m, m1, h) && Kept(m1, m2, h);
    }
  }

  lemma {:induction false} ChainCut(m: Mem, m': Mem, head: Option<Id>, a: seq<Id>, z: Id, b: seq<Id>)
    requires Chain(m, head, a + [z] + b)
    requires forall h :: h in a ==> h in m.hdr && h in m'.hdr && m'.hdr[h].next == m.hdr[h].next
    requires z in m.hdr && z in m'.hdr && m'.hdr[z].next == None
    ensures Chain(m', head, a + [z]) && Chain(m, m.hdr[z].next, b)
    decreases |a|
  {
    if a == [] {
      assert [] + [z] == [z] && ([z] + b)[1..] == b && [] + [z] + b == [z] + b && [z][1..] == [];
    } else {
      assert (a + [z] + b)[1..] == a[1..] + [z] + b && (a + [z])[1..] == a[1..] + [z] && (a + [z] + b)[0] == a[0];
      ChainCut(m, m', m.hdr[a[0]].next, a[1..], z, b);
    }
  }

  /** A packet cut after header `z` is two packets. */
  lemma SplitAt(m: Mem, m': Mem, head: Option<Id>, a: seq<Id>, z: Id, b: seq<Id>)
    requires Packet(m, head, a + [z] + b) && OthersKept(m, m', [z]) && z in m.hdr
    requires z in m'.live && HeaderOk(m', z) && m'.hdr[z].next == None
    ensures Packet(m', head, a + [z]) && Packet(m', m.hdr[z].next, b) && forall h :: h in b ==> h !in a + [z]
    ensures (forall h :: h in a ==> HeaderOk(m, h)) && Flat(m', a + [z]) == Flat(m, a) + Seen(m', z)
  {
    NoDupSplit(a + [z], b);
    LastOnce(a, z);
    assert forall h :: h in a || h == z || h in b ==> h in a + [z] + b;
    assert z in a + [z];
    forall h | h in a || h in b ensures Kept(m, m', h) {
      assert h != z;
    }
    ChainCut(m, m', head, a, z, b);
    KeptFlat(m, m', m.hdr[z].next, b);
    FlatAppend(m', a, [z]);
    FlatKept(m, m', a);
    Single(m', z);
  }

  lemma CutSlice(m: Mem, a: seq<Id>, z: Id, b: seq<Id>, n: nat)
    requires (forall h :: h in a + [z] + b ==> HeaderOk(m, h)) && HeaderOk(m, z) && n <= m.hdr[z].cnt
    requires forall h :: h in a ==> HeaderOk(m, h)
    ensures Slice(Flat(m, a + [z] + b), 0, |Flat(m, a)| + n) == Flat(m, a) + Seen(m, z)[..n]
  {
    assert forall h :: h in a + [z] ==> h in a + [z] + b;
    FlatAppend(m, a + [z], b);
    FlatAppend(m, a, [z]);
    Single(m, z);
  }

  lemma CutLeft(m: Mem, m1: Mem, m2: Mem, a: seq<Id>, z: Id, b: seq<Id>)
    requires (forall h :: h in a + [z] + b ==> h in m.live) && OthersKept(m, m1, [z]) && m1.live == m.live
    requires Left(m1, m2, b, []) && forall h :: h in b ==> h !in a + [z]
    ensures Left(m, m2, a + [z] + b, a + [z])
  {
    var ids := a + [z] + b;
    assert forall h :: h in ids <==> h in a + [z] || h in b;
    assert z in a + [z];
    forall h | h in m.live && h !in ids ensures Kept(m, m2, h) {
      assert Kept(m, m1, h) && Kept(m1, m2, h);
    }
  }

  lemma TakeMore(m: Mem, ids: seq<Id>, k: nat)
    requires k < |ids| && forall h :: h in ids ==> HeaderOk(m, h)
    ensures (forall h :: h in ids[..k + 1] ==> HeaderOk(m, h)) && forall h :: h in ids[..k] ==> HeaderOk(m, h)
    ensures Flat(m, ids[..k + 1]) == Flat(m, ids[..k]) + Seen(m, ids[k])
  {
    assert ids[..k + 1] == ids[..k] + [ids[k]];
    FlatAppend(m, ids[..k], [ids[k]]);
    Single(m, ids[k]);
  }

  lemma {:induction false} Suffix(m: Mem, head: Option<Id>, ids: seq<Id>, k: nat)
    requires Packet(m, head, ids) && k <= |ids|
    ensures Packet(m, if k < |ids| then Some(ids[k]) else None, ids[k..])
    decreases k
  {
    if k == 0 {
      assert ids[0..] == ids;
    } else {
      PacketTail(m, head, ids);
      Suffix(m, m.hdr[ids[0]].next, ids[1..], k - 1);
      assert ids[1..][k - 1..] == ids[k..];
    }
  }

  lemma SkipOne(m: Mem, rest: seq<Id>, offset: nat)
    requires rest != [] && (forall h :: h in rest ==> HeaderOk(m, h)) && HeaderOk(m, rest[0])
    requires m.hdr[rest[0]].cnt <= offset && forall h :: h in rest[1..] ==> HeaderOk(m, h)
    ensures forall n :: Slice(Flat(m, rest), offset, n) == Slice(Flat(m, rest[1..]), offset - m.hdr[rest[0]].cnt, n)
  {
    forall n: nat ensures Slice(Flat(m, rest), offset, n) == Slice(Flat(m, rest[1..]), offset - m.hdr[rest[0]].cnt, n) {
      SliceSkip(Seen(m, rest[0]), Flat(m, rest[1..]), offset, n);
    }
  }

  lemma SliceNone(s: Data, t: Data)
    ensures Slice(s, 0, 0) == Slice(t, 0, 0) == []
  {
  }

  lemma LeftAll(m: Mem, ids: seq<Id>)
    requires Ok(m) && forall h :: h in ids ==> h in m.live
    ensures Left(m, m, ids, ids)
  {
    forall h | h in m.live ensures Kept(m, m, h) {
      assert HeaderOk(m, h);
    }
  }
}
