/** The heap (alloc.c): a first-fit, address-ordered, circular, coalescing free list of 8-byte units. */
module Alloc {
  import opened Lists

  const ABLKSIZE := 8

  /**
   The headers in memory, by unit address, with the view of them that the invariant needs:
   which block each heap unit belongs to, the free blocks in list order after `Base`, and the live ones.
   */
  datatype Mem = Mem(base: int, ptr: map<int, int>, size: map<int, nat>,
                     owner: map<int, int>, ring: seq<int>, live: set<int>)

  /** `BTOU`: whole units for `nb` bytes, and one for the header. */
  function Btou(nb: nat): nat { (nb + ABLKSIZE - 1) / ABLKSIZE + 1 }

  // The invariant

  ghost predicate IsBlock(m: Mem, b: int) { b in m.live || b in m.ring }

  ghost predicate Within(m: Mem, b: int, u: int)
    requires b in m.size
  {
    b <= u < b + m.size[b]
  }

  /** Live and free blocks partition the heap units. */
  ghost predicate Tiled(m: Mem) {
    && (forall b :: IsBlock(m, b) ==> b in m.size && m.size[b] >= 2)
    && (forall u :: u in m.owner ==> IsBlock(m, m.owner[u]) && Within(m, m.owner[u], u))
    && (forall b, u :: IsBlock(m, b) && Within(m, b, u) ==> u in m.owner && m.owner[u] == b)
    && (forall b :: b in m.live ==> b !in m.ring)
  }

  /** No heap unit touches `Base`. */
  ghost predicate BaseApart(m: Mem) {
    && m.base - 1 !in m.owner && m.base !in m.owner && m.base + 1 !in m.owner
    && m.base in m.size && m.size[m.base] == 1
  }

  /** The order round the list from `Base`: up to the top of memory, then from the bottom. */
  predicate Before(base: int, a: int, b: int) {
    if (a < base) == (b < base) then a < b else b < base
  }

  ghost predicate Ordered(m: Mem) {
    && (forall i, j :: 0 <= i < j < |m.ring| ==> Before(m.base, m.ring[i], m.ring[j]))
    && (forall i :: 0 <= i < |m.ring| ==> m.ring[i] != m.base)
  }

  /** Free blocks `j` and `k` of the list are adjacent in memory. */
  ghost predicate Touch(m: Mem, j: nat, k: nat)
    requires j < |m.ring| && k < |m.ring|
  {
    m.ring[j] in m.size && m.ring[j] + m.size[m.ring[j]] == m.ring[k]
  }

  /** The only adjacent free blocks are `i - 1` with `i`, if `low`, and `i` with `i + 1`, if `high`. */
  ghost predicate ApartBut(m: Mem, i: nat, low: bool, high: bool)
    requires Tiled(m)
  {
    forall j: nat, k: nat :: j < |m.ring| && k < |m.ring| && Touch(m, j, k) ==>
      k == j + 1 && ((low && k == i) || (high && j == i))
  }

  ghost predicate Apart(m: Mem)
    requires Tiled(m)
  {
    ApartBut(m, 0, false, false)
  }

  /** `Base`, then the free blocks. */
  function At(m: Mem, i: nat): int
    requires i <= |m.ring|
  {
    if i == 0 then m.base else m.ring[i - 1]
  }

  function After(m: Mem, i: nat): int
    requires i <= |m.ring|
  {
    if i < |m.ring| then m.ring[i] else m.base
  }

  ghost predicate Linked(m: Mem) {
    forall i: nat :: i <= |m.ring| ==> At(m, i) in m.ptr && m.ptr[At(m, i)] == After(m, i)
  }

  /** Live headers point to themselves, for auditing. */
  ghost predicate Marked(m: Mem) { forall b :: b in m.live ==> b in m.ptr && m.ptr[b] == b }

  ghost predicate Shaped(m: Mem) { Tiled(m) && BaseApart(m) && Ordered(m) && Linked(m) && Marked(m) }

  ghost predicate Ok(m: Mem) { Shaped(m) && Apart(m) }

  function Total(size: map<int, nat>, ring: seq<int>): nat {
    if ring == [] then 0
    else (if ring[0] in size then size[ring[0]] else 0) + Total(size, ring[1..])
  }

  lemma {:induction false} TotalAppend(size: map<int, nat>, a: seq<int>, b: seq<int>)
    ensures Total(size, a + b) == Total(size, a) + Total(size, b)
  {
    if a == [] {
      assert a + b == b;
    } else {
      assert (a + b)[1..] == a[1..] + b;
      TotalAppend(size, a[1..], b);
    }
  }

  lemma {:induction false} TotalSame(size: map<int, nat>, size': map<int, nat>, ring: seq<int>)
    requires forall b :: b in ring ==> b in size && b in size' && size'[b] == size[b]
    ensures Total(size', ring) == Total(size, ring)
  {
    if ring == [] {
    } else {
      var b := ring[0];
      assert b in ring;
      assert size'[b] == size[b];
      TotalSame(size, size', ring[1..]);
    }
  }

  lemma TotalOne(size: map<int, nat>, size': map<int, nat>, ring: seq<int>, i: nat)
    requires i < |ring| && ring[i] in size && ring[i] in size'
    requires forall j: nat :: j < |ring| && j != i ==>
               ring[j] in size && ring[j] in size' && size'[ring[j]] == size[ring[j]]
    ensures Total(size', ring) - size'[ring[i]] == Total(size, ring) - size[ring[i]]
  {
    var x, p, y := ring[..i], ring[i], ring[i + 1..];
    assert ring == x + ([p] + y) && ([p] + y)[1..] == y;
    TotalAppend(size, x, [p] + y);
    TotalAppend(size', x, [p] + y);
    TotalSame(size, size', x);
    TotalSame(size, size', y);
  }

  /** What a free unit is. */
  ghost predicate Free(m: Mem, u: int) { u in m.owner && m.owner[u] !in m.live }

  // The free list is determined by the free units

  lemma StartsRun(m: Mem, a: int)
    requires Ok(m)
    ensures a in m.ring <==> Free(m, a) && !Free(m, a - 1)
  {
    if a in m.ring {
      assert IsBlock(m, a) && Within(m, a, a);
      if Free(m, a - 1) {
        var c := m.owner[a - 1];
        assert IsBlock(m, c) && Within(m, c, a - 1);
        var j: nat :| j < |m.ring| && m.ring[j] == c;
        var k: nat :| k < |m.ring| && m.ring[k] == a;
        assert !Within(m, c, a);
        assert Touch(m, j, k);
      }
    } else if Free(m, a) {
      var c := m.owner[a];
      assert IsBlock(m, c) && Within(m, c, a) && c != a;
      assert Within(m, c, a - 1);
    }
  }

  lemma SomeIn(s: seq<int>, r: seq<int>)
    requires s != [] && forall a :: a in s ==> a in r
    ensures r != []
  {
    var a := s[0];
    assert a in s;
  }

  lemma {:induction false} SortedSame(base: int, r: seq<int>, s: seq<int>)
    requires forall i, j :: 0 <= i < j < |r| ==> Before(base, r[i], r[j])
    requires forall i, j :: 0 <= i < j < |s| ==> Before(base, s[i], s[j])
    requires (forall a :: a in r ==> a in s) && (forall a :: a in s ==> a in r)
    ensures r == s
  {
    if r == [] {
      if s != [] {
        SomeIn(s, r);
        assert false;
      }
    } else {
      var a0 := r[0];
      assert a0 in r;
      assert a0 in s;
      var b0 := s[0];
      assert b0 in s;
      assert b0 in r;
      var i :| 0 <= i < |s| && s[i] == r[0];
      var j :| 0 <= j < |r| && r[j] == s[0];
      assert r[0] == s[0];
      forall a ensures a in r[1..] <==> a in s[1..] {
        assert a in r[1..] ==> a in r && a != r[0];
        assert a in s[1..] ==> a in s && a != s[0];
      }
      SortedSame(base, r[1..], s[1..]);
    }
  }

  /** One set of free units has one free list: ordered, with nothing left to combine. */
  lemma Determined(m: Mem, m': Mem)
    requires Ok(m) && Ok(m') && m.base == m'.base
    requires forall u :: Free(m, u) <==> Free(m', u)
    ensures m.ring == m'.ring
    ensures forall b :: b in m.ring ==> m.size[b] == m'.size[b]
  {
    forall a ensures a in m.ring <==> a in m'.ring {
      StartsRun(m, a);
      StartsRun(m', a);
    }
    SortedSame(m.base, m.ring, m'.ring);
    forall b | b in m.ring ensures m.size[b] == m'.size[b] {
      if m.size[b] < m'.size[b] { RunEnds(m, m', b); }
      if m'.size[b] < m.size[b] { RunEnds(m', m, b); }
    }
  }

  lemma RunEnds(m: Mem, m': Mem, b: int)
    requires Ok(m) && Ok(m') && b in m.ring && b in m'.ring && m.ring == m'.ring
    requires forall u :: Free(m, u) <==> Free(m', u)
    ensures m.size[b] >= m'.size[b]
  {
    if m.size[b] < m'.size[b] {
      var u := b + m.size[b];
      assert IsBlock(m', b) && Within(m', b, u) && Within(m', b, u - 1);
      assert IsBlock(m, b) && Within(m, b, u - 1) && !Within(m, b, u);
      assert Free(m', u) && Free(m, u);
      var c := m.owner[u];
      assert IsBlock(m, c) && Within(m, c, u);
      if c < u {
        assert Within(m, c, u - 1);
      } else {
        var j: nat :| j < |m.ring| && m.ring[j] == b;
        var k: nat :| k < |m.ring| && m.ring[k] == c;
        assert Touch(m, j, k);
      }
    }
  }

  // Putting a block back

  /** Block `p` of the live ones goes on the list at position `i`. */
  function Insert(m: Mem, p: int, i: nat): Mem
    requires i <= |m.ring|
  {
    m.(ptr := m.ptr[p := After(m, i)][At(m, i) := p],
       ring := m.ring[..i] + [p] + m.ring[i..], live := m.live - {p})
  }

  /** The place for `p` in the list. */
  ghost predicate Place(m: Mem, p: int, i: nat)
    requires i <= |m.ring|
  {
    && (forall j :: 0 <= j < i ==> Before(m.base, m.ring[j], p))
    && (forall j :: i <= j < |m.ring| ==> Before(m.base, p, m.ring[j]))
  }

  /** Free blocks `k` and `k + 1`, which are adjacent, become one. */
  function Merge(m: Mem, k: nat): Mem
    requires k + 1 < |m.ring| && m.ring[k] in m.size && m.ring[k + 1] in m.size
    requires m.ring[k + 1] in m.ptr
  {
    var x, y := m.ring[k], m.ring[k + 1];
    m.(ptr := m.ptr[x := m.ptr[y]], size := m.size[x := m.size[x] + m.size[y]],
       owner := map u | u in m.owner :: if m.owner[u] == y then x else m.owner[u],
       ring := m.ring[..k + 1] + m.ring[k + 2..])
  }

  lemma InsertTiles(m: Mem, p: int, i: nat)
    requires Tiled(m) && p in m.live && i <= |m.ring|
    ensures Tiled(Insert(m, p, i))
    ensures forall u :: Free(Insert(m, p, i), u) <==> Free(m, u) || (u in m.owner && m.owner[u] == p)
  {
    var m' := Insert(m, p, i);
    forall b ensures b in m'.ring <==> b in m.ring || b == p {
      SpliceIn(m.ring, p, i, b);
    }
    SameBlocksTile(m, m');
  }

  /** Tiling is about which blocks there are, not which are free. */
  lemma SameBlocksTile(m: Mem, m': Mem)
    requires Tiled(m) && m'.size == m.size && m'.owner == m.owner
    requires forall b :: IsBlock(m', b) <==> IsBlock(m, b)
    requires forall b :: b in m'.live ==> b !in m'.ring
    ensures Tiled(m')
  {
    forall b, u | IsBlock(m', b) && Within(m', b, u) ensures u in m'.owner && m'.owner[u] == b {
      assert IsBlock(m, b) && Within(m, b, u);
    }
    forall u | u in m'.owner ensures IsBlock(m', m'.owner[u]) && Within(m', m'.owner[u], u) {
      assert IsBlock(m, m.owner[u]) && Within(m, m.owner[u], u);
    }
  }

  lemma SpliceIn(r: seq<int>, p: int, i: nat, b: int)
    requires i <= |r|
    ensures b in r[..i] + [p] + r[i..] <==> b in r || b == p
  {
    assert r == r[..i] + r[i..];
  }

  lemma InsertOrders(m: Mem, p: int, i: nat)
    requires Ordered(m) && Linked(m) && i <= |m.ring| && Place(m, p, i) && p != m.base && p !in m.ring
    ensures Ordered(Insert(m, p, i)) && Linked(Insert(m, p, i))
  {
    var m' := Insert(m, p, i);
    forall j: nat | j <= |m'.ring| ensures At(m', j) in m'.ptr && m'.ptr[At(m', j)] == After(m', j) {
      if j <= i {
        assert At(m', j) == At(m, j);
      } else if j > i + 1 {
        assert At(m', j) == At(m, j - 1) && After(m', j) == After(m, j - 1);
      }
      if j < i {
        assert After(m', j) == After(m, j);
        assert At(m, j) != At(m, i);
      }
    }
  }

  /** Only its neighbours on the list can be adjacent to the block put back. */
  lemma InsertTouches(m: Mem, p: int, i: nat)
    requires Ok(m) && p in m.live && i <= |m.ring| && Place(m, p, i) && Tiled(Insert(m, p, i)) && p != m.base
    ensures ApartBut(Insert(m, p, i), i, true, true)
  {
    var m' := Insert(m, p, i);
    InsertOrders(m, p, i);
    forall j: nat, k: nat | j < |m'.ring| && k < |m'.ring| && Touch(m', j, k)
      ensures k == j + 1 && (k == i || j == i)
    {
      NextTo(m', j, k);
      if j != i && k != i {
        var j0, k0 := if j < i then j else j - 1, if k < i then k else k - 1;
        assert Touch(m, j0, k0);
        assert false;
      }
    }
  }

  /** Adjacent free blocks are neighbours on the list. */
  lemma NextTo(m: Mem, j: nat, k: nat)
    requires Tiled(m) && BaseApart(m) && Ordered(m) && j < |m.ring| && k < |m.ring| && Touch(m, j, k)
    ensures k == j + 1
  {
    var x, y := m.ring[j], m.ring[k];
    assert IsBlock(m, x) && IsBlock(m, y) && x < y;
    NoBaseBetween(m, x, y);
    assert Before(m.base, x, y);
    if j + 1 < k {
      var z := m.ring[j + 1];
      assert Before(m.base, x, z) && Before(m.base, z, y);
      assert IsBlock(m, z) && Within(m, z, z) && Within(m, x, z);
      assert false;
    }
  }

  /** A block does not reach across `Base`. */
  lemma NoBaseBetween(m: Mem, x: int, y: int)
    requires Tiled(m) && BaseApart(m) && IsBlock(m, x) && y == x + m.size[x] && x < y
    ensures (x < m.base) == (y < m.base)
  {
    if x < m.base <= y {
      assert Within(m, x, y - 1);
      if m.base < y { assert Within(m, x, m.base); }
    }
  }

  // Combining with a neighbour

  lemma MergeTiles(m: Mem, k: nat)
    requires Tiled(m) && k + 1 < |m.ring| && Touch(m, k, k + 1) && m.ring[k + 1] in m.ptr
    requires Ordered(m)
    ensures Tiled(Merge(m, k))
    ensures forall u :: Free(Merge(m, k), u) <==> Free(m, u)
  {
    var m' := Merge(m, k);
    var x, y := m.ring[k], m.ring[k + 1];
    assert IsBlock(m, x) && IsBlock(m, y);
    forall b ensures b in m'.ring <==> b in m.ring && b != y {
      DropIn(m.ring, k + 1, b);
    }
    forall b, u | IsBlock(m', b) && Within(m', b, u) ensures u in m'.owner && m'.owner[u] == b {
      assert IsBlock(m, b);
      if b == x && u >= y {
        assert Within(m, y, u);
      } else {
        assert Within(m, b, u);
      }
    }
    forall u | u in m'.owner ensures IsBlock(m', m'.owner[u]) && Within(m', m'.owner[u], u) {
      assert IsBlock(m, m.owner[u]) && Within(m, m.owner[u], u);
    }
  }

  lemma DropIn(r: seq<int>, k: nat, b: int)
    requires k < |r| && forall i, j :: 0 <= i < j < |r| ==> r[i] != r[j]
    ensures b in r[..k] + r[k + 1..] <==> b in r && b != r[k]
  {
    if b in r && b != r[k] {
      var i :| 0 <= i < |r| && r[i] == b;
      assert (r[..k] + r[k + 1..])[if i < k then i else i - 1] == b;
    }
  }

  lemma MergeOrders(m: Mem, k: nat)
    requires Ordered(m) && Linked(m) && k + 1 < |m.ring| && Touch(m, k, k + 1) && m.ring[k + 1] in m.size
    requires m.ring[k + 1] in m.ptr
    ensures Ordered(Merge(m, k)) && Linked(Merge(m, k))
  {
    var m' := Merge(m, k);
    assert At(m, k + 2) == m.ring[k + 1] && At(m, k + 1) == m.ring[k];
    forall j: nat | j <= |m'.ring| ensures At(m', j) in m'.ptr && m'.ptr[At(m', j)] == After(m', j) {
      if j <= k {
        assert At(m', j) == At(m, j) && After(m', j) == After(m, j);
        assert At(m, j) != m.ring[k];
      } else if j > k + 1 {
        assert At(m', j) == At(m, j + 1) && After(m', j) == After(m, j + 1);
        assert At(m, j + 1) != m.ring[k];
      } else {
        assert After(m', j) == After(m, k + 2);
      }
    }
  }

  lemma MergeTouches(m: Mem, k: nat, i: nat, low: bool, high: bool)
    requires Tiled(m) && Ordered(m) && ApartBut(m, i, low, high) && k + 1 < |m.ring| && Touch(m, k, k + 1)
    requires m.ring[k + 1] in m.ptr && Tiled(Merge(m, k))
    requires (k == i && high) || (k + 1 == i && low && !high)
    ensures ApartBut(Merge(m, k), i, low && k == i, false)
  {
    var m' := Merge(m, k);
    forall j: nat, l: nat | j < |m'.ring| && l < |m'.ring| && Touch(m', j, l)
      ensures low && k == i && l == j + 1 && l == i
    {
      var j0, l0 := if j < k then j else j + 1, if l <= k then l else l + 1;
      if j == k {
        assert Touch(m, k + 1, l0);
      } else {
        assert m'.ring[j] == m.ring[j0] && m.ring[j0] != m.ring[k];
        assert Touch(m, j0, l0);
      }
    }
  }

  lemma MergeTotal(m: Mem, k: nat)
    requires Ordered(m) && k + 1 < |m.ring| && m.ring[k + 1] in m.ptr
    requires forall b :: b in m.ring ==> b in m.size
    ensures Total(Merge(m, k).size, Merge(m, k).ring) == Total(m.size, m.ring)
  {
    var m' := Merge(m, k);
    var x, y := m.ring[k], m.ring[k + 1];
    assert x in m.ring && y in m.ring;
    SpliceTotal(m.size, m.ring, k + 1);
    forall j: nat | j < |m'.ring| && j != k
      ensures m'.ring[j] in m.size && m'.ring[j] in m'.size && m'.size[m'.ring[j]] == m.size[m'.ring[j]]
    {
      assert m'.ring[j] == m.ring[if j < k then j else j + 1] && m'.ring[j] in m.ring;
    }
    TotalOne(m.size, m'.size, m'.ring, k);
  }

  lemma SpliceTotal(size: map<int, nat>, ring: seq<int>, k: nat)
    requires k < |ring| && ring[k] in size
    ensures Total(size, ring) == Total(size, ring[..k] + ring[k + 1..]) + size[ring[k]]
  {
    var a, y, c := ring[..k], ring[k], ring[k + 1..];
    assert ring == a + ([y] + c) && ([y] + c)[1..] == c;
    TotalAppend(size, a, c);
    TotalAppend(size, a, [y] + c);
  }

  lemma InsertTotal(m: Mem, p: int, i: nat)
    requires i <= |m.ring| && p in m.size
    ensures Total(m.size, Insert(m, p, i).ring) == Total(m.size, m.ring) + m.size[p]
  {
    var r := Insert(m, p, i).ring;
    SpliceTotal(m.size, r, i);
    assert r[..i] + r[i + 1..] == m.ring;
  }

  // Taking a block

  /** All of free block `i`. */
  function Whole(m: Mem, i: nat): Mem
    requires i < |m.ring| && m.ring[i] in m.ptr
  {
    var p := m.ring[i];
    m.(ptr := m.ptr[At(m, i) := m.ptr[p]][p := p],
       ring := m.ring[..i] + m.ring[i + 1..], live := m.live + {p})
  }

  /** The last `nu` units of free block `i`. */
  function Carve(m: Mem, i: nat, nu: nat): Mem
    requires i < |m.ring| && m.ring[i] in m.size && m.size[m.ring[i]] >= nu
  {
    var p := m.ring[i];
    var b := p + m.size[p] - nu;
    m.(ptr := m.ptr[b := b], size := m.size[p := m.size[p] - nu][b := nu],
       owner := map u | u in m.owner :: if m.owner[u] == p && u >= b then b else m.owner[u],
       live := m.live + {b})
  }

  ghost predicate SameUnits(m: Mem, m': Mem) { forall u :: u in m'.owner <==> u in m.owner }

  ghost predicate MoreUnits(m: Mem, m': Mem, at: int, n: nat) {
    forall u :: u in m'.owner <==> u in m.owner || at <= u < at + n
  }

  /** Block `b` is now live, is large enough, and was all free before; nothing else has changed hands. */
  ghost predicate Granted(m: Mem, m': Mem, b: int, nu: nat) {
    && b !in m.live && m'.live == m.live + {b} && b in m'.size && nu <= m'.size[b] <= nu + 1
    && SameUnits(m, m') && m'.base == m.base
    && (forall u :: Within(m', b, u) ==> Free(m, u))
    && (forall u :: Free(m', u) <==> Free(m, u) && !Within(m', b, u))
    && (forall c :: c in m.live ==> c in m.size && c in m'.size && m'.size[c] == m.size[c])
  }

  lemma WholeKeeps(m: Mem, i: nat, nu: nat)
    requires Ok(m) && i < |m.ring| && m.ring[i] in m.ptr && nu <= m.size[m.ring[i]] <= nu + 1
    ensures Ok(Whole(m, i)) && Granted(m, Whole(m, i), m.ring[i], nu)
    ensures Total(m.size, m.ring) == Total(m.size, Whole(m, i).ring) + m.size[m.ring[i]]
  {
    var m', p := Whole(m, i), m.ring[i];
    assert IsBlock(m, p);
    forall b ensures b in m'.ring <==> b in m.ring && b != p {
      DropIn(m.ring, i, b);
    }
    SameBlocksTile(m, m');
    WholeLinks(m, i);
    forall j: nat, k: nat | j < |m'.ring| && k < |m'.ring| && Touch(m', j, k) ensures false {
      assert Touch(m, if j < i then j else j + 1, if k < i then k else k + 1);
    }
    WholeTotal(m, i);
  }

  lemma WholeTotal(m: Mem, i: nat)
    requires i < |m.ring| && m.ring[i] in m.ptr && m.ring[i] in m.size
    ensures Total(m.size, m.ring) == Total(m.size, Whole(m, i).ring) + m.size[m.ring[i]]
  {
    SpliceTotal(m.size, m.ring, i);
  }

  lemma WholeLinks(m: Mem, i: nat)
    requires Ordered(m) && Linked(m) && Marked(m) && i < |m.ring| && m.ring[i] in m.ptr
    requires m.base !in m.live && forall b :: b in m.live ==> b !in m.ring
    ensures Ordered(Whole(m, i)) && Linked(Whole(m, i)) && Marked(Whole(m, i))
  {
    var m', p := Whole(m, i), m.ring[i];
    assert At(m, i + 1) == p && At(m, i) !in m.live;
    forall j: nat | j <= |m'.ring| ensures At(m', j) in m'.ptr && m'.ptr[At(m', j)] == After(m', j) {
      if j <= i {
        assert At(m', j) == At(m, j) && At(m, j) != p;
        assert j < i ==> At(m, j) != At(m, i) && After(m', j) == After(m, j);
        assert j == i ==> After(m', j) == After(m, i + 1);
      } else {
        assert At(m', j) == At(m, j + 1) && After(m', j) == After(m, j + 1);
        assert At(m, j + 1) != p && At(m, j + 1) != At(m, i);
      }
    }
  }

  lemma CarveTiles(m: Mem, i: nat, nu: nat)
    requires Ok(m) && i < |m.ring| && m.ring[i] in m.size && nu >= 2 && m.size[m.ring[i]] > nu + 1
    ensures Tiled(Carve(m, i, nu)) && Granted(m, Carve(m, i, nu), m.ring[i] + m.size[m.ring[i]] - nu, nu)
  {
    var m', p := Carve(m, i, nu), m.ring[i];
    var b := p + m.size[p] - nu;
    assert IsBlock(m, p) && Within(m, p, b);
    assert !IsBlock(m, b) by {
      if IsBlock(m, b) { assert Within(m, b, b); }
    }
    forall c, u | IsBlock(m', c) && Within(m', c, u) ensures u in m'.owner && m'.owner[u] == c {
      if c == b {
        assert Within(m, p, u);
      } else {
        assert IsBlock(m, c) && Within(m, c, u);
      }
    }
    forall u | u in m'.owner ensures IsBlock(m', m'.owner[u]) && Within(m', m'.owner[u], u) {
      assert IsBlock(m, m.owner[u]) && Within(m, m.owner[u], u);
    }
    forall u | Within(m', b, u) ensures Free(m, u) {
      assert Within(m, p, u);
    }
  }

  lemma CarveKeeps(m: Mem, i: nat, nu: nat)
    requires Ok(m) && i < |m.ring| && m.ring[i] in m.size && nu >= 2 && m.size[m.ring[i]] > nu + 1
    ensures Ok(Carve(m, i, nu)) && Granted(m, Carve(m, i, nu), m.ring[i] + m.size[m.ring[i]] - nu, nu)
    ensures Total(m.size, m.ring) == Total(Carve(m, i, nu).size, m.ring) + nu
  {
    var m', p := Carve(m, i, nu), m.ring[i];
    var b := p + m.size[p] - nu;
    CarveTiles(m, i, nu);
    assert IsBlock(m, p) && Within(m, p, b) && b in m'.live;
    CarveTotal(m, i, nu);
    CarveLinks(m, i, nu, b);
    CarveTouches(m, i, nu, b);
  }

  lemma CarveLinks(m: Mem, i: nat, nu: nat, b: int)
    requires Ordered(m) && Linked(m) && i < |m.ring| && m.ring[i] in m.size && m.size[m.ring[i]] >= nu
    requires b == m.ring[i] + m.size[m.ring[i]] - nu && b !in m.ring && b != m.base
    ensures Ordered(Carve(m, i, nu)) && Linked(Carve(m, i, nu))
  {
    var m' := Carve(m, i, nu);
    forall j: nat | j <= |m'.ring| ensures At(m', j) in m'.ptr && m'.ptr[At(m', j)] == After(m', j) {
      assert At(m', j) == At(m, j) && After(m', j) == After(m, j) && At(m, j) != b;
    }
  }

  lemma CarveTouches(m: Mem, i: nat, nu: nat, b: int)
    requires Ok(m) && i < |m.ring| && m.ring[i] in m.size && m.size[m.ring[i]] >= nu
    requires b == m.ring[i] + m.size[m.ring[i]] - nu && b !in m.ring && Tiled(Carve(m, i, nu))
    ensures Apart(Carve(m, i, nu))
  {
    var m' := Carve(m, i, nu);
    forall j: nat, k: nat | j < |m'.ring| && k < |m'.ring| && Touch(m', j, k) ensures false {
      assert m.ring[j] != b && m.ring[k] != b;
      if j != i {
        assert m.ring[j] != m.ring[i] by {
          assert j < i ==> Before(m.base, m.ring[j], m.ring[i]);
          assert i < j ==> Before(m.base, m.ring[i], m.ring[j]);
        }
        assert Touch(m, j, k);
      }
    }
  }

  lemma CarveTotal(m: Mem, i: nat, nu: nat)
    requires Ok(m) && i < |m.ring| && m.ring[i] in m.size && nu >= 2 && m.size[m.ring[i]] > nu + 1
    requires m.ring[i] + m.size[m.ring[i]] - nu !in m.ring
    ensures Total(m.size, m.ring) == Total(Carve(m, i, nu).size, m.ring) + nu
  {
    var m', p := Carve(m, i, nu), m.ring[i];
    forall j: nat | j < |m.ring| && j != i ensures m.ring[j] in m.size && m'.size[m.ring[j]] == m.size[m.ring[j]] {
      assert IsBlock(m, m.ring[j]);
    }
    TotalOne(m.size, m'.size, m.ring, i);
  }

  // What free does, in all

  /** A header that points to itself is a live block's. */
  ghost predicate Genuine(m: Mem) { forall b :: b in m.ptr && m.ptr[b] == b ==> b in m.live || b == m.base }

  ghost predicate Headed(m: Mem) {
    forall j :: 0 <= j < |m.ring| ==> m.ring[j] in m.size && m.ring[j] in m.ptr
  }

  lemma OkHeaded(m: Mem)
    requires Tiled(m) && Linked(m)
    ensures Headed(m)
  {
    forall j: nat | j < |m.ring| ensures m.ring[j] in m.size && m.ring[j] in m.ptr {
      assert IsBlock(m, m.ring[j]) && At(m, j + 1) == m.ring[j];
    }
  }

  /** Block `p` put on the list at `i`, and combined with the block after if they are adjacent. */
  ghost function PutHigh(m: Mem, p: int, i: nat): Mem
    requires Headed(m) && p in m.size && i <= |m.ring|
  {
    var m1 := Insert(m, p, i);
    if i < |m.ring| && p + m.size[p] == m.ring[i] then Merge(m1, i) else m1
  }

  /** And then combined with the block before, if they are adjacent. */
  ghost function PutBack(m: Mem, p: int, i: nat): Mem
    requires Headed(m) && p in m.size && i <= |m.ring|
  {
    var m2 := PutHigh(m, p, i);
    if i > 0 && m.ring[i - 1] + m.size[m.ring[i - 1]] == p then Merge(m2, i - 1) else m2
  }

  lemma InsertKeeps(m: Mem, p: int, i: nat)
    requires Ok(m) && Genuine(m) && p in m.live && i <= |m.ring| && Place(m, p, i)
    ensures p in m.size && p in m.owner && p != m.base && p !in m.ring && Headed(m)
    ensures var m1 := Insert(m, p, i); Shaped(m1) && Genuine(m1) && Headed(m1) && ApartBut(m1, i, true, true)
  {
    OkHeaded(m);
    assert IsBlock(m, p) && Within(m, p, p);
    InsertTiles(m, p, i);
    InsertOrders(m, p, i);
    InsertTouches(m, p, i);
    OkHeaded(Insert(m, p, i));
    assert At(m, i) !in m.live by { assert i > 0 ==> m.ring[i - 1] in m.ring; }
  }

  lemma MergeKeeps(m: Mem, k: nat, i: nat, low: bool, high: bool)
    requires Shaped(m) && Genuine(m) && Headed(m) && ApartBut(m, i, low, high)
    requires k + 1 < |m.ring| && Touch(m, k, k + 1) && ((k == i && high) || (k + 1 == i && low && !high))
    ensures var m' := Merge(m, k);
            && Shaped(m') && Genuine(m') && Headed(m') && ApartBut(m', i, low && k == i, false)
            && Total(m'.size, m'.ring) == Total(m.size, m.ring)
            && (forall u :: Free(m', u) <==> Free(m, u)) && SameLive(m, m')
  {
    var m' := Merge(m, k);
    var x, y := m.ring[k], m.ring[k + 1];
    MergeTiles(m, k);
    MergeOrders(m, k);
    MergeTouches(m, k, i, low, high);
    MergeTotal(m, k);
    OkHeaded(m');
    assert IsBlock(m, x) && x !in m.live && x != m.base && IsBlock(m, y);
    assert At(m, k + 2) == y;
    assert k + 2 < |m.ring| ==> Before(m.base, x, m.ring[k + 2]);
  }

  ghost predicate SameLive(m: Mem, m': Mem) {
    && m'.live == m.live && SameUnits(m, m')
    && (forall c :: c in m.live ==> c in m.size && c in m'.size && m'.size[c] == m.size[c])
  }

  /** Block `p` is no longer live and all of it is free; nothing else has changed hands. */
  ghost predicate Returned(m: Mem, m': Mem, p: int) {
    && p in m.live && m'.live == m.live - {p} && SameUnits(m, m')
    && (forall u :: Free(m', u) <==> Free(m, u) || (u in m.owner && m.owner[u] == p))
    && (forall c :: c in m'.live ==> c in m.size && c in m'.size && m'.size[c] == m.size[c])
  }

  lemma PutHighKeeps(m: Mem, p: int, i: nat)
    requires Ok(m) && Genuine(m) && p in m.live && i <= |m.ring| && Place(m, p, i)
    ensures Headed(m) && p in m.size && p in m.owner
    ensures var m2 := PutHigh(m, p, i);
            && Shaped(m2) && Genuine(m2) && Headed(m2) && ApartBut(m2, i, true, false) && i < |m2.ring| && m2.ring[i] == p
            && Returned(m, m2, p) && Total(m2.size, m2.ring) == Total(m.size, m.ring) + m.size[p]
            && (i > 0 ==> m2.ring[i - 1] == m.ring[i - 1] && m2.size[m2.ring[i - 1]] == m.size[m.ring[i - 1]])
  {
    InsertKeeps(m, p, i);
    InsertTiles(m, p, i);
    InsertTotal(m, p, i);
    var m1 := Insert(m, p, i);
    if i < |m.ring| && p + m.size[p] == m.ring[i] {
      assert Touch(m1, i, i + 1);
      MergeKeeps(m1, i, i, true, true);
    } else {
      NotHigh(m1, i);
      forall c | c in m1.live ensures c in m.size {
        assert IsBlock(m, c);
      }
    }
  }

  lemma PutBackKeeps(m: Mem, p: int, i: nat)
    requires Ok(m) && Genuine(m) && p in m.live && i <= |m.ring| && Place(m, p, i)
    ensures Headed(m) && p in m.size
    ensures var m' := PutBack(m, p, i);
            Ok(m') && Genuine(m') && Returned(m, m', p) && Total(m'.size, m'.ring) == Total(m.size, m.ring) + m.size[p]
  {
    PutHighKeeps(m, p, i);
    LowKeeps(PutHigh(m, p, i), i);
  }

  lemma LowKeeps(m: Mem, i: nat)
    requires Shaped(m) && Genuine(m) && Headed(m) && ApartBut(m, i, true, false) && i < |m.ring|
    ensures var m' := if i > 0 && Touch(m, i - 1, i) then Merge(m, i - 1) else m;
            && Ok(m') && Genuine(m') && Total(m'.size, m'.ring) == Total(m.size, m.ring)
            && (forall u :: Free(m', u) <==> Free(m, u)) && SameLive(m, m')
  {
    if i > 0 && Touch(m, i - 1, i) {
      MergeKeeps(m, i - 1, i, true, false);
    } else {
      NotLow(m, i);
      forall c | c in m.live ensures c in m.size {
        assert IsBlock(m, c);
      }
    }
  }

  lemma NotHigh(m: Mem, i: nat)
    requires Tiled(m) && ApartBut(m, i, true, true) && (i + 1 < |m.ring| ==> !Touch(m, i, i + 1))
    ensures ApartBut(m, i, true, false)
  {
  }

  lemma NotLow(m: Mem, i: nat)
    requires Tiled(m) && ApartBut(m, i, true, false) && (0 < i < |m.ring| ==> !Touch(m, i - 1, i))
    ensures Apart(m)
  {
  }

  // The allocator

  /** What the system gives when asked for more: by `sbrk`, as a DOS block, or nothing. */
  datatype Grant = Sbrk(at: int) | Sysblock(at: int) | Refused

  function GrantUnits(g: Grant, nu: nat): (n: nat)
    ensures g != Refused ==> n >= nu
  {
    match g
    case Sbrk(_) => nu
    case Sysblock(_) => (nu * ABLKSIZE + 16) / 16 * 16 / ABLKSIZE
    case Refused => 0
  }

  /** New memory is not in the heap already, and neither is nor touches `Base`. */
  ghost predicate New(m: Mem, at: int, n: nat) {
    && (forall u :: at <= u < at + n ==> u !in m.owner)
    && (at + n < m.base || m.base + 1 < at)
  }

  ghost predicate Room(m: Mem, nu: nat) { exists i :: 0 <= i < |m.ring| && m.ring[i] in m.size && m.size[m.ring[i]] >= nu }

  /** Free block `i` is the first on the list of at least `nu` units. */
  ghost predicate FirstFit(m: Mem, nu: nat, i: nat) {
    && i < |m.ring| && m.ring[i] in m.size && m.size[m.ring[i]] >= nu
    && forall j :: 0 <= j < i ==> m.ring[j] in m.size && m.size[m.ring[j]] < nu
  }

  function Units(at: int, n: nat): (s: set<int>)
    ensures |s| == n && forall u :: u in s <==> at <= u < at + n
  {
    if n == 0 then {} else Units(at, n - 1) + {at + n - 1}
  }

  /** The heap with `n` more units at `at`, as a live block. */
  function Grown(m: Mem, at: int, n: nat): Mem {
    m.(ptr := m.ptr[at := at], size := m.size[at := n],
       owner := m.owner + (map u | u in Units(at, n) :: at), live := m.live + {at})
  }

  lemma GrownTiles(m: Mem, at: int, n: nat)
    requires Tiled(m) && n >= 2 && New(m, at, n)
    ensures Tiled(Grown(m, at, n)) && !IsBlock(m, at)
    ensures forall u :: Free(Grown(m, at, n), u) <==> Free(m, u)
  {
    var m' := Grown(m, at, n);
    assert !IsBlock(m, at) by {
      if IsBlock(m, at) { assert Within(m, at, at); }
    }
    forall b, u | IsBlock(m', b) && Within(m', b, u) ensures u in m'.owner && m'.owner[u] == b {
      if b != at {
        assert IsBlock(m, b) && Within(m, b, u) && u in m.owner;
      }
    }
    forall u | u in m'.owner ensures IsBlock(m', m'.owner[u]) && Within(m', m'.owner[u], u) {
      if u in m.owner {
        assert IsBlock(m, m.owner[u]) && Within(m, m.owner[u], u);
      }
    }
  }

  lemma GrownKeeps(m: Mem, at: int, n: nat)
    requires Ok(m) && Genuine(m) && n >= 2 && New(m, at, n)
    ensures var m' := Grown(m, at, n);
            && Ok(m') && Genuine(m') && Total(m'.size, m'.ring) == Total(m.size, m.ring)
            && |m'.owner| == |m.owner| + n && at !in m.live
            && (forall b :: b in m.live ==> b in m.size && m'.size[b] == m.size[b])
  {
    GrownTiles(m, at, n);
    GrownMarks(m, at, n);
    RingKept(m, Grown(m, at, n), at);
    MoreKeys(m.owner, at, n);
  }

  lemma GrownMarks(m: Mem, at: int, n: nat)
    requires Tiled(m) && BaseApart(m) && Marked(m) && Genuine(m) && New(m, at, n) && !IsBlock(m, at)
    requires n >= 2
    ensures var m' := Grown(m, at, n);
            && BaseApart(m') && Marked(m') && Genuine(m')
            && forall b :: b in m.live ==> b in m.size && m'.size[b] == m.size[b]
  {
    var m' := Grown(m, at, n);
    forall b | b in m.live ensures b in m.size && m'.size[b] == m.size[b] {
      assert IsBlock(m, b);
    }
  }

  /** Headers written off the list leave the list as it was. */
  lemma RingKept(m: Mem, m': Mem, at: int)
    requires Ok(m) && Tiled(m') && m'.ring == m.ring && m'.base == m.base && at != m.base && at !in m.ring
    requires forall b :: b in m.ptr && b != at ==> b in m'.ptr && m'.ptr[b] == m.ptr[b]
    requires forall b :: b in m.size && b != at ==> b in m'.size && m'.size[b] == m.size[b]
    ensures Ordered(m') && Linked(m') && Apart(m') && Total(m'.size, m'.ring) == Total(m.size, m.ring)
  {
    forall j: nat | j <= |m.ring| ensures At(m', j) in m'.ptr && m'.ptr[At(m', j)] == After(m', j) {
      assert At(m', j) == At(m, j) && After(m', j) == After(m, j);
    }
    forall j: nat, k: nat | j < |m.ring| && k < |m.ring| && Touch(m', j, k) ensures false {
      assert IsBlock(m, m.ring[j]) && Touch(m, j, k);
    }
    forall b | b in m.ring ensures b in m.size && b != at {
      assert IsBlock(m, b);
    }
    TotalSame(m.size, m'.size, m.ring);
  }

  lemma MoreKeys(owner: map<int, int>, at: int, n: nat)
    requires forall u :: at <= u < at + n ==> u !in owner
    ensures |owner + (map u | u in Units(at, n) :: at)| == |owner| + n
  {
    var more := map u | u in Units(at, n) :: at;
    assert more.Keys == Units(at, n);
    assert (owner + more).Keys == owner.Keys + more.Keys;
  }

  class Heap {
    const base: int
    var ptr: map<int, int>
    var size: map<int, nat>
    var availmem: nat
    var heapsize: nat
    var memfail: nat
    var invalid: nat
    /** The whole of memory as the invariant sees it; its headers are the ones above. */
    ghost var mem: Mem

    ghost predicate Valid()
      reads this
    {
      && mem.base == base && mem.ptr == ptr && mem.size == size && Counted(mem, availmem, heapsize)
      && Ok(mem) && Genuine(mem)
    }

    /** `Base` as a list of itself, which the first call of `malloc` makes it. */
    constructor (base: int)
      ensures Valid() && mem.live == {} && mem.owner == map[] && this.base == base
    {
      this.base, ptr, size := base, map[base := base], map[base := 1];
      availmem, heapsize, memfail, invalid := 0, 0, 0, 0;
      mem := Mem(base, map[base := base], map[base := 1], map[], [], {});
    }

    /** One turn round the list, for the first block of at least `nu` units. */
    method Search(nu: nat) returns (q: int, p: int, ghost i: nat)
      requires Valid() && nu >= 2
      ensures i <= |mem.ring| && q == At(mem, i) && p == After(mem, i)
      ensures if p == base then i == |mem.ring| && !Room(mem, nu) else FirstFit(mem, nu, i)
    {
      OkHeaded(mem);
      q, i := base, 0;
      assert At(mem, 0) == base;
      p := ptr[q];
      while size[p] < nu && p != base
        invariant i <= |mem.ring| && q == At(mem, i) && p == After(mem, i) && p in size && p in ptr
        invariant forall j :: 0 <= j < i ==> mem.ring[j] in size && size[mem.ring[j]] < nu
        decreases |mem.ring| - i
      {
        assert i < |mem.ring|;
        i := i + 1;
        assert At(mem, i) == p;
        q, p := p, ptr[p];
      }
    }

    /** Take block `p`, which follows `q` on the list and has at least `nu` units. */
    method Take(q: int, p: int, nu: nat, ghost i: nat) returns (b: int)
      requires Valid() && nu >= 2 && FirstFit(mem, nu, i)
      requires q == At(mem, i) && p == mem.ring[i]
      modifies this`ptr, this`size, this`availmem, this`mem
      ensures Valid() && Fits(old(mem), mem, b, nu)
    {
      if size[p] <= nu + 1 {
        b := p;
        TakeWhole(q, p, nu, i);
      } else {
        b := TakeEnd(p, nu, i);
      }
    }

    method TakeWhole(q: int, p: int, nu: nat, ghost i: nat)
      requires Valid() && i < |mem.ring| && q == At(mem, i) && p == mem.ring[i]
      requires p in size && nu <= size[p] <= nu + 1
      modifies this`ptr, this`availmem, this`mem
      ensures Valid() && Granted(old(mem), mem, p, nu)
    {
      OkHeaded(mem);
      WholeKeeps(mem, i, nu);
      WholeGenuine(mem, i);
      ptr := ptr[q := ptr[p]];
      ptr := ptr[p := p];
      mem := Whole(mem, i);
      availmem := availmem - size[p];
    }

    method TakeEnd(p: int, nu: nat, ghost i: nat) returns (b: int)
      requires Valid() && i < |mem.ring| && p == mem.ring[i]
      requires nu >= 2 && p in size && size[p] > nu + 1
      modifies this`ptr, this`size, this`availmem, this`mem
      ensures Valid() && Granted(old(mem), mem, b, nu) && b + size[b] == p + old(size[p])
    {
      b := p + size[p] - nu;
      ghost var m' := Carved(mem, i, nu, b, availmem, heapsize);
      CutEnd(p, b, nu);
      mem := m';
    }

    /** Block `p` loses its last `nu` units to block `b`, which points to itself. */
    method CutEnd(p: int, b: int, nu: nat)
      requires p in size && size[p] > nu && availmem >= nu
      modifies this`ptr, this`size, this`availmem
      ensures availmem == old(availmem) - nu
      ensures ptr == old(ptr)[b := b] && size == old(size)[p := old(size)[p] - nu][b := nu]
    {
      size := size[p := size[p] - nu][b := nu];
      ptr := ptr[b := b];
      availmem := availmem - nu;
    }

    /** The place on the list for a block at `p`, as the search in `free` finds it. */
    method FindPlace(p: int) returns (q: int, ghost i: nat)
      requires Valid() && p in mem.live && p != base
      ensures i <= |mem.ring| && q == At(mem, i) && Place(mem, p, i)
    {
      OkHeaded(mem);
      q, i := base, 0;
      assert At(mem, 0) == base;
      while !(q < p < ptr[q] || (q >= ptr[q] && (p > q || p < ptr[q])))
        invariant i <= |mem.ring| && q == At(mem, i) && q in ptr
        invariant forall j :: 0 <= j < i ==> Before(base, mem.ring[j], p)
        decreases |mem.ring| - i
      {
        NotHere(mem, p, i);
        i := i + 1;
        assert At(mem, i) == ptr[q];
        q := ptr[q];
      }
      HereIs(mem, p, i);
    }

    /** Put live block `p` on the list after `q`, combined with its neighbours. */
    method Link(p: int, q: int, ghost i: nat)
      requires Valid() && p in mem.live && i <= |mem.ring| && q == At(mem, i)
      requires Place(mem, p, i)
      modifies this`ptr, this`size, this`availmem, this`mem
      ensures Valid() && Returned(old(mem), mem, p)
    {
      ghost var m := mem;
      InsertKeeps(m, p, i);
      IsReturning(m, p, i);
      LinkWrites(m, p, i);
      PutBackCount(m, p, i);
      var back := size[p];
      mem := PutBack(m, p, i);
      WriteLinks(p, q);
      assert mem.ptr == ptr && mem.size == size;
      PutBackKeeps(m, p, i);
      availmem := availmem + back;
    }

    method WriteLinks(p: int, q: int)
      requires q in ptr && q in size && p in size && p != q && ptr[q] in ptr && ptr[q] in size
      modifies this`ptr, this`size
      ensures ptr == JoinedPtr(old(ptr), old(size), p, q) && size == JoinedSize(old(ptr), old(size), p, q)
    {
      var n := ptr[q];
      if p + size[p] == n {
        size := size[p := size[p] + size[n]];
        ptr := ptr[p := ptr[n]];
      } else {
        ptr := ptr[p := n];
      }
      if q + size[q] == p {
        size := size[q := size[q] + size[p]];
        ptr := ptr[q := ptr[p]];
      } else {
        ptr := ptr[q := p];
      }
    }

    /** `free`; a pointer that no live block has is counted and refused. */
    method Free(blk: Option<int>)
      requires Valid() && blk != Some(base + 1)
      modifies this`ptr, this`size, this`availmem, this`invalid, this`mem
      ensures Valid()
      ensures if blk == None then mem == old(mem) && invalid == old(invalid)
              else if blk.value - 1 in old(mem).live then
                Returned(old(mem), mem, blk.value - 1) && invalid == old(invalid)
              else mem == old(mem) && invalid == old(invalid) + 1
    {
      if blk == None {
        return;
      }
      var p := blk.value - 1;
      if p !in ptr || ptr[p] != p {
        invalid := invalid + 1;
        return;
      }
      var q, i := FindPlace(p);
      Link(p, q, i);
    }

    /** `morecore`: new memory, made a block and freed. */
    method MoreCore(nu: nat, g: Grant) returns (ok: bool)
      requires Valid() && nu >= 2
      requires g != Refused ==> New(mem, g.at, GrantUnits(g, nu))
      modifies this`ptr, this`size, this`availmem, this`heapsize, this`invalid, this`mem
      ensures Valid() && ok == (g != Refused)
      ensures if ok then Extended(old(mem), mem, g.at, GrantUnits(g, nu)) && Room(mem, nu) else mem == old(mem)
      ensures invalid == old(invalid)
    {
      if g == Refused {
        return false;
      }
      var n := GrantUnits(g, nu);
      ghost var m := mem;
      Adopt(g.at, n);
      ghost var m1 := mem;
      Free(Some(g.at + 1));
      ExtendedBy(m, m1, mem, g.at, n);
      RoomMade(mem, g.at, n, nu);
      ok := true;
    }

    /** The new memory as one block, with the header `free` wants to see. */
    method Adopt(at: int, n: nat)
      requires Valid() && n >= 2 && New(mem, at, n)
      modifies this`ptr, this`size, this`heapsize, this`mem
      ensures Valid() && at in mem.live && at != base && Adopted(old(mem), mem, at, n)
    {
      GrownKeeps(mem, at, n);
      GrownOwners(mem, at, n);
      ptr, size := ptr[at := at], size[at := n];
      mem := Grown(mem, at, n);
      heapsize := heapsize + n * ABLKSIZE;
    }

    /**
     `malloc` of `nb` bytes; `istate` is whether interrupts are on, and `g` what the system
     gives if it is asked. The result points just past the header; `from` is the heap it was taken from.
     */
    method Malloc(nb: nat, istate: bool, g: Grant) returns (r: Option<int>, ghost from: Mem)
      requires Valid() && (g != Refused ==> New(mem, g.at, GrantUnits(g, Btou(nb))))
      modifies this`ptr, this`size, this`availmem, this`heapsize, this`memfail, this`invalid, this`mem
      ensures Valid() && (r.Some? ==> Fits(from, mem, r.value - 1, Btou(nb)))
      ensures var m, nu := old(mem), Btou(nb);
              if nb == 0 then r == None && mem == m && memfail == old(memfail)
              else if Room(m, nu) then r.Some? && from == m
              else if istate && g != Refused then r.Some? && Extended(m, from, g.at, GrantUnits(g, nu))
              else r == None && mem == m && memfail == old(memfail) + 1
    {
      r, from := None, mem;
      if nb != 0 {
        r := SearchAndTake(Btou(nb));
        if r == None {
          r, from := MallocMore(Btou(nb), istate, g);
        }
      }
    }

    /** The search of `malloc`, as far as the end of the list. */
    method SearchAndTake(nu: nat) returns (r: Option<int>)
      requires Valid() && nu >= 2
      modifies this`ptr, this`size, this`availmem, this`mem
      ensures Valid()
      ensures if Room(old(mem), nu) then r.Some? && Fits(old(mem), mem, r.value - 1, nu)
              else r == None && mem == old(mem)
    {
      var q, p, i := Search(nu);
      if p == base {
        return None;
      }
      var b := Take(q, p, nu, i);
      r := Some(b + 1);
    }

    /** Nothing on the list is large enough: get more, and search again. */
    method MallocMore(nu: nat, istate: bool, g: Grant) returns (r: Option<int>, ghost from: Mem)
      requires Valid() && nu >= 2
      requires g != Refused ==> New(mem, g.at, GrantUnits(g, nu))
      modifies this`ptr, this`size, this`availmem, this`heapsize, this`memfail, this`invalid, this`mem
      ensures Valid() && (r.Some? ==> Fits(from, mem, r.value - 1, nu))
      ensures if istate && g != Refused then r.Some? && Extended(old(mem), from, g.at, GrantUnits(g, nu))
              else r == None && mem == old(mem) && memfail == old(memfail) + 1
    {
      r, from := None, mem;
      if istate {
        var ok := MoreCore(nu, g);
        if ok {
          from := mem;
          r := SearchAndTake(nu);
        }
      }
      if r == None {
        memfail := memfail + 1;
      }
    }
  }

  ghost predicate Counted(m: Mem, availmem: nat, heapsize: nat) {
    availmem == Total(m.size, m.ring) && heapsize == ABLKSIZE * |m.owner|
  }

  lemma BaseNotAdjacent(m: Mem, b: int)
    requires Tiled(m) && BaseApart(m) && IsBlock(m, b)
    ensures b + m.size[b] != m.base && m.base + 1 != b
  {
    assert Within(m, b, b) && Within(m, b, b + m.size[b] - 1);
  }

  /** A block to go back, and the place for it: nothing here touches `Base`. */
  ghost predicate Returning(m: Mem, p: int, i: nat) {
    && Headed(m) && Linked(m) && m.base in m.size && p in m.size && i <= |m.ring|
    && p !in m.ring && p != m.base && p + m.size[p] != m.base && m.base + 1 != p && m.size[m.base] == 1
    && (0 < i < |m.ring| ==> m.ring[i - 1] != m.ring[i]) && (i < |m.ring| ==> m.ring[i] != m.base)
  }

  /** What putting a block back writes in the headers. */
  lemma PutHighWrites(m: Mem, p: int, i: nat)
    requires Returning(m, p, i)
    ensures var q, n, m2 := At(m, i), After(m, i), PutHigh(m, p, i);
            && q in m.ptr && q in m.size && n in m.ptr && n in m.size && m.ptr[q] == n
            && (var high := p + m.size[p] == n;
                && m2.ptr == m.ptr[p := if high then m.ptr[n] else n][q := p]
                && m2.size == if high then m.size[p := m.size[p] + m.size[n]] else m.size)
            && m2.ring[..i] == m.ring[..i] && i < |m2.ring| && m2.ring[i] == p
  {
    assert At(m, 0) == m.base && (i < |m.ring| ==> At(m, i + 1) == m.ring[i]);
  }

  lemma SameCount(m: Mem, m': Mem)
    requires SameUnits(m, m')
    ensures |m'.owner| == |m.owner|
  {
    forall u ensures u in m'.owner.Keys <==> u in m.owner.Keys {
      assert u in m'.owner <==> u in m.owner;
    }
    assert m'.owner.Keys == m.owner.Keys;
  }

  lemma LowWrites(m2: Mem, m: Mem, i: nat)
    requires 0 <= i <= |m.ring| && i < |m2.ring| && m2.ring[..i] == m.ring[..i]
    ensures i > 0 ==> m2.ring[i - 1] == m.ring[i - 1] == At(m, i)
  {
    assert i > 0 ==> m2.ring[..i][i - 1] == m.ring[..i][i - 1];
  }

  function JoinedPtr(ptr: map<int, int>, size: map<int, nat>, p: int, q: int): map<int, int>
    requires q in ptr && q in size && p in size && p != q && ptr[q] in ptr && ptr[q] in size
  {
    var n := ptr[q];
    var ptr1 := ptr[p := if p + size[p] == n then ptr[n] else n];
    ptr1[q := if q + size[q] == p then ptr1[p] else p]
  }

  function JoinedSize(ptr: map<int, int>, size: map<int, nat>, p: int, q: int): map<int, nat>
    requires q in ptr && q in size && p in size && p != q && ptr[q] in ptr && ptr[q] in size
  {
    var n := ptr[q];
    var size1 := if p + size[p] == n then size[p := size[p] + size[n]] else size;
    if q + size[q] == p then size1[q := size1[q] + size1[p]] else size1
  }

  lemma LinkWrites(m: Mem, p: int, i: nat)
    requires Returning(m, p, i)
    ensures var q, n, m' := At(m, i), After(m, i), PutBack(m, p, i);
            && q in m.ptr && q in m.size && n in m.ptr && n in m.size && m.ptr[q] == n && p != q
            && m'.ptr == JoinedPtr(m.ptr, m.size, p, q) && m'.size == JoinedSize(m.ptr, m.size, p, q)
            && m'.base == m.base
  {
    PutHighWrites(m, p, i);
    LowWrites(PutHigh(m, p, i), m, i);
  }

  lemma PutBackCount(m: Mem, p: int, i: nat)
    requires Headed(m) && p in m.size && i <= |m.ring|
    ensures |PutBack(m, p, i).owner| == |m.owner|
  {
    SameCount(m, PutHigh(m, p, i));
    SameCount(PutHigh(m, p, i), PutBack(m, p, i));
  }

  lemma IsReturning(m: Mem, p: int, i: nat)
    requires Ok(m) && p in m.live && i <= |m.ring| && p != m.base && p !in m.ring && Headed(m)
    ensures Returning(m, p, i)
  {
    assert IsBlock(m, p);
    BaseNotAdjacent(m, p);
    assert 0 < i < |m.ring| ==> Before(m.base, m.ring[i - 1], m.ring[i]);
  }

  lemma CarveGenuine(m: Mem, i: nat, nu: nat)
    requires Genuine(m) && i < |m.ring| && m.ring[i] in m.size && m.size[m.ring[i]] >= nu
    ensures Genuine(Carve(m, i, nu)) && |Carve(m, i, nu).owner| == |m.owner|
  {
    SameCount(m, Carve(m, i, nu));
  }

  /** The counts after block `p` has been cut, and the headers as the code writes them. */
  lemma CarveCounted(m: Mem, i: nat, nu: nat, b: int, availmem: nat, heapsize: nat)
    requires Counted(m, availmem, heapsize) && i < |m.ring| && m.ring[i] in m.size && m.size[m.ring[i]] >= nu
    requires b == m.ring[i] + m.size[m.ring[i]] - nu && |Carve(m, i, nu).owner| == |m.owner|
    requires Total(m.size, m.ring) == Total(Carve(m, i, nu).size, m.ring) + nu
    ensures var p, m' := m.ring[i], Carve(m, i, nu);
            && m'.base == m.base && m'.ptr == m.ptr[b := b] && m'.size == m.size[p := m.size[p] - nu][b := nu]
            && availmem >= nu && Counted(m', availmem - nu, heapsize)
  {
  }

  lemma Carved(m: Mem, i: nat, nu: nat, b: int, availmem: nat, heapsize: nat) returns (m': Mem)
    requires Ok(m) && Genuine(m) && Counted(m, availmem, heapsize)
    requires i < |m.ring| && m.ring[i] in m.size && nu >= 2 && m.size[m.ring[i]] > nu + 1
    requires b == m.ring[i] + m.size[m.ring[i]] - nu
    ensures var p := m.ring[i];
            && m'.base == m.base && m'.ptr == m.ptr[b := b] && m'.size == m.size[p := m.size[p] - nu][b := nu]
            && Ok(m') && Genuine(m') && availmem >= nu && Counted(m', availmem - nu, heapsize) && Granted(m, m', b, nu)
  {
    m' := Carve(m, i, nu);
    CarveKeeps(m, i, nu);
    CarveGenuine(m, i, nu);
    CarveCounted(m, i, nu, b, availmem, heapsize);
  }

  lemma WholeGenuine(m: Mem, i: nat)
    requires Ok(m) && Genuine(m) && i < |m.ring| && m.ring[i] in m.ptr
    ensures Genuine(Whole(m, i))
  {
    assert At(m, i + 1) == m.ring[i];
    assert i > 0 && i + 1 < |m.ring| ==> Before(m.base, m.ring[i - 1], m.ring[i + 1]);
  }

  /** The test for the place of `p` between block `i` and the next. */
  predicate Here(m: Mem, p: int, i: nat)
    requires i <= |m.ring|
  {
    var q, n := At(m, i), After(m, i);
    q < p < n || (q >= n && (p > q || p < n))
  }

  lemma NotHere(m: Mem, p: int, i: nat)
    requires Ordered(m) && p != m.base && p !in m.ring && i <= |m.ring| && !Here(m, p, i)
    requires forall j :: 0 <= j < i ==> Before(m.base, m.ring[j], p)
    ensures i < |m.ring| && Before(m.base, m.ring[i], p)
  {
    assert i > 0 && i < |m.ring| ==> Before(m.base, m.ring[i - 1], m.ring[i]);
  }

  lemma HereIs(m: Mem, p: int, i: nat)
    requires Ordered(m) && p != m.base && p !in m.ring && i <= |m.ring| && Here(m, p, i)
    requires forall j :: 0 <= j < i ==> Before(m.base, m.ring[j], p)
    ensures Place(m, p, i)
  {
    assert i > 0 && i < |m.ring| ==> Before(m.base, m.ring[i - 1], m.ring[i]);
    forall j | i <= j < |m.ring| ensures Before(m.base, p, m.ring[j]) {
      assert Before(m.base, p, m.ring[i]);
      assert i < j ==> Before(m.base, m.ring[i], m.ring[j]);
    }
  }

  /** Free units in a row are all in one free block. */
  lemma RoomMade(m: Mem, at: int, n: nat, nu: nat)
    requires Ok(m) && 0 < nu <= n && forall u :: at <= u < at + n ==> Free(m, u)
    ensures Room(m, nu)
  {
    assert Free(m, at);
    var c := m.owner[at];
    assert IsBlock(m, c) && Within(m, c, at);
    var j: nat :| j < |m.ring| && m.ring[j] == c;
    var e := c + m.size[c];
    if e < at + n {
      assert Free(m, e) && Free(m, e - 1) && Within(m, c, e - 1);
      StartsRun(m, e);
      var d := m.owner[e];
      assert IsBlock(m, d) && Within(m, d, e);
      if d < e {
        assert Within(m, d, e - 1);
      } else {
        var k: nat :| k < |m.ring| && m.ring[k] == d;
        assert Touch(m, j, k);
      }
    }
  }

  /** The heap has `n` new free units at `at`, and is otherwise the same. */
  ghost predicate Extended(m: Mem, m': Mem, at: int, n: nat) {
    && m'.live == m.live && MoreUnits(m, m', at, n)
    && (forall u :: Free(m', u) <==> Free(m, u) || at <= u < at + n)
    && (forall c :: c in m.live ==> c in m.size && c in m'.size && m'.size[c] == m.size[c])
  }

  ghost predicate Adopted(m: Mem, m1: Mem, at: int, n: nat) {
    && at !in m.live && m1.live == m.live + {at} && MoreUnits(m, m1, at, n)
    && (forall u :: Free(m1, u) <==> Free(m, u))
    && (forall u :: u in m1.owner && m1.owner[u] == at <==> at <= u < at + n)
    && (forall c :: c in m.live ==> c in m.size && c in m1.size && m1.size[c] == m.size[c])
  }

  lemma GrownOwners(m: Mem, at: int, n: nat)
    requires Tiled(m) && New(m, at, n) && n >= 2
    ensures Adopted(m, Grown(m, at, n), at, n)
  {
    GrownTiles(m, at, n);
    var m1 := Grown(m, at, n);
    forall u ensures u in m1.owner && m1.owner[u] == at <==> at <= u < at + n {
      if u in m.owner {
        assert IsBlock(m, m.owner[u]);
      }
    }
    forall c | c in m.live ensures c in m.size && c != at {
      assert IsBlock(m, c);
    }
  }

  lemma ExtendedBy(m: Mem, m1: Mem, m2: Mem, at: int, n: nat)
    requires Adopted(m, m1, at, n) && Returned(m1, m2, at)
    ensures Extended(m, m2, at, n)
  {
  }

  /** Block `b` was granted from the end of the first free block of at least `nu` units. */
  ghost predicate Fits(m: Mem, m': Mem, b: int, nu: nat) {
    Granted(m, m', b, nu) && FromFirst(m, nu, b + m'.size[b])
  }

  ghost predicate FromFirst(m: Mem, nu: nat, e: int) {
    exists i: nat :: FirstFit(m, nu, i) && e == m.ring[i] + m.size[m.ring[i]]
  }

  /** Whatever was granted, freeing it at once gives back the very same free list, block for block. */
  lemma FreeUndoesMalloc(m: Mem, m1: Mem, m2: Mem, b: int, nu: nat)
    requires Ok(m) && Ok(m1) && Ok(m2) && m.base == m2.base && Granted(m, m1, b, nu) && Returned(m1, m2, b)
    ensures m2.ring == m.ring && m2.live == m.live && forall f :: f in m.ring ==> m2.size[f] == m.size[f]
  {
    assert IsBlock(m1, b);
    forall u ensures Free(m2, u) <==> Free(m, u) {
      assert u in m1.owner && m1.owner[u] == b ==> Within(m1, b, u);
      assert Free(m2, u) <==> Free(m1, u) || (u in m1.owner && m1.owner[u] == b);
      assert Free(m1, u) <==> Free(m, u) && !Within(m1, b, u);
    }
    Determined(m, m2);
  }

  /** Live blocks share no unit, with each other or with the free list. */
  lemma Disjoint(m: Mem, b: int, c: int)
    requires Ok(m) && b in m.live && IsBlock(m, c) && b != c
    ensures b in m.size && c in m.size && (b + m.size[b] <= c || c + m.size[c] <= b)
  {
    assert IsBlock(m, b);
    assert Within(m, b, b) && Within(m, c, c);
    assert !Within(m, b, c) && !Within(m, c, b);
  }
}
