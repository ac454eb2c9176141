module Dns {
  // Domain names in messages (domhdr.c, domain.c), sections 3.1 and 4.1.4 of RFC 1035.

  import opened Bytes
  import opened Lists

  const DOT: byte := 46

  /** Memory from the start of a message on; the decoder never asks where the message ends. */
  type Memory = nat -> byte

  /** What a name expands to, and how many octets it took where it stood. */
  datatype Expanded = Expanded(clen: nat, text: Data)

  function Run(mem: Memory, at: nat, n: nat): (d: Data)
    ensures |d| == n
  {
    if n == 0 then [] else Run(mem, at, n - 1) + [mem(at + n - 1)]
  }

  predicate Pointer(b: byte) { b >= 0xc0 }

  function Target(mem: Memory, cp: nat): nat {
    if Pointer(mem(cp)) then (mem(cp) - 0xc0) * 256 + mem(cp + 1) else cp
  }

  /** The labels from `cp` on, each with its dot; at most `fullen` octets of them. */
  function Labels(mem: Memory, cp: nat, fullen: nat, indirect: bool): Option<Expanded>
    decreases fullen
  {
    var at := Target(mem, cp);
    var slen := mem(at);
    var ind := indirect || Pointer(mem(cp));
    var here := if indirect then 0 else if ind then 2 else 1;
    if slen == 0 then Some(Expanded(here, []))
    else if fullen < slen + 1 then None
    else
      Shifted(Labels(mem, at + 1 + slen, fullen - (slen + 1), ind),
              here + (if ind then 0 else slen), Run(mem, at + 1, slen) + [DOT])
  }

  /** With `clen` octets and the text `front` before it. */
  function Shifted(e: Option<Expanded>, clen: nat, front: Data): Option<Expanded> {
    if e.None? then None else Some(Expanded(clen + e.value.clen, front + e.value.text))
  }

  /** `dn_expand`; the root is a single dot. */
  function Expand(mem: Memory, cp: nat, fullen: nat): Option<Expanded> {
    var e := Labels(mem, cp, fullen, false);
    if e.None? then None else if e.value.text == [] then Some(e.value.(text := [DOT])) else e
  }

  /** What goes into the result buffer: the text and a NUL, for which `dn_expand` has not looked for room. */
  function Written(e: Expanded): Data { e.text + [0] }

  /** The name is expanded, and what is written is no more than the buffer holds. */
  predicate Fits(mem: Memory, cp: nat, fullen: nat) {
    var e := Expand(mem, cp, fullen);
    e.Some? && |Written(e.value)| <= fullen
  }

  /** It ends on every message, pointers that go round included: what is left of the result shrinks. */
  method DnExpand(mem: Memory, compressed: nat, fullen0: nat) returns (e: Option<Expanded>, written: Data)
    ensures e == Expand(mem, compressed, fullen0)
    ensures if e.Some? then written == Written(e.value) else |written| <= fullen0
  {
    var cp: nat, fullen: nat, clen: nat, indirect := compressed, fullen0, 0, false;
    var full: Data := [];
    ghost var goal := Labels(mem, compressed, fullen0, false);
    ghost var todo := goal;
    Joined0(goal);
    while true
      invariant todo == Labels(mem, cp, fullen, indirect) && goal == Shifted(todo, clen, full)
      invariant |full| + fullen == fullen0
      decreases fullen
    {
      var found, c;
      ghost var more;
      found, cp, indirect, c, more := NextLabel(mem, cp, fullen, indirect, clen);
      match found {
        case End =>
          assert full + [] == full;
          clen := c;
          break;
        case TooLong => return None, full;
        case Label(part) =>
          Advance(goal, todo, more, clen, full, c, part);
          todo, clen, full, fullen := more, c, full + part, fullen - |part|;
      }
    }
    if full == [] {
      full := [DOT];
    }
    e, written := Some(Expanded(clen, full)), full + [0];
  }

  /** The loop has `full`, and takes one more label. */
  lemma Advance(goal: Option<Expanded>, todo: Option<Expanded>, more: Option<Expanded>, clen: nat, full: Data, c: nat, part: Data)
    requires c >= clen && goal == Shifted(todo, clen, full) && todo == Shifted(more, c - clen, part)
    ensures goal == Shifted(more, c, full + part)
  {
    ShiftedTwice(more, clen, full, c - clen, part, c);
  }

  datatype Found = End | TooLong | Label(part: Data)

  /** What one turn of the loop finds at `cp`, and the labels from there as those that are left after it. */
  ghost predicate Turned(mem: Memory, cp: nat, fullen: nat, indirect: bool, c: nat,
                         found: Found, cp': nat, ind: bool, more: Option<Expanded>)
  {
    var e := Labels(mem, cp, fullen, indirect);
    match found
    case End => e == Some(Expanded(c, []))
    case TooLong => e == None
    case Label(part) =>
      0 < |part| <= fullen && more == Labels(mem, cp', fullen - |part|, ind) && e == Shifted(more, c, part)
  }

  /** One turn of the loop: the label at `cp` with its dot, if it is not the end, and fits. */
  method NextLabel(mem: Memory, cp: nat, fullen: nat, indirect: bool, clen: nat)
    returns (found: Found, cp': nat, ind: bool, c: nat, ghost more: Option<Expanded>)
    ensures c >= clen && Turned(mem, cp, fullen, indirect, c - clen, found, cp', ind, more)
  {
    var at;
    at, ind, c := Follow(mem, cp, indirect, clen);
    var slen: nat := mem(at);
    cp' := at + 1 + slen;
    if slen == 0 {
      found := End;
    } else if fullen < slen + 1 {
      found := TooLong;
    } else {
      found := Label(Run(mem, at + 1, slen) + [DOT]);
    }
    if found.Label? && !ind {
      c := c + slen;
    }
    more := Turn(mem, cp, fullen, indirect, at, ind, found, c - clen);
  }

  /** Where the next length octet is, and the octets counted up to it: none after the first pointer. */
  method Follow(mem: Memory, cp: nat, indirect: bool, clen: nat) returns (at: nat, ind: bool, c: nat)
    ensures Headed(mem, cp, indirect, clen, at, ind, c)
  {
    at, ind, c := cp, indirect, clen;
    if Pointer(mem(cp)) {
      at := (mem(cp) - 0xc0) * 256 + mem(cp + 1);
      if !ind {
        c := c + 2;
      }
      ind := true;
    } else if !ind {
      c := c + 1;
    }
  }

  /** What `Follow` finds at `cp`. */
  predicate Headed(mem: Memory, cp: nat, indirect: bool, clen: nat, at: nat, ind: bool, c: nat) {
    && at == Target(mem, cp) && ind == (indirect || Pointer(mem(cp)))
    && c == clen + if indirect then 0 else if ind then 2 else 1
  }

  /** The labels from `cp` on: the end, a label too long, or a label and `more`. */
  lemma Turn(mem: Memory, cp: nat, fullen: nat, indirect: bool, at: nat, ind: bool, found: Found, used: nat)
    returns (more: Option<Expanded>)
    requires at == Target(mem, cp) && ind == (indirect || Pointer(mem(cp)))
    requires found == if mem(at) == 0 then End else if fullen < mem(at) + 1 then TooLong
                      else Label(Run(mem, at + 1, mem(at)) + [DOT])
    requires used == (if indirect then 0 else if ind then 2 else 1) + if found.Label? && !ind then mem(at) else 0
    ensures Turned(mem, cp, fullen, indirect, used, found, at + 1 + mem(at), ind, more)
  {
    more := if found.Label? then Labels(mem, at + 1 + mem(at), fullen - (mem(at) + 1), ind) else None;
  }

  lemma Joined0(e: Option<Expanded>)
    ensures Shifted(e, 0, []) == e
  {
    if e.Some? {
      assert [] + e.value.text == e.value.text;
    }
  }

  lemma ShiftedTwice(e: Option<Expanded>, c1: nat, f1: Data, c2: nat, f2: Data, c: nat)
    requires c == c1 + c2
    ensures Shifted(Shifted(e, c2, f2), c1, f1) == Shifted(e, c, f1 + f2)
  {
    if e.Some? {
      Assoc(f1, f2, e.value.text);
    }
  }

  // The encoder

  /** Position of the first dot, or the length. */
  function DotAt(t: Data): (i: nat)
    ensures i <= |t| && (i < |t| ==> t[i] == DOT) && forall j :: 0 <= j < i ==> t[j] != DOT
  {
    if t == [] || t[0] == DOT then 0 else 1 + DotAt(t[1..])
  }

  function Low8(n: nat): byte { n % 256 }

  /** What `dns_makequery` writes for a name, whatever its form. */
  function Encode(t: Data): Data
    decreases |t|
  {
    var i := DotAt(t);
    if i == 0 then [0]
    else if i == |t| then [Low8(i)] + t + [0]
    else [Low8(i)] + t[..i] + Encode(t[i + 1..])
  }

  /** The name part of `dns_makequery`. */
  method MakeName(name: Data) returns (out: Data)
    ensures out == Encode(name)
  {
    var dname := name;
    out := [];
    assert [] + Encode(dname) == Encode(dname);
    while true
      invariant out + Encode(dname) == Encode(name)
      decreases |dname|
    {
      var len := DotAt(dname);
      if len == 0 {
        return out + [0];
      }
      if len == |dname| {
        return out + ([Low8(len)] + dname + [0]);
      }
      Assoc(out, [Low8(len)] + dname[..len], Encode(dname[len + 1..]));
      out := out + ([Low8(len)] + dname[..len]);
      dname := dname[len + 1..];
    }
  }

  // The two together

  /** A label of a normalized name. */
  predicate LabelOk(l: Data) { 1 <= |l| <= 63 && DOT !in l }

  predicate NameOk(ls: seq<Data>) { forall l :: l in ls ==> LabelOk(l) }

  /** The text of a name: each label and a dot. */
  function Dotted(ls: seq<Data>): Data {
    if ls == [] then [] else ls[0] + [DOT] + Dotted(ls[1..])
  }

  /** Normalized form; the root is a dot by itself. */
  function Text(ls: seq<Data>): Data { if ls == [] then [DOT] else Dotted(ls) }

  /** The labels on the wire, each after its length. */
  function Prefix(ls: seq<Data>): Data
  {
    if ls == [] then [] else [Low8(|ls[0]|)] + ls[0] + Prefix(ls[1..])
  }

  lemma DotFound(l: Data, t: Data)
    requires DOT !in l
    ensures DotAt(l + [DOT] + t) == |l|
  {
    var i := DotAt(l + [DOT] + t);
    assert (l + [DOT] + t)[|l|] == DOT;
    forall j | 0 <= j < |l| ensures (l + [DOT] + t)[j] != DOT {
      assert l[j] in l;
    }
  }

  lemma {:induction false} EncodesDotted(ls: seq<Data>)
    requires NameOk(ls)
    ensures Encode(Dotted(ls)) == Prefix(ls) + [0]
    decreases |ls|
  {
    if ls == [] {
      assert [] + [0 as byte] == [0];
    } else {
      var l, t := ls[0], Dotted(ls[1..]);
      assert l in ls && LabelOk(l);
      assert forall m :: m in ls[1..] ==> m in ls;
      EncodesDotted(ls[1..]);
      DotFound(l, t);
      assert (l + [DOT] + t)[..|l|] == l && (l + [DOT] + t)[|l| + 1..] == t;
      Assoc([Low8(|l|)] + l, Prefix(ls[1..]), [0]);
    }
  }

  /** A normalized name is written as its labels and a zero. */
  lemma Encodes(ls: seq<Data>)
    requires NameOk(ls)
    ensures Encode(Text(ls)) == Prefix(ls) + [0]
  {
    EncodesDotted(ls);
    if ls == [] {
      assert DotAt([DOT]) == 0;
    }
  }

  ghost predicate Holds(mem: Memory, at: nat, d: Data) { forall i :: 0 <= i < |d| ==> mem(at + i) == d[i] }

  lemma HoldsSplit(mem: Memory, at: nat, a: Data, b: Data)
    requires Holds(mem, at, a + b)
    ensures Holds(mem, at, a) && Holds(mem, at + |a|, b)
  {
    forall i | 0 <= i < |a| ensures mem(at + i) == a[i] {
      assert (a + b)[i] == a[i];
    }
    forall i | 0 <= i < |b| ensures mem(at + |a| + i) == b[i] {
      assert (a + b)[|a| + i] == b[i];
    }
  }

  lemma {:induction false} RunHeld(mem: Memory, at: nat, d: Data)
    requires Holds(mem, at, d)
    ensures Run(mem, at, |d|) == d
    decreases |d|
  {
    if d != [] {
      var n := |d| - 1;
      assert d == d[..n] + [d[n]];
      HoldsSplit(mem, at, d[..n], [d[n]]);
      RunHeld(mem, at, d[..n]);
    }
  }

  ghost predicate Begins(mem: Memory, at: nat, l: Data, fullen: nat, indirect: bool) {
    Labels(mem, at, fullen, indirect) ==
    if |l| + 1 <= fullen then
      Shifted(Labels(mem, at + 1 + |l|, fullen - (|l| + 1), indirect), if indirect then 0 else 1 + |l|, l + [DOT])
    else None
  }

  lemma OneLabel(mem: Memory, at: nat, l: Data, fullen: nat, indirect: bool)
    requires LabelOk(l) && Holds(mem, at, [Low8(|l|)] + l)
    ensures Begins(mem, at, l, fullen, indirect)
  {
    HoldsSplit(mem, at, [Low8(|l|)], l);
    assert mem(at + 0) == [Low8(|l|)][0] && Low8(|l|) == |l|;
    RunHeld(mem, at + 1, l);
  }

  /** The labels at `at` are expanded, and then whatever follows them; or they do not fit. */
  ghost predicate Expands(mem: Memory, at: nat, ls: seq<Data>, fullen: nat, indirect: bool) {
    var n := |Dotted(ls)|;
    Labels(mem, at, fullen, indirect) ==
    if n <= fullen then
      Shifted(Labels(mem, at + |Prefix(ls)|, fullen - n, indirect), if indirect then 0 else |Prefix(ls)|, Dotted(ls))
    else None
  }

  /** Labels in memory are expanded one after the other. */
  lemma {:induction false} LabelsHeld(mem: Memory, at: nat, ls: seq<Data>, fullen: nat, indirect: bool)
    requires NameOk(ls) && Holds(mem, at, Prefix(ls))
    ensures Expands(mem, at, ls, fullen, indirect)
    decreases |ls|
  {
    if ls == [] {
      Joined0(Labels(mem, at, fullen, indirect));
    } else {
      var l, more := ls[0], ls[1..];
      assert l in ls && LabelOk(l);
      assert forall m :: m in more ==> m in ls;
      Assoc([Low8(|l|)], l, Prefix(more));
      HoldsSplit(mem, at, [Low8(|l|)] + l, Prefix(more));
      if |l| + 1 <= fullen {
        LabelsHeld(mem, at + 1 + |l|, more, fullen - (|l| + 1), indirect);
      }
      OneLabel(mem, at, l, fullen, indirect);
      LabelFirst(mem, at, ls, fullen, indirect);
    }
  }

  lemma LabelFirst(mem: Memory, at: nat, ls: seq<Data>, fullen: nat, indirect: bool)
    requires ls != [] && Begins(mem, at, ls[0], fullen, indirect)
    requires |ls[0]| + 1 <= fullen ==> Expands(mem, at + 1 + |ls[0]|, ls[1..], fullen - (|ls[0]| + 1), indirect)
    ensures Expands(mem, at, ls, fullen, indirect)
  {
    var l, more := ls[0], ls[1..];
    assert |Prefix(ls)| == 1 + |l| + |Prefix(more)| && Dotted(ls) == l + [DOT] + Dotted(more);
    if |Dotted(ls)| <= fullen {
      var e := Labels(mem, at + |Prefix(ls)|, fullen - |Dotted(ls)|, indirect);
      ShiftedTwice(e, if indirect then 0 else 1 + |l|, l + [DOT], if indirect then 0 else |Prefix(more)|, Dotted(more),
                   if indirect then 0 else |Prefix(ls)|);
    }
  }

  /**
   What the encoder writes for a normalized name the decoder takes back, with its length, wherever
   it stands and whatever follows, exactly when the labels and their dots are at most `fullen`
   octets; and it writes no more than `fullen` exactly when there is room for the NUL as well.
   */
  lemma RoundTrip(mem: Memory, at: nat, ls: seq<Data>, fullen: nat)
    requires NameOk(ls) && Holds(mem, at, Encode(Text(ls)))
    ensures Expand(mem, at, fullen) ==
            if |Dotted(ls)| <= fullen then Some(Expanded(|Encode(Text(ls))|, Text(ls))) else None
    ensures Fits(mem, at, fullen) <==> |Text(ls)| + 1 <= fullen
  {
    Encodes(ls);
    HoldsSplit(mem, at, Prefix(ls), [0]);
    assert mem(at + |Prefix(ls)| + 0) == [0 as byte][0];
    LabelsHeld(mem, at, ls, fullen, false);
    TextExpands(mem, at, ls, fullen);
  }

  lemma TextExpands(mem: Memory, at: nat, ls: seq<Data>, fullen: nat)
    requires NameOk(ls) && Expands(mem, at, ls, fullen, false) && mem(at + |Prefix(ls)|) == 0
    ensures Expand(mem, at, fullen) == if |Dotted(ls)| <= fullen then Some(Expanded(|Prefix(ls)| + 1, Text(ls))) else None
    ensures Fits(mem, at, fullen) <==> |Text(ls)| + 1 <= fullen
  {
    assert Dotted(ls) + [] == Dotted(ls);
    assert ls != [] ==> Dotted(ls) != [];
  }

  lemma {:induction false} LabelsBound(mem: Memory, cp: nat, fullen: nat, indirect: bool)
    ensures var e := Labels(mem, cp, fullen, indirect); e.Some? ==> |e.value.text| <= fullen
    decreases fullen
  {
    var at := Target(mem, cp);
    var slen := mem(at);
    if slen != 0 && slen + 1 <= fullen {
      LabelsBound(mem, at + 1 + slen, fullen - (slen + 1), indirect || Pointer(mem(cp)));
    }
  }

  /**
   On any message, the bounds check lets through exactly one length too many: a text of `fullen`
   octets, after which the NUL is written; and it does not see the root at all.
   */
  lemma OneTooMany(mem: Memory, cp: nat, fullen: nat)
    requires Expand(mem, cp, fullen).Some?
    ensures var n, root := |Expand(mem, cp, fullen).value.text|, Labels(mem, cp, fullen, false).value.text == [];
            && (if root then n == 1 else n <= fullen)
            && (Fits(mem, cp, fullen) <==> if root then fullen >= 2 else n != fullen)
  {
    LabelsBound(mem, cp, fullen, false);
  }

  lemma {:induction false} DottedLength(ls: seq<Data>)
    requires forall l :: l in ls ==> |l| == 63
    ensures |Dotted(ls)| == 64 * |ls|
    decreases |ls|
  {
    if ls != [] {
      assert ls[0] in ls && forall l :: l in ls[1..] ==> l in ls;
      DottedLength(ls[1..]);
    }
  }

  /** Eight labels of 63 octets, expanded into the 512 octets that the callers provide, take 513. */
  lemma EightLabels(mem: Memory, at: nat)
    requires Holds(mem, at, Encode(Text(seq(8, _ => seq(63, _ => 97)))))
    ensures Expand(mem, at, 512).Some? && |Written(Expand(mem, at, 512).value)| == 513
  {
    var l: Data := seq(63, _ => 97);
    var ls: seq<Data> := seq(8, _ => l);
    assert LabelOk(l) && forall m :: m in ls ==> m == l;
    assert ls == seq(8, _ => seq(63, _ => 97));
    DottedLength(ls);
    RoundTrip(mem, at, ls, 512);
  }

  /** The root in a buffer of one octet, which takes two. */
  lemma RootTooLong(mem: Memory, at: nat)
    requires mem(at) == 0
    ensures Expand(mem, at, 1) == Some(Expanded(1, [DOT])) && |Written(Expand(mem, at, 1).value)| == 2
  {
  }

  // Compression

  /** All labels of a compressed name. */
  function Joined(runs: seq<seq<Data>>): seq<Data> { if runs == [] then [] else runs[0] + Joined(runs[1..]) }

  /**
   The first labels stand at `at`; each run of labels but the last ends in a pointer to the next, which
   does not begin with a pointer again, and the last one ends the name.
   */
  ghost predicate Chained(mem: Memory, at: nat, runs: seq<seq<Data>>)
    decreases |runs|
  {
    && runs != [] && NameOk(runs[0]) && Holds(mem, at, Prefix(runs[0]))
    && var p := at + |Prefix(runs[0])|;
       if |runs| == 1 then mem(p) == 0
       else Pointer(mem(p)) && !Pointer(mem(Target(mem, p))) && Chained(mem, Target(mem, p), runs[1..])
  }

  /**
   A name cut short by a pointer to the rest of it, which may be cut short again, is the whole name, and
   takes its own octets and two.
   */
  lemma Compressed(mem: Memory, at: nat, runs: seq<seq<Data>>, fullen: nat)
    requires Chained(mem, at, runs)
    ensures Expand(mem, at, fullen) ==
            if |Dotted(Joined(runs))| <= fullen then
              Some(Expanded(|Prefix(runs[0])| + (if |runs| == 1 then 1 else 2), Text(Joined(runs))))
            else None
  {
    ChainExpands(mem, at, runs, fullen, false);
    TextIs(mem, at, Joined(runs), fullen);
  }

  lemma TextIs(mem: Memory, at: nat, ls: seq<Data>, fullen: nat)
    ensures var e := Labels(mem, at, fullen, false);
            e.Some? && e.value.text == Dotted(ls) ==> Expand(mem, at, fullen) == Some(e.value.(text := Text(ls)))
  {
    assert ls != [] ==> Dotted(ls) != [];
  }

  /** What `Labels` makes of a chain. */
  ghost predicate ChainIs(mem: Memory, at: nat, runs: seq<seq<Data>>, fullen: nat, indirect: bool)
    requires runs != []
  {
    var all := Dotted(Joined(runs));
    Labels(mem, at, fullen, indirect) ==
    if |all| <= fullen then
      Some(Expanded(if indirect then 0 else |Prefix(runs[0])| + (if |runs| == 1 then 1 else 2), all))
    else None
  }

  lemma {:induction false} ChainExpands(mem: Memory, at: nat, runs: seq<seq<Data>>, fullen: nat, indirect: bool)
    requires Chained(mem, at, runs)
    ensures ChainIs(mem, at, runs, fullen, indirect)
    decreases |runs|
  {
    var p, n := at + |Prefix(runs[0])|, |Dotted(runs[0])|;
    LabelsHeld(mem, at, runs[0], fullen, indirect);
    DottedAppend(runs[0], Joined(runs[1..]));
    if |runs| == 1 {
      LastRun(mem, at, runs, fullen, indirect);
    } else {
      if n <= fullen {
        ThroughPointer(mem, p, fullen - n, indirect);
        ChainExpands(mem, Target(mem, p), runs[1..], fullen - n, true);
      }
      FirstRun(mem, at, runs, fullen, indirect, p, n, runs[1..]);
    }
  }

  lemma FirstRun(mem: Memory, at: nat, runs: seq<seq<Data>>, fullen: nat, indirect: bool, p: nat, n: nat, more: seq<seq<Data>>)
    requires |runs| > 1 && p == at + |Prefix(runs[0])| && n == |Dotted(runs[0])| && more == runs[1..]
    requires Expands(mem, at, runs[0], fullen, indirect) && Dotted(Joined(runs)) == Dotted(runs[0]) + Dotted(Joined(more))
    requires n <= fullen ==> Through(mem, p, fullen - n, indirect) && ChainIs(mem, Target(mem, p), more, fullen - n, true)
    ensures ChainIs(mem, at, runs, fullen, indirect)
  {
    if n <= fullen {
      RunThen(Labels(mem, at, fullen, indirect), Labels(mem, p, fullen - n, indirect),
              Labels(mem, Target(mem, p), fullen - n, true), Dotted(runs[0]), Dotted(Joined(more)), fullen,
              if indirect then 0 else |Prefix(runs[0])|, if indirect then 0 else 2);
    }
  }

  lemma LastRun(mem: Memory, at: nat, runs: seq<seq<Data>>, fullen: nat, indirect: bool)
    requires |runs| == 1 && mem(at + |Prefix(runs[0])|) == 0 && Expands(mem, at, runs[0], fullen, indirect)
    ensures ChainIs(mem, at, runs, fullen, indirect)
  {
    assert Joined(runs) == runs[0] by { assert runs[0] + [] == runs[0]; }
    assert Dotted(runs[0]) + [] == Dotted(runs[0]);
  }

  /** A run of labels, the pointer behind it, and what that leads to. */
  lemma RunThen(run: Option<Expanded>, pointer: Option<Expanded>, e: Option<Expanded>, d: Data, rest: Data, fullen: nat,
                c1: nat, c2: nat)
    requires |d| <= fullen && e == if |rest| <= fullen - |d| then Some(Expanded(0, rest)) else None
    requires pointer == Shifted(e, c2, []) && run == Shifted(pointer, c1, d)
    ensures run == if |d + rest| <= fullen then Some(Expanded(c1 + c2, d + rest)) else None
  {
    assert [] + rest == rest;
  }

  lemma FirstOctet(mem: Memory, o: nat, rest: seq<Data>)
    requires NameOk(rest) && Holds(mem, o, Prefix(rest)) && mem(o + |Prefix(rest)|) == 0
    ensures !Pointer(mem(o))
  {
    if rest != [] {
      assert rest[0] in rest && LabelOk(rest[0]);
      assert mem(o + 0) == Prefix(rest)[0];
    }
  }

  ghost predicate Through(mem: Memory, p: nat, fullen: nat, indirect: bool) {
    Labels(mem, p, fullen, indirect) == Shifted(Labels(mem, Target(mem, p), fullen, true), if indirect then 0 else 2, [])
  }

  /** A pointer to something other than a pointer stands for what it points to. */
  lemma ThroughPointer(mem: Memory, p: nat, fullen: nat, indirect: bool)
    requires Pointer(mem(p)) && !Pointer(mem(Target(mem, p)))
    ensures Through(mem, p, fullen, indirect)
  {
    Joined0(Labels(mem, Target(mem, p), fullen, true));
  }

  /** A pointer to a pointer is not followed: its first octet is taken for the length of a label. */
  lemma PointerToPointer(mem: Memory, p: nat, fullen: nat)
    requires Pointer(mem(p)) && Pointer(mem(Target(mem, p)))
    ensures var e := Expand(mem, p, fullen); e.Some? ==> |e.value.text| > mem(Target(mem, p)) >= 192
  {
  }

  /** The name that `hops` more compression pointers after the one at `p` lead to. */
  ghost predicate Reaches(mem: Memory, p: nat, hops: nat, name: seq<Data>)
    decreases hops
  {
    && Pointer(mem(p))
    && if hops == 0 then Holds(mem, Target(mem, p), Prefix(name) + [0]) else Reaches(mem, Target(mem, p), hops - 1, name)
  }

  /**
   A pointer is followed to the name it leads to if and only if its target is not a pointer itself.
   (A name of more than 192 octets could be what the octets after that target happen to hold.)
   */
  lemma PointerFollowed(mem: Memory, p: nat, hops: nat, name: seq<Data>, fullen: nat)
    requires NameOk(name) && Reaches(mem, p, hops, name) && |Dotted(name)| <= Min(fullen, 192)
    ensures Expand(mem, p, fullen) == Some(Expanded(2, Text(name))) <==> !Pointer(mem(Target(mem, p)))
  {
    if hops == 0 {
      var o := Target(mem, p);
      HoldsSplit(mem, o, Prefix(name), [0]);
      assert mem(o + |Prefix(name)| + 0) == [0 as byte][0];
      FirstOctet(mem, o, name);
      assert [[], name][1..] == [name] && Chained(mem, o, [name]) && Chained(mem, p, [[], name]);
      assert Joined([name]) == name && Joined([[], name]) == name;
      Compressed(mem, p, [[], name], fullen);
    } else {
      PointerToPointer(mem, p, fullen);
    }
  }

  /** At 0 a pointer to 2, there a pointer to 4, and there the root: not found in a buffer of 192 octets. */
  lemma PointerLost(mem: Memory)
    requires Holds(mem, 0, [0xc0, 2, 0xc0, 4, 0])
    ensures Reaches(mem, 0, 1, []) && Expand(mem, 0, 192) == None
  {
    var d: Data := [0xc0, 2, 0xc0, 4, 0];
    assert mem(0 + 0) == d[0] && mem(0 + 1) == d[1] && mem(0 + 2) == d[2] && mem(0 + 3) == d[3] && mem(0 + 4) == d[4];
    assert Target(mem, 0) == 2 && Target(mem, 2) == 4 && Prefix([]) + [0] == [0];
    assert Reaches(mem, 2, 0, []);
  }

  lemma {:induction false} DottedAppend(a: seq<Data>, b: seq<Data>)
    ensures Dotted(a + b) == Dotted(a) + Dotted(b)
    decreases |a|
  {
    if a == [] {
      assert a + b == b;
    } else {
      assert (a + b)[1..] == a[1..] + b;
      DottedAppend(a[1..], b);
      Assoc(a[0] + [DOT], Dotted(a[1..]), Dotted(b));
    }
  }

  // The end of the message

  /** How far the octets of a message alone take the reader of a name: to its end, past theirs, or into half a pointer. */
  datatype Reading = Within | Past | Halved

  /** Where the length octet is that the octets at `cp` lead to. */
  function Length(msg: Data, cp: nat): nat
    requires cp < |msg| && (Pointer(msg[cp]) ==> cp + 1 < |msg|)
  {
    if Pointer(msg[cp]) then (msg[cp] - 0xc0) * 256 + msg[cp + 1] else cp
  }

  function Read(msg: Data, cp: nat, fullen: nat): Reading
    decreases fullen
  {
    if cp >= |msg| then Past
    else if Pointer(msg[cp]) && cp + 1 == |msg| then Halved
    else if Length(msg, cp) >= |msg| then Past
    else
      var at := Length(msg, cp);
      var slen: nat := msg[at];
      if slen == 0 || fullen < slen + 1 then Within
      else if at + slen >= |msg| then Past
      else Read(msg, at + 1 + slen, fullen - (slen + 1))
  }

  /** The message is in memory, from address 0 on. */
  ghost predicate InMemory(msg: Data, mem: Memory) { forall i: nat :: i < |msg| ==> mem(i) == msg[i] }

  /** Whatever follows the message in memory, the name is the same. */
  ghost predicate Settled(msg: Data, cp: nat, fullen: nat) {
    forall mem, mem' :: InMemory(msg, mem) && InMemory(msg, mem') ==> Expand(mem, cp, fullen) == Expand(mem', cp, fullen)
  }

  lemma {:induction false} SameRun(mem: Memory, mem': Memory, at: nat, n: nat)
    requires forall i: nat :: at <= i < at + n ==> mem(i) == mem'(i)
    ensures Run(mem, at, n) == Run(mem', at, n)
    decreases n
  {
    if n > 0 {
      SameRun(mem, mem', at, n - 1);
    }
  }

  /** A label the message leads to, and reading on behind it. */
  predicate LabelAt(msg: Data, cp: nat, fullen: nat) {
    && cp < |msg| && (Pointer(msg[cp]) ==> cp + 1 < |msg|) && Length(msg, cp) < |msg|
    && 0 < msg[Length(msg, cp)] as int < fullen
  }

  /** The octets a label takes up where the name stands. */
  function Used(msg: Data, cp: nat, indirect: bool): nat
    requires cp < |msg| && (Pointer(msg[cp]) ==> cp + 1 < |msg|) && Length(msg, cp) < |msg|
  {
    if indirect then 0 else if Pointer(msg[cp]) then 2 else 1 + msg[Length(msg, cp)]
  }

  lemma LabelRead(msg: Data, mem: Memory, cp: nat, fullen: nat, indirect: bool, at: nat, slen: nat, ind: bool)
    requires InMemory(msg, mem) && LabelAt(msg, cp, fullen)
    requires at == Length(msg, cp) && slen == msg[at] && ind == (indirect || Pointer(msg[cp]))
    ensures Labels(mem, cp, fullen, indirect) ==
            Shifted(Labels(mem, at + 1 + slen, fullen - (slen + 1), ind), Used(msg, cp, indirect), Run(mem, at + 1, slen) + [DOT])
  {
    TargetRead(msg, mem, cp);
    LabelStep(mem, cp, fullen, indirect, at, slen, ind, Used(msg, cp, indirect));
  }

  lemma TargetRead(msg: Data, mem: Memory, cp: nat)
    requires InMemory(msg, mem) && cp < |msg| && (Pointer(msg[cp]) ==> cp + 1 < |msg|)
    ensures mem(cp) == msg[cp] && Target(mem, cp) == Length(msg, cp)
  {
  }

  lemma LabelStep(mem: Memory, cp: nat, fullen: nat, indirect: bool, at: nat, slen: nat, ind: bool, used: nat)
    requires at == Target(mem, cp) && slen == mem(at) && 0 < slen < fullen && ind == (indirect || Pointer(mem(cp)))
    requires used == if ind then (if indirect then 0 else 2) else 1 + slen
    ensures Labels(mem, cp, fullen, indirect) ==
            Shifted(Labels(mem, at + 1 + slen, fullen - (slen + 1), ind), used, Run(mem, at + 1, slen) + [DOT])
  {
  }

  lemma {:induction false} WithinSame(msg: Data, mem: Memory, mem': Memory, cp: nat, fullen: nat, indirect: bool)
    requires InMemory(msg, mem) && InMemory(msg, mem') && Read(msg, cp, fullen) == Within
    ensures Labels(mem, cp, fullen, indirect) == Labels(mem', cp, fullen, indirect)
    decreases fullen
  {
    if LabelAt(msg, cp, fullen) {
      var at, ind := Length(msg, cp), indirect || Pointer(msg[cp]);
      var slen: nat := msg[at];
      WithinSame(msg, mem, mem', at + 1 + slen, fullen - (slen + 1), ind);
      SameLabel(msg, mem, mem', cp, fullen, indirect, at, slen, ind);
    } else {
      NameEnds(msg, mem, cp, fullen, indirect);
      NameEnds(msg, mem', cp, fullen, indirect);
    }
  }

  /** Two names with the same label in front. */
  lemma SameLabel(msg: Data, mem: Memory, mem': Memory, cp: nat, fullen: nat, indirect: bool, at: nat, slen: nat, ind: bool)
    requires InMemory(msg, mem) && InMemory(msg, mem') && LabelAt(msg, cp, fullen)
    requires at == Length(msg, cp) && slen == msg[at] && ind == (indirect || Pointer(msg[cp])) && at + slen < |msg|
    ensures var e, e' := Labels(mem, at + 1 + slen, fullen - (slen + 1), ind), Labels(mem', at + 1 + slen, fullen - (slen + 1), ind);
            var u, l := Used(msg, cp, indirect), Run(mem, at + 1, slen) + [DOT];
            Labels(mem, cp, fullen, indirect) == Shifted(e, u, l) && Labels(mem', cp, fullen, indirect) == Shifted(e', u, l)
  {
    SameRun(mem, mem', at + 1, slen);
    LabelRead(msg, mem, cp, fullen, indirect, at, slen, ind);
    LabelRead(msg, mem', cp, fullen, indirect, at, slen, ind);
  }

  /** The end of the name, or a label too long. */
  lemma NameEnds(msg: Data, mem: Memory, cp: nat, fullen: nat, indirect: bool)
    requires InMemory(msg, mem) && Read(msg, cp, fullen) == Within && !LabelAt(msg, cp, fullen)
    ensures Labels(mem, cp, fullen, indirect) ==
            if msg[Length(msg, cp)] == 0 then Some(Expanded(Used(msg, cp, indirect), [])) else None
  {
  }

  /** The message, then zeros, but for `v` at `q`. */
  function Followed(msg: Data, q: nat, v: byte): Memory { (i: nat) => if i < |msg| then msg[i] else if i == q then v else 0 }

  /** Two names that are not the same, nor the root and a dot. */
  predicate Apart(e0: Option<Expanded>, e1: Option<Expanded>) {
    e0.Some? && (e1.Some? ==> |e1.value.text| >= 2 && e0.value.text != e1.value.text)
  }

  /** What follows the message makes a difference. */
  ghost predicate Differ(msg: Data, q: nat, cp: nat, fullen: nat, indirect: bool) {
    Apart(Labels(Followed(msg, q, 0), cp, fullen, indirect), Labels(Followed(msg, q, 1), cp, fullen, indirect))
  }

  lemma ShiftedApart(e0: Option<Expanded>, e1: Option<Expanded>, c: nat, f: Data)
    requires Apart(e0, e1)
    ensures Apart(Shifted(e0, c, f), Shifted(e1, c, f))
  {
    if e1.Some? {
      assert (f + e0.value.text)[|f|..] == e0.value.text && (f + e1.value.text)[|f|..] == e1.value.text;
    }
  }

  /** The first octet past the message that is read makes a difference: a length, or an octet of a label. */
  lemma {:induction false} PastDiffers(msg: Data, cp: nat, fullen: nat, indirect: bool) returns (q: nat)
    requires Read(msg, cp, fullen) == Past
    ensures q >= |msg| && Differ(msg, q, cp, fullen, indirect)
    decreases fullen
  {
    if cp >= |msg| {
      q := cp;
      LengthDiffers(msg, q, cp, fullen, indirect);
    } else if Length(msg, cp) >= |msg| {
      q := Length(msg, cp);
      LengthDiffers(msg, q, cp, fullen, indirect);
    } else {
      var at, ind := Length(msg, cp), indirect || Pointer(msg[cp]);
      var slen: nat := msg[at];
      if at + slen >= |msg| {
        q := |msg|;
        LabelDiffers(msg, cp, fullen, indirect);
      } else {
        q := PastDiffers(msg, at + 1 + slen, fullen - (slen + 1), ind);
        LaterDiffers(msg, q, cp, fullen, indirect, at, slen, ind);
      }
    }
  }

  lemma LaterDiffers(msg: Data, q: nat, cp: nat, fullen: nat, indirect: bool, at: nat, slen: nat, ind: bool)
    requires q >= |msg| && LabelAt(msg, cp, fullen)
    requires at == Length(msg, cp) && slen == msg[at] && ind == (indirect || Pointer(msg[cp])) && at + slen < |msg|
    requires Differ(msg, q, at + 1 + slen, fullen - (slen + 1), ind)
    ensures Differ(msg, q, cp, fullen, indirect)
  {
    var m0, m1 := Followed(msg, q, 0), Followed(msg, q, 1);
    SameLabel(msg, m0, m1, cp, fullen, indirect, at, slen, ind);
    ShiftedApart(Labels(m0, at + 1 + slen, fullen - (slen + 1), ind), Labels(m1, at + 1 + slen, fullen - (slen + 1), ind),
                 Used(msg, cp, indirect), Run(m0, at + 1, slen) + [DOT]);
  }

  lemma LengthDiffers(msg: Data, q: nat, cp: nat, fullen: nat, indirect: bool)
    requires q >= |msg| && forall v: byte :: v < 2 ==> Target(Followed(msg, q, v), cp) == q
    ensures Differ(msg, q, cp, fullen, indirect)
  {
    assert Followed(msg, q, 1)(q + 2) == 0;
  }

  lemma LabelDiffers(msg: Data, cp: nat, fullen: nat, indirect: bool)
    requires LabelAt(msg, cp, fullen) && Length(msg, cp) + msg[Length(msg, cp)] >= |msg|
    ensures Differ(msg, |msg|, cp, fullen, indirect)
  {
    var at := Length(msg, cp);
    var slen: nat := msg[at];
    LabelPast(msg, 0, cp, fullen, indirect);
    LabelPast(msg, 1, cp, fullen, indirect);
    var t0, t1 := Run(Followed(msg, |msg|, 0), at + 1, slen) + [DOT], Run(Followed(msg, |msg|, 1), at + 1, slen) + [DOT];
    RunAt(Followed(msg, |msg|, 0), at + 1, slen, |msg| - (at + 1));
    RunAt(Followed(msg, |msg|, 1), at + 1, slen, |msg| - (at + 1));
    assert t0[|msg| - (at + 1)] == 0 && t1[|msg| - (at + 1)] == 1;
  }

  /** A label that goes past the message, and zeros behind it. */
  lemma LabelPast(msg: Data, v: byte, cp: nat, fullen: nat, indirect: bool)
    requires LabelAt(msg, cp, fullen) && Length(msg, cp) + msg[Length(msg, cp)] >= |msg|
    ensures var at, slen: nat := Length(msg, cp), msg[Length(msg, cp)];
            var e := Labels(Followed(msg, |msg|, v), cp, fullen, indirect);
            e.Some? && e.value.text == Run(Followed(msg, |msg|, v), at + 1, slen) + [DOT]
  {
    var at := Length(msg, cp);
    var slen: nat := msg[at];
    var mem, ind := Followed(msg, |msg|, v), indirect || Pointer(msg[cp]);
    LabelRead(msg, mem, cp, fullen, indirect, at, slen, ind);
    assert mem(at + 1 + slen) == 0;
    assert Labels(mem, at + 1 + slen, fullen - (slen + 1), ind).value.text == [];
  }

  lemma {:induction false} RunAt(mem: Memory, at: nat, n: nat, i: nat)
    requires i < n
    ensures Run(mem, at, n)[i] == mem(at + i)
    decreases n
  {
    if i < n - 1 {
      RunAt(mem, at, n - 1, i);
    }
  }

  /**
   `dn_expand` does not look for the end of the message. A name that does not come to half a pointer there
   is the same whatever follows the message if and only if the message alone takes its reader to its end.
   */
  lemma SettledIff(msg: Data, cp: nat, fullen: nat)
    requires Read(msg, cp, fullen) != Halved
    ensures Settled(msg, cp, fullen) <==> Read(msg, cp, fullen) == Within
  {
    if Read(msg, cp, fullen) == Within {
      forall mem, mem' | InMemory(msg, mem) && InMemory(msg, mem') ensures Expand(mem, cp, fullen) == Expand(mem', cp, fullen) {
        WithinSame(msg, mem, mem', cp, fullen, false);
      }
    } else {
      var q := PastDiffers(msg, cp, fullen, false);
      assert Expand(Followed(msg, q, 0), cp, fullen) != Expand(Followed(msg, q, 1), cp, fullen);
    }
  }

  /** Only a message whose last octet is the first of a pointer can come to half a pointer. */
  lemma {:induction false} HalvedAtEnd(msg: Data, cp: nat, fullen: nat)
    requires Read(msg, cp, fullen) == Halved
    ensures msg != [] && Pointer(msg[|msg| - 1])
    decreases fullen
  {
    if !(Pointer(msg[cp]) && cp + 1 == |msg|) {
      var slen: nat := msg[Length(msg, cp)];
      HalvedAtEnd(msg, Length(msg, cp) + 1 + slen, fullen - (slen + 1));
    }
  }

  /** A message of two octets that announces a label of two: the second one is whatever comes next. */
  lemma CutShort(mem: Memory)
    requires InMemory([2, 119], mem) && mem(3) == 0
    ensures Expand(mem, 0, 512) == Some(Expanded(4, [119, mem(2), DOT]))
  {
    var msg: Data := [2, 119];
    LabelRead(msg, mem, 0, 512, false, 0, 2, false);
    assert Labels(mem, 3, 509, false) == Some(Expanded(1, []));
    assert Run(mem, 1, 1) == [mem(1)] && Run(mem, 1, 2) == [mem(1), mem(2)];
    assert Run(mem, 1, 2) + [DOT] + [] == [119, mem(2), DOT];
  }
}
