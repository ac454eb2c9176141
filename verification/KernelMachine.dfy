module KernelMachine {
  // The scheduler as it runs: its tables and its ring of queued signals, changed in place.

  import opened Kernel
  import opened Lists

  function After(i: nat): nat { if i + 1 < SIGQSIZE then i + 1 else 0 }

  /** The `n` entries of a ring from `rp` on. */
  function Ring(e: seq<Sig>, rp: nat, n: nat): (s: seq<Sig>)
    requires |e| == SIGQSIZE && rp < SIGQSIZE
    ensures |s| == n
    decreases n
  {
    if n == 0 then [] else [e[rp]] + Ring(e, After(rp), n - 1)
  }

  /** Where the entry after `n` from `rp` goes. */
  function Past(rp: nat, n: nat): nat { if rp + n < SIGQSIZE then rp + n else rp + n - SIGQSIZE }

  /** The place past `n` entries from `rp` is past `n - 1` from the next. */
  lemma PastAfter(rp: nat, n: nat)
    requires rp < SIGQSIZE && 0 < n < SIGQSIZE
    ensures Past(After(rp), n - 1) == Past(rp, n) < SIGQSIZE && Past(rp, n) != rp
  {
  }

  lemma {:induction false} RingPush(e: seq<Sig>, rp: nat, n: nat, g: Sig)
    requires |e| == SIGQSIZE && rp < SIGQSIZE && n < SIGQSIZE
    ensures Past(rp, n) < SIGQSIZE && Ring(e[Past(rp, n) := g], rp, n + 1) == Ring(e, rp, n) + [g]
    decreases n
  {
    var e' := e[Past(rp, n) := g];
    if n == 0 {
      assert Ring(e', After(rp), 0) == [];
    } else {
      PastAfter(rp, n);
      assert e'[rp] == e[rp];
      RingPush(e, After(rp), n - 1, g);
    }
  }

  lemma {:induction false} RingLast(e: seq<Sig>, rp: nat, n: nat)
    requires |e| == SIGQSIZE && rp < SIGQSIZE && 0 < n <= SIGQSIZE
    ensures Past(rp, n - 1) < SIGQSIZE && Ring(e, rp, n)[n - 1] == e[Past(rp, n - 1)]
    decreases n
  {
    if n > 1 {
      RingLast(e, After(rp), n - 1);
    }
  }

  /** The ring of signals queued while interrupts are off. */
  class SignalQueue {
    const entry: array<Sig>
    var rp: nat
    var wp: nat
    var nentries: nat
    var lastevent: Event
    var duksigs: nat
    var lostsigs: nat

    function Contents(): seq<Sig>
      requires rp < SIGQSIZE && nentries <= SIGQSIZE && entry.Length == SIGQSIZE
      reads this, entry
    {
      Ring(entry[..], rp, nentries)
    }

    ghost predicate Valid()
      reads this, entry
    {
      && entry.Length == SIGQSIZE && rp < SIGQSIZE && nentries <= SIGQSIZE
      && wp == Past(rp, nentries)
      && (nentries > 0 ==> entry[Past(rp, nentries - 1)].event == lastevent)
    }

    constructor ()
      ensures Valid() && Contents() == [] && fresh(entry)
    {
      entry := new Sig[SIGQSIZE](_ => Sig(NULL, 0));
      rp, wp, nentries, lastevent, duksigs, lostsigs := 0, 0, 0, NULL, 0, 0;
    }

    /** `ksignal`, with interrupts off. */
    method Post(e: Event, n: nat)
      requires Valid()
      modifies this`wp, this`nentries, this`lastevent, this`duksigs, this`lostsigs, entry
      ensures Valid() && Contents() == Queued(old(Contents()), e, n)
    {
      if nentries != 0 {
        RingLast(entry[..], rp, nentries);
      }
      if e == lastevent && nentries != 0 {
        duksigs := duksigs + 1;
        return;
      }
      if nentries == SIGQSIZE {
        lostsigs := lostsigs + 1;
        return;
      }
      Store(e, n);
    }

    method Store(e: Event, n: nat)
      requires Valid() && nentries < SIGQSIZE
      modifies this`wp, this`nentries, this`lastevent, entry
      ensures Valid() && Contents() == old(Contents()) + [Sig(e, n)]
    {
      ghost var was := entry[..];
      lastevent, entry[wp] := e, Sig(e, n);
      assert entry[..] == was[wp := Sig(e, n)];
      RingPush(was, rp, nentries, Sig(e, n));
      wp := wp + 1;
      if wp >= SIGQSIZE {
        wp := 0;
      }
      nentries := nentries + 1;
    }

    /** The oldest signal leaves the ring. */
    method Take() returns (s: Sig)
      requires Valid() && nentries != 0
      modifies this`rp, this`nentries
      ensures Valid() && [s] + Contents() == old(Contents())
    {
      nentries := nentries - 1;
      s := entry[rp];
      rp := rp + 1;
      if rp >= SIGQSIZE {
        rp := 0;
      }
    }
  }

  class Scheduler {
    const hash: Hash
    const sigs: SignalQueue
    var procs: map<Pid, Proc>
    var susp: seq<Pid>
    var rdy: seq<Pid>
    var wait: seq<seq<Pid>>
    var cur: Pid

    function Value(): Tables
      reads this
    {
      Tables(procs, susp, rdy, wait, cur)
    }

    ghost predicate Valid()
      reads this, sigs, sigs.entry
    {
      Ok(Value(), hash) && sigs.Valid()
    }

    /** `mainproc`: one process, running. */
    constructor (main: Pid, hash: Hash)
      requires forall e :: hash(e) < PHASH
      ensures Valid() && cur == main && procs.Keys == {main} && sigs.Contents() == [] && this.hash == hash
      ensures fresh(sigs) && fresh(sigs.entry)
    {
      this.hash, cur := hash, main;
      procs := map[main := Proc(false, false, NULL, 0)];
      susp, rdy, wait := [], [], seq(PHASH, _ => []);
      sigs := new SignalQueue();
      new;
      forall pl ensures ListAt(Value(), pl) == [] {
      }
    }

    /** `addproc` */
    method AddProc(p: Pid)
      requires p in procs && |wait| == PHASH && hash(procs[p].event) < PHASH
      modifies this`susp, this`rdy, this`wait
      ensures Value() == Add(old(Value()), p, hash)
    {
      if procs[p].suspend {
        susp := susp + [p];
      } else if procs[p].waiting {
        var h := hash(procs[p].event);
        wait := wait[h := wait[h] + [p]];
      } else {
        rdy := rdy + [p];
      }
    }

    /** `delproc` */
    method DelProc(p: Pid)
      requires p in procs && |wait| == PHASH && hash(procs[p].event) < PHASH
      modifies this`susp, this`rdy, this`wait
      ensures Value() == Del(old(Value()), p, hash)
    {
      if procs[p].suspend {
        susp := Remove(susp, p);
      } else if procs[p].waiting {
        var h := hash(procs[p].event);
        wait := wait[h := Remove(wait[h], p)];
      } else {
        rdy := Remove(rdy, p);
      }
    }

    /** Off its list, changed, and on the list it now belongs on. */
    method MoveProc(p: Pid, pr: Proc)
      requires p in procs && |wait| == PHASH && HashOk(hash)
      modifies this`procs, this`susp, this`rdy, this`wait
      ensures Value() == Move(old(Value()), p, pr, hash)
    {
      DelProc(p);
      procs := procs[p := pr];
      AddProc(p);
    }

    /** One list's part of `ksig`; the list is read as it was when the scan began. */
    method WakeList(s: seq<Pid>, e: Event, n0: nat) returns (n: nat)
      requires |wait| == PHASH && HashOk(hash) && NoDup(s)
      modifies this`procs, this`susp, this`rdy, this`wait
      ensures Value() == WakeAll(old(Value()), Picks(old(procs), s, e, n0), hash) && |wait| == PHASH
      ensures n == Left(n0, |Picks(old(procs), s, e, n0)|)
    {
      ghost var goal := WakeAll(Value(), Picks(procs, s, e, n0), hash);
      ghost var left: nat := |Picks(procs, s, e, n0)|;
      var rest := s;
      n := n0;
      while n != 0 && rest != []
        invariant Waking(Value(), old(procs), rest, e, n, hash, goal, left)
        invariant n <= n0 && |Picks(old(procs), s, e, n0)| == n0 - n + left
        decreases |rest|
      {
        var p := rest[0];
        WakingStep(Value(), old(procs), rest, e, n, hash, goal, left);
        if p in procs && procs[p].event == e {
          MoveProc(p, Woken(procs[p]));
          n, left := n - 1, left - 1;
        }
        rest := rest[1..];
      }
    }

    /** `ksig` */
    method DoSig(e: Event, n0: nat, ghost off: set<Pid>)
      requires Listed(Value(), hash, off)
      modifies this`procs, this`susp, this`rdy, this`wait
      ensures Value() == KSig(old(Value()), e, n0, hash) && Listed(Value(), hash, off)
    {
      KSigKeeps(Value(), e, n0, hash, off);
      if e == NULL {
        return;
      }
      var n: nat := if n0 == 0 then EVERYBODY else n0;
      ghost var k := Value();
      assert ListAt(k, OnWait(hash(e))) == wait[hash(e)];
      assert NoDup(ListAt(k, OnWait(hash(e))));
      WakeFromKeeps(k, OnWait(hash(e)), e, n, hash, off);
      n := WakeList(wait[hash(e)], e, n);
      assert NoDup(ListAt(Value(), OnSusp));
      n := WakeList(susp, e, n);
    }

    /** `procsigs` */
    method ProcSigs(ghost off: set<Pid>)
      requires Listed(Value(), hash, off) && sigs.Valid()
      modifies this`procs, this`susp, this`rdy, this`wait, sigs`rp, sigs`nentries
      ensures Value() == Apply(old(Value()), old(sigs.Contents()), hash) && Listed(Value(), hash, off)
      ensures sigs.Valid() && sigs.Contents() == []
    {
      ghost var goal := Apply(Value(), sigs.Contents(), hash);
      while sigs.nentries != 0
        invariant Listed(Value(), hash, off) && sigs.Valid()
        invariant goal == Apply(Value(), sigs.Contents(), hash)
        decreases sigs.nentries
      {
        var s := sigs.Take();
        Behead(s, sigs.Contents());
        DoSig(s.event, s.n, off);
      }
    }

    /** `ksignal`; with interrupts off the signal is only queued. */
    method KSignal(e: Event, n: nat, istate: bool)
      requires Valid()
      modifies this`procs, this`susp, this`rdy, this`wait, sigs, sigs.entry
      ensures Valid()
      ensures if istate then Value() == Signal(old(Value()), e, n, old(sigs.Contents()), hash) && sigs.Contents() == []
              else Value() == old(Value()) && sigs.Contents() == Queued(old(sigs.Contents()), e, n)
    {
      if istate {
        ProcSigs({cur});
        DoSig(e, n, {cur});
      } else {
        sigs.Post(e, n);
      }
    }

    /** The end of `kwait`: the first ready process runs. */
    method SwitchTo() returns (val: int)
      requires Listed(Value(), hash, {}) && rdy != []
      modifies this
      ensures Ok(Value(), hash) && rdy == old(rdy)[1..] && cur == old(rdy[0])
      ensures old(rdy[0]) in old(procs) && Result(Value(), Ran(val)) == Dispatch(old(Value()), hash)
    {
      assert On(Value(), rdy[0], OnRdy) <==> Belongs(Value(), rdy[0], OnRdy, hash, {});
      DispatchKeeps(Value(), hash);
      cur := rdy[0];
      DelProc(cur);
      val := procs[cur].retval;
      procs := procs[cur := procs[cur].(retval := 0)];
    }

    /**
     `kwait`. While nothing is ready, each of `batches` is what the signal queue holds after the
     next turn of idling; when they run out, the machine is still idle.
     */
    method KWait(e: Event, batches: seq<seq<Sig>>) returns (outcome: Outcome)
      requires Valid()
      modifies this, sigs`rp, sigs`nentries
      ensures Result(Value(), outcome) == Wait(old(Value()), e, old(sigs.Contents()), batches, hash)
      ensures sigs.Valid() && sigs.Contents() == []
      ensures if outcome == Asleep then Listed(Value(), hash, {}) && rdy == [] else Valid()
    {
      PostedKeeps(Value(), e, hash);
      if e != NULL {
        procs := procs[cur := procs[cur].(waiting := true, event := e)];
        AddProc(cur);
      }
      ProcSigs(if e == NULL then {cur} else {});
      if e == NULL {
        if rdy == [] {
          return Stayed;
        }
        AddKeeps(Value(), cur, hash, {cur});
        assert {cur} - {cur} == {};
        AddProc(cur);
      }
      outcome := IdleLoop(batches);
    }

    method IdleLoop(batches: seq<seq<Sig>>) returns (outcome: Outcome)
      requires Listed(Value(), hash, {})
      modifies this
      ensures Result(Value(), outcome) == Idle(old(Value()), batches, hash)
      ensures if outcome == Asleep then Listed(Value(), hash, {}) && rdy == [] else Ok(Value(), hash)
    {
      ghost var goal := Idle(Value(), batches, hash);
      var rest := batches;
      while rdy == [] && rest != []
        invariant Listed(Value(), hash, {}) && goal == Idle(Value(), rest, hash)
        decreases |rest|
      {
        ApplyBatch(rest[0]);
        rest := rest[1..];
      }
      if rdy == [] {
        return Asleep;
      }
      assert On(Value(), rdy[0], OnRdy) <==> Belongs(Value(), rdy[0], OnRdy, hash, {});
      var val := SwitchTo();
      outcome := Ran(val);
    }

    /** `procsigs` on what came in during a turn of idling. */
    method ApplyBatch(batch: seq<Sig>)
      requires Listed(Value(), hash, {})
      modifies this`procs, this`susp, this`rdy, this`wait
      ensures Value() == Apply(old(Value()), batch, hash) && Listed(Value(), hash, {})
    {
      ghost var goal := Apply(Value(), batch, hash);
      var rest := batch;
      while rest != []
        invariant Listed(Value(), hash, {}) && goal == Apply(Value(), rest, hash)
        decreases |rest|
      {
        DoSig(rest[0].event, rest[0].n, {});
        rest := rest[1..];
      }
    }

    /** `newproc` */
    method NewProc(p: Pid)
      requires Valid() && p !in procs
      modifies this`procs, this`susp, this`rdy, this`wait
      ensures Valid() && Value() == New(old(Value()), p, hash)
    {
      NewKeeps(Value(), p, hash);
      procs := procs[p := Proc(false, false, NULL, 0)];
      AddProc(p);
    }

    /** `killproc`, of another process. */
    method KillProc(p: Pid)
      requires Valid() && p in procs && p != cur
      modifies this`procs, this`susp, this`rdy, this`wait, sigs, sigs.entry
      ensures Valid() && Value() == Kill(old(Value()), p, old(sigs.Contents()), hash) && sigs.Contents() == []
    {
      KillKeeps(Value(), p, sigs.Contents(), hash);
      SignalKeeps(Value(), p, sigs.Contents(), hash);
      KSignal(p, 0, true);
      DelProc(p);
      procs := procs - {p};
    }

    /** `suspend`; to suspend itself the running process gives up the processor. */
    method SuspendProc(p: Pid, batches: seq<seq<Sig>>) returns (outcome: Outcome)
      requires Valid() && p in procs
      modifies this, sigs`rp, sigs`nentries
      ensures p != old(cur) ==> Valid() && outcome == Stayed && Value() == Suspend(old(Value()), p, hash)
      ensures p == old(cur) ==>
                Result(Value(), outcome) == Wait(Marked(old(Value())), NULL, old(sigs.Contents()), batches, hash)
      ensures if outcome == Asleep then Listed(Value(), hash, {}) && rdy == [] else Valid()
    {
      if p != cur {
        MoveKeeps(Value(), p, procs[p].(suspend := true), hash, {cur});
        MoveProc(p, procs[p].(suspend := true));
        return Stayed;
      }
      SetKeeps(Value(), p, procs[p].(suspend := true), hash, {p});
      procs := procs[p := procs[p].(suspend := true)];
      outcome := KWait(NULL, batches);
    }

    /** `resume` */
    method ResumeProc(p: Pid)
      requires Valid() && p in procs && p != cur
      modifies this`procs, this`susp, this`rdy, this`wait
      ensures Valid() && Value() == Resume(old(Value()), p, hash)
    {
      MoveKeeps(Value(), p, procs[p].(suspend := false), hash, {cur});
      MoveProc(p, procs[p].(suspend := false));
    }

    /** `alert` */
    method AlertProc(p: Pid, val: int)
      requires Valid() && p in procs
      modifies this`procs, this`susp, this`rdy, this`wait
      ensures Valid() && Value() == Alert(old(Value()), p, val, hash)
    {
      var pr := procs[p].(waiting := false, retval := val, event := NULL);
      if p == cur {
        SetKeeps(Value(), p, pr, hash, {p});
        procs := procs[p := pr];
      } else {
        MoveKeeps(Value(), p, pr, hash, {cur});
        MoveProc(p, pr);
      }
    }
  }

  /** Part of the list is still to be scanned, as it was; `left` processes of it will be woken. */
  ghost predicate Waking(k: Tables, procs: map<Pid, Proc>, rest: seq<Pid>, e: Event, n: nat, hash: Hash,
                         goal: Tables, left: nat) {
    && |k.wait| == PHASH && NoDup(rest)
    && (forall p {:trigger p in rest} :: p in rest ==>
         (p in k.procs <==> p in procs) && (p in procs ==> k.procs[p] == procs[p]))
    && goal == WakeAll(k, Picks(procs, rest, e, n), hash) && left == |Picks(procs, rest, e, n)|
  }

  lemma WakingStep(k: Tables, procs: map<Pid, Proc>, rest: seq<Pid>, e: Event, n: nat, hash: Hash, goal: Tables, left: nat)
    requires Waking(k, procs, rest, e, n, hash, goal, left) && n > 0 && rest != []
    ensures var p := rest[0];
            if p in k.procs && k.procs[p].event == e then
              left > 0 && Waking(Move(k, p, Woken(k.procs[p]), hash), procs, rest[1..], e, n - 1, hash, goal, left - 1)
            else Waking(k, procs, rest[1..], e, n, hash, goal, left)
  {
    var p := rest[0];
    assert p in rest;
    assert forall q :: q in rest[1..] ==> q in rest && q != p;
    if p in k.procs && k.procs[p].event == e {
      PickedFirst(k, procs, rest, e, n, hash);
    }
  }

  lemma PickedFirst(k: Tables, procs: map<Pid, Proc>, s: seq<Pid>, e: Event, n: nat, hash: Hash)
    requires n > 0 && s != [] && s[0] in procs && procs[s[0]].event == e && s[0] in k.procs
    ensures |Picks(procs, s, e, n)| == 1 + |Picks(procs, s[1..], e, n - 1)|
    ensures WakeAll(k, Picks(procs, s, e, n), hash) ==
            WakeAll(Move(k, s[0], Woken(k.procs[s[0]]), hash), Picks(procs, s[1..], e, n - 1), hash)
  {
    var more := Picks(procs, s[1..], e, n - 1);
    assert Picks(procs, s, e, n) == [s[0]] + more && ([s[0]] + more)[1..] == more;
  }

  lemma SignalKeeps(k: Tables, p: Pid, queue: seq<Sig>, hash: Hash)
    requires Ok(k, hash) && p in k.procs
    ensures p in Signal(k, p, 0, queue, hash).procs && Ok(Signal(k, p, 0, queue, hash), hash)
  {
    ApplyKeeps(k, queue, hash, {k.cur});
    KSigKeeps(Apply(k, queue, hash), p, 0, hash, {k.cur});
  }
}
