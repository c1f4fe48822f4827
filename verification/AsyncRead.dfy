/** The asynchronous reader: a bounded table of outstanding block requests whose replies come back in any order. */
module AsyncRead {
  import opened Bytes
  import opened Store
  import opened ReadPlan
  import opened Replies
  import opened Reader
  import opened AsyncLines

  // Markers: facts about a slot and about a request, used where a proof names one.
  predicate OnSlot(i: int) { true }
  predicate OnRequest(k: int) { true }

  /** One entry of the request table. `handle` is the pending receive whose handle was stored. */
  datatype Slot = Slot(inUse: bool, handle: Option<nat>, block: nat, dest: nat, len: nat, line: Line)

  // -------------------------------------------------------------- counting

  function Tally(slots: seq<Slot>, w: Slot -> nat): nat
  {
    if slots == [] then 0 else w(slots[0]) + Tally(slots[1..], w)
  }

  lemma {:induction false} TallyUpdate(slots: seq<Slot>, i: nat, x: Slot, w: Slot -> nat)
    requires i < |slots|
    ensures Tally(slots[i := x], w) == Tally(slots, w) - w(slots[i]) + w(x)
  {
    if i == 0 {
      assert slots[0 := x][1..] == slots[1..];
    } else {
      TallyUpdate(slots[1..], i - 1, x, w);
      assert slots[i := x][1..] == slots[1..][i - 1 := x];
    }
  }

  lemma {:induction false} TallyZero(slots: seq<Slot>, w: Slot -> nat)
    ensures Tally(slots, w) == 0 <==> forall i :: 0 <= i < |slots| ==> w(slots[i]) == 0
  {
    if slots != [] {
      TallyZero(slots[1..], w);
      assert forall i :: 0 < i < |slots| ==> slots[i] == slots[1..][i - 1];
    }
  }

  function BusyOne(): Slot -> nat { (s: Slot) => if s.inUse then 1 else 0 }
  function BytesOne(): Slot -> nat { (s: Slot) => if s.inUse then s.len else 0 }

  function InFlight(slots: seq<Slot>): nat { Tally(slots, BusyOne()) }
  function BytesInFlight(slots: seq<Slot>): nat { Tally(slots, BytesOne()) }

  // ------------------------------------------------------------- the table

  /** The request of a slot is taken as complete: it has no handle, or its receive has landed. */
  predicate Complete(slot: Slot)
  {
    slot.handle.None? || slot.handle.value !in slot.line.late
  }

  /** Had the handles been handed back, a slot would never be reused while a receive is posted on its buffer. */
  ghost predicate TrackedOk(p: Plan, slot: Slot)
  {
    if slot.inUse && p.start <= slot.block then
      var k := slot.block - p.start;
      && (Complete(slot) ==> slot.len <= |slot.line.bytes| && slot.line.bytes[..slot.len] == p.Piece(k))
      && match slot.handle
         case None => slot.line.late == {}
         case Some(x) => slot.line.late <= {x} && x < |slot.line.posted| && slot.line.posted[x] == Receive(k, 0)
    else slot.line.late == {}
  }

  ghost predicate SlotOk(p: Plan, slot: Slot, launched: nat, done: set<nat>, plain: bool, tracked: bool)
  {
    && |slot.line.bytes| == p.size && LateOk(slot.line)
    && (slot.inUse ==>
         && p.start <= slot.block < p.start + launched
         && var k := slot.block - p.start;
            k !in done && (slot.handle.Some? ==> tracked) && slot.dest == p.cut(k) && slot.dest + slot.len == p.cut(k + 1) && slot.len <= p.size)
    && (plain ==> PlainLine(p, slot.line, launched) && (tracked ==> TrackedOk(p, slot)))
  }

  ghost predicate InSlot(p: Plan, slots: seq<Slot>, k: nat)
  {
    exists i {:trigger OnSlot(i)} :: OnSlot(i) && 0 <= i < |slots| && slots[i].inUse && slots[i].block == p.start + k
  }

  ghost predicate SlotsOk(p: Plan, slots: seq<Slot>, launched: nat, done: set<nat>, plain: bool, tracked: bool)
  {
    forall i {:trigger OnSlot(i)} :: OnSlot(i) && 0 <= i < |slots| ==> SlotOk(p, slots[i], launched, done, plain, tracked)
  }

  ghost predicate Apart(slots: seq<Slot>)
  {
    forall i, j {:trigger OnSlot(i), OnSlot(j)} :: OnSlot(i) && OnSlot(j) && 0 <= i < j < |slots| ==>
      slots[i].inUse && slots[j].inUse ==> slots[i].block != slots[j].block
  }

  /** The table holds exactly the pieces that were launched and not yet copied out, each in one slot. */
  ghost predicate TableOk(p: Plan, slots: seq<Slot>, launched: nat, done: set<nat>, plain: bool, tracked: bool)
  {
    && SlotsOk(p, slots, launched, done, plain, tracked)
    && Apart(slots)
    && (forall k: nat {:trigger OnCut(k)} :: OnCut(k) && k < launched && k !in done ==> InSlot(p, slots, k))
    && (forall k: nat {:trigger OnCut(k)} :: OnCut(k) && k in done ==> k < launched)
  }

  /** Piece k of the buffer is what was copied for it. */
  ghost predicate CopiedOut(p: Plan, buf: seq<byte>, got: map<nat, seq<byte>>, k: nat)
  {
    p.cut(k) <= p.cut(k + 1) <= |buf| && k in got && buf[p.cut(k)..p.cut(k + 1)] == got[k]
  }

  ghost predicate AllCopied(p: Plan, buf: seq<byte>, got: map<nat, seq<byte>>)
  {
    forall k: nat {:trigger OnCut(k)} :: OnCut(k) && k in got ==> CopiedOut(p, buf, got, k)
  }

  // ----------------------------------------------------------------- steps

  lemma SlotMore(p: Plan, slot: Slot, launched: nat, done: set<nat>, plain: bool, tracked: bool)
    requires SlotOk(p, slot, launched, done, plain, tracked) && launched < p.count
    ensures SlotOk(p, slot, launched + 1, done, plain, tracked)
  {
    if plain {
      PlainMore(p, slot.line, launched, launched + 1);
    }
  }

  lemma LaunchKeeps(p: Plan, slots: seq<Slot>, launched: nat, done: set<nat>, plain: bool, tracked: bool, i: nat, slot: Slot)
    requires p.Ok() && TableOk(p, slots, launched, done, plain, tracked) && i < |slots| && !slots[i].inUse && launched !in done && launched < p.count
    requires slot.inUse && slot.block == p.start + launched && SlotOk(p, slot, launched + 1, done, plain, tracked)
    ensures TableOk(p, slots[i := slot], launched + 1, done, plain, tracked)
    ensures InFlight(slots[i := slot]) == InFlight(slots) + 1
    ensures BytesInFlight(slots[i := slot]) == BytesInFlight(slots) + slot.len
  {
    var slots' := slots[i := slot];
    TallyUpdate(slots, i, slot, BusyOne());
    TallyUpdate(slots, i, slot, BytesOne());
    forall j | OnSlot(j) && 0 <= j < |slots'| ensures SlotOk(p, slots'[j], launched + 1, done, plain, tracked) {
      if j != i {
        SlotMore(p, slots[j], launched, done, plain, tracked);
      }
    }
    assert Apart(slots');
    forall k: nat | OnCut(k) && k < launched + 1 && k !in done ensures InSlot(p, slots', k) {
      if k == launched {
        assert OnSlot(i);
      } else {
        var j :| OnSlot(j) && 0 <= j < |slots| && slots[j].inUse && slots[j].block == p.start + k;
        assert slots'[j] == slots[j];
      }
    }
  }

  /** A slot that keeps its request, if it has one, keeps the table. */
  lemma LandTable(p: Plan, slots: seq<Slot>, launched: nat, done: set<nat>, plain: bool, tracked: bool, i: nat, slot: Slot)
    requires TableOk(p, slots, launched, done, plain, tracked) && i < |slots|
    requires slot.inUse == slots[i].inUse && slot.block == slots[i].block && SlotOk(p, slot, launched, done, plain, tracked)
    ensures TableOk(p, slots[i := slot], launched, done, plain, tracked)
  {
    var slots' := slots[i := slot];
    assert SlotsOk(p, slots', launched, done, plain, tracked);
    assert Apart(slots');
    forall k: nat | OnCut(k) && k < launched && k !in done ensures InSlot(p, slots', k) {
      var j :| OnSlot(j) && 0 <= j < |slots| && slots[j].inUse && slots[j].block == p.start + k;
      assert slots'[j].inUse && slots'[j].block == p.start + k;
    }
  }

  lemma LandKeeps(p: Plan, slots: seq<Slot>, launched: nat, done: set<nat>, plain: bool, tracked: bool, i: nat, slot: Slot)
    requires TableOk(p, slots, launched, done, plain, tracked) && i < |slots|
    requires slot.inUse == slots[i].inUse && slot.block == slots[i].block && slot.len == slots[i].len
    requires SlotOk(p, slot, launched, done, plain, tracked)
    ensures TableOk(p, slots[i := slot], launched, done, plain, tracked)
    ensures InFlight(slots[i := slot]) == InFlight(slots)
    ensures BytesInFlight(slots[i := slot]) == BytesInFlight(slots)
  {
    LandTable(p, slots, launched, done, plain, tracked, i, slot);
    TallyUpdate(slots, i, slot, BusyOne());
    TallyUpdate(slots, i, slot, BytesOne());
  }

  lemma CompleteTable(p: Plan, slots: seq<Slot>, launched: nat, done: set<nat>, plain: bool, tracked: bool, i: nat, k0: nat)
    requires TableOk(p, slots, launched, done, plain, tracked) && i < |slots| && slots[i].inUse && slots[i].block == p.start + k0 && Complete(slots[i])
    ensures TableOk(p, slots[i := slots[i].(inUse := false)], launched, done + {k0}, plain, tracked)
  {
    var slots', done' := slots[i := slots[i].(inUse := false)], done + {k0};
    assert OnSlot(i);
    assert Apart(slots');
    assert SlotsOk(p, slots', launched, done', plain, tracked);
    forall k: nat | OnCut(k) && k < launched && k !in done' ensures InSlot(p, slots', k) {
      var j :| OnSlot(j) && 0 <= j < |slots| && slots[j].inUse && slots[j].block == p.start + k;
      assert slots'[j] == slots[j];
    }
  }

  lemma CompleteKeeps(p: Plan, slots: seq<Slot>, launched: nat, done: set<nat>, plain: bool, tracked: bool, i: nat, k0: nat)
    requires TableOk(p, slots, launched, done, plain, tracked) && i < |slots| && slots[i].inUse && slots[i].block == p.start + k0 && Complete(slots[i])
    ensures TableOk(p, slots[i := slots[i].(inUse := false)], launched, done + {k0}, plain, tracked)
    ensures InFlight(slots[i := slots[i].(inUse := false)]) == InFlight(slots) - 1
    ensures BytesInFlight(slots[i := slots[i].(inUse := false)]) == BytesInFlight(slots) - slots[i].len
  {
    CompleteTable(p, slots, launched, done, plain, tracked, i, k0);
    TallyUpdate(slots, i, slots[i].(inUse := false), BusyOne());
    TallyUpdate(slots, i, slots[i].(inUse := false), BytesOne());
  }

  /** A receive that lands keeps its slot. */
  lemma LandOk(p: Plan, temps: nat -> seq<byte>, slot: Slot, launched: nat, done: set<nat>, plain: bool, tracked: bool, x: nat)
    requires p.Ok() && launched <= p.count && SlotOk(p, slot, launched, done, plain, tracked) && (plain ==> Plain(p, temps))
    ensures SlotOk(p, slot.(line := slot.line.Land(p, x)), launched, done, plain, tracked)
  {
    if x in slot.line.late && plain {
      PlainLand(p, temps, slot.line, launched, x);
      PlainText(p, temps, slot.line.posted[x].piece);
    }
  }

  lemma {:induction false} LandAllOk(p: Plan, temps: nat -> seq<byte>, slot: Slot, launched: nat, done: set<nat>, plain: bool, tracked: bool, xs: seq<nat>)
    requires p.Ok() && launched <= p.count && SlotOk(p, slot, launched, done, plain, tracked) && (plain ==> Plain(p, temps))
    ensures SlotOk(p, slot.(line := slot.line.LandAll(p, xs)), launched, done, plain, tracked)
    decreases |xs|
  {
    if xs != [] {
      LandOk(p, temps, slot, launched, done, plain, tracked, xs[0]);
      LandAllOk(p, temps, slot.(line := slot.line.Land(p, xs[0])), launched, done, plain, tracked, xs[1..]);
    }
  }

  /** Copying piece k0 out leaves the others as they are. */
  lemma CopyKeeps(p: Plan, buf: seq<byte>, got: map<nat, seq<byte>>, k0: nat, bytes: seq<byte>)
    requires p.Ok() && AllCopied(p, buf, got) && k0 < p.count && k0 !in got && p.n <= |buf| && |bytes| == p.cut(k0 + 1) - p.cut(k0)
    ensures p.cut(k0) + |bytes| <= |buf| && AllCopied(p, Splice(buf, p.cut(k0), bytes), got[k0 := bytes])
  {
    assert OnCut(k0);
    var buf', got' := Splice(buf, p.cut(k0), bytes), got[k0 := bytes];
    forall k: nat | OnCut(k) && k in got' ensures CopiedOut(p, buf', got', k) {
      if k == k0 {
        assert buf'[p.cut(k0)..p.cut(k0) + |bytes|] == bytes;
      } else {
        assert CopiedOut(p, buf, got, k);
        assert buf'[p.cut(k)..p.cut(k + 1)] == buf[p.cut(k)..p.cut(k + 1)];
      }
    }
  }

  /** The counters agree with the table, and the buffer with what was copied. */
  ghost predicate StateOk(p: Plan, plain: bool, tracked: bool, slots: seq<Slot>, launched: nat, completed: nat, scheduled: nat, received: nat,
                          got: map<nat, seq<byte>>, buf: seq<byte>)
  {
    && p.Ok() && |slots| == MAX_CONCURRENT_REQUESTS && p.n <= |buf| && launched <= p.count
    && launched == completed + InFlight(slots) && scheduled == p.cut(launched) == received + BytesInFlight(slots)
    && TableOk(p, slots, launched, got.Keys, plain, tracked)
    && AllCopied(p, buf, got)
    && (plain && tracked ==> forall k {:trigger OnCut(k)} :: OnCut(k) && k in got ==> got[k] == p.Piece(k))
  }

  /** A slot whose request is complete is copied out and freed. */
  lemma CompleteOk(p: Plan, plain: bool, tracked: bool, slots: seq<Slot>, launched: nat, completed: nat, scheduled: nat, received: nat,
                   got: map<nat, seq<byte>>, buf: seq<byte>, i: nat)
    returns (slots': seq<Slot>, got': map<nat, seq<byte>>, buf': seq<byte>)
    requires StateOk(p, plain, tracked, slots, launched, completed, scheduled, received, got, buf) && i < |slots| && slots[i].inUse && Complete(slots[i])
    ensures slots[i].block >= p.start && slots[i].len <= |slots[i].line.bytes| && slots[i].dest + slots[i].len <= |buf|
    ensures slots[i].block - p.start !in got
    ensures slots' == slots[i := slots[i].(inUse := false)] && got' == got[slots[i].block - p.start := slots[i].line.bytes[..slots[i].len]]
    ensures buf' == Splice(buf, slots[i].dest, slots[i].line.bytes[..slots[i].len])
    ensures StateOk(p, plain, tracked, slots', launched, completed + 1, scheduled, received + slots[i].len, got', buf')
  {
    assert OnSlot(i);
    var k, bytes := slots[i].block - p.start, slots[i].line.bytes[..slots[i].len];
    assert OnCut(k);
    CompleteKeeps(p, slots, launched, got.Keys, plain, tracked, i, k);
    CopyKeeps(p, buf, got, k, bytes);
    slots', got', buf' := slots[i := slots[i].(inUse := false)], got[k := bytes], Splice(buf, slots[i].dest, bytes);
    assert got'.Keys == got.Keys + {k};
  }

  // ------------------------------------------------------------ launching

  /** A free slot after get_ndata went out for piece k. */
  function After(p: Plan, tracked: bool, slot: Slot, k: nat, dest: nat, len: nat, r: Sent): Slot
  {
    if r.ok then
      Slot(true, if tracked && r.pending && |r.line.posted| > 0 then Some(|r.line.posted| - 1) else None, p.start + k, dest, len, r.line)
    else slot.(line := r.line)
  }

  /** The receives that have not landed are among those posted. */
  ghost predicate LateOk(l: Line)
  {
    forall x :: x in l.late ==> x < |l.posted|
  }

  lemma {:induction false} AskLine(net: Network, p: Plan, l: Line, t: nat, i: nat, k: nat, a: nat)
    requires LateOk(l)
    ensures LateOk(net.Ask(p, l, t, i, k, a).line)
    decreases |p.replies(k)| - a
  {
    if a < |p.replies(k)| {
      LandAllKeeps(p, l, net.before(t, i, a));
      var l1 := l.LandAll(p, net.before(t, i, a));
      assert LateOk(l1);
      if !net.outcome(t, i, a).Refused? {
        var l2 := l1.Post(p, Receive(k, a), net.outcome(t, i, a));
        assert LateOk(l2);
        AskLine(net, p, l2, t, i, k, a + 1);
      }
    }
  }

  /** In the tracked case: no receive is posted on a free slot's buffer, so the one posted now is the only one. */
  lemma AskTracked(net: Network, p: Plan, temps: nat -> seq<byte>, slot: Slot, t: nat, i: nat, k: nat, dest: nat)
    requires p.Ok() && Plain(p, temps) && k < p.count && PlainLine(p, slot.line, k) && slot.line.late == {} && !slot.inUse
    ensures TrackedOk(p, After(p, true, slot, k, dest, p.Len(k), net.Ask(p, slot.line, t, i, k, 0)))
  {
    PlainAsk(net, p, temps, slot.line, t, i, k);
    PlainText(p, temps, k);
    LandNone(p, slot.line, net.before(t, i, 0));
  }

  lemma AfterOk(net: Network, p: Plan, temps: nat -> seq<byte>, plain: bool, tracked: bool, launched: nat, done: set<nat>, slot: Slot, t: nat, i: nat)
    requires p.Ok() && (plain ==> Plain(p, temps)) && launched < p.count && launched !in done && !slot.inUse
    requires SlotOk(p, slot, launched, done, plain, tracked)
    ensures var r := net.Ask(p, slot.line, t, i, launched, 0);
            var slot' := After(p, tracked, slot, launched, p.cut(launched), p.Len(launched), r);
            SlotOk(p, slot', if r.ok then launched + 1 else launched, done, plain, tracked)
  {
    assert OnCut(launched);
    AskLine(net, p, slot.line, t, i, launched, 0);
    if plain {
      PlainAsk(net, p, temps, slot.line, t, i, launched);
      if tracked {
        AskTracked(net, p, temps, slot, t, i, launched, p.cut(launched));
      }
    }
  }

  lemma ToRead(p: Plan, k: nat)
    requires p.Ok() && k < p.count
    ensures p.OffsetIn(k) <= p.size && p.cut(k) <= p.n && Min(p.size - p.OffsetIn(k), p.n - p.cut(k)) == p.Len(k) > 0
  {
    assert OnCut(k);
  }

  /** get_ndata for the next piece in a free slot. */
  lemma LaunchState(net: Network, p: Plan, temps: nat -> seq<byte>, plain: bool, tracked: bool, slots: seq<Slot>, launched: nat, completed: nat,
                    scheduled: nat, received: nat, got: map<nat, seq<byte>>, buf: seq<byte>, i: nat, t: nat, r: Sent, slots': seq<Slot>)
    requires StateOk(p, plain, tracked, slots, launched, completed, scheduled, received, got, buf) && i < |slots| && !slots[i].inUse
    requires (plain ==> Plain(p, temps)) && launched < p.count && r == net.Ask(p, slots[i].line, t, i, launched, 0)
    requires slots' == slots[i := After(p, tracked, slots[i], launched, scheduled, p.Len(launched), r)]
    ensures r.ok ==> StateOk(p, plain, tracked, slots', launched + 1, completed, scheduled + p.Len(launched), received, got, buf)
    ensures !r.ok ==> StateOk(p, plain, tracked, slots', launched, completed, scheduled, received, got, buf)
  {
    assert OnSlot(i) && OnCut(launched);
    AfterOk(net, p, temps, plain, tracked, launched, got.Keys, slots[i], t, i);
    if r.ok {
      LaunchKeeps(p, slots, launched, got.Keys, plain, tracked, i, slots'[i]);
    } else {
      LandKeeps(p, slots, launched, got.Keys, plain, tracked, i, slots'[i]);
    }
  }

  lemma LaunchOk(net: Network, p: Plan, temps: nat -> seq<byte>, plain: bool, tracked: bool, slots: seq<Slot>, launched: nat, completed: nat,
                 scheduled: nat, received: nat, got: map<nat, seq<byte>>, buf: seq<byte>, i: nat, t: nat, r: Sent, slots': seq<Slot>)
    returns (launched': nat, scheduled': nat)
    requires StateOk(p, plain, tracked, slots, launched, completed, scheduled, received, got, buf) && i < |slots| && !slots[i].inUse
    requires (plain ==> Plain(p, temps)) && launched < p.count && r == net.Ask(p, slots[i].line, t, i, launched, 0)
    requires slots' == slots[i := After(p, tracked, slots[i], launched, scheduled, p.Len(launched), r)]
    ensures launched' == launched + (if r.ok then 1 else 0) && scheduled' == scheduled + (if r.ok then p.Len(launched) else 0)
    ensures StateOk(p, plain, tracked, slots', launched', completed, scheduled', received, got, buf)
  {
    LaunchState(net, p, temps, plain, tracked, slots, launched, completed, scheduled, received, got, buf, i, t, r, slots');
    if r.ok {
      return launched + 1, scheduled + p.Len(launched);
    } else {
      return launched, scheduled;
    }
  }

  ghost predicate NoneRefused(net: Network, t: nat)
  {
    forall i: nat :: !net.outcome(t, i, 0).Refused?
  }

  // ------------------------------------------------------------ the reader

  class AsyncReader {
    const p: Plan
    /** Whether get_ndata hands the handle of a pending receive back to the reader. */
    const tracked: bool
    const buf: array<byte>
    const temps: nat -> seq<byte>
    const net: Network
    /** Only data of first servers comes in. */
    ghost const plain: bool
    var slots: seq<Slot>
    var launched: nat
    var completed: nat
    var scheduled: nat
    var received: nat
    /** What was copied out for each piece. */
    ghost var got: map<nat, seq<byte>>

    ghost predicate Valid()
      reads this, buf
    {
      (plain ==> Plain(p, temps)) && StateOk(p, plain, tracked, slots, launched, completed, scheduled, received, got, buf[..])
    }

    constructor (p: Plan, tracked: bool, buf: array<byte>, temps: nat -> seq<byte>, net: Network)
      requires p.Ok() && p.n <= buf.Length && forall i: nat :: |temps(i)| == p.size
      ensures Valid() && this.p == p && this.tracked == tracked && this.buf == buf && this.temps == temps && this.net == net
      ensures plain <==> Plain(p, temps)
      ensures completed == 0 && launched == 0 && got == map[]
      ensures forall i :: 0 <= i < |slots| ==> !slots[i].inUse && slots[i].line == Line(temps(i), [], {}, None)
    {
      this.p, this.tracked, this.buf, this.temps, this.net := p, tracked, buf, temps, net;
      slots := seq(MAX_CONCURRENT_REQUESTS, i requires 0 <= i < MAX_CONCURRENT_REQUESTS => Slot(false, None, 0, 0, 0, Line(temps(i), [], {}, None)));
      launched, completed, scheduled, received := 0, 0, 0, 0;
      got := map[];
      plain := Plain(p, temps);
      new;
      TallyZero(slots, BusyOne());
      TallyZero(slots, BytesOne());
    }

    /** get_ndata into a temporary buffer, for piece k: the servers are asked in turn. */
    method GetNData(line: Line, t: nat, i: nat, k: nat) returns (r: Sent)
      ensures r == net.Ask(p, line, t, i, k, 0)
    {
      var l := line;
      for a := 0 to |p.replies(k)|
        invariant net.Ask(p, l, t, i, k, a) == net.Ask(p, line, t, i, k, 0)
      {
        l := l.LandAll(p, net.before(t, i, a));
        if net.outcome(t, i, a).Refused? {
          return Sent(l, false, false);
        }
        l := l.Post(p, Receive(k, a), net.outcome(t, i, a));
        if !LooksMissing(l.bytes) {
          return Sent(l, true, net.outcome(t, i, a).Pending?);
        }
      }
      return Sent(l, false, false);
    }

    /** A free slot takes the next request, which is never empty. */
    method Launch(i: nat, t: nat)
      requires Valid() && i < |slots| && !slots[i].inUse && launched < p.count
      modifies this`slots, this`launched, this`scheduled
      ensures Valid() && p.Len(old(launched)) > 0
      ensures var k, r := old(launched), net.Ask(p, old(slots)[i].line, t, i, old(launched), 0);
              && slots == old(slots)[i := After(p, tracked, old(slots)[i], k, p.cut(k), p.Len(k), r)]
              && launched == if r.ok then k + 1 else k
    {
      ToRead(p, launched);
      var toRead := Min(p.size - p.OffsetIn(launched), p.n - scheduled);
      if toRead == 0 {
        return;
      }
      var r := GetNData(slots[i].line, t, i, launched);
      ghost var bytes := buf[..];
      var slots' := slots[i := After(p, tracked, slots[i], launched, scheduled, toRead, r)];
      ghost var launched', scheduled' :=
        LaunchOk(net, p, temps, plain, tracked, slots, launched, completed, scheduled, received, got, bytes, i, t, r, slots');
      slots := slots';
      if r.ok {
        scheduled := scheduled + toRead;
        launched := launched + 1;
      }
      assert launched == launched' && scheduled == scheduled' && buf[..] == bytes;
    }

    /** In a free slot, data of first servers only is asked for with success unless the receive is refused. */
    lemma SureLaunch(i: nat, t: nat)
      requires Valid() && plain && i < |slots| && !slots[i].inUse && launched < p.count
      ensures net.Ask(p, slots[i].line, t, i, launched, 0).ok <==> !net.outcome(t, i, 0).Refused?
    {
      assert OnSlot(i);
      PlainAsk(net, p, temps, slots[i].line, t, i, launched);
    }

    /** One slot of the launching loop. */
    method TryLaunch(i: nat, t: nat)
      requires Valid() && i < |slots|
      modifies this`slots, this`launched, this`scheduled
      ensures Valid() && launched >= old(launched)
      ensures if old(slots)[i].inUse || old(launched) >= p.count then slots == old(slots) && launched == old(launched)
              else
                var k, r := old(launched), net.Ask(p, old(slots)[i].line, t, i, old(launched), 0);
                && slots == old(slots)[i := After(p, tracked, old(slots)[i], k, p.cut(k), p.Len(k), r)]
                && launched == if r.ok then k + 1 else k
      ensures plain && !net.outcome(t, i, 0).Refused? && launched < p.count ==> slots[i].inUse
    {
      if !slots[i].inUse && launched < p.count {
        if plain {
          SureLaunch(i, t);
        }
        Launch(i, t);
      }
    }

    /** Receives land in slot i's buffer, whatever it is used for by now. */
    method Land(i: nat, xs: seq<nat>)
      requires Valid() && i < |slots|
      modifies this`slots
      ensures Valid() && slots == old(slots)[i := old(slots)[i].(line := old(slots)[i].line.LandAll(p, xs))]
    {
      assert OnSlot(i);
      var slot := slots[i].(line := slots[i].line.LandAll(p, xs));
      LandAllOk(p, temps, slots[i], launched, got.Keys, plain, tracked, xs);
      LandKeeps(p, slots, launched, got.Keys, plain, tracked, i, slot);
      slots := slots[i := slot];
    }

    /** The memcpy from a slot's temporary buffer. */
    method CopyOut(slot: Slot)
      requires slot.dest + slot.len <= buf.Length && slot.len <= |slot.line.bytes|
      modifies buf
      ensures buf[..] == Splice(old(buf[..]), slot.dest, slot.line.bytes[..slot.len])
    {
      ghost var before := buf[..];
      forall x | 0 <= x < slot.len {
        buf[slot.dest + x] := slot.line.bytes[x];
      }
      assert buf[..] == Splice(before, slot.dest, slot.line.bytes[..slot.len]);
    }

    /** One slot of the completion loop. A request without a handle counts as complete, whether its receive has
        landed or not. */
    method TryComplete(i: nat)
      requires Valid() && i < |slots|
      modifies this`slots, this`completed, this`received, this`got, buf
      ensures Valid()
      ensures if !old(slots)[i].inUse || !Complete(old(slots)[i]) then slots == old(slots) && got == old(got) && completed == old(completed)
              else
                && completed == old(completed) + 1 && slots == old(slots)[i := old(slots)[i].(inUse := false)]
                && old(slots)[i].block >= p.start && old(slots)[i].len <= |old(slots)[i].line.bytes|
                && old(slots)[i].block - p.start !in old(got)
                && got == old(got)[old(slots)[i].block - p.start := old(slots)[i].line.bytes[..old(slots)[i].len]]
    {
      if slots[i].inUse && Complete(slots[i]) {
        var slot := slots[i];
        ghost var slots', got', buf' :=
          CompleteOk(p, plain, tracked, slots, launched, completed, scheduled, received, got, buf[..], i);
        CopyOut(slot);
        received := received + slot.len;
        slots := slots[i := slot.(inUse := false)];
        completed := completed + 1;
        got := got';
        assert slots == slots' && buf[..] == buf';
      }
    }

    // ------------------------------------------------------------ the loops

    /** Receives land in all the buffers. */
    method LandPass(w: nat -> seq<nat>)
      requires Valid()
      modifies this`slots
      ensures Valid() && LandedAll(p, w, old(slots), slots)
    {
      for i := 0 to |slots|
        invariant Valid() && |slots| == |old(slots)|
        invariant forall j :: i <= j < |slots| ==> slots[j] == old(slots)[j]
        invariant forall j :: 0 <= j < i ==> slots[j] == old(slots)[j].(line := old(slots)[j].line.LandAll(p, w(j)))
      {
        Land(i, w(i));
      }
    }

    /** Without handles, all slots are free between turns, and hold what the network left in them. */
    ghost predicate Starts(t: nat)
      reads this
    {
      !tracked && LinesAt(p, temps, net, t, slots) && launched == net.Number(p, temps, t, 0)
    }

    /** The launching loop. With data of first servers only and without refusals it leaves no slot free while a block is
        still to be asked for. Without handles, the requests go to the slots that Takes names. */
    method LaunchPass(t: nat)
      requires Valid()
      modifies this`slots, this`launched, this`scheduled
      ensures Valid() && |slots| == |old(slots)| && launched >= old(launched)
      ensures plain && NoneRefused(net, t) && launched < p.count ==> forall i :: 0 <= i < |slots| ==> slots[i].inUse
      ensures old(Starts(t)) ==> SentOut(p, temps, net, t, slots, |slots|, launched)
    {
      ghost var starts, slots0 := Starts(t), slots;
      if launched < p.count {
        for i := 0 to |slots|
          invariant Valid() && |slots| == |slots0| && launched >= old(launched)
          invariant plain && NoneRefused(net, t) && launched < p.count ==> forall j :: 0 <= j < i ==> slots[j].inUse
          invariant forall j :: i <= j < |slots| ==> slots[j] == slots0[j]
          invariant starts ==> !tracked && SentOut(p, temps, net, t, slots, i, launched)
        {
          ghost var before, m := slots, launched;
          TryLaunch(i, t);
          if starts {
            SentNext(p, temps, net, t, slots0, before, slots, i, m, launched);
          }
        }
      } else if starts {
        NoneSent(p, temps, net, t, slots, |slots|);
      }
    }

    lemma AlwaysComplete(i: nat)
      requires Valid() && !tracked && i < |slots| && slots[i].inUse
      ensures Complete(slots[i])
    {
      assert OnSlot(i);
    }

    lemma AllLateOk()
      requires Valid()
      ensures forall i :: 0 <= i < |slots| ==> LateOk(slots[i].line)
    {
      forall i | 0 <= i < |slots| ensures LateOk(slots[i].line) {
        assert OnSlot(i);
      }
    }

    /** The completion loop. Without handles it frees every slot. */
    method CompletePass()
      requires Valid()
      modifies this`slots, this`completed, this`received, this`got, buf
      ensures Valid() && |slots| == |old(slots)| && completed >= old(completed)
      ensures (exists i :: 0 <= i < |slots| && old(slots)[i].inUse && Complete(old(slots)[i])) ==> completed > old(completed)
      ensures !tracked ==> CopiedAll(p, old(slots), slots, old(got), got, |slots|)
    {
      for i := 0 to |slots|
        invariant Valid() && |slots| == |old(slots)| && completed >= old(completed)
        invariant forall j :: i <= j < |slots| ==> slots[j] == old(slots)[j]
        invariant forall j :: 0 <= j < i && old(slots)[j].inUse && Complete(old(slots)[j]) ==> completed > old(completed)
        invariant !tracked ==> CopiedAll(p, old(slots), slots, old(got), got, i)
      {
        ghost var slots1, got1 := slots, got;
        if !tracked && slots[i].inUse {
          AlwaysComplete(i);
        }
        TryComplete(i);
        if !tracked {
          CopiedMore(p, old(slots), slots1, slots, old(got), got1, got, i);
        }
      }
    }

    /** After t turns, when no handle is handed back. */
    ghost predicate Follows(t: nat)
      reads this
    {
      FollowsNetwork(p, temps, net, t, slots, launched, got)
    }

    /** The reader is never stuck: with data of first servers only, a good turn completes at least one more block. Without
        handles, the turn leaves what the network makes of it. */
    method Step(t: nat) returns (next: nat)
      requires Valid() && completed < p.count
      modifies this`slots, this`launched, this`scheduled, this`completed, this`received, this`got, buf
      ensures Valid() && completed >= old(completed)
      ensures plain && net.Good(p.count, t) ==> completed > old(completed)
      ensures next == t + 1 && (!tracked && old(Follows(t)) ==> Follows(next))
    {
      next := t + 1;
      ghost var launched0, got0, slots0 := launched, got, slots;
      LaunchPass(t);
      ghost var slots1 := slots;
      AllLateOk();
      LandPass(LandsAfter(net, t));
      ghost var slots2 := slots;
      if plain && net.Good(p.count, t) {
        SomeComplete(t, slots1);
      }
      CompletePass();
      if !tracked && FollowsNetwork(p, temps, net, t, slots0, launched0, got0) {
        TurnFollows(p, temps, net, t, slots1, slots2, slots, launched, got0, got);
      }
    }

    lemma SomeComplete(t: nat, slots1: seq<Slot>)
      requires Valid() && plain && completed < p.count && net.Good(p.count, t) && LandedAll(p, LandsAfter(net, t), slots1, slots)
      requires launched < p.count ==> forall i :: 0 <= i < |slots1| ==> slots1[i].inUse
      requires forall i :: 0 <= i < |slots1| ==> LateOk(slots1[i].line)
      ensures exists i :: 0 <= i < |slots| && slots[i].inUse && Complete(slots[i])
    {
      TallyZero(slots, BusyOne());
      var i :| 0 <= i < |slots| && slots[i].inUse;
      assert OnSlot(i);
      CompleteInTime(p, slots[i], slots1[i].line, launched, net.after(t, i));
      assert Complete(slots[i]);
    }

    ghost predicate AllGood()
    {
      forall t: nat :: t < net.turns ==> net.Good(p.count, t)
    }

    /** The loop of imss_read_async, until every block is complete or the network has no more turns. */
    method TakeTurns() returns (ghost t: nat)
      requires Valid() && completed == 0
      modifies this`slots, this`launched, this`scheduled, this`completed, this`received, this`got, buf
      ensures Valid() && t <= net.turns && (completed >= p.count || t == net.turns)
      ensures plain && AllGood() ==> completed >= t
      ensures !tracked && old(Follows(0)) ==> Follows(t)
    {
      ghost var follows, good := !tracked && Follows(0), plain && AllGood();
      var u := 0;
      while completed < p.count && u < net.turns
        invariant Valid() && u <= net.turns
        invariant good ==> completed >= u
        invariant follows ==> Follows(u)
        decreases net.turns - u
      {
        ghost var goodTurn := net.Good(p.count, u);
        assert good ==> goodTurn;
        u := Step(u);
      }
      t := u;
    }

    /** imss_read_async against any behaviour of the network. If it ends, it has launched and completed every block
        once, returns the size of the read, and the buffer holds what was copied for each piece: with data of first servers
        only, the piece itself had the handles been handed back; without handles, what the network leaves in the temporary
        buffer. As many good turns as there are blocks are enough. */
    method ReadAll() returns (ret: Option<nat>)
      requires Valid() && completed == 0
      modifies this, buf
      ensures Valid()
      ensures ret.Some? <==> completed == p.count
      ensures ret.Some? ==> ret.value == p.n && launched == p.count && InFlight(slots) == 0
      ensures ret.Some? ==> forall k: nat :: k < p.count ==> CopiedOut(p, buf[..], got, k)
      ensures ret.Some? && plain && tracked ==> forall k: nat :: k < p.count && k in got ==> got[k] == p.Piece(k)
      ensures !tracked && old(Follows(0)) ==> (ret.Some? <==> net.Number(p, temps, net.turns, 0) == p.count)
      ensures !tracked && old(Follows(0)) && ret.Some? ==> GotShown(p, temps, net, net.turns, got)
      ensures plain && net.turns >= p.count && AllGood() ==> ret.Some?
    {
      ghost var t := TakeTurns();
      if completed < p.count {
        if !tracked && Follows(t) {
          Unfinished(t);
        }
        return None;
      }
      Finished();
      if !tracked && Follows(t) {
        ShownToEnd(p, temps, net, t, got);
      }
      return Some(received);
    }

    /** Between turns without handles, as many blocks are out as are complete. */
    lemma Unfinished(t: nat)
      requires Valid() && Follows(t)
      ensures net.Number(p, temps, t, 0) == completed
    {
      TallyZero(slots, BusyOne());
    }

    lemma Finished()
      requires Valid() && completed >= p.count
      ensures completed == p.count == launched && InFlight(slots) == 0 && received == p.n
      ensures forall k: nat :: k < p.count ==> CopiedOut(p, buf[..], got, k)
      ensures plain && tracked ==> forall k: nat :: k < p.count && k in got ==> got[k] == p.Piece(k)
    {
      AllDone(p, plain, tracked, slots, launched, completed, received, scheduled, got.Keys);
      forall k: nat | k < p.count ensures CopiedOut(p, buf[..], got, k) && (plain && tracked ==> got[k] == p.Piece(k)) {
        assert OnCut(k);
      }
    }
  }

  // ----------------------------------------------------------- turn by turn

  function LandsAfter(net: Network, t: nat): nat -> seq<nat> { (i: nat) => net.after(t, i) }

  ghost predicate LandedAll(p: Plan, w: nat -> seq<nat>, slots0: seq<Slot>, slots: seq<Slot>)
  {
    |slots| == |slots0| && forall i :: 0 <= i < |slots0| ==> slots[i] == slots0[i].(line := slots0[i].line.LandAll(p, w(i)))
  }

  /** Each receive is for a later piece, so there are at most as many as pieces. */
  lemma {:induction false} PostedFew(p: Plan, l: Line, m: nat, x: nat)
    requires PlainLine(p, l, m) && x < |l.posted|
    ensures x <= l.posted[x].piece < m
  {
    if x > 0 {
      PostedFew(p, l, m, x - 1);
    }
  }

  /** A request whose receive has landed is complete. */
  lemma CompleteInTime(p: Plan, slot: Slot, l: Line, m: nat, xs: seq<nat>)
    requires PlainLine(p, slot.line, m) && LateOk(l) && slot.line == l.LandAll(p, xs) && forall x: nat :: x < p.count ==> x in xs
    ensures Complete(slot)
  {
    if !Complete(slot) {
      PostedFew(p, slot.line, m, slot.handle.value);
      LandAllKeeps(p, l, xs);
    }
  }

  ghost predicate LinesAt(p: Plan, temps: nat -> seq<byte>, net: Network, t: nat, slots: seq<Slot>)
  {
    |slots| == MAX_CONCURRENT_REQUESTS && forall i :: 0 <= i < |slots| ==> !slots[i].inUse && slots[i].line == net.LineAt(p, temps, t, i)
  }

  /** The first m slots have taken their requests in turn t. */
  ghost predicate SentOut(p: Plan, temps: nat -> seq<byte>, net: Network, t: nat, slots: seq<Slot>, m: nat, launched: nat)
  {
    m <= |slots| && launched == net.Number(p, temps, t, m) && forall i :: 0 <= i < m ==> TookRequest(p, temps, net, t, i, slots[i])
  }

  ghost predicate TookRequest(p: Plan, temps: nat -> seq<byte>, net: Network, t: nat, i: nat, slot: Slot)
  {
    && slot.line == net.Requested(p, temps, t, i) && slot.inUse == net.Takes(p, temps, t, i)
    && (slot.inUse ==> var k := net.Number(p, temps, t, i); slot.block == p.start + k && slot.len == p.Len(k))
  }

  lemma SentMore(p: Plan, temps: nat -> seq<byte>, net: Network, t: nat, slots: seq<Slot>, slots': seq<Slot>, i: nat, k: nat, k': nat)
    requires SentOut(p, temps, net, t, slots, i, k) && i < |slots| && !slots[i].inUse && slots[i].line == net.LineAt(p, temps, t, i)
    requires if k >= p.count then slots' == slots && k' == k
             else
               var r := net.Ask(p, slots[i].line, t, i, k, 0);
               slots' == slots[i := After(p, false, slots[i], k, p.cut(k), p.Len(k), r)] && k' == if r.ok then k + 1 else k
    ensures SentOut(p, temps, net, t, slots', i + 1, k')
  {
    TurnOf(net, p, temps, t, i, slots[i].line, k);
    assert TookRequest(p, temps, net, t, i, slots'[i]);
  }

  lemma SentNext(p: Plan, temps: nat -> seq<byte>, net: Network, t: nat, slots0: seq<Slot>, slots: seq<Slot>, slots': seq<Slot>, i: nat, k: nat, k': nat)
    requires LinesAt(p, temps, net, t, slots0) && i < |slots0| == |slots| && slots[i] == slots0[i] && SentOut(p, temps, net, t, slots, i, k)
    requires if slots[i].inUse || k >= p.count then slots' == slots && k' == k
             else
               var r := net.Ask(p, slots[i].line, t, i, k, 0);
               slots' == slots[i := After(p, false, slots[i], k, p.cut(k), p.Len(k), r)] && k' == if r.ok then k + 1 else k
    ensures SentOut(p, temps, net, t, slots', i + 1, k')
  {
    SentMore(p, temps, net, t, slots, slots', i, k, k');
  }

  lemma {:induction false} NoneSent(p: Plan, temps: nat -> seq<byte>, net: Network, t: nat, slots: seq<Slot>, m: nat)
    requires net.Number(p, temps, t, 0) == p.count && m <= |slots| && LinesAt(p, temps, net, t, slots)
    ensures SentOut(p, temps, net, t, slots, m, p.count)
  {
    if m > 0 {
      NoneSent(p, temps, net, t, slots, m - 1);
      assert TookRequest(p, temps, net, t, m - 1, slots[m - 1]);
    }
  }

  /** The first m slots are free again, and what they held is copied. */
  ghost predicate CopiedAll(p: Plan, slots0: seq<Slot>, slots: seq<Slot>, got0: map<nat, seq<byte>>, got: map<nat, seq<byte>>, m: nat)
  {
    && m <= |slots| == |slots0|
    && (forall i :: 0 <= i < m ==> slots[i] == slots0[i].(inUse := false) && (slots0[i].inUse ==> Holds(p, slots0[i], got)))
    && (forall k :: k in got0 ==> k in got && got[k] == got0[k])
  }

  ghost predicate Holds(p: Plan, slot: Slot, got: map<nat, seq<byte>>)
  {
    slot.block >= p.start && slot.len <= |slot.line.bytes| && slot.block - p.start in got && got[slot.block - p.start] == slot.line.bytes[..slot.len]
  }

  lemma CopiedMore(p: Plan, slots0: seq<Slot>, slots: seq<Slot>, slots': seq<Slot>, got0: map<nat, seq<byte>>, got: map<nat, seq<byte>>,
                   got': map<nat, seq<byte>>, i: nat)
    requires CopiedAll(p, slots0, slots, got0, got, i) && i < |slots| && slots[i] == slots0[i]
    requires if !slots[i].inUse then slots' == slots && got' == got
             else
               && slots' == slots[i := slots[i].(inUse := false)]
               && slots[i].block >= p.start && slots[i].len <= |slots[i].line.bytes| && slots[i].block - p.start !in got
               && got' == got[slots[i].block - p.start := slots[i].line.bytes[..slots[i].len]]
    ensures CopiedAll(p, slots0, slots', got0, got', i + 1)
  {
    assert slots[i].inUse ==> Holds(p, slots0[i], got');
    assert forall j :: 0 <= j < i && slots0[j].inUse ==> Holds(p, slots0[j], got) && Holds(p, slots0[j], got');
  }

  /** What was copied in the first t turns is what the network left in the buffers. */
  ghost predicate GotShown(p: Plan, temps: nat -> seq<byte>, net: Network, t: nat, got: map<nat, seq<byte>>)
  {
    forall u: nat, i: nat {:trigger OnLaunch(u, i)} ::
      OnLaunch(u, i) && u < t && i < MAX_CONCURRENT_REQUESTS && net.Takes(p, temps, u, i) ==>
        net.Number(p, temps, u, i) in got && got[net.Number(p, temps, u, i)] == net.Shown(p, temps, u, i)
  }

  ghost predicate FollowsNetwork(p: Plan, temps: nat -> seq<byte>, net: Network, t: nat, slots: seq<Slot>, launched: nat, got: map<nat, seq<byte>>)
  {
    LinesAt(p, temps, net, t, slots) && launched == net.Number(p, temps, t, 0) && GotShown(p, temps, net, t, got)
  }

  lemma TurnOne(p: Plan, temps: nat -> seq<byte>, net: Network, t: nat, i: nat, slot1: Slot, slot2: Slot, got: map<nat, seq<byte>>)
    requires TookRequest(p, temps, net, t, i, slot1) && slot2 == slot1.(line := slot1.line.LandAll(p, net.after(t, i)))
    requires slot2.inUse ==> Holds(p, slot2, got)
    ensures slot2.line == net.LineAt(p, temps, t + 1, i)
    ensures net.Takes(p, temps, t, i) ==>
      net.Number(p, temps, t, i) in got && got[net.Number(p, temps, t, i)] == net.Shown(p, temps, t, i)
  {
  }

  /** The requests that went out in turn t were copied as the network left them. */
  ghost predicate TurnGot(p: Plan, temps: nat -> seq<byte>, net: Network, t: nat, got: map<nat, seq<byte>>)
  {
    forall i: nat :: i < MAX_CONCURRENT_REQUESTS && net.Takes(p, temps, t, i) ==>
      net.Number(p, temps, t, i) in got && got[net.Number(p, temps, t, i)] == net.Shown(p, temps, t, i)
  }

  lemma GotMore(p: Plan, temps: nat -> seq<byte>, net: Network, t: nat, got0: map<nat, seq<byte>>, got: map<nat, seq<byte>>)
    requires GotShown(p, temps, net, t, got0) && TurnGot(p, temps, net, t, got) && forall k :: k in got0 ==> k in got && got[k] == got0[k]
    ensures GotShown(p, temps, net, t + 1, got)
  {
  }

  lemma TurnLines(p: Plan, temps: nat -> seq<byte>, net: Network, t: nat, slots1: seq<Slot>, slots2: seq<Slot>, launched: nat,
                  got: map<nat, seq<byte>>)
    requires |slots1| == MAX_CONCURRENT_REQUESTS && SentOut(p, temps, net, t, slots1, |slots1|, launched)
    requires LandedAll(p, LandsAfter(net, t), slots1, slots2) && forall i :: 0 <= i < |slots2| && slots2[i].inUse ==> Holds(p, slots2[i], got)
    ensures forall i :: 0 <= i < |slots2| ==> slots2[i].line == net.LineAt(p, temps, t + 1, i)
    ensures TurnGot(p, temps, net, t, got)
  {
    forall i | 0 <= i < |slots2| ensures slots2[i].line == net.LineAt(p, temps, t + 1, i) {
      TurnOne(p, temps, net, t, i, slots1[i], slots2[i], got);
    }
    forall i: nat | i < MAX_CONCURRENT_REQUESTS && net.Takes(p, temps, t, i)
      ensures net.Number(p, temps, t, i) in got && got[net.Number(p, temps, t, i)] == net.Shown(p, temps, t, i)
    {
      TurnOne(p, temps, net, t, i, slots1[i], slots2[i], got);
    }
  }

  lemma TurnFollows(p: Plan, temps: nat -> seq<byte>, net: Network, t: nat, slots1: seq<Slot>, slots2: seq<Slot>, slots3: seq<Slot>,
                    launched: nat, got0: map<nat, seq<byte>>, got: map<nat, seq<byte>>)
    requires |slots1| == MAX_CONCURRENT_REQUESTS && SentOut(p, temps, net, t, slots1, |slots1|, launched)
    requires LandedAll(p, LandsAfter(net, t), slots1, slots2) && CopiedAll(p, slots2, slots3, got0, got, |slots2|)
    requires GotShown(p, temps, net, t, got0)
    ensures FollowsNetwork(p, temps, net, t + 1, slots3, launched, got)
  {
    TurnLines(p, temps, net, t, slots1, slots2, launched, got);
    GotMore(p, temps, net, t, got0, got);
  }

  lemma ShownToEnd(p: Plan, temps: nat -> seq<byte>, net: Network, t: nat, got: map<nat, seq<byte>>)
    requires net.Number(p, temps, t, 0) == p.count && t <= net.turns && GotShown(p, temps, net, t, got)
    ensures net.Number(p, temps, net.turns, 0) == p.count && GotShown(p, temps, net, net.turns, got)
  {
    NumberStays(net, p, temps, t, net.turns, 0);
    forall u: nat, i: nat | OnLaunch(u, i) && u < net.turns && i < MAX_CONCURRENT_REQUESTS && net.Takes(p, temps, u, i)
      ensures net.Number(p, temps, u, i) in got && got[net.Number(p, temps, u, i)] == net.Shown(p, temps, u, i)
    {
      if t <= u {
        NumberStays(net, p, temps, t, u, i);
      }
    }
  }

  lemma AllDone(p: Plan, plain: bool, tracked: bool, slots: seq<Slot>, launched: nat, completed: nat, received: nat, scheduled: nat, done: set<nat>)
    requires p.Ok() && completed == p.count && launched <= p.count && launched == completed + InFlight(slots)
    requires TableOk(p, slots, launched, done, plain, tracked) && scheduled == p.cut(launched) == received + BytesInFlight(slots)
    ensures launched == p.count && InFlight(slots) == 0 && received == p.n
    ensures forall k: nat :: k < p.count ==> k in done
  {
    TallyZero(slots, BusyOne());
    TallyZero(slots, BytesOne());
    forall k: nat | k < p.count ensures k in done {
      assert OnCut(k);
    }
  }

  // ----------------------------------------------------------- conclusions

  /** `bytes` are piece k of `flat`. */
  ghost predicate Right(p: Plan, flat: seq<byte>, k: nat, bytes: seq<byte>)
  {
    p.cut(k) <= p.cut(k + 1) <= |flat| && bytes == flat[p.cut(k)..p.cut(k + 1)]
  }

  /** What the first servers asked send, piece by piece, is `flat`. */
  ghost predicate Cuts(p: Plan, flat: seq<byte>)
  {
    |flat| == p.n && forall k: nat {:trigger OnCut(k)} :: OnCut(k) && k < p.count ==> Right(p, flat, k, p.Piece(k))
  }

  /** `flat`, which cannot be mistaken, is what the first servers that have the blocks send. */
  ghost predicate SurelySent(p: Plan, flat: seq<byte>)
  {
    |flat| == p.n && forall k: nat {:trigger OnCut(k)} :: OnCut(k) && k < p.count ==>
      First(p.replies(k)).Some? && Right(p, flat, k, First(p.replies(k)).value) && Unmistakable(First(p.replies(k)).value)
  }

  lemma {:induction false} FilledTo(p: Plan, flat: seq<byte>, buf: seq<byte>, got: map<nat, seq<byte>>, k: nat)
    requires p.Ok() && |flat| == p.n <= |buf| && k <= p.count
    requires forall j: nat :: j < k ==> CopiedOut(p, buf, got, j)
    requires forall j: nat :: j < k ==> j in got && Right(p, flat, j, got[j])
    ensures p.cut(k) <= p.n && buf[..p.cut(k)] == flat[..p.cut(k)]
  {
    if k > 0 {
      assert OnCut(k - 1);
      FilledTo(p, flat, buf, got, k - 1);
      var a, b := p.cut(k - 1), p.cut(k);
      assert CopiedOut(p, buf, got, k - 1);
      assert buf[..b] == buf[..a] + buf[a..b];
      assert flat[..b] == flat[..a] + flat[a..b];
    }
  }

  /** A finished read has the bytes of the file if and only if every piece was copied right. */
  lemma RightIff(p: Plan, flat: seq<byte>, buf: seq<byte>, got: map<nat, seq<byte>>)
    requires p.Ok() && |flat| == p.n <= |buf|
    requires forall k: nat :: k < p.count ==> CopiedOut(p, buf, got, k)
    ensures buf[..p.n] == flat <==> forall k: nat :: k < p.count ==> k in got && Right(p, flat, k, got[k])
  {
    if forall k: nat :: k < p.count ==> k in got && Right(p, flat, k, got[k]) {
      FilledTo(p, flat, buf, got, p.count);
      assert flat[..p.n] == flat;
    } else {
      var k: nat :| k < p.count && !(k in got && Right(p, flat, k, got[k]));
      assert OnCut(k);
      assert CopiedOut(p, buf, got, k);
      assert buf[..p.n][p.cut(k)..p.cut(k + 1)] == buf[p.cut(k)..p.cut(k + 1)];
    }
  }

  /** Whatever the network left in a slot's buffer when it was copied is the file's. */
  ghost predicate AllShown(p: Plan, temps: nat -> seq<byte>, net: Network, flat: seq<byte>)
  {
    forall u: nat, i: nat {:trigger OnLaunch(u, i)} ::
      OnLaunch(u, i) && u < net.turns && i < MAX_CONCURRENT_REQUESTS && net.Takes(p, temps, u, i) ==>
        Right(p, flat, net.Number(p, temps, u, i), net.Shown(p, temps, u, i))
  }

  /** Without handles, a finished read has the bytes of the file if and only if the network left them in the buffers. */
  lemma RightIffShown(p: Plan, temps: nat -> seq<byte>, net: Network, flat: seq<byte>, buf: seq<byte>, got: map<nat, seq<byte>>)
    requires p.Ok() && |flat| == p.n <= |buf| && net.Number(p, temps, net.turns, 0) == p.count && GotShown(p, temps, net, net.turns, got)
    requires forall k: nat :: k < p.count ==> CopiedOut(p, buf, got, k)
    ensures buf[..p.n] == flat <==> AllShown(p, temps, net, flat)
  {
    RightIff(p, flat, buf, got);
    if AllShown(p, temps, net, flat) {
      forall k: nat | k < p.count ensures k in got && Right(p, flat, k, got[k]) {
        var u, j := TakenSomewhere(net, p, temps, net.turns, 0, k);
        assert OnLaunch(u, j);
      }
    } else {
      var u: nat, i: nat :| OnLaunch(u, i) && u < net.turns && i < MAX_CONCURRENT_REQUESTS && net.Takes(p, temps, u, i)
                            && !Right(p, flat, net.Number(p, temps, u, i), net.Shown(p, temps, u, i));
      assert net.Number(p, temps, u, i) < p.count;
    }
  }

  /** Data of first servers that is never late is copied right. */
  lemma PromptRight(p: Plan, temps: nat -> seq<byte>, net: Network, flat: seq<byte>)
    requires p.Ok() && Plain(p, temps) && Cuts(p, flat) && (forall i: nat :: |temps(i)| == p.size) && Prompt(net, p, temps)
    ensures AllShown(p, temps, net, flat)
  {
    forall u: nat, i: nat | OnLaunch(u, i) && u < net.turns && i < MAX_CONCURRENT_REQUESTS && net.Takes(p, temps, u, i)
      ensures Right(p, flat, net.Number(p, temps, u, i), net.Shown(p, temps, u, i))
    {
      var k := net.Number(p, temps, u, i);
      assert OnCut(k) && k < p.count;
      PromptShown(net, p, temps, u, i, k);
    }
  }

  /** The exact condition for data of first servers when handles are not handed back and the pieces can be told apart:
      every reply arrives in the turn its request went out in. */
  lemma PromptIff(p: Plan, temps: nat -> seq<byte>, net: Network, flat: seq<byte>)
    requires p.Ok() && Plain(p, temps) && Cuts(p, flat) && (forall i: nat :: |temps(i)| == p.size) && ToldApart(p, temps)
    ensures AllShown(p, temps, net, flat) <==> Prompt(net, p, temps)
  {
    if Prompt(net, p, temps) {
      PromptRight(p, temps, net, flat);
    }
    if AllShown(p, temps, net, flat) {
      forall t: nat, i: nat | OnLaunch(t, i) && t < net.turns && i < MAX_CONCURRENT_REQUESTS
                              && net.Takes(p, temps, t, i) && net.outcome(t, i, 0).Pending?
        ensures |net.LineAt(p, temps, t, i).posted| in net.after(t, i)
      {
        var k := net.Number(p, temps, t, i);
        assert OnCut(k) && k < p.count;
        ShownInTime(net, p, temps, t, i, k);
      }
    }
  }

  /** When no receive ever waits, data is copied right from whichever server has it. */
  lemma InstantRight(p: Plan, temps: nat -> seq<byte>, net: Network, flat: seq<byte>)
    requires p.Ok() && SurelySent(p, flat) && (forall i: nat :: |temps(i)| == p.size >= 22) && net.Instant()
    ensures AllShown(p, temps, net, flat)
  {
    forall u: nat, i: nat | OnLaunch(u, i) && u < net.turns && i < MAX_CONCURRENT_REQUESTS && net.Takes(p, temps, u, i)
      ensures Right(p, flat, net.Number(p, temps, u, i), net.Shown(p, temps, u, i))
    {
      var k := net.Number(p, temps, u, i);
      assert OnCut(k) && k < p.count;
      InstantShown(net, p, temps, u, i, k, First(p.replies(k)).value);
    }
  }

  /** If none is refused either, a read of data that some server has ends after as many turns as it takes to fill the slots with
      all its pieces, and never before. */
  lemma InstantEnds(p: Plan, temps: nat -> seq<byte>, net: Network, flat: seq<byte>)
    requires p.Ok() && SurelySent(p, flat) && (forall i: nat :: |temps(i)| == p.size >= 22) && net.AlwaysAtOnce()
    ensures net.Number(p, temps, net.turns, 0) == p.count <==> p.count <= MAX_CONCURRENT_REQUESTS * net.turns
  {
    forall k: nat | OnCut(k) && k < p.count ensures SureAt(p, k) {
    }
    forall t: nat, i: nat, a: nat ensures !net.outcome(t, i, a).Pending? {
      assert net.AtOnce(t, i);
    }
    assert |temps(0)| >= 22;
    AtOnceNumber(net, p, temps, net.turns, 0);
  }

  lemma NoKeyFront(bytes: seq<byte>, piece: seq<byte>)
    requires |piece| <= |bytes| && Unmistakable(piece)
    ensures Landed(bytes, NO_KEY + [0])[..|piece|] != piece
  {
    var k, w := Min(22, |piece|), Landed(bytes, NO_KEY + [0]);
    assert |NO_KEY| == 22;
    assert forall x :: 0 <= x < k ==> w[x] == NO_KEY[x];
    assert w[..|piece|][..k] == NO_KEY[..k];
  }

  /** A server that does not have the block answers so, but late: its message is copied as data, the other copies are
      never asked, and a finished read returns the full size with wrong bytes. */
  lemma LateNoKeyWrong(p: Plan, temps: nat -> seq<byte>, net: Network, flat: seq<byte>, t: nat, i: nat, k: nat)
    requires p.Ok() && SurelySent(p, flat) && |temps(i)| == p.size && t < net.turns && i < MAX_CONCURRENT_REQUESTS
    requires k == net.Number(p, temps, t, i) < p.count && p.replies(k) != [] && p.replies(k)[0].None? && net.outcome(t, i, 0).Pending?
    requires net.LineAt(p, temps, t, i).late == {} && !LooksMissing(net.LineAt(p, temps, t, i).bytes)
    requires |net.LineAt(p, temps, t, i).posted| in net.after(t, i)
    ensures !AllShown(p, temps, net, flat)
  {
    assert OnLaunch(t, i) && OnCut(k);
    NoKeyAsData(net, p, temps, t, i, k);
    NoKeyFront(net.LineAt(p, temps, t, i).bytes, First(p.replies(k)).value);
  }

  // --------------------------------------------------- reading from servers

  /** `p` asks for the pieces of the range, in order, and `ask` answers. */
  ghost predicate Follows(size: nat, off: nat, n: nat, p: Plan, ask: Asks)
    requires size > 0
  {
    && p.size == size && p.n == n && p.count == Blocks(size, off, n) && p.first == off % size && p.start == off / size + 1
    && AsksAll(size, off, n, p, ask)
  }

  ghost predicate AsksAll(size: nat, off: nat, n: nat, p: Plan, ask: Asks)
    requires size > 0
  {
    forall k: nat {:trigger OnRequest(k)} :: OnRequest(k) ==> AsksAt(size, off, n, p, ask, k)
  }

  ghost predicate AsksAt(size: nat, off: nat, n: nat, p: Plan, ask: Asks, k: nat)
    requires size > 0
  {
    && p.cut(k) == Cut(size, off, n, k) && p.cut(k + 1) == Cut(size, off, n, k + 1)
    && (p.cut(k) <= p.cut(k + 1) ==> p.replies(k) == ask(p.start + k, p.OffsetIn(k), p.cut(k + 1) - p.cut(k)))
  }

  /** Piece k of the plan is a piece of the range. */
  lemma FollowsPiece(size: nat, off: nat, n: nat, p: Plan, ask: Asks, k: nat)
    requires size > 0 && n > 0 && Follows(size, off, n, p, ask) && k < p.count
    ensures p.cut(k) <= n && StartsPiece(size, off, n, p.cut(k)) && PieceEnd(size, off, n, p.cut(k)) == p.cut(k + 1)
    ensures p.replies(k) == AskedAt(size, off, n, ask, p.cut(k))
  {
    assert OnRequest(k);
    CutPiece(size, off, n, k, p.OffsetIn(k));
  }

  /** Its bounds, and the request for it. */
  lemma FollowsCut(size: nat, off: nat, n: nat, p: Plan, ask: Asks, k: nat, a: nat, b: nat, o: nat)
    requires size > 0 && n > 0 && Follows(size, off, n, p, ask) && k < p.count && a == p.cut(k) && b == p.cut(k + 1) && o == p.OffsetIn(k)
    ensures a < b <= n && o < size && Min(size - o, n - a) == b - a && p.replies(k) == ask(p.start + k, o, b - a)
  {
    assert OnRequest(k);
    CutPiece(size, off, n, k, o);
  }

  lemma FollowsEnds(size: nat, off: nat, n: nat, p: Plan, ask: Asks)
    requires size > 0 && n > 0 && Follows(size, off, n, p, ask)
    ensures p.first < p.size && 0 < p.count && p.cut(0) == 0 && p.cut(p.count) == n
  {
    CutLast(size, off, n);
    assert OnRequest(p.count) && OnRequest(0);
  }

  lemma ReplySizes(v: View, b: nat, o: nat, len: nat, replies: seq<Reply>)
    requires replies == v.Ask()(b, o, len)
    ensures forall a :: 0 <= a < |replies| && replies[a].Some? ==> |replies[a].value| == len
  {
    assert replies == v.Asked(b, o, len);
  }

  lemma FollowsFit(v: View, off: nat, n: nat, p: Plan, k: nat)
    requires v.size > 0 && n > 0 && Follows(v.size, off, n, p, v.Ask()) && k < p.count
    ensures p.Fits(k)
  {
    FollowsCut(v.size, off, n, p, v.Ask(), k, p.cut(k), p.cut(k + 1), p.OffsetIn(k));
    ReplySizes(v, p.start + k, p.OffsetIn(k), p.cut(k + 1) - p.cut(k), p.replies(k));
  }

  lemma CutsInOrder(size: nat, off: nat, n: nat, p: Plan, ask: Asks, j: nat, k: nat)
    requires size > 0 && Follows(size, off, n, p, ask) && j < k
    ensures p.cut(j + 1) <= p.cut(k)
  {
    assert OnRequest(j) && OnRequest(k);
    CutMono(size, off, n, j + 1, k);
  }

  /** The requests cover the range piece by piece. */
  lemma FollowsFits(v: View, off: nat, n: nat, p: Plan)
    requires v.size > 0 && n > 0 && Follows(v.size, off, n, p, v.Ask())
    ensures p.Ok()
  {
    FollowsEnds(v.size, off, n, p, v.Ask());
    forall k: nat | OnCut(k) && k < p.count ensures p.Fits(k) {
      FollowsFit(v, off, n, p, k);
    }
    forall j: nat, k: nat | OnCut(j) && OnCut(k) && j < k ensures p.cut(j + 1) <= p.cut(k) {
      CutsInOrder(v.size, off, n, p, v.Ask(), j, k);
    }
  }

  /** What the first servers send for the range is what the plan gets. */
  lemma FollowsFirst(size: nat, off: nat, p: Plan, ask: Asks, flat: seq<byte>, temps: nat -> seq<byte>)
    requires size > 0 && |flat| > 0 && Follows(size, off, |flat|, p, ask) && AllFirst(size, off, ask, flat)
    ensures Cuts(p, flat)
    ensures AllUnmistakable(size, off, flat) && (forall i: nat :: !LooksMissing(temps(i))) ==> Plain(p, temps)
  {
    forall k: nat | OnCut(k) && k < p.count
      ensures Right(p, flat, k, p.Piece(k)) && p.replies(k) != [] && p.replies(k)[0].Some?
      ensures AllUnmistakable(size, off, flat) ==> Unmistakable(p.Piece(k))
    {
      FollowsPiece(size, off, |flat|, p, ask, k);
      assert OnPiece(p.cut(k));
    }
  }

  lemma FollowsSent(size: nat, off: nat, p: Plan, ask: Asks, flat: seq<byte>)
    requires size > 0 && |flat| > 0 && Follows(size, off, |flat|, p, ask) && AllSent(size, off, ask, flat) && AllUnmistakable(size, off, flat)
    ensures SurelySent(p, flat)
  {
    forall k: nat | OnCut(k) && k < p.count
      ensures First(p.replies(k)).Some? && Right(p, flat, k, First(p.replies(k)).value) && Unmistakable(First(p.replies(k)).value)
    {
      FollowsPiece(size, off, |flat|, p, ask, k);
      assert OnPiece(p.cut(k));
    }
  }

  function CutOf(size: nat, off: nat, n: nat): nat -> nat
  {
    (k: nat) => if size > 0 then Cut(size, off, n, k) else 0
  }

  function RepliesTo(start: nat, first: nat, cut: nat -> nat, ask: Asks, k: nat): seq<Reply>
  {
    if cut(k) <= cut(k + 1) then ask(start + k, OffsetOf(first, k), cut(k + 1) - cut(k)) else []
  }

  function PlanOf(size: nat, start: nat, first: nat, n: nat, count: nat, cut: nat -> nat, ask: Asks): Plan
  {
    Plan(size, n, start, first, count, cut, (k: nat) => RepliesTo(start, first, cut, ask, k))
  }

  /** The requests for n bytes at `off`. */
  function PlanFor(v: View, off: nat, n: nat): Plan
    requires v.size > 0
  {
    PlanOf(v.size, off / v.size + 1, off % v.size, n, Max(0, Blocks(v.size, off, n)), CutOf(v.size, off, n), v.Ask())
  }

  lemma PlanAsksAt(size: nat, off: nat, n: nat, start: nat, first: nat, count: nat, cut: nat -> nat, ask: Asks, k: nat)
    requires size > 0 && cut(k) == Cut(size, off, n, k) && cut(k + 1) == Cut(size, off, n, k + 1)
    ensures AsksAt(size, off, n, PlanOf(size, start, first, n, count, cut, ask), ask, k)
  {
  }

  lemma PlanAsksAll(size: nat, off: nat, n: nat, start: nat, first: nat, count: nat, cut: nat -> nat, ask: Asks)
    requires size > 0 && forall k: nat {:trigger OnRequest(k)} :: OnRequest(k) ==> cut(k) == Cut(size, off, n, k)
    ensures AsksAll(size, off, n, PlanOf(size, start, first, n, count, cut, ask), ask)
  {
    forall k: nat | OnRequest(k) ensures AsksAt(size, off, n, PlanOf(size, start, first, n, count, cut, ask), ask, k) {
      assert OnRequest(k + 1);
      PlanAsksAt(size, off, n, start, first, count, cut, ask, k);
    }
  }

  lemma FollowsOf(size: nat, off: nat, n: nat, start: nat, first: nat, count: nat, ask: Asks, p: Plan)
    requires size > 0 && start == off / size + 1 && first == off % size && count == Blocks(size, off, n)
    requires p == PlanOf(size, start, first, n, count, CutOf(size, off, n), ask)
    ensures Follows(size, off, n, p, ask)
  {
    PlanAsksAll(size, off, n, start, first, count, CutOf(size, off, n), ask);
  }

  lemma PlanFollows(v: View, off: nat, n: nat)
    requires v.size > 0 && n > 0
    ensures Follows(v.size, off, n, PlanFor(v, off, n), v.Ask())
  {
    assert Blocks(v.size, off, n) > 0 by {
      CutLast(v.size, off, n);
    }
    FollowsOf(v.size, off, n, off / v.size + 1, off % v.size, Blocks(v.size, off, n), v.Ask(), PlanFor(v, off, n));
  }

  /** imss_read_async of n bytes at `off` from a file of `st` bytes, in the pieces of `p`; `flat` stands for what is stored
      there. A range that reaches past the end of the file is refused. If the read ends, it returns n. As it is, the buffer
      then holds the file's bytes if and only if the network left them in the temporary buffers; had the handles been handed
      back, whenever the first servers have them and they cannot be mistaken. */
  method ReadAsync(v: View, st: nat, buf: array<byte>, n: nat, off: nat, tracked: bool, temps: nat -> seq<byte>,
                   net: Network, ghost p: Plan, ghost flat: seq<byte>) returns (ret: Option<nat>)
    requires v.size > 0 && n <= buf.Length && |flat| == n && (forall i: nat :: |temps(i)| == v.size) && p == PlanFor(v, off, n)
    modifies buf
    ensures off >= st || n == 0 || off + n > st ==> ret == Some(0) && buf[..] == old(buf[..])
    ensures off + n <= st && n > 0 ==> ret == None || ret == Some(n)
    ensures off + n <= st && n > 0 && tracked && ret.Some? && Plain(p, temps) && Cuts(p, flat) ==> buf[..n] == flat
    ensures off + n <= st && n > 0 && !tracked ==> (ret.Some? <==> net.Number(p, temps, net.turns, 0) == p.count)
    ensures off + n <= st && n > 0 && !tracked && ret.Some? ==> (buf[..n] == flat <==> AllShown(p, temps, net, flat))
    ensures Plain(p, temps) && net.turns >= n && (forall t: nat :: t < net.turns ==> net.Good(n, t)) ==> ret.Some?
  {
    if off >= st || n == 0 || off + n > st {
      return Some(0);
    }
    PlanFollows(v, off, n);
    FollowsFits(v, off, n, p);
    var plan := PlanFor(v, off, n);
    ret := ReadPlanned(plan, buf, tracked, temps, net, flat);
    GoodFewer(net, p);
  }

  /** As many good turns for more pieces. */
  lemma GoodFewer(net: Network, p: Plan)
    requires p.Ok()
    ensures p.count <= p.n
    ensures (forall t: nat :: t < net.turns ==> net.Good(p.n, t)) ==> forall t: nat :: t < net.turns ==> net.Good(p.count, t)
  {
    CutCount(p, p.count);
    forall t: nat | net.Good(p.n, t) ensures net.Good(p.count, t) {
    }
  }

  /** The read itself, once its pieces are known. */
  method ReadPlanned(p: Plan, buf: array<byte>, tracked: bool, temps: nat -> seq<byte>, net: Network, ghost flat: seq<byte>)
    returns (ret: Option<nat>)
    requires p.Ok() && |flat| == p.n <= buf.Length && forall i: nat :: |temps(i)| == p.size
    modifies buf
    ensures ret == None || ret == Some(p.n)
    ensures tracked && ret.Some? && Plain(p, temps) && Cuts(p, flat) ==> buf[..p.n] == flat
    ensures !tracked ==> (ret.Some? <==> net.Number(p, temps, net.turns, 0) == p.count)
    ensures !tracked && ret.Some? ==> (buf[..p.n] == flat <==> AllShown(p, temps, net, flat))
    ensures Plain(p, temps) && net.turns >= p.count && (forall t: nat :: t < net.turns ==> net.Good(p.count, t)) ==> ret.Some?
  {
    var r := new AsyncReader(p, tracked, buf, temps, net);
    ret := r.ReadAll();
    if ret.Some? {
      if tracked && Plain(p, temps) && Cuts(p, flat) {
        forall k: nat | k < p.count ensures k in r.got && Right(p, flat, k, r.got[k]) {
          assert OnCut(k) && CopiedOut(p, buf[..], r.got, k);
        }
        RightIff(p, flat, buf[..], r.got);
      } else if !tracked {
        RightIffShown(p, temps, net, flat, buf[..], r.got);
      }
    }
  }

  /** There are at most as many pieces as bytes. */
  lemma {:induction false} CutCount(p: Plan, k: nat)
    requires p.Ok() && k <= p.count
    ensures k <= p.cut(k)
  {
    if k > 0 {
      CutCount(p, k - 1);
      assert OnCut(k - 1);
    }
  }
}
