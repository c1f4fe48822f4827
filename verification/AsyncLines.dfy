/** The temporary buffers of the asynchronous reader: what requests and late replies leave in them. */
module AsyncLines {
  import opened Bytes
  import opened Store
  import opened Replies

  const MAX_CONCURRENT_REQUESTS := 100

  // Markers: facts about a piece, and about the request of a slot in a turn, used where a proof names one.
  predicate OnCut(k: int) { true }
  predicate OnLaunch(t: int, i: int) { true }

  /** Only the first piece starts inside its block. */
  function OffsetOf(first: nat, k: nat): nat { if k == 0 then first else 0 }

  /** What a server sends: data, or the no-key message. */
  function Text(reply: Reply): seq<byte>
  {
    match reply
    case None => NO_KEY + [0]
    case Some(r) => r
  }

  /** A receive: for which piece, and for which of the servers asked for it. */
  datatype Receive = Receive(piece: nat, attempt: nat)

  /** The requests of one read. Piece k is bytes cut(k) up to cut(k + 1) of it, lies in block start + k, and the servers
      asked for it in turn would send replies(k). */
  datatype Plan = Plan(size: nat, n: nat, start: nat, first: nat, count: nat, cut: nat -> nat, replies: nat -> seq<Reply>)
  {
    function OffsetIn(k: nat): nat { OffsetOf(first, k) }

    function Len(k: nat): nat { if cut(k) <= cut(k + 1) then cut(k + 1) - cut(k) else 0 }

    /** What the first server asked for piece k sends, if it has it. */
    function Piece(k: nat): seq<byte> { if replies(k) != [] && replies(k)[0].Some? then replies(k)[0].value else [] }

    function TextOf(r: Receive): seq<byte> { if r.attempt < |replies(r.piece)| then Text(replies(r.piece)[r.attempt]) else [] }

    /** Piece k ends with its block or with the read, and replies have its size. */
    ghost predicate Fits(k: nat)
    {
      && cut(k) < cut(k + 1) <= n && OffsetIn(k) < size && Min(size - OffsetIn(k), n - cut(k)) == cut(k + 1) - cut(k)
      && forall a :: 0 <= a < |replies(k)| && replies(k)[a].Some? ==> |replies(k)[a].value| == cut(k + 1) - cut(k)
    }

    ghost predicate Ok()
    {
      && first < size && 0 < count && cut(0) == 0 && cut(count) == n
      && (forall k: nat {:trigger OnCut(k)} :: OnCut(k) && k < count ==> Fits(k))
      && (forall j: nat, k: nat {:trigger OnCut(j), OnCut(k)} :: OnCut(j) && OnCut(k) && j < k ==> cut(j + 1) <= cut(k))
    }
  }

  /** How a receive was posted: not at all, already finished, or to land later. */
  datatype Outcome = Refused | Immediate | Pending

  /** A temporary buffer: its bytes, the receives posted on it so far, which of them have not landed yet, and the last one
      that did. A receive outlives the request it was posted for. */
  datatype Line = Line(bytes: seq<byte>, posted: seq<Receive>, late: set<nat>, top: Option<nat>)
  {
    function Land(p: Plan, x: nat): (l: Line)
      ensures |l.bytes| == |bytes|
    {
      if x in late && x < |posted| then Line(Landed(bytes, p.TextOf(posted[x])), posted, late - {x}, Some(x)) else this
    }

    function LandAll(p: Plan, xs: seq<nat>): (l: Line)
      ensures |l.bytes| == |bytes|
      decreases |xs|
    {
      if xs == [] then this else Land(p, xs[0]).LandAll(p, xs[1..])
    }

    function Post(p: Plan, r: Receive, outcome: Outcome): (l: Line)
      ensures |l.bytes| == |bytes|
    {
      match outcome
      case Refused => this
      case Immediate => Line(bytes, posted + [r], late + {|posted|}, top).Land(p, |posted|)
      case Pending => Line(bytes, posted + [r], late + {|posted|}, top)
    }
  }

  /** How a request went: what it leaves in the buffer, whether get_ndata succeeded, and whether its last receive is
      still to land. */
  datatype Sent = Sent(line: Line, ok: bool, pending: bool)

  /** What the network does in each turn of the reader's loop, slot by slot: how the receive for each server asked is
      posted, which receives land in the slot's buffer before that, and which between the request and the completion
      check. */
  datatype Network = Network(turns: nat, outcome: (nat, nat, nat) -> Outcome, before: (nat, nat, nat) -> seq<nat>, after: (nat, nat) -> seq<nat>)
  {
    /** get_ndata on slot i in turn t, from the a-th server on: a receive is posted for the server's reply, and whatever is
        in the buffer then decides whether the next server is asked. */
    function Ask(p: Plan, line: Line, t: nat, i: nat, k: nat, a: nat): (r: Sent)
      ensures |r.line.bytes| == |line.bytes|
      decreases |p.replies(k)| - a
    {
      if a >= |p.replies(k)| then Sent(line, false, false) else
      var line1 := line.LandAll(p, before(t, i, a));
      if outcome(t, i, a).Refused? then Sent(line1, false, false) else
      var line2 := line1.Post(p, Receive(k, a), outcome(t, i, a));
      if LooksMissing(line2.bytes) then Ask(p, line2, t, i, k, a + 1) else Sent(line2, true, outcome(t, i, a).Pending?)
    }

    /** How many pieces are out before slot i of turn t, when every request is over in its own turn. */
    function Number(p: Plan, temps: nat -> seq<byte>, t: nat, i: nat): (m: nat)
      ensures m <= p.count
      decreases t, i, 0
    {
      if i > 0 then Number(p, temps, t, i - 1) + (if Takes(p, temps, t, i - 1) then 1 else 0)
      else if t > 0 then Number(p, temps, t - 1, MAX_CONCURRENT_REQUESTS)
      else 0
    }

    /** Slot i takes a piece in turn t. */
    predicate Takes(p: Plan, temps: nat -> seq<byte>, t: nat, i: nat)
      decreases t, i, 2
    {
      Number(p, temps, t, i) < p.count && Ask(p, LineAt(p, temps, t, i), t, i, Number(p, temps, t, i), 0).ok
    }

    /** Slot i's buffer once the requests of turn t are out. */
    function Requested(p: Plan, temps: nat -> seq<byte>, t: nat, i: nat): (l: Line)
      ensures |l.bytes| == |temps(i)|
      decreases t, i, 2
    {
      if Number(p, temps, t, i) < p.count then Ask(p, LineAt(p, temps, t, i), t, i, Number(p, temps, t, i), 0).line
      else LineAt(p, temps, t, i)
    }

    /** Slot i's buffer after t turns. */
    function LineAt(p: Plan, temps: nat -> seq<byte>, t: nat, i: nat): (l: Line)
      ensures |l.bytes| == |temps(i)|
      decreases t, i, 1
    {
      if t == 0 then Line(temps(i), [], {}, None) else Requested(p, temps, t - 1, i).LandAll(p, after(t - 1, i))
    }

    /** What is copied out for the piece that slot i takes in turn t. */
    function Shown(p: Plan, temps: nat -> seq<byte>, t: nat, i: nat): seq<byte>
    {
      var k, bytes := Number(p, temps, t, i), LineAt(p, temps, t + 1, i).bytes;
      bytes[..Min(p.Len(k), |bytes|)]
    }

    /** Turn t refuses no receive, and the first `bound` receives on every buffer have landed by its end. */
    ghost predicate Good(bound: nat, t: nat)
    {
      forall i: nat :: !outcome(t, i, 0).Refused? && forall x: nat :: x < bound ==> x in after(t, i)
    }

    /** No receive ever has to wait: it is refused, or finished as soon as it is posted. */
    ghost predicate Instant()
    {
      forall t: nat, i: nat, a: nat :: !outcome(t, i, a).Pending?
    }

    /** No receive for slot i in turn t is refused or has to wait. */
    ghost predicate AtOnce(t: nat, i: nat)
    {
      forall a: nat :: outcome(t, i, a).Immediate?
    }

    ghost predicate AlwaysAtOnce()
    {
      forall t: nat, i: nat :: AtOnce(t, i)
    }
  }

  // ---------------------------------------------------------------- landing

  lemma {:induction false} LandAllKeeps(p: Plan, l: Line, xs: seq<nat>)
    requires forall x :: x in l.late ==> x < |l.posted|
    ensures l.LandAll(p, xs).posted == l.posted && l.LandAll(p, xs).late <= l.late
    ensures forall x :: x in xs ==> x !in l.LandAll(p, xs).late
    ensures l.LandAll(p, xs).top == l.top || (l.LandAll(p, xs).top.Some? && l.LandAll(p, xs).top.value in xs)
    decreases |xs|
  {
    if xs != [] {
      LandAllKeeps(p, l.Land(p, xs[0]), xs[1..]);
    }
  }

  /** Receives that are not outstanding do not land. */
  lemma {:induction false} LandNone(p: Plan, l: Line, xs: seq<nat>)
    requires forall x :: x in xs ==> x !in l.late
    ensures l.LandAll(p, xs) == l
    decreases |xs|
  {
    if xs != [] {
      assert xs[0] in xs;
      LandNone(p, l, xs[1..]);
    }
  }

  lemma {:induction false} LandOnly(p: Plan, l: Line, x: nat, xs: seq<nat>)
    requires l.late == {x} && x < |l.posted| && x in xs
    ensures l.LandAll(p, xs) == l.Land(p, x)
    decreases |xs|
  {
    if xs[0] == x {
      LandNone(p, l.Land(p, x), xs[1..]);
    } else {
      LandOnly(p, l, x, xs[1..]);
    }
  }

  // ------------------------------------------------- data of first servers only

  /** The first servers send data that cannot be mistaken, and no buffer looks like the no-key message at first. */
  ghost predicate Plain(p: Plan, temps: nat -> seq<byte>)
  {
    && (forall k: nat {:trigger OnCut(k)} :: OnCut(k) && k < p.count ==> p.replies(k) != [] && p.replies(k)[0].Some? && Unmistakable(p.Piece(k)))
    && forall i: nat :: !LooksMissing(temps(i))
  }

  /** A buffer on which only first servers were asked, each piece once, all below m. */
  ghost predicate PlainLine(p: Plan, l: Line, m: nat)
  {
    && !LooksMissing(l.bytes) && |l.bytes| == p.size && m <= p.count
    && (forall x :: x in l.late ==> x < |l.posted|)
    && (forall x :: 0 <= x < |l.posted| ==> l.posted[x].attempt == 0 && l.posted[x].piece < m)
    && (forall x, y :: 0 <= x < y < |l.posted| ==> l.posted[x].piece < l.posted[y].piece)
  }

  lemma PlainText(p: Plan, temps: nat -> seq<byte>, k: nat)
    requires p.Ok() && Plain(p, temps) && k < p.count
    ensures p.TextOf(Receive(k, 0)) == p.Piece(k) && Unmistakable(p.Piece(k)) && |p.Piece(k)| == p.Len(k) <= p.size
  {
    assert OnCut(k);
  }

  lemma PlainLand(p: Plan, temps: nat -> seq<byte>, l: Line, m: nat, x: nat)
    requires p.Ok() && Plain(p, temps) && PlainLine(p, l, m)
    ensures PlainLine(p, l.Land(p, x), m)
  {
    if x in l.late {
      PlainText(p, temps, l.posted[x].piece);
      NeverMissing(l.bytes, p.TextOf(l.posted[x]));
    }
  }

  lemma {:induction false} PlainLandAll(p: Plan, temps: nat -> seq<byte>, l: Line, m: nat, xs: seq<nat>)
    requires p.Ok() && Plain(p, temps) && PlainLine(p, l, m)
    ensures PlainLine(p, l.LandAll(p, xs), m)
    decreases |xs|
  {
    if xs != [] {
      PlainLand(p, temps, l, m, xs[0]);
      PlainLandAll(p, temps, l.Land(p, xs[0]), m, xs[1..]);
    }
  }

  /** Then a request asks the first server only, and succeeds unless its receive is refused. */
  lemma PlainAsk(net: Network, p: Plan, temps: nat -> seq<byte>, l: Line, t: nat, i: nat, k: nat)
    requires p.Ok() && Plain(p, temps) && PlainLine(p, l, k) && k < p.count
    ensures var r, l1, out := net.Ask(p, l, t, i, k, 0), l.LandAll(p, net.before(t, i, 0)), net.outcome(t, i, 0);
            if out.Refused? then r == Sent(l1, false, false) && PlainLine(p, l1, k)
            else r == Sent(l1.Post(p, Receive(k, 0), out), true, out.Pending?) && PlainLine(p, r.line, k + 1)
  {
    PlainLandAll(p, temps, l, k, net.before(t, i, 0));
    PlainText(p, temps, k);
    NeverMissing(l.LandAll(p, net.before(t, i, 0)).bytes, p.Piece(k));
    assert OnCut(k);
  }

  lemma PlainMore(p: Plan, l: Line, m: nat, m': nat)
    requires PlainLine(p, l, m) && m <= m' <= p.count
    ensures PlainLine(p, l, m')
  {
  }

  /** A slot's buffer over one turn: the request for piece k, and what lands after it. */
  lemma PlainStep(net: Network, p: Plan, temps: nat -> seq<byte>, l: Line, t: nat, i: nat, k: nat)
    requires p.Ok() && Plain(p, temps) && PlainLine(p, l, k) && k <= p.count
    ensures k < p.count ==> (net.Ask(p, l, t, i, k, 0).ok <==> !net.outcome(t, i, 0).Refused?)
    ensures k < p.count ==> PlainLine(p, net.Ask(p, l, t, i, k, 0).line.LandAll(p, net.after(t, i)), if net.outcome(t, i, 0).Refused? then k else k + 1)
    ensures k == p.count ==> PlainLine(p, l.LandAll(p, net.after(t, i)), k)
  {
    if k < p.count {
      PlainAsk(net, p, temps, l, t, i, k);
      var r := net.Ask(p, l, t, i, k, 0);
      PlainLandAll(p, temps, r.line, if net.outcome(t, i, 0).Refused? then k else k + 1, net.after(t, i));
    } else {
      PlainLandAll(p, temps, l, k, net.after(t, i));
    }
  }

  /** How a turn goes on from the state before it. */
  lemma TurnOf(net: Network, p: Plan, temps: nat -> seq<byte>, t: nat, i: nat, l: Line, k: nat)
    requires l == net.LineAt(p, temps, t, i) && k == net.Number(p, temps, t, i)
    ensures net.Takes(p, temps, t, i) <==> k < p.count && net.Ask(p, l, t, i, k, 0).ok
    ensures net.Number(p, temps, t, i + 1) == k + if net.Takes(p, temps, t, i) then 1 else 0
    ensures net.LineAt(p, temps, t + 1, i) == (if k < p.count then net.Ask(p, l, t, i, k, 0).line else l).LandAll(p, net.after(t, i))
  {
  }

  lemma PlainNext(net: Network, p: Plan, temps: nat -> seq<byte>, l: Line, t: nat, i: nat, k: nat, l': Line, taken: bool)
    requires p.Ok() && Plain(p, temps) && PlainLine(p, l, k) && (taken <==> k < p.count && net.Ask(p, l, t, i, k, 0).ok)
    requires l' == (if k < p.count then net.Ask(p, l, t, i, k, 0).line else l).LandAll(p, net.after(t, i))
    ensures PlainLine(p, l', if taken then k + 1 else k)
  {
    PlainStep(net, p, temps, l, t, i, k);
  }

  lemma PlainLineNext(net: Network, p: Plan, temps: nat -> seq<byte>, t: nat, i: nat, m: nat)
    requires p.Ok() && Plain(p, temps) && i < MAX_CONCURRENT_REQUESTS && PlainLine(p, net.LineAt(p, temps, t, i), m) && m == net.Number(p, temps, t, 0)
    ensures PlainLine(p, net.LineAt(p, temps, t + 1, i), net.Number(p, temps, t, MAX_CONCURRENT_REQUESTS))
  {
    var l, k := net.LineAt(p, temps, t, i), net.Number(p, temps, t, i);
    NumberMono(net, p, temps, t, 0, i);
    PlainMore(p, l, m, k);
    TurnOf(net, p, temps, t, i, l, k);
    PlainNext(net, p, temps, l, t, i, k, net.LineAt(p, temps, t + 1, i), net.Takes(p, temps, t, i));
    NumberMono(net, p, temps, t, i + 1, MAX_CONCURRENT_REQUESTS);
    PlainMore(p, net.LineAt(p, temps, t + 1, i), net.Number(p, temps, t, i + 1), net.Number(p, temps, t, MAX_CONCURRENT_REQUESTS));
  }

  lemma {:induction false} PlainLineAt(net: Network, p: Plan, temps: nat -> seq<byte>, t: nat, i: nat, m: nat)
    requires p.Ok() && Plain(p, temps) && |temps(i)| == p.size && i < MAX_CONCURRENT_REQUESTS && m == net.Number(p, temps, t, 0)
    ensures PlainLine(p, net.LineAt(p, temps, t, i), m)
    decreases t
  {
    if t > 0 {
      PlainLineAt(net, p, temps, t - 1, i, net.Number(p, temps, t - 1, 0));
      PlainLineNext(net, p, temps, t - 1, i, net.Number(p, temps, t - 1, 0));
    }
  }

  /** A slot takes a piece unless its receive is refused. */
  lemma PlainTakes(net: Network, p: Plan, temps: nat -> seq<byte>, t: nat, i: nat, k: nat)
    requires p.Ok() && Plain(p, temps) && |temps(i)| == p.size && i < MAX_CONCURRENT_REQUESTS && k == net.Number(p, temps, t, i)
    ensures PlainLine(p, net.LineAt(p, temps, t, i), k)
    ensures net.Takes(p, temps, t, i) <==> k < p.count && !net.outcome(t, i, 0).Refused?
  {
    var l, m := net.LineAt(p, temps, t, i), net.Number(p, temps, t, 0);
    PlainLineAt(net, p, temps, t, i, m);
    NumberMono(net, p, temps, t, 0, i);
    PlainMore(p, l, m, k);
    PlainStep(net, p, temps, l, t, i, k);
    TurnOf(net, p, temps, t, i, l, k);
  }

  // -------------------------------------------------------------- numbering

  lemma {:induction false} NumberMono(net: Network, p: Plan, temps: nat -> seq<byte>, t: nat, i: nat, j: nat)
    requires i <= j
    ensures net.Number(p, temps, t, i) <= net.Number(p, temps, t, j)
  {
    if i < j {
      NumberMono(net, p, temps, t, i, j - 1);
    }
  }

  /** Once every piece is out, no slot takes another. */
  lemma {:induction false} NumberStays(net: Network, p: Plan, temps: nat -> seq<byte>, t: nat, u: nat, i: nat)
    requires net.Number(p, temps, t, 0) == p.count && t <= u
    ensures net.Number(p, temps, u, i) == p.count
    decreases u, i
  {
    if i > 0 {
      NumberStays(net, p, temps, t, u, i - 1);
    } else if t < u {
      NumberStays(net, p, temps, t, u - 1, MAX_CONCURRENT_REQUESTS);
    }
  }

  /** Every piece that is out was taken by some slot in some turn. */
  lemma {:induction false} TakenSomewhere(net: Network, p: Plan, temps: nat -> seq<byte>, t: nat, i: nat, k: nat) returns (u: nat, j: nat)
    requires k < net.Number(p, temps, t, i) && i <= MAX_CONCURRENT_REQUESTS
    ensures u < t || (u == t && j < i)
    ensures j < MAX_CONCURRENT_REQUESTS && net.Takes(p, temps, u, j) && net.Number(p, temps, u, j) == k
    decreases t, i
  {
    if i > 0 {
      if k < net.Number(p, temps, t, i - 1) {
        u, j := TakenSomewhere(net, p, temps, t, i - 1, k);
      } else {
        u, j := t, i - 1;
      }
    } else {
      u, j := TakenSomewhere(net, p, temps, t - 1, MAX_CONCURRENT_REQUESTS, k);
    }
  }

  // ------------------------------------------------------ what a buffer holds

  /** A buffer holds what landed in it last, in front of what it held before. */
  ghost predicate TopOk(p: Plan, l: Line, temp: seq<byte>)
  {
    && |l.bytes| == |temp| && (forall x :: x in l.late ==> x < |l.posted|)
    && match l.top
       case None => l.bytes == temp
       case Some(x) => x < |l.posted| && x !in l.late && Fronts(l.bytes, p.TextOf(l.posted[x]))
  }

  /** `text` is in front, as far as there is room. */
  ghost predicate Fronts(bytes: seq<byte>, text: seq<byte>)
  {
    bytes[..Min(|text|, |bytes|)] == text[..Min(|text|, |bytes|)]
  }

  lemma LandTop(p: Plan, l: Line, temp: seq<byte>, x: nat)
    requires TopOk(p, l, temp)
    ensures TopOk(p, l.Land(p, x), temp)
  {
  }

  lemma {:induction false} LandAllTop(p: Plan, l: Line, temp: seq<byte>, xs: seq<nat>)
    requires TopOk(p, l, temp)
    ensures TopOk(p, l.LandAll(p, xs), temp)
    decreases |xs|
  {
    if xs != [] {
      LandTop(p, l, temp, xs[0]);
      LandAllTop(p, l.Land(p, xs[0]), temp, xs[1..]);
    }
  }

  lemma PostTop(p: Plan, l: Line, temp: seq<byte>, r: Receive, out: Outcome)
    requires TopOk(p, l, temp)
    ensures TopOk(p, l.Post(p, r, out), temp)
  {
    var l1 := Line(l.bytes, l.posted + [r], l.late + {|l.posted|}, l.top);
    if !out.Refused? {
      assert TopOk(p, l1, temp);
      LandTop(p, l1, temp, |l.posted|);
    }
  }

  lemma {:induction false} AskTop(net: Network, p: Plan, l: Line, temp: seq<byte>, t: nat, i: nat, k: nat, a: nat)
    requires TopOk(p, l, temp)
    ensures TopOk(p, net.Ask(p, l, t, i, k, a).line, temp)
    decreases |p.replies(k)| - a
  {
    if a < |p.replies(k)| {
      var l1 := l.LandAll(p, net.before(t, i, a));
      LandAllTop(p, l, temp, net.before(t, i, a));
      if !net.outcome(t, i, a).Refused? {
        var l2 := l1.Post(p, Receive(k, a), net.outcome(t, i, a));
        PostTop(p, l1, temp, Receive(k, a), net.outcome(t, i, a));
        if LooksMissing(l2.bytes) {
          AskTop(net, p, l2, temp, t, i, k, a + 1);
        }
      }
    }
  }

  lemma TopNext(net: Network, p: Plan, temp: seq<byte>, l: Line, t: nat, i: nat, k: nat)
    requires TopOk(p, l, temp)
    ensures TopOk(p, (if k < p.count then net.Ask(p, l, t, i, k, 0).line else l).LandAll(p, net.after(t, i)), temp)
  {
    AskTop(net, p, l, temp, t, i, k, 0);
    LandAllTop(p, if k < p.count then net.Ask(p, l, t, i, k, 0).line else l, temp, net.after(t, i));
  }

  lemma {:induction false} LineTop(net: Network, p: Plan, temps: nat -> seq<byte>, t: nat, i: nat)
    ensures TopOk(p, net.LineAt(p, temps, t, i), temps(i))
    decreases t
  {
    if t > 0 {
      var l, k := net.LineAt(p, temps, t - 1, i), net.Number(p, temps, t - 1, i);
      LineTop(net, p, temps, t - 1, i);
      TurnOf(net, p, temps, t - 1, i, l, k);
      TopNext(net, p, temps(i), l, t - 1, i, k);
    }
  }

  // ------------------------------------------------------ replies in time

  /** Every first server's receive that has to wait lands before the completion check of its own turn. */
  ghost predicate Prompt(net: Network, p: Plan, temps: nat -> seq<byte>)
  {
    forall t: nat, i: nat {:trigger OnLaunch(t, i)} ::
      OnLaunch(t, i) && t < net.turns && i < MAX_CONCURRENT_REQUESTS && net.Takes(p, temps, t, i) && net.outcome(t, i, 0).Pending? ==>
        |net.LineAt(p, temps, t, i).posted| in net.after(t, i)
  }

  lemma PromptStep(net: Network, p: Plan, temps: nat -> seq<byte>, l: Line, t: nat, i: nat, k: nat)
    requires p.Ok() && Plain(p, temps) && PlainLine(p, l, k) && k < p.count && l.late == {} && !net.outcome(t, i, 0).Refused?
    requires net.outcome(t, i, 0).Pending? ==> |l.posted| in net.after(t, i)
    ensures var l' := net.Ask(p, l, t, i, k, 0).line.LandAll(p, net.after(t, i));
            l'.late == {} && l'.top == Some(|l.posted|) && l'.posted == l.posted + [Receive(k, 0)]
  {
    PlainAsk(net, p, temps, l, t, i, k);
    LandNone(p, l, net.before(t, i, 0));
    var l1 := l.Post(p, Receive(k, 0), net.outcome(t, i, 0));
    if net.outcome(t, i, 0).Pending? {
      LandOnly(p, l1, |l.posted|, net.after(t, i));
    } else {
      LandNone(p, l1, net.after(t, i));
    }
  }

  lemma PromptIdle(net: Network, p: Plan, temps: nat -> seq<byte>, l: Line, t: nat, i: nat, k: nat)
    requires p.Ok() && Plain(p, temps) && PlainLine(p, l, k) && l.late == {} && (k == p.count || net.outcome(t, i, 0).Refused?)
    ensures (if k < p.count then net.Ask(p, l, t, i, k, 0).line else l).LandAll(p, net.after(t, i)) == l
  {
    if k < p.count {
      PlainAsk(net, p, temps, l, t, i, k);
      LandNone(p, l, net.before(t, i, 0));
    }
    LandNone(p, l, net.after(t, i));
  }

  lemma {:induction false} PromptLine(net: Network, p: Plan, temps: nat -> seq<byte>, t: nat, i: nat)
    requires p.Ok() && Plain(p, temps) && Prompt(net, p, temps) && |temps(i)| == p.size && i < MAX_CONCURRENT_REQUESTS && t <= net.turns
    ensures net.LineAt(p, temps, t, i).late == {}
    decreases t
  {
    if t > 0 {
      PromptLine(net, p, temps, t - 1, i);
      PromptTurn(net, p, temps, t - 1, i);
    }
  }

  lemma PromptTurn(net: Network, p: Plan, temps: nat -> seq<byte>, t: nat, i: nat)
    requires p.Ok() && Plain(p, temps) && Prompt(net, p, temps) && |temps(i)| == p.size && i < MAX_CONCURRENT_REQUESTS && t < net.turns
    requires net.LineAt(p, temps, t, i).late == {}
    ensures net.LineAt(p, temps, t + 1, i).late == {}
    ensures net.Takes(p, temps, t, i) ==>
      var l' := net.LineAt(p, temps, t + 1, i);
      l'.top.Some? && l'.top.value < |l'.posted| && l'.posted[l'.top.value] == Receive(net.Number(p, temps, t, i), 0)
  {
    var l, k := net.LineAt(p, temps, t, i), net.Number(p, temps, t, i);
    PlainTakes(net, p, temps, t, i, k);
    TurnOf(net, p, temps, t, i, l, k);
    if k < p.count && !net.outcome(t, i, 0).Refused? {
      assert OnLaunch(t, i);
      PromptStep(net, p, temps, l, t, i, k);
    } else {
      PromptIdle(net, p, temps, l, t, i, k);
    }
  }

  /** What is shown for a piece whose receive landed last is the piece. */
  lemma ShownFromTop(net: Network, p: Plan, temps: nat -> seq<byte>, t: nat, i: nat, k: nat, x: nat)
    requires p.Ok() && Plain(p, temps) && |temps(i)| == p.size && k == net.Number(p, temps, t, i) < p.count
    requires net.LineAt(p, temps, t + 1, i).top == Some(x) && x < |net.LineAt(p, temps, t + 1, i).posted|
    requires net.LineAt(p, temps, t + 1, i).posted[x] == Receive(k, 0)
    ensures net.Shown(p, temps, t, i) == p.Piece(k)
  {
    LineTop(net, p, temps, t + 1, i);
    PlainText(p, temps, k);
  }

  /** Replies that are never late are copied right. */
  lemma PromptShown(net: Network, p: Plan, temps: nat -> seq<byte>, t: nat, i: nat, k: nat)
    requires p.Ok() && Plain(p, temps) && Prompt(net, p, temps) && |temps(i)| == p.size && i < MAX_CONCURRENT_REQUESTS && t < net.turns
    requires net.Takes(p, temps, t, i) && k == net.Number(p, temps, t, i)
    ensures net.Shown(p, temps, t, i) == p.Piece(k)
  {
    PromptLine(net, p, temps, t, i);
    PromptTurn(net, p, temps, t, i);
    ShownFromTop(net, p, temps, t, i, k, net.LineAt(p, temps, t + 1, i).top.value);
  }

  /** As far as both go, the bytes are the same. */
  ghost predicate Agree(a: seq<byte>, b: seq<byte>)
  {
    forall x :: 0 <= x < |a| && x < |b| ==> a[x] == b[x]
  }

  /** No two pieces agree, and none with what the temporary buffers hold at first. */
  ghost predicate ToldApart(p: Plan, temps: nat -> seq<byte>)
  {
    && (forall j: nat, k: nat {:trigger OnCut(j), OnCut(k)} :: OnCut(j) && OnCut(k) && j < p.count && k < p.count && j != k ==>
         !Agree(p.Piece(j), p.Piece(k)))
    && (forall i: nat, k: nat {:trigger temps(i), OnCut(k)} :: OnCut(k) && i < MAX_CONCURRENT_REQUESTS && k < p.count ==>
         !Agree(temps(i), p.Piece(k)))
  }

  /** When pieces can be told apart, a piece is shown only if its receive landed last. */
  lemma ShownApart(p: Plan, temps: nat -> seq<byte>, l: Line, i: nat, k: nat, m: nat)
    requires p.Ok() && Plain(p, temps) && ToldApart(p, temps) && |temps(i)| == p.size && i < MAX_CONCURRENT_REQUESTS && k < p.count
    requires TopOk(p, l, temps(i)) && PlainLine(p, l, m) && l.bytes[..Min(p.Len(k), |l.bytes|)] == p.Piece(k)
    ensures l.top.Some? && l.posted[l.top.value] == Receive(k, 0)
  {
    PlainText(p, temps, k);
    assert OnCut(k);
    if l.top.Some? {
      var j := l.posted[l.top.value].piece;
      PlainText(p, temps, j);
      assert OnCut(j);
      FrontsAgree(l.bytes, p.Piece(j), p.Piece(k));
    } else {
      FrontsAgree(l.bytes, l.bytes, p.Piece(k));
    }
  }

  lemma FrontsAgree(bytes: seq<byte>, a: seq<byte>, b: seq<byte>)
    requires |a| <= |bytes| && |b| <= |bytes| && bytes[..|a|] == a && bytes[..|b|] == b
    ensures Agree(a, b)
  {
    forall x | 0 <= x < |a| && x < |b| ensures a[x] == b[x] {
      assert a[x] == bytes[..|a|][x] && b[x] == bytes[..|b|][x];
    }
  }

  /** A receive that has to wait and landed last landed before the completion check. */
  lemma LandedInTime(net: Network, p: Plan, temps: nat -> seq<byte>, l: Line, t: nat, i: nat, k: nat, temp: seq<byte>)
    requires p.Ok() && Plain(p, temps) && PlainLine(p, l, k) && k < p.count && TopOk(p, l, temp) && net.outcome(t, i, 0).Pending?
    requires var l' := net.Ask(p, l, t, i, k, 0).line.LandAll(p, net.after(t, i));
             l'.top.Some? && l'.top.value < |l'.posted| && l'.posted[l'.top.value] == Receive(k, 0)
    ensures |l.posted| in net.after(t, i)
  {
    PlainAsk(net, p, temps, l, t, i, k);
    LandAllTop(p, l, temp, net.before(t, i, 0));
    LandAllKeeps(p, l, net.before(t, i, 0));
    LandAllKeeps(p, net.Ask(p, l, t, i, k, 0).line, net.after(t, i));
  }

  lemma ShownInTime(net: Network, p: Plan, temps: nat -> seq<byte>, t: nat, i: nat, k: nat)
    requires p.Ok() && Plain(p, temps) && ToldApart(p, temps) && |temps(i)| == p.size && i < MAX_CONCURRENT_REQUESTS
    requires net.Takes(p, temps, t, i) && k == net.Number(p, temps, t, i) && net.outcome(t, i, 0).Pending? && net.Shown(p, temps, t, i) == p.Piece(k)
    ensures |net.LineAt(p, temps, t, i).posted| in net.after(t, i)
  {
    var l := net.LineAt(p, temps, t, i);
    PlainTakes(net, p, temps, t, i, k);
    LineTop(net, p, temps, t, i);
    LineTop(net, p, temps, t + 1, i);
    TurnOf(net, p, temps, t, i, l, k);
    PlainStep(net, p, temps, l, t, i, k);
    ShownApart(p, temps, net.LineAt(p, temps, t + 1, i), i, k, k + 1);
    LandedInTime(net, p, temps, l, t, i, k, temps(i));
  }

  // --------------------------------------------- receives finished at once

  /** When no receive has to wait, get_ndata takes what it would take synchronously, and, if none is refused either, succeeds
      exactly when it would then, with whichever server; the buffer has room for the no-key message. */
  lemma {:induction false} InstantAsk(net: Network, p: Plan, l: Line, t: nat, i: nat, k: nat, a: nat)
    requires net.Instant() && l.late == {} && |l.bytes| >= 22
    ensures var r := net.Ask(p, l, t, i, k, a);
            r.line.late == {} && !r.pending && (r.ok && a <= |p.replies(k)| ==> Take(p.replies(k)[a..], l.bytes) == Some(r.line.bytes))
    ensures net.AtOnce(t, i) && a <= |p.replies(k)| ==> (net.Ask(p, l, t, i, k, a).ok <==> Take(p.replies(k)[a..], l.bytes).Some?)
    decreases |p.replies(k)| - a
  {
    if a < |p.replies(k)| {
      LandNone(p, l, net.before(t, i, a));
      assert p.replies(k)[a..][1..] == p.replies(k)[a + 1..];
      var l2 := l.Post(p, Receive(k, a), net.outcome(t, i, a));
      if !net.outcome(t, i, a).Refused? && LooksMissing(l2.bytes) {
        InstantAsk(net, p, l2, t, i, k, a + 1);
      } else if !net.outcome(t, i, a).Refused? && p.replies(k)[a].None? {
        NoKeyLooks(l.bytes);
      }
    }
  }

  /** The no-key message looks like itself where there is room for it. */
  lemma NoKeyLooks(w: seq<byte>)
    ensures |w| >= 22 ==> LooksMissing(Landed(w, NO_KEY + [0]))
  {
    if |w| >= 22 {
      assert Landed(w, NO_KEY + [0])[..22] == NO_KEY;
    }
  }

  lemma InstantNext(net: Network, p: Plan, l: Line, t: nat, i: nat, k: nat, l': Line)
    requires net.Instant() && l.late == {} && |l.bytes| >= 22
    requires l' == (if k < p.count then net.Ask(p, l, t, i, k, 0).line else l).LandAll(p, net.after(t, i))
    ensures l'.late == {} && (k < p.count && net.Ask(p, l, t, i, k, 0).ok ==> Take(p.replies(k), l.bytes) == Some(l'.bytes))
  {
    InstantAsk(net, p, l, t, i, k, 0);
    assert p.replies(k)[0..] == p.replies(k);
    LandNone(p, if k < p.count then net.Ask(p, l, t, i, k, 0).line else l, net.after(t, i));
  }

  lemma InstantTurn(net: Network, p: Plan, temps: nat -> seq<byte>, t: nat, i: nat, l: Line, k: nat)
    requires net.Instant() && l == net.LineAt(p, temps, t, i) && k == net.Number(p, temps, t, i) && l.late == {} && |l.bytes| >= 22
    ensures net.LineAt(p, temps, t + 1, i).late == {}
    ensures net.Takes(p, temps, t, i) ==> Take(p.replies(k), l.bytes) == Some(net.LineAt(p, temps, t + 1, i).bytes)
  {
    TurnOf(net, p, temps, t, i, l, k);
    InstantNext(net, p, l, t, i, k, net.LineAt(p, temps, t + 1, i));
  }

  lemma {:induction false} InstantLine(net: Network, p: Plan, temps: nat -> seq<byte>, t: nat, i: nat)
    requires net.Instant() && |temps(i)| >= 22
    ensures net.LineAt(p, temps, t, i).late == {}
    decreases t
  {
    if t > 0 {
      InstantLine(net, p, temps, t - 1, i);
      InstantTurn(net, p, temps, t - 1, i, net.LineAt(p, temps, t - 1, i), net.Number(p, temps, t - 1, i));
    }
  }

  lemma ShownIs(net: Network, p: Plan, temps: nat -> seq<byte>, t: nat, i: nat, k: nat, bytes: seq<byte>)
    requires k == net.Number(p, temps, t, i) && bytes == net.LineAt(p, temps, t + 1, i).bytes && p.Len(k) <= |bytes|
    ensures net.Shown(p, temps, t, i) == bytes[..p.Len(k)]
  {
  }

  /** Then the first data sent for a piece is shown, from whichever server it comes, if it cannot be mistaken. */
  lemma InstantShown(net: Network, p: Plan, temps: nat -> seq<byte>, t: nat, i: nat, k: nat, piece: seq<byte>)
    requires net.Instant() && p.Ok() && |temps(i)| == p.size >= 22 && net.Takes(p, temps, t, i) && k == net.Number(p, temps, t, i)
    requires First(p.replies(k)) == Some(piece) && Unmistakable(piece) && |piece| == p.Len(k)
    ensures net.Shown(p, temps, t, i) == piece
  {
    var l, l' := net.LineAt(p, temps, t, i), net.LineAt(p, temps, t + 1, i);
    InstantLine(net, p, temps, t, i);
    InstantTurn(net, p, temps, t, i, l, k);
    PieceFits(p, k);
    TakeSure(p.replies(k), l.bytes, piece);
    ShownIs(net, p, temps, t, i, k, l'.bytes);
  }

  /** Every piece is sent by some server asked, and cannot be mistaken. */
  ghost predicate Sure(p: Plan)
  {
    forall k: nat {:trigger OnCut(k)} :: OnCut(k) && k < p.count ==> SureAt(p, k)
  }

  ghost predicate SureAt(p: Plan, k: nat)
  {
    First(p.replies(k)).Some? && Unmistakable(First(p.replies(k)).value) && |First(p.replies(k)).value| == p.Len(k)
  }

  /** Then a slot takes a piece whenever there is one, whichever server has it. */
  lemma AtOnceTakes(net: Network, p: Plan, temps: nat -> seq<byte>, t: nat, i: nat, k: nat)
    requires net.Instant() && net.AtOnce(t, i) && p.Ok() && Sure(p) && |temps(i)| == p.size >= 22 && k == net.Number(p, temps, t, i)
    ensures net.Takes(p, temps, t, i) <==> k < p.count
  {
    if k < p.count {
      var l := net.LineAt(p, temps, t, i);
      InstantLine(net, p, temps, t, i);
      TurnOf(net, p, temps, t, i, l, k);
      PieceFits(p, k);
      assert OnCut(k) && SureAt(p, k);
      TakeSure(p.replies(k), l.bytes, First(p.replies(k)).value);
      InstantAsk(net, p, l, t, i, k, 0);
      assert p.replies(k)[0..] == p.replies(k);
    }
  }

  /** So after t turns as many pieces are out as there were slots, until all are. */
  lemma {:induction false} AtOnceNumber(net: Network, p: Plan, temps: nat -> seq<byte>, t: nat, i: nat)
    requires net.AlwaysAtOnce() && net.Instant() && p.Ok() && Sure(p) && p.size >= 22 && i <= MAX_CONCURRENT_REQUESTS
    requires forall j: nat :: |temps(j)| == p.size
    ensures net.Number(p, temps, t, i) == Min(p.count, MAX_CONCURRENT_REQUESTS * t + i)
    decreases t, i
  {
    if i > 0 {
      AtOnceNumber(net, p, temps, t, i - 1);
      assert net.AtOnce(t, i - 1) && |temps(i - 1)| == p.size;
      AtOnceTakes(net, p, temps, t, i - 1, net.Number(p, temps, t, i - 1));
    } else if t > 0 {
      AtOnceNumber(net, p, temps, t - 1, MAX_CONCURRENT_REQUESTS);
    }
  }

  lemma PieceFits(p: Plan, k: nat)
    requires p.Ok() && k < p.count
    ensures 0 < p.Len(k) <= p.size
  {
    assert OnCut(k);
  }

  // ------------------------------------------------------------ what goes wrong

  /** Whatever the file holds, a first reply that is still on its way is replaced by what the slot's temporary buffer
      happens to contain. */
  lemma StaleFirstPiece(net: Network, p: Plan, temps: nat -> seq<byte>)
    requires p.Ok() && p.replies(0) != [] && |temps(0)| == p.size && !LooksMissing(temps(0))
    requires net.outcome(0, 0, 0).Pending? && 0 !in net.after(0, 0)
    ensures net.Takes(p, temps, 0, 0) && net.Number(p, temps, 0, 0) == 0 && 0 < p.cut(1) <= |temps(0)|
    ensures net.Shown(p, temps, 0, 0) == temps(0)[..p.cut(1)]
  {
    assert OnCut(0);
    var l := Line(temps(0), [], {}, None);
    TurnOf(net, p, temps, 0, 0, l, 0);
    LandNone(p, l, net.before(0, 0, 0));
    LandNone(p, l.Post(p, Receive(0, 0), Pending), net.after(0, 0));
  }

  lemma LateNoKey(net: Network, p: Plan, l: Line, t: nat, i: nat, k: nat)
    requires p.replies(k) != [] && p.replies(k)[0].None? && net.outcome(t, i, 0).Pending?
    requires l.late == {} && !LooksMissing(l.bytes) && |l.posted| in net.after(t, i)
    ensures net.Ask(p, l, t, i, k, 0).ok
    ensures net.Ask(p, l, t, i, k, 0).line.LandAll(p, net.after(t, i)).bytes == Landed(l.bytes, NO_KEY + [0])
  {
    LandNone(p, l, net.before(t, i, 0));
    LandOnly(p, l.Post(p, Receive(k, 0), Pending), |l.posted|, net.after(t, i));
  }

  /** When the first server asked does not have the block and its reply is late, the text of the no-key message is copied
      as data. */
  lemma NoKeyAsData(net: Network, p: Plan, temps: nat -> seq<byte>, t: nat, i: nat, k: nat)
    requires p.Ok() && |temps(i)| == p.size && k == net.Number(p, temps, t, i) < p.count
    requires p.replies(k) != [] && p.replies(k)[0].None? && net.outcome(t, i, 0).Pending?
    requires net.LineAt(p, temps, t, i).late == {} && !LooksMissing(net.LineAt(p, temps, t, i).bytes)
    requires |net.LineAt(p, temps, t, i).posted| in net.after(t, i)
    ensures net.Takes(p, temps, t, i) && p.Len(k) <= p.size
    ensures net.Shown(p, temps, t, i) == Landed(net.LineAt(p, temps, t, i).bytes, NO_KEY + [0])[..p.Len(k)]
  {
    var l := net.LineAt(p, temps, t, i);
    PieceFits(p, k);
    LateNoKey(net, p, l, t, i, k);
    TurnOf(net, p, temps, t, i, l, k);
    ShownIs(net, p, temps, t, i, k, Landed(l.bytes, NO_KEY + [0]));
  }

  /** When the first server asked does not have the block, a second one that has it is of no use while its reply is on its
      way: the no-key message is still in the buffer, the request fails, and the receive stays posted. */
  lemma FailsOnTheWay(net: Network, p: Plan, l: Line, t: nat, i: nat, k: nat)
    requires |p.replies(k)| == 2 && p.replies(k)[0].None? && |l.bytes| >= 22 && l.late == {} && l.top.None?
    requires net.outcome(t, i, 0).Immediate? && net.outcome(t, i, 1).Pending?
    ensures !net.Ask(p, l, t, i, k, 0).ok && net.Ask(p, l, t, i, k, 0).line.late == {|l.posted| + 1}
  {
    LandNone(p, l, net.before(t, i, 0));
    var l1 := l.Post(p, Receive(k, 0), Immediate);
    NoKeyLooks(l.bytes);
    LandNone(p, l1, net.before(t, i, 1));
    assert net.Ask(p, l, t, i, k, 0) == net.Ask(p, l1, t, i, k, 1);
    var l2 := l1.Post(p, Receive(k, 1), Pending);
    assert net.Ask(p, l1, t, i, k, 1) == net.Ask(p, l2, t, i, k, 2);
  }
}
