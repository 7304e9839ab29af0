/** Buffered channels with blocking sends, receives and multi-channel selects, as steps over one
    world of channels and operations. */
module Channels {
  import opened Options

  /** A value on its way, with the ticket that its send drew. */
  datatype Item<T> = Item(ticket: nat, value: T)

  /** A blocked receive: which operation waits, and by which of its cases. */
  datatype Waiter = Waiter(op: nat, at: nat)

  datatype Sender<T> = Sender(op: nat, at: nat, item: Item<T>)

  /** A channel. `sends` lists what was ever offered to it and not refused at once, in order;
      `received` what came out of it, in order; `dropped` the tickets of the offers that were
      cancelled, rejected or drained away. */
  datatype Chan<T> = Chan(
    capacity: nat, closed: bool,
    receivers: seq<Waiter>, values: seq<Item<T>>, senders: seq<Sender<T>>,
    sends: seq<Item<T>>, received: seq<Item<T>>, dropped: set<nat>)

  /** A case of a select; an undefined channel is never ready. */
  datatype Case<T> = ReceiveCase(on: Option<nat>) | SendCase(on: Option<nat>, value: T)

  /** How an operation settled: by which case, and with what. */
  datatype Outcome<T> = Received(at: nat, value: Option<T>) | Sent(at: nat) | Rejected | Defaulted

  datatype Op<T> = Op(cases: seq<Case<T>>, outcome: Option<Outcome<T>>)

  /** All channels and all operations so far; `lost` collects values handed to operations that
      had already settled. */
  datatype World<T> = World(channels: seq<Chan<T>>, ops: seq<Op<T>>, tickets: nat, lost: seq<T>)

  // ----- taking a settled operation out of the queues -----

  function WithoutWaiters(receivers: seq<Waiter>, op: nat): (rest: seq<Waiter>)
    ensures |rest| <= |receivers| && forall x :: x in rest <==> x in receivers && x.op != op
  {
    if receivers == [] then []
    else
      var before, last := WithoutWaiters(receivers[..|receivers| - 1], op), receivers[|receivers| - 1];
      if last.op == op then before else before + [last]
  }

  function WithoutSenders<T>(senders: seq<Sender<T>>, op: nat): (rest: seq<Sender<T>>)
    ensures |rest| <= |senders|
    ensures forall x :: x in rest ==> x in senders && x.op != op
    ensures forall x :: x in senders && x.op != op ==> x in rest
  {
    if senders == [] then []
    else
      var before, last := WithoutSenders(senders[..|senders| - 1], op), senders[|senders| - 1];
      if last.op == op then before else before + [last]
  }

  function TicketsOf<T>(senders: seq<Sender<T>>, op: nat): set<nat> {
    set i | 0 <= i < |senders| && senders[i].op == op :: senders[i].item.ticket
  }

  function DetachFrom<T>(c: Chan<T>, op: nat): Chan<T> {
    c.(receivers := WithoutWaiters(c.receivers, op),
       senders := WithoutSenders(c.senders, op),
       dropped := c.dropped + TicketsOf(c.senders, op))
  }

  function Detach<T>(channels: seq<Chan<T>>, op: nat): seq<Chan<T>> {
    seq(|channels|, i requires 0 <= i < |channels| => DetachFrom(channels[i], op))
  }

  /** Queue entries belong to operations that exist. */
  ghost predicate Linked<T>(c: Chan<T>, ops: nat) {
    && (forall x :: x in c.receivers ==> x.op < ops)
    && (forall x :: x in c.senders ==> x.op < ops)
  }

  ghost predicate WellLinked<T>(w: World<T>) {
    forall c :: 0 <= c < |w.channels| ==> Linked(w.channels[c], |w.ops|)
  }

  /** The first outcome settles an operation and takes its other cases out of every queue. */
  function Settle<T>(w: World<T>, op: nat, outcome: Outcome<T>): (next: World<T>)
    requires op < |w.ops|
    ensures |next.ops| == |w.ops| && |next.channels| == |w.channels| && next.tickets == w.tickets
    ensures WellLinked(w) ==> WellLinked(next)
  {
    if w.ops[op].outcome.Some? then
      if outcome.Received? && outcome.value.Some? then w.(lost := w.lost + [outcome.value.value]) else w
    else w.(ops := w.ops[op := w.ops[op].(outcome := Some(outcome))], channels := Detach(w.channels, op))
  }

  // ----- the operations of one channel -----

  datatype SendResult = Accepted | Full | OnClosed

  function SetChan<T>(w: World<T>, c: nat, chan: Chan<T>): World<T>
    requires c < |w.channels|
  {
    w.(channels := w.channels[c := chan])
  }

  predicate CanSend<T>(c: Chan<T>) {
    !c.closed && (c.receivers != [] || |c.values| < c.capacity)
  }

  predicate CanReceive<T>(c: Chan<T>) {
    c.values != [] || c.senders != [] || c.closed
  }

  function TrySend<T>(w: World<T>, c: nat, value: T): (World<T>, SendResult)
    requires c < |w.channels| && WellLinked(w)
  {
    var chan, item := w.channels[c], Item(w.tickets, value);
    var offered := chan.(sends := chan.sends + [item]);
    if chan.closed then (w, OnClosed)
    else if chan.receivers != [] then
      var first := chan.receivers[0];
      var taken := SetChan(w, c, offered.(receivers := chan.receivers[1..], received := chan.received + [item]));
      (Settle(taken.(tickets := w.tickets + 1), first.op, Received(first.at, Some(value))), Accepted)
    else if |chan.values| >= chan.capacity then (w, Full)
    else (SetChan(w, c, offered.(values := chan.values + [item])).(tickets := w.tickets + 1), Accepted)
  }

  /** Lets the first blocked sender go on, into the buffer or to a waiting receiver. */
  function DrainSender<T>(w: World<T>, c: nat): World<T>
    requires c < |w.channels| && WellLinked(w)
  {
    var chan := w.channels[c];
    if chan.closed || chan.senders == [] then w
    else
      var s, rest := chan.senders[0], chan.(senders := chan.senders[1..]);
      if chan.receivers != [] then
        var r := chan.receivers[0];
        var taken := SetChan(w, c, rest.(receivers := chan.receivers[1..], received := chan.received + [s.item]));
        Settle(Settle(taken, s.op, Sent(s.at)), r.op, Received(r.at, Some(s.item.value)))
      else if |chan.values| < chan.capacity then
        Settle(SetChan(w, c, rest.(values := chan.values + [s.item])), s.op, Sent(s.at))
      else w
  }

  /** What a receive finds at once: nothing yet, a value, or the end of the channel. */
  datatype Found<T> = NotReady | Value(value: T) | End

  function TryReceive<T>(w: World<T>, c: nat): (World<T>, Found<T>)
    requires c < |w.channels| && WellLinked(w)
  {
    var chan := w.channels[c];
    if chan.values != [] then
      var v := chan.values[0];
      (DrainSender(SetChan(w, c, chan.(values := chan.values[1..], received := chan.received + [v])), c), Value(v.value))
    else if chan.senders != [] then
      var s := chan.senders[0];
      (Settle(SetChan(w, c, chan.(senders := chan.senders[1..], received := chan.received + [s.item])), s.op, Sent(s.at)), Value(s.item.value))
    else if chan.closed then (w, End)
    else (w, NotReady)
  }

  function FoundOutcome<T>(at: nat, f: Found<T>): Outcome<T>
    requires !f.NotReady?
  {
    Received(at, if f.Value? then Some(f.value) else None)
  }

  function AddOp<T>(w: World<T>, cases: seq<Case<T>>, outcome: Option<Outcome<T>>): World<T> {
    w.(ops := w.ops + [Op(cases, outcome)])
  }

  // ----- blocking -----

  /** Registers one case of a blocked operation. */
  function Register<T>(w: World<T>, op: nat, at: nat, case_: Case<T>): World<T> {
    if case_.on.None? || case_.on.value >= |w.channels| then w
    else
      var c := case_.on.value;
      var chan := w.channels[c];
      match case_
      case ReceiveCase(_) => SetChan(w, c, chan.(receivers := chan.receivers + [Waiter(op, at)]))
      case SendCase(_, value) =>
        var item := Item(w.tickets, value);
        SetChan(w, c, chan.(senders := chan.senders + [Sender(op, at, item)], sends := chan.sends + [item])).(tickets := w.tickets + 1)
  }

  function RegisterAll<T>(w: World<T>, op: nat, cases: seq<Case<T>>): World<T> {
    if cases == [] then w
    else Register(RegisterAll(w, op, cases[..|cases| - 1]), op, |cases| - 1, cases[|cases| - 1])
  }

  function Send<T>(w: World<T>, c: nat, value: T): World<T>
    requires c < |w.channels| && WellLinked(w)
  {
    var cases := [SendCase(Some(c), value)];
    var (next, result) := TrySend(w, c, value);
    match result
    case OnClosed => AddOp(w, cases, Some(Rejected))
    case Accepted => AddOp(next, cases, Some(Sent(0)))
    case Full => RegisterAll(AddOp(w, cases, None), |w.ops|, cases)
  }

  function Receive<T>(w: World<T>, c: nat): World<T>
    requires c < |w.channels| && WellLinked(w)
  {
    var cases: seq<Case<T>> := [ReceiveCase(Some(c))];
    var (next, found) := TryReceive(w, c);
    if found.NotReady? then RegisterAll(AddOp(w, cases, None), |w.ops|, cases)
    else AddOp(next, cases, Some(FoundOutcome(0, found)))
  }

  predicate Ready<T>(w: World<T>, case_: Case<T>) {
    && case_.on.Some? && case_.on.value < |w.channels|
    && (if case_.ReceiveCase? then CanReceive(w.channels[case_.on.value]) else CanSend(w.channels[case_.on.value]))
  }

  predicate SomeReady<T>(w: World<T>, cases: seq<Case<T>>) {
    exists i :: 0 <= i < |cases| && Ready(w, cases[i])
  }

  /** Whether a select must wait. */
  predicate Blocks<T>(w: World<T>, cases: seq<Case<T>>, hasDefault: bool) {
    !SomeReady(w, cases) && !hasDefault
  }

  /** A select takes any one ready case, else its default, else blocks on all its cases. */
  function Select<T>(w: World<T>, cases: seq<Case<T>>, hasDefault: bool, choice: nat): World<T>
    requires WellLinked(w)
    requires SomeReady(w, cases) ==> choice < |cases| && Ready(w, cases[choice])
  {
    if SomeReady(w, cases) then
      var c := cases[choice].on.value;
      match cases[choice]
      case ReceiveCase(_) =>
        var (next, found) := TryReceive(w, c);
        if found.NotReady? then w else AddOp(next, cases, Some(FoundOutcome(choice, found)))
      case SendCase(_, value) => AddOp(TrySend(w, c, value).0, cases, Some(Sent(choice)))
    else if hasDefault then AddOp(w, cases, Some(Defaulted))
    else RegisterAll(AddOp(w, cases, None), |w.ops|, cases)
  }

  // ----- closing and draining -----

  function RejectAll<T>(w: World<T>, senders: seq<Sender<T>>): (next: World<T>)
    requires WellLinked(w) && forall x :: x in senders ==> x.op < |w.ops|
    ensures |next.ops| == |w.ops| && |next.channels| == |w.channels| && WellLinked(next)
  {
    if senders == [] then w
    else Settle(RejectAll(w, senders[..|senders| - 1]), senders[|senders| - 1].op, Rejected)
  }

  /** Ends one waiting receiver, with a value if one is buffered after all. */
  function EndOne<T>(w: World<T>, c: nat, e: Waiter): (next: World<T>)
    requires WellLinked(w) && c < |w.channels| && e.op < |w.ops|
    ensures |next.ops| == |w.ops| && |next.channels| == |w.channels| && WellLinked(next)
  {
    var chan := w.channels[c];
    if chan.values == [] then Settle(w, e.op, Received(e.at, None))
    else
      var v := chan.values[0];
      Settle(SetChan(w, c, chan.(values := chan.values[1..], received := chan.received + [v])), e.op, Received(e.at, Some(v.value)))
  }

  function EndAll<T>(w: World<T>, c: nat, receivers: seq<Waiter>): (next: World<T>)
    requires WellLinked(w) && c < |w.channels| && forall x :: x in receivers ==> x.op < |w.ops|
    ensures |next.ops| == |w.ops| && |next.channels| == |w.channels| && WellLinked(next)
  {
    if receivers == [] then w
    else EndOne(EndAll(w, c, receivers[..|receivers| - 1]), c, receivers[|receivers| - 1])
  }

  function AllTickets<T>(items: seq<Item<T>>): set<nat> {
    set i | 0 <= i < |items| :: items[i].ticket
  }

  function ItemsOf<T>(senders: seq<Sender<T>>): seq<Item<T>> {
    seq(|senders|, i requires 0 <= i < |senders| => senders[i].item)
  }

  /** Closing rejects the blocked senders and ends the waiting receivers. */
  function Close<T>(w: World<T>, c: nat): (World<T>, bool)
    requires c < |w.channels| && WellLinked(w)
  {
    var chan := w.channels[c];
    if chan.closed then (w, false)
    else
      var shut := SetChan(w, c, chan.(closed := true, senders := [], dropped := chan.dropped + AllTickets(ItemsOf(chan.senders))));
      var rejected := RejectAll(shut, chan.senders);
      var waiting := rejected.channels[c];
      (EndAll(SetChan(rejected, c, waiting.(receivers := [])), c, waiting.receivers), true)
  }

  function DrainBuffered<T>(w: World<T>, c: nat): World<T>
    requires c < |w.channels|
  {
    var chan := w.channels[c];
    SetChan(w, c, chan.(values := [], dropped := chan.dropped + AllTickets(chan.values)))
  }

  // ----- the ledger of one channel -----

  /** The offers that were not cancelled, rejected or drained away. */
  function Live<T>(sends: seq<Item<T>>, dropped: set<nat>): (live: seq<Item<T>>)
    ensures forall x :: x in live ==> x in sends && x.ticket !in dropped
    ensures forall x :: x in sends && x.ticket !in dropped ==> x in live
  {
    if sends == [] then []
    else
      var before, last := Live(sends[..|sends| - 1], dropped), sends[|sends| - 1];
      if last.ticket in dropped then before else before + [last]
  }

  predicate DistinctTickets<T>(items: seq<Item<T>>) {
    forall i, j :: 0 <= i < j < |items| ==> items[i].ticket != items[j].ticket
  }

  lemma {:induction false} LiveDistinct<T>(sends: seq<Item<T>>, dropped: set<nat>)
    requires DistinctTickets(sends)
    ensures DistinctTickets(Live(sends, dropped))
  {
    if sends != [] {
      var init, last := sends[..|sends| - 1], sends[|sends| - 1];
      LiveDistinct(init, dropped);
      forall i | 0 <= i < |Live(init, dropped)|
        ensures Live(init, dropped)[i].ticket != last.ticket
      {
        assert Live(init, dropped)[i] in init;
        var j :| 0 <= j < |init| && init[j] == Live(init, dropped)[i];
        assert sends[j] == init[j];
      }
    }
  }

  lemma {:induction false} LiveTwice<T>(sends: seq<Item<T>>, dropped: set<nat>, more: set<nat>)
    ensures Live(sends, dropped + more) == Live(Live(sends, dropped), more)
  {
    if sends != [] {
      var init, last := sends[..|sends| - 1], sends[|sends| - 1];
      LiveTwice(init, dropped, more);
      if last.ticket !in dropped {
        LiveAppend(Live(init, dropped), last, more);
      }
    }
  }

  lemma LiveAppend<T>(sends: seq<Item<T>>, item: Item<T>, dropped: set<nat>)
    ensures Live(sends + [item], dropped) == if item.ticket in dropped then Live(sends, dropped) else Live(sends, dropped) + [item]
  {
    assert (sends + [item])[..|sends + [item]| - 1] == sends;
  }

  lemma AppendLast<E>(a: seq<E>, b: seq<E>, x: E)
    ensures a + (b + [x]) == (a + b) + [x]
  {
  }

  lemma {:induction false} LiveConcat<T>(a: seq<Item<T>>, b: seq<Item<T>>, dropped: set<nat>)
    ensures Live(a + b, dropped) == Live(a, dropped) + Live(b, dropped)
  {
    if b == [] {
      assert a + b == a;
    } else {
      var init, last := b[..|b| - 1], b[|b| - 1];
      hide Live;
      LiveConcat(a, init, dropped);
      assert b == init + [last];
      AppendLast(a, init, last);
      LiveAppend(a + init, last, dropped);
      LiveAppend(init, last, dropped);
      if last.ticket !in dropped {
        AppendLast(Live(a, dropped), Live(init, dropped), last);
      }
    }
  }

  lemma {:induction false} LiveAll<T>(items: seq<Item<T>>, dropped: set<nat>)
    requires forall i :: 0 <= i < |items| ==> items[i].ticket !in dropped
    ensures Live(items, dropped) == items
  {
    if items != [] {
      LiveAll(items[..|items| - 1], dropped);
      assert items == items[..|items| - 1] + [items[|items| - 1]];
    }
  }

  lemma {:induction false} LiveNone<T>(items: seq<Item<T>>, dropped: set<nat>)
    requires forall i :: 0 <= i < |items| ==> items[i].ticket in dropped
    ensures Live(items, dropped) == []
  {
    if items != [] {
      LiveNone(items[..|items| - 1], dropped);
    }
  }

  lemma ItemsAppend<T>(senders: seq<Sender<T>>, s: Sender<T>)
    ensures ItemsOf(senders + [s]) == ItemsOf(senders) + [s.item]
  {
  }

  lemma WithoutLast<T>(init: seq<Sender<T>>, last: Sender<T>, op: nat)
    ensures ItemsOf(init + [last]) == ItemsOf(init) + [last.item]
    ensures ItemsOf(WithoutSenders(init + [last], op)) ==
            if last.op == op then ItemsOf(WithoutSenders(init, op)) else ItemsOf(WithoutSenders(init, op)) + [last.item]
  {
    assert (init + [last])[..|init|] == init;
  }

  /** The tickets dropped are those of one operation's senders. */
  predicate DropsOnly<T>(senders: seq<Sender<T>>, op: nat, dropped: set<nat>) {
    forall i :: 0 <= i < |senders| ==> (senders[i].item.ticket in dropped <==> senders[i].op == op)
  }

  lemma DropsOnlyInit<T>(senders: seq<Sender<T>>, op: nat, dropped: set<nat>)
    requires senders != [] && DropsOnly(senders, op, dropped)
    ensures var init, last := senders[..|senders| - 1], senders[|senders| - 1];
            DropsOnly(init, op, dropped) && (last.item.ticket in dropped <==> last.op == op) && senders == init + [last]
  {
  }

  lemma {:induction false} LiveSenders<T>(senders: seq<Sender<T>>, op: nat, dropped: set<nat>)
    requires DropsOnly(senders, op, dropped)
    ensures Live(ItemsOf(senders), dropped) == ItemsOf(WithoutSenders(senders, op))
  {
    if senders == [] {
      LiveNone(ItemsOf(senders), dropped);
    } else {
      hide Live, WithoutSenders, ItemsOf, DropsOnly;
      var init, last := senders[..|senders| - 1], senders[|senders| - 1];
      DropsOnlyInit(senders, op, dropped);
      LiveSenders(init, op, dropped);
      WithoutLast(init, last, op);
      LiveAppend(ItemsOf(init), last.item, dropped);
    }
  }

  /** Everything offered and not dropped came out, is buffered, or waits with its sender, in the
      order of the offers. */
  ghost predicate Balanced<T>(c: Chan<T>) {
    c.received + c.values + ItemsOf(c.senders) == Live(c.sends, c.dropped)
  }

  ghost predicate Ticketed<T>(c: Chan<T>, tickets: nat) {
    && DistinctTickets(c.sends)
    && (forall x :: x in c.sends ==> x.ticket < tickets)
    && (forall t :: t in c.dropped ==> t < tickets)
  }

  ghost predicate QueuesOk<T>(c: Chan<T>) {
    && |c.values| <= c.capacity
    && (c.receivers != [] ==> c.values == [] && c.senders == [] && !c.closed)
    && (c.senders != [] ==> |c.values| == c.capacity && !c.closed)
  }

  ghost predicate ChanOk<T>(c: Chan<T>, tickets: nat) {
    QueuesOk(c) && Balanced(c) && Ticketed(c, tickets)
  }

  lemma SplitDistinct<T>(a: seq<Item<T>>, b: seq<Item<T>>)
    requires DistinctTickets(a + b)
    ensures DistinctTickets(b)
    ensures forall x, y :: x in a && y in b ==> x.ticket != y.ticket
  {
    forall i, j | 0 <= i < j < |b|
      ensures b[i].ticket != b[j].ticket
    {
      assert (a + b)[|a| + i] == b[i] && (a + b)[|a| + j] == b[j];
    }
    forall x, y | x in a && y in b
      ensures x.ticket != y.ticket
    {
      var i :| 0 <= i < |a| && a[i] == x;
      var j :| 0 <= j < |b| && b[j] == y;
      assert (a + b)[i] == x && (a + b)[|a| + j] == y;
    }
  }

  /** Taking an operation's senders out and dropping their tickets keeps the ledger balanced. */
  lemma DetachBalanced<T>(c: Chan<T>, op: nat)
    requires Balanced(c) && DistinctTickets(c.sends)
    ensures Balanced(DetachFrom(c, op))
  {
    hide Live, DistinctTickets;
    var out, waiting, gone := c.received + c.values, ItemsOf(c.senders), TicketsOf(c.senders, op);
    LiveDistinct(c.sends, c.dropped);
    SplitDistinct(out, waiting);
    LiveTwice(c.sends, c.dropped, gone);
    LiveConcat(out, waiting, gone);
    GoneAreWaiting(c.senders, op, out);
    LiveAll(out, gone);
    LiveSenders(c.senders, op, gone);
  }

  lemma GoneAreWaiting<T>(senders: seq<Sender<T>>, op: nat, out: seq<Item<T>>)
    requires DistinctTickets(ItemsOf(senders))
    requires forall x, y :: x in out && y in ItemsOf(senders) ==> x.ticket != y.ticket
    ensures forall i :: 0 <= i < |out| ==> out[i].ticket !in TicketsOf(senders, op)
    ensures DropsOnly(senders, op, TicketsOf(senders, op))
  {
    var items := ItemsOf(senders);
    forall i | 0 <= i < |out|
      ensures out[i].ticket !in TicketsOf(senders, op)
    {
      forall j | 0 <= j < |senders|
        ensures out[i].ticket != senders[j].item.ticket
      {
        assert items[j] in items;
      }
    }
    forall i | 0 <= i < |senders|
      ensures senders[i].item.ticket in TicketsOf(senders, op) <==> senders[i].op == op
    {
      forall j | 0 <= j < |senders| && j != i
        ensures senders[i].item.ticket != senders[j].item.ticket
      {
        assert items[i].ticket != items[j].ticket;
      }
    }
  }

  lemma DetachChan<T>(c: Chan<T>, op: nat, tickets: nat)
    requires ChanOk(c, tickets)
    ensures ChanOk(DetachFrom(c, op), tickets)
  {
    DetachBalanced(c, op);
    hide Live, Balanced;
    assert ItemsOf(c.senders) == ItemsOf(c.senders);
    TicketsBelow(c, op, tickets);
  }

  lemma TicketsBelow<T>(c: Chan<T>, op: nat, tickets: nat)
    requires Balanced(c) && Ticketed(c, tickets)
    ensures forall t :: t in TicketsOf(c.senders, op) ==> t < tickets
    ensures forall t :: t in AllTickets(ItemsOf(c.senders)) ==> t < tickets
  {
    forall i | 0 <= i < |c.senders|
      ensures c.senders[i].item.ticket < tickets
    {
      assert ItemsOf(c.senders)[i] == c.senders[i].item;
      assert (c.received + c.values + ItemsOf(c.senders))[|c.received| + |c.values| + i] == c.senders[i].item;
      assert c.senders[i].item in Live(c.sends, c.dropped);
    }
  }

  // ----- the invariant of the whole world -----

  /** A queue entry stands for an unsettled operation with that very case. */
  ghost predicate WaiterOk<T>(w: World<T>, c: nat, e: Waiter) {
    && e.op < |w.ops| && w.ops[e.op].outcome.None?
    && e.at < |w.ops[e.op].cases| && w.ops[e.op].cases[e.at] == ReceiveCase(Some(c))
  }

  ghost predicate SenderOk<T>(w: World<T>, c: nat, s: Sender<T>) {
    && s.op < |w.ops| && w.ops[s.op].outcome.None?
    && s.at < |w.ops[s.op].cases| && w.ops[s.op].cases[s.at] == SendCase(Some(c), s.item.value)
  }

  ghost predicate EntriesOk<T>(w: World<T>, c: nat)
    requires c < |w.channels|
  {
    && (forall e :: e in w.channels[c].receivers ==> WaiterOk(w, c, e))
    && (forall s :: s in w.channels[c].senders ==> SenderOk(w, c, s))
  }

  ghost predicate HasSender<T>(senders: seq<Sender<T>>, op: nat, at: nat) {
    exists s :: s in senders && s.op == op && s.at == at
  }

  /** A case of a blocked operation waits in its channel's queue. */
  ghost predicate Registered<T>(w: World<T>, op: nat, at: nat)
    requires op < |w.ops| && at < |w.ops[op].cases|
  {
    var case_ := w.ops[op].cases[at];
    case_.on.Some? && case_.on.value < |w.channels| ==>
      if case_.ReceiveCase? then Waiter(op, at) in w.channels[case_.on.value].receivers
      else HasSender(w.channels[case_.on.value].senders, op, at)
  }

  ghost predicate FullyRegistered<T>(w: World<T>, op: nat)
    requires op < |w.ops|
  {
    forall at :: 0 <= at < |w.ops[op].cases| ==> Registered(w, op, at)
  }

  /** The invariant, but for the operations in `torn`, some of whose queue entries are gone. */
  ghost predicate InvBut<T>(w: World<T>, torn: set<nat>) {
    && (forall c :: 0 <= c < |w.channels| ==> ChanOk(w.channels[c], w.tickets) && EntriesOk(w, c))
    && (forall op :: 0 <= op < |w.ops| && w.ops[op].outcome.None? && op !in torn ==> FullyRegistered(w, op))
    && w.lost == []
  }

  ghost predicate Inv<T>(w: World<T>) {
    InvBut(w, {})
  }

  lemma InvLinked<T>(w: World<T>, torn: set<nat>)
    requires InvBut(w, torn)
    ensures WellLinked(w)
  {
  }

  lemma InvChan<T>(w: World<T>, torn: set<nat>, c: nat)
    requires InvBut(w, torn) && c < |w.channels|
    ensures ChanOk(w.channels[c], w.tickets) && EntriesOk(w, c)
  {
  }

  /** Operations never change their cases, and never settle twice. */
  ghost predicate OpsGrow<T>(w: World<T>, next: World<T>) {
    && |w.ops| <= |next.ops| && |w.channels| <= |next.channels|
    && forall op :: 0 <= op < |w.ops| ==>
                      && next.ops[op].cases == w.ops[op].cases
                      && (w.ops[op].outcome.Some? ==> next.ops[op].outcome == w.ops[op].outcome)
  }

  lemma SettledEntries<T>(w: World<T>, op: nat, outcome: Outcome<T>, c: nat)
    requires op < |w.ops| && c < |w.channels| && EntriesOk(w, c) && w.ops[op].outcome.None?
    ensures EntriesOk(Settle(w, op, outcome), c)
  {
    var next := Settle(w, op, outcome);
    forall e | e in next.channels[c].receivers
      ensures WaiterOk(next, c, e)
    {
      assert WaiterOk(w, c, e);
    }
    forall s | s in next.channels[c].senders
      ensures SenderOk(next, c, s)
    {
      assert SenderOk(w, c, s);
    }
  }

  lemma SettledOthers<T>(w: World<T>, op: nat, outcome: Outcome<T>, other: nat)
    requires op < |w.ops| && w.ops[op].outcome.None? && other < |w.ops| && other != op && FullyRegistered(w, other)
    ensures FullyRegistered(Settle(w, op, outcome), other)
  {
    var next := Settle(w, op, outcome);
    forall at | 0 <= at < |w.ops[other].cases|
      ensures Registered(next, other, at)
    {
      assert Registered(w, other, at);
      var case_ := w.ops[other].cases[at];
      if case_.on.Some? && case_.on.value < |w.channels| && case_.SendCase? {
        var s :| s in w.channels[case_.on.value].senders && s.op == other && s.at == at;
        assert s in next.channels[case_.on.value].senders;
      }
    }
  }

  /** Settling an operation leaves no entry of it anywhere, and disturbs no other. */
  lemma SettleKeeps<T>(w: World<T>, op: nat, outcome: Outcome<T>, torn: set<nat>)
    requires InvBut(w, torn) && op < |w.ops| && w.ops[op].outcome.None?
    ensures var next := Settle(w, op, outcome);
            InvBut(next, torn) && InvBut(next, torn - {op}) && OpsGrow(w, next) && next.ops[op].outcome == Some(outcome)
  {
    var next := Settle(w, op, outcome);
    forall c | 0 <= c < |next.channels|
      ensures ChanOk(next.channels[c], next.tickets) && EntriesOk(next, c)
    {
      assert ChanOk(w.channels[c], w.tickets) && EntriesOk(w, c);
      DetachChan(w.channels[c], op, w.tickets);
      SettledEntries(w, op, outcome, c);
    }
    hide ChanOk, EntriesOk, Detach;
    forall other | 0 <= other < |next.ops| && next.ops[other].outcome.None? && other !in torn - {op}
      ensures FullyRegistered(next, other)
    {
      SettledOthers(w, op, outcome, other);
    }
  }

  lemma TornSettled<T>(w: World<T>, torn: set<nat>)
    requires InvBut(w, torn) && forall op :: op in torn && op < |w.ops| ==> w.ops[op].outcome.Some?
    ensures Inv(w)
  {
  }

  /** A channel changes: entries may go, if their operations are torn, and none comes. */
  lemma ChangeChan<T>(w: World<T>, torn: set<nat>, c: nat, chan: Chan<T>, tickets: nat)
    requires InvBut(w, torn) && c < |w.channels| && w.tickets <= tickets && ChanOk(chan, tickets)
    requires forall e :: e in chan.receivers ==> e in w.channels[c].receivers
    requires forall e :: e in w.channels[c].receivers && e !in chan.receivers ==> e.op in torn
    requires forall s :: s in chan.senders ==> s in w.channels[c].senders
    requires forall s :: s in w.channels[c].senders && s !in chan.senders ==> s.op in torn
    ensures InvBut(SetChan(w, c, chan).(tickets := tickets), torn)
  {
    var next := SetChan(w, c, chan).(tickets := tickets);
    forall d | 0 <= d < |next.channels|
      ensures ChanOk(next.channels[d], tickets) && EntriesOk(next, d)
    {
      assert ChanOk(w.channels[d], w.tickets) && EntriesOk(w, d);
      MoreTickets(w.channels[d], w.tickets, tickets);
      ChangedEntries(w, next, c, d);
    }
    hide ChanOk, EntriesOk;
    forall op | 0 <= op < |next.ops| && next.ops[op].outcome.None? && op !in torn
      ensures FullyRegistered(next, op)
    {
      ChangedRegistered(w, next, c, op);
    }
  }

  lemma ChangedEntries<T>(w: World<T>, next: World<T>, c: nat, d: nat)
    requires c < |w.channels| == |next.channels| && d < |w.channels| && next.ops == w.ops && EntriesOk(w, d)
    requires d != c ==> next.channels[d] == w.channels[d]
    requires forall e :: e in next.channels[c].receivers ==> e in w.channels[c].receivers
    requires forall s :: s in next.channels[c].senders ==> s in w.channels[c].senders
    ensures EntriesOk(next, d)
  {
    forall e | e in next.channels[d].receivers
      ensures WaiterOk(next, d, e)
    {
      assert WaiterOk(w, d, e);
    }
    forall s | s in next.channels[d].senders
      ensures SenderOk(next, d, s)
    {
      assert SenderOk(w, d, s);
    }
  }

  lemma ChangedRegistered<T>(w: World<T>, next: World<T>, c: nat, op: nat)
    requires c < |w.channels| == |next.channels| && next.ops == w.ops && op < |w.ops| && FullyRegistered(w, op)
    requires forall d :: 0 <= d < |w.channels| && d != c ==> next.channels[d] == w.channels[d]
    requires forall e :: e in w.channels[c].receivers && e !in next.channels[c].receivers ==> e.op != op
    requires forall s :: s in w.channels[c].senders && s !in next.channels[c].senders ==> s.op != op
    ensures FullyRegistered(next, op)
  {
    forall at | 0 <= at < |w.ops[op].cases|
      ensures Registered(next, op, at)
    {
      assert Registered(w, op, at);
      var case_ := w.ops[op].cases[at];
      if case_.on.Some? && case_.on.value < |w.channels| && case_.SendCase? {
        var s :| s in w.channels[case_.on.value].senders && s.op == op && s.at == at;
        assert s in next.channels[case_.on.value].senders;
      }
    }
  }

  lemma MoreTickets<T>(c: Chan<T>, low: nat, high: nat)
    requires ChanOk(c, low) && low <= high
    ensures ChanOk(c, high)
  {
    hide Balanced, QueuesOk;
  }

  // ----- sending -----

  lemma OfferReceived<T>(c: Chan<T>, item: Item<T>, tickets: nat)
    requires ChanOk(c, tickets) && item.ticket == tickets && c.receivers != []
    ensures ChanOk(c.(sends := c.sends + [item], receivers := c.receivers[1..], received := c.received + [item]), tickets + 1)
  {
    LiveAppend(c.sends, item, c.dropped);
    hide Live;
    assert c.received + c.values + ItemsOf(c.senders) == c.received;
    assert (c.received + [item]) + c.values + ItemsOf(c.senders) == c.received + [item];
  }

  lemma OfferBuffered<T>(c: Chan<T>, item: Item<T>, tickets: nat)
    requires ChanOk(c, tickets) && item.ticket == tickets && c.receivers == [] && |c.values| < c.capacity
    ensures ChanOk(c.(sends := c.sends + [item], values := c.values + [item]), tickets + 1)
  {
    LiveAppend(c.sends, item, c.dropped);
    hide Live;
    assert c.received + (c.values + [item]) + ItemsOf(c.senders) == (c.received + c.values + ItemsOf(c.senders)) + [item];
  }

  /** Settling changes one operation, and nothing that a channel holds or gave. */
  lemma SettleMoves<T>(w: World<T>, op: nat, outcome: Outcome<T>, c: nat)
    requires op < |w.ops| && w.ops[op].outcome.None? && c < |w.channels|
    ensures var next := Settle(w, op, outcome);
            && SettlesOnly(w.ops, next.ops, op, outcome) && |next.ops| == |w.ops|
            && next.channels[c].values == w.channels[c].values && next.channels[c].received == w.channels[c].received
  {
  }

  /** Handing a value to the first waiting receiver. */
  lemma HandKeeps<T>(w: World<T>, c: nat, item: Item<T>)
    requires Inv(w) && c < |w.channels| && w.channels[c].receivers != [] && item.ticket == w.tickets
    ensures var chan := w.channels[c];
            var first := chan.receivers[0];
            var taken := SetChan(w, c, chan.(sends := chan.sends + [item], receivers := chan.receivers[1..], received := chan.received + [item]));
            && first.op < |w.ops|
            && var next := Settle(taken.(tickets := w.tickets + 1), first.op, Received(first.at, Some(item.value)));
               && Inv(next) && OpsGrow(w, next) && |next.channels| == |w.channels|
               && next.channels[c].received == chan.received + [item]
               && SettlesOnly(w.ops, next.ops, first.op, Received(first.at, Some(item.value)))
  {
    var chan := w.channels[c];
    var first := chan.receivers[0];
    assert ChanOk(chan, w.tickets) && EntriesOk(w, c);
    assert WaiterOk(w, c, first);
    OfferReceived(chan, item, w.tickets);
    hide ChanOk, EntriesOk, Settle;
    HeadGone(chan.receivers);
    TearMore(w, {}, {first.op});
    ChangeChan(w, {first.op}, c, chan.(sends := chan.sends + [item], receivers := chan.receivers[1..], received := chan.received + [item]), w.tickets + 1);
    hide InvBut;
    SettleKeeps(SetChan(w, c, chan.(sends := chan.sends + [item], receivers := chan.receivers[1..], received := chan.received + [item])).(tickets := w.tickets + 1),
                first.op, Received(first.at, Some(item.value)), {first.op});
    SettleMoves(SetChan(w, c, chan.(sends := chan.sends + [item], receivers := chan.receivers[1..], received := chan.received + [item])).(tickets := w.tickets + 1),
                first.op, Received(first.at, Some(item.value)), c);
  }

  /** One operation settles, and no other one that there was changes. */
  ghost predicate SettlesOnly<T>(ops: seq<Op<T>>, next: seq<Op<T>>, op: nat, outcome: Outcome<T>) {
    op < |ops| && ops[op].outcome.None? && ops[op := ops[op].(outcome := Some(outcome))] <= next
  }

  /** An offered value goes to the first waiting receiver, else behind the other buffered ones. */
  ghost predicate Hands<T>(w: World<T>, next: World<T>, c: nat, value: T)
    requires c < |w.channels| == |next.channels|
  {
    var chan, now, item := w.channels[c], next.channels[c], Item(w.tickets, value);
    if chan.receivers != [] then
      var first := chan.receivers[0];
      now.received == chan.received + [item] && SettlesOnly(w.ops, next.ops, first.op, Received(first.at, Some(value)))
    else now.values == chan.values + [item] && now.received == chan.received && w.ops <= next.ops
  }

  /** A value is accepted exactly when the channel can take it: the first waiting receiver gets it,
      or it is buffered behind the others. A refused send changes nothing. */
  ghost predicate SendOutcome<T>(w: World<T>, next: World<T>, c: nat, value: T, result: SendResult)
    requires c < |w.channels| == |next.channels| && |w.ops| == |next.ops|
  {
    var chan := w.channels[c];
    && (result.Accepted? <==> CanSend(chan))
    && (result.OnClosed? <==> chan.closed)
    && (!result.Accepted? ==> next == w)
    && (result.Accepted? ==> Hands(w, next, c, value))
  }

  lemma TrySendKeeps<T>(w: World<T>, c: nat, value: T)
    requires Inv(w) && c < |w.channels|
    ensures WellLinked(w)
    ensures var (next, result) := TrySend(w, c, value);
            && Inv(next) && OpsGrow(w, next) && |next.ops| == |w.ops| && |next.channels| == |w.channels|
            && SendOutcome(w, next, c, value, result)
  {
    hide InvBut, ChanOk, EntriesOk, Settle, Linked;
    InvLinked(w, {});
    var chan, item := w.channels[c], Item(w.tickets, value);
    InvChan(w, {}, c);
    if !chan.closed && chan.receivers != [] {
      HandKeeps(w, c, item);
    } else if !chan.closed && |chan.values| < chan.capacity {
      OfferBuffered(chan, item, w.tickets);
      ChangeChan(w, {}, c, chan.(sends := chan.sends + [item], values := chan.values + [item]), w.tickets + 1);
    }
  }

  lemma TearMore<T>(w: World<T>, torn: set<nat>, more: set<nat>)
    requires InvBut(w, torn)
    ensures InvBut(w, torn + more)
  {
  }

  lemma HeadGone<E>(s: seq<E>)
    requires s != []
    ensures forall x :: x in s[1..] ==> x in s
    ensures forall x :: x in s && x !in s[1..] ==> x == s[0]
  {
    assert s == [s[0]] + s[1..];
  }

  // ----- receiving -----

  lemma TakeBuffered<T>(c: Chan<T>, tickets: nat)
    requires ChanOk(c, tickets) && c.values != [] && (c.senders == [] || c.closed)
    ensures ChanOk(c.(values := c.values[1..], received := c.received + [c.values[0]]), tickets)
  {
    hide Live;
    assert c.values == [c.values[0]] + c.values[1..];
    assert (c.received + [c.values[0]]) + c.values[1..] == c.received + c.values;
  }

  lemma TakeAndRefill<T>(c: Chan<T>, tickets: nat)
    requires ChanOk(c, tickets) && c.values != [] && c.senders != []
    ensures ChanOk(c.(values := c.values[1..] + [c.senders[0].item], senders := c.senders[1..], received := c.received + [c.values[0]]), tickets)
  {
    hide Live;
    FirstSender(c.senders);
    Rotate(c.received, c.values, c.senders[0].item, ItemsOf(c.senders[1..]));
  }

  lemma Rotate<E>(a: seq<E>, b: seq<E>, x: E, rest: seq<E>)
    requires b != []
    ensures (a + [b[0]]) + (b[1..] + [x]) + rest == a + b + ([x] + rest)
  {
  }

  lemma FirstSender<T>(senders: seq<Sender<T>>)
    requires senders != []
    ensures ItemsOf(senders) == [senders[0].item] + ItemsOf(senders[1..])
  {
  }

  lemma TakeFromSender<T>(c: Chan<T>, tickets: nat)
    requires ChanOk(c, tickets) && c.values == [] && c.senders != []
    ensures ChanOk(c.(senders := c.senders[1..], received := c.received + [c.senders[0].item]), tickets)
  {
    hide Live;
    FirstSender(c.senders);
    assert c.received + c.values == c.received;
    assert (c.received + [c.senders[0].item]) + c.values + ItemsOf(c.senders[1..]) == c.received + ([c.senders[0].item] + ItemsOf(c.senders[1..]));
  }

  /** A blocked sender goes on: it settles as sent. */
  lemma ReleaseSender<T>(w: World<T>, c: nat, chan: Chan<T>)
    requires Inv(w) && c < |w.channels| && w.channels[c].senders != [] && ChanOk(chan, w.tickets)
    requires chan.senders == w.channels[c].senders[1..] && chan.receivers == w.channels[c].receivers
    ensures var s := w.channels[c].senders[0];
            && s.op < |w.ops| && w.ops[s.op].outcome.None?
            && var next := Settle(SetChan(w, c, chan), s.op, Sent(s.at));
               Inv(next) && OpsGrow(w, next) && next.ops[s.op].outcome == Some(Sent(s.at))
  {
    var s := w.channels[c].senders[0];
    assert EntriesOk(w, c);
    assert SenderOk(w, c, s);
    hide ChanOk, EntriesOk, Settle;
    HeadGone(w.channels[c].senders);
    TearMore(w, {}, {s.op});
    ChangeChan(w, {s.op}, c, chan, w.tickets);
    hide InvBut;
    SettleKeeps(SetChan(w, c, chan), s.op, Sent(s.at), {s.op});
  }

  lemma DrainAfterTake<T>(w: World<T>, c: nat)
    requires Inv(w) && c < |w.channels| && w.channels[c].values != [] && WellLinked(w)
    ensures var chan := w.channels[c];
            var taken := SetChan(w, c, chan.(values := chan.values[1..], received := chan.received + [chan.values[0]]));
            && WellLinked(taken)
            && DrainSender(taken, c) ==
               if chan.senders == [] || chan.closed then taken
               else Settle(SetChan(w, c, chan.(values := chan.values[1..] + [chan.senders[0].item], senders := chan.senders[1..],
                                               received := chan.received + [chan.values[0]])),
                           chan.senders[0].op, Sent(chan.senders[0].at))
  {
    var chan := w.channels[c];
    assert ChanOk(chan, w.tickets);
    var taken := SetChan(w, c, chan.(values := chan.values[1..], received := chan.received + [chan.values[0]]));
    assert forall d :: 0 <= d < |w.channels| ==> Linked(taken.channels[d], |w.ops|) by {
      assert forall d :: 0 <= d < |w.channels| ==> Linked(w.channels[d], |w.ops|);
    }
    hide Settle, Balanced, Ticketed, InvBut;
    if chan.senders != [] && !chan.closed {
      SetTwice(w.channels, c, taken.channels[c],
               chan.(values := chan.values[1..] + [chan.senders[0].item], senders := chan.senders[1..], received := chan.received + [chan.values[0]]));
    }
  }

  lemma SetTwice<E>(s: seq<E>, i: nat, x: E, y: E)
    requires i < |s|
    ensures s[i := x][i := y] == s[i := y]
  {
  }

  /** Taking the oldest value there is lets the first blocked sender go on, and changes no other
      operation. */
  ghost predicate Takes<T>(w: World<T>, next: World<T>, c: nat)
    requires c < |w.channels| == |next.channels|
  {
    var chan, now := w.channels[c], next.channels[c];
    var waiting := chan.values + ItemsOf(chan.senders);
    && now.received == (if waiting == [] then chan.received else chan.received + [waiting[0]])
    && if chan.senders == [] then w.ops <= next.ops
       else SettlesOnly(w.ops, next.ops, chan.senders[0].op, Sent(chan.senders[0].at))
  }

  /** A receive takes the oldest value there is: the head of the buffer, whose place the first
      blocked sender then fills, or that sender's value itself. It finds the end of the channel
      exactly when that is closed and empty, and nothing exactly when the channel has nothing to
      give. */
  ghost predicate ReceiveOutcome<T>(w: World<T>, next: World<T>, c: nat, found: Found<T>)
    requires c < |w.channels| == |next.channels|
  {
    var chan := w.channels[c];
    var waiting := chan.values + ItemsOf(chan.senders);
    && (found.NotReady? <==> !CanReceive(chan))
    && (found.End? <==> chan.closed && waiting == [])
    && (found.Value? ==> waiting != [] && found.value == waiting[0].value && Takes(w, next, c))
    && (!found.Value? ==> next == w)
  }

  lemma OpenSenders<T>(w: World<T>, c: nat)
    requires c < |w.channels| && EntriesOk(w, c)
    ensures forall s :: s in w.channels[c].senders ==> SenderOk(w, c, s)
  {
  }

  lemma TryReceiveKeeps<T>(w: World<T>, c: nat)
    requires Inv(w) && c < |w.channels|
    ensures WellLinked(w)
    ensures var (next, found) := TryReceive(w, c);
            && Inv(next) && OpsGrow(w, next) && |next.ops| == |w.ops| && |next.channels| == |w.channels|
            && ReceiveOutcome(w, next, c, found)
  {
    hide InvBut, Settle, EntriesOk, Balanced, Ticketed, Linked, ReceiveOutcome;
    InvLinked(w, {});
    var chan := w.channels[c];
    InvChan(w, {}, c);
    OpenSenders(w, c);
    TakesHead(w, c);
    assert chan.senders != [] ==> !chan.closed;
    if chan.values != [] {
      DrainAfterTake(w, c);
      hide DrainSender;
      if chan.senders == [] || chan.closed {
        TakeBuffered(chan, w.tickets);
        hide ChanOk;
        ChangeChan(w, {}, c, chan.(values := chan.values[1..], received := chan.received + [chan.values[0]]), w.tickets);
      } else {
        TakeAndRefill(chan, w.tickets);
        hide ChanOk;
        ReleaseSender(w, c, chan.(values := chan.values[1..] + [chan.senders[0].item], senders := chan.senders[1..], received := chan.received + [chan.values[0]]));
      }
    } else if chan.senders != [] {
      TakeFromSender(chan, w.tickets);
      hide ChanOk;
      ReleaseSender(w, c, chan.(senders := chan.senders[1..], received := chan.received + [chan.senders[0].item]));
    }
  }

  lemma TakesHead<T>(w: World<T>, c: nat)
    requires WellLinked(w) && c < |w.channels| && QueuesOk(w.channels[c])
    requires forall s :: s in w.channels[c].senders ==> SenderOk(w, c, s)
    ensures var (next, found) := TryReceive(w, c);
            |next.channels| == |w.channels| && ReceiveOutcome(w, next, c, found)
  {
    hide Settle, DrainSender, SettlesOnly;
    var chan := w.channels[c];
    LinkedBelow(w, c);
    if chan.senders != [] {
      assert chan.senders[0] in chan.senders;
      FirstSender(chan.senders);
    }
    if chan.values != [] {
      LetsIn(SetChan(w, c, chan.(values := chan.values[1..], received := chan.received + [chan.values[0]])), c);
    } else if chan.senders != [] {
      var s := chan.senders[0];
      SettleMoves(SetChan(w, c, chan.(senders := chan.senders[1..], received := chan.received + [s.item])), s.op, Sent(s.at), c);
    }
  }

  /** A blocked sender that meets a waiting receiver hands its value over: both settle. (No channel of a
      sound world has both: see FirstInFirstOut.) */
  lemma DrainMeets<T>(w: World<T>, c: nat)
    requires c < |w.channels| && WellLinked(w) && !w.channels[c].closed && w.channels[c].senders != [] && w.channels[c].receivers != []
    ensures var s, r := w.channels[c].senders[0], w.channels[c].receivers[0];
            && s.op < |w.ops| && r.op < |w.ops|
            && (s.op != r.op && w.ops[s.op].outcome.None? && w.ops[r.op].outcome.None? ==>
                  var next := DrainSender(w, c);
                  && |next.channels| == |w.channels| && next.channels[c].received == w.channels[c].received + [s.item]
                  && next.ops == w.ops[s.op := w.ops[s.op].(outcome := Some(Sent(s.at)))]
                                      [r.op := w.ops[r.op].(outcome := Some(Received(r.at, Some(s.item.value))))])
  {
    var chan := w.channels[c];
    var s, r := chan.senders[0], chan.receivers[0];
    assert s in chan.senders && r in chan.receivers;
    LinkedBelow(w, c);
    if s.op != r.op && w.ops[s.op].outcome.None? && w.ops[r.op].outcome.None? {
      var taken := SetChan(w, c, chan.(senders := chan.senders[1..], receivers := chan.receivers[1..], received := chan.received + [s.item]));
      SettleOne(taken, s.op, Sent(s.at), c);
      SettleOne(Settle(taken, s.op, Sent(s.at)), r.op, Received(r.at, Some(s.item.value)), c);
      hide Settle;
    }
  }

  /** Letting a blocked sender into the buffer delivers nothing. */
  lemma LetsIn<T>(w: World<T>, c: nat)
    requires c < |w.channels| && WellLinked(w) && w.channels[c].receivers == []
    requires w.channels[c].senders != [] ==>
               && !w.channels[c].closed && |w.channels[c].values| < w.channels[c].capacity
               && SenderOk(w, c, w.channels[c].senders[0])
    ensures var next, senders := DrainSender(w, c), w.channels[c].senders;
            && |next.channels| == |w.channels| && next.channels[c].received == w.channels[c].received
            && if senders == [] then next == w else SettlesOnly(w.ops, next.ops, senders[0].op, Sent(senders[0].at))
  {
    var chan := w.channels[c];
    if chan.senders != [] {
      var s := chan.senders[0];
      SettleMoves(SetChan(w, c, chan.(senders := chan.senders[1..], values := chan.values + [s.item])), s.op, Sent(s.at), c);
    }
    hide Settle;
  }

  // ----- blocking on several cases -----

  ghost predicate SameButQueues<T>(a: Chan<T>, b: Chan<T>) {
    b == a.(receivers := b.receivers, senders := b.senders, sends := b.sends)
  }

  /** What registering `cases` for `op` puts into the queues of channel `c`. */
  ghost predicate QueuesGain<T>(was: Chan<T>, now: Chan<T>, c: nat, op: nat, cases: seq<Case<T>>) {
    && SameButQueues(was, now)
    && (forall e :: e in was.receivers ==> e in now.receivers)
    && (forall e :: e in now.receivers ==> e in was.receivers || (e.op == op && e.at < |cases| && cases[e.at] == ReceiveCase(Some(c))))
    && (forall i :: 0 <= i < |cases| && cases[i] == ReceiveCase(Some(c)) ==> Waiter(op, i) in now.receivers)
    && (forall s :: s in was.senders ==> s in now.senders)
    && (forall s :: s in now.senders ==> s in was.senders || (s.op == op && s.at < |cases| && cases[s.at] == SendCase(Some(c), s.item.value)))
    && (forall i :: 0 <= i < |cases| && cases[i].SendCase? && cases[i].on == Some(c) ==> HasSender(now.senders, op, i))
  }

  lemma QueuesGainStep<T>(was: Chan<T>, mid: Chan<T>, c: nat, op: nat, cases: seq<Case<T>>, tickets: nat)
    requires cases != [] && QueuesGain(was, mid, c, op, cases[..|cases| - 1])
    ensures var k := |cases| - 1;
            var last := cases[k];
            var now := if last.on != Some(c) then mid
                       else if last.ReceiveCase? then mid.(receivers := mid.receivers + [Waiter(op, k)])
                       else mid.(senders := mid.senders + [Sender(op, k, Item(tickets, last.value))], sends := mid.sends + [Item(tickets, last.value)]);
            QueuesGain(was, now, c, op, cases)
  {
    var k := |cases| - 1;
    var init, last := cases[..k], cases[k];
    var now := if last.on != Some(c) then mid
               else if last.ReceiveCase? then mid.(receivers := mid.receivers + [Waiter(op, k)])
               else mid.(senders := mid.senders + [Sender(op, k, Item(tickets, last.value))], sends := mid.sends + [Item(tickets, last.value)]);
    assert forall i :: 0 <= i < k ==> init[i] == cases[i];
    forall i | 0 <= i < |cases| && cases[i].SendCase? && cases[i].on == Some(c)
      ensures HasSender(now.senders, op, i)
    {
      if i < k {
        assert init[i].SendCase?;
        var s :| s in mid.senders && s.op == op && s.at == i;
        assert s in now.senders;
      } else {
        assert Sender(op, k, Item(tickets, last.value)) in now.senders;
      }
    }
  }

  /** Registering touches nothing but the queues it joins. */
  lemma {:induction false} RegisterShape<T>(w: World<T>, op: nat, cases: seq<Case<T>>)
    ensures var next := RegisterAll(w, op, cases);
            && |next.channels| == |w.channels| && next.ops == w.ops && next.lost == w.lost && w.tickets <= next.tickets
            && forall c :: 0 <= c < |w.channels| ==> QueuesGain(w.channels[c], next.channels[c], c, op, cases)
  {
    if cases == [] {
    } else {
      var init, last := cases[..|cases| - 1], cases[|cases| - 1];
      RegisterShape(w, op, init);
      var mid, next := RegisterAll(w, op, init), RegisterAll(w, op, cases);
      forall c | 0 <= c < |w.channels|
        ensures QueuesGain(w.channels[c], next.channels[c], c, op, cases)
      {
        QueuesGainStep(w.channels[c], mid.channels[c], c, op, cases, mid.tickets);
      }
    }
  }

  /** Cases that may block together: none sends on a closed channel, and no channel is both sent
      on and received from. */
  ghost predicate MayBlock<T>(w: World<T>, cases: seq<Case<T>>) {
    forall i, c :: 0 <= i < |cases| && cases[i].SendCase? && cases[i].on == Some(c) && c < |w.channels| ==>
                     !w.channels[c].closed && ReceiveCase(Some(c)) !in cases
  }

  ghost predicate NoneReady<T>(w: World<T>, cases: seq<Case<T>>) {
    forall i :: 0 <= i < |cases| ==> !Ready(w, cases[i])
  }

  lemma WaiterJoins<T>(c: Chan<T>, e: Waiter, tickets: nat)
    requires ChanOk(c, tickets) && c.values == [] && c.senders == [] && !c.closed
    ensures ChanOk(c.(receivers := c.receivers + [e]), tickets)
  {
  }

  lemma SenderJoins<T>(c: Chan<T>, s: Sender<T>, tickets: nat)
    requires ChanOk(c, tickets) && !c.closed && c.receivers == [] && |c.values| == c.capacity && s.item.ticket == tickets
    ensures ChanOk(c.(senders := c.senders + [s], sends := c.sends + [s.item]), tickets + 1)
  {
    ItemsAppend(c.senders, s);
    LiveAppend(c.sends, s.item, c.dropped);
    AppendLast(c.received + c.values, ItemsOf(c.senders), s.item);
    hide Live;
  }

  /** A channel that a blocked case waits on can take one more registration. */
  lemma StillBlocked<T>(was: Chan<T>, mid: Chan<T>, c: nat, op: nat, cases: seq<Case<T>>, k: nat, tickets: nat)
    requires k < |cases| && cases[k].on == Some(c) && QueuesGain(was, mid, c, op, cases[..k])
    requires ChanOk(was, tickets)
    requires if cases[k].ReceiveCase? then !CanReceive(was) else !CanSend(was) && !was.closed
    requires forall i, j :: 0 <= i < |cases| && 0 <= j < |cases| && cases[i].SendCase? && cases[i].on == Some(c) ==> cases[j] != ReceiveCase(Some(c))
    ensures if cases[k].ReceiveCase? then mid.values == [] && mid.senders == [] && !mid.closed
            else !mid.closed && mid.receivers == [] && |mid.values| == mid.capacity
  {
    assert forall i :: 0 <= i < k ==> cases[..k][i] == cases[i];
    FirstIsMember(mid.senders);
    FirstIsMember(mid.receivers);
  }

  lemma FirstIsMember<E>(s: seq<E>)
    ensures s != [] ==> s[0] in s
  {
  }

  lemma {:induction false} RegisterChans<T>(w: World<T>, op: nat, cases: seq<Case<T>>, n: nat)
    requires n <= |cases| && NoneReady(w, cases) && MayBlock(w, cases)
    requires forall c :: 0 <= c < |w.channels| ==> ChanOk(w.channels[c], w.tickets)
    ensures var next := RegisterAll(w, op, cases[..n]);
            |next.channels| == |w.channels| && forall c :: 0 <= c < |w.channels| ==> ChanOk(next.channels[c], next.tickets)
  {
    hide ChanOk, NoneReady, MayBlock;
    RegisterShape(w, op, cases[..n]);
    if n > 0 {
      var k := n - 1;
      assert cases[..n][..k] == cases[..k];
      RegisterChans(w, op, cases, k);
      RegisterShape(w, op, cases[..k]);
      var mid, next := RegisterAll(w, op, cases[..k]), RegisterAll(w, op, cases[..n]);
      hide ChanOk, QueuesGain, RegisterAll;
      assert next == Register(mid, op, k, cases[k]) by {
        RegisterLast(w, op, cases, n);
      }
      forall c | 0 <= c < |w.channels|
        ensures ChanOk(next.channels[c], next.tickets)
      {
        RegisterChan(w, mid, op, cases, k, c);
      }
    }
  }

  lemma RegisterChan<T>(w: World<T>, mid: World<T>, op: nat, cases: seq<Case<T>>, k: nat, c: nat)
    requires k < |cases| && NoneReady(w, cases) && MayBlock(w, cases) && c < |w.channels| == |mid.channels|
    requires ChanOk(w.channels[c], w.tickets) && ChanOk(mid.channels[c], mid.tickets)
    requires QueuesGain(w.channels[c], mid.channels[c], c, op, cases[..k])
    ensures ChanOk(Register(mid, op, k, cases[k]).channels[c], Register(mid, op, k, cases[k]).tickets)
  {
    hide ChanOk, QueuesGain;
    MoreTickets(mid.channels[c], mid.tickets, Register(mid, op, k, cases[k]).tickets);
    if cases[k].on == Some(c) {
      assert !Ready(w, cases[k]);
      StillBlocked(w.channels[c], mid.channels[c], c, op, cases, k, w.tickets);
      if cases[k].ReceiveCase? {
        WaiterJoins(mid.channels[c], Waiter(op, k), mid.tickets);
      } else {
        SenderJoins(mid.channels[c], Sender(op, k, Item(mid.tickets, cases[k].value)), mid.tickets);
      }
    }
  }

  lemma RegisterLast<T>(w: World<T>, op: nat, cases: seq<Case<T>>, n: nat)
    requires 0 < n <= |cases|
    ensures RegisterAll(w, op, cases[..n]) == Register(RegisterAll(w, op, cases[..n - 1]), op, n - 1, cases[n - 1])
  {
    assert cases[..n][..n - 1] == cases[..n - 1];
  }

  /** Blocking on cases that may block together registers all of them and keeps the invariant. */
  lemma BlockKeeps<T>(w: World<T>, cases: seq<Case<T>>)
    requires Inv(w) && NoneReady(w, cases) && MayBlock(w, cases)
    ensures var next := RegisterAll(AddOp(w, cases, None), |w.ops|, cases);
            Inv(next) && OpsGrow(w, next) && |next.ops| == |w.ops| + 1 && |next.channels| == |w.channels|
  {
    var op := |w.ops|;
    var added := AddOp(w, cases, None);
    var next := RegisterAll(added, op, cases);
    forall c | 0 <= c < |w.channels|
      ensures ChanOk(w.channels[c], w.tickets)
    {
      InvChan(w, {}, c);
    }
    RegisterShape(added, op, cases);
    assert cases[..|cases|] == cases;
    assert NoneReady(added, cases) by {
      assert forall i :: 0 <= i < |cases| ==> (Ready(added, cases[i]) <==> Ready(w, cases[i]));
    }
    RegisterChans(added, op, cases, |cases|);
    hide ChanOk, RegisterAll;
    forall c | 0 <= c < |next.channels|
      ensures EntriesOk(next, c)
    {
      InvChan(w, {}, c);
      GainedEntries(w, next, c, cases);
    }
    forall x | 0 <= x < |next.ops| && next.ops[x].outcome.None?
      ensures FullyRegistered(next, x)
    {
      GainedRegistered(w, next, x, cases);
    }
  }

  lemma GainedEntries<T>(w: World<T>, next: World<T>, c: nat, cases: seq<Case<T>>)
    requires c < |w.channels| == |next.channels| && EntriesOk(w, c)
    requires next.ops == w.ops + [Op(cases, None)] && QueuesGain(w.channels[c], next.channels[c], c, |w.ops|, cases)
    ensures EntriesOk(next, c)
  {
    forall e | e in next.channels[c].receivers
      ensures WaiterOk(next, c, e)
    {
      if e in w.channels[c].receivers {
        assert WaiterOk(w, c, e);
      }
    }
    forall s | s in next.channels[c].senders
      ensures SenderOk(next, c, s)
    {
      if s in w.channels[c].senders {
        assert SenderOk(w, c, s);
      }
    }
  }

  lemma GainedRegistered<T>(w: World<T>, next: World<T>, op: nat, cases: seq<Case<T>>)
    requires InvBut(w, {}) && |w.channels| == |next.channels| && next.ops == w.ops + [Op(cases, None)]
    requires forall c :: 0 <= c < |w.channels| ==> QueuesGain(w.channels[c], next.channels[c], c, |w.ops|, cases)
    requires op < |next.ops| && next.ops[op].outcome.None?
    ensures FullyRegistered(next, op)
  {
    hide ChanOk, EntriesOk;
    forall at | 0 <= at < |next.ops[op].cases|
      ensures Registered(next, op, at)
    {
      var case_ := next.ops[op].cases[at];
      if case_.on.Some? && case_.on.value < |w.channels| {
        var c := case_.on.value;
        assert QueuesGain(w.channels[c], next.channels[c], c, |w.ops|, cases);
        if op < |w.ops| {
          assert FullyRegistered(w, op) && Registered(w, op, at);
          if case_.SendCase? {
            var s :| s in w.channels[c].senders && s.op == op && s.at == at;
            assert s in next.channels[c].senders;
          }
        } else {
          assert case_ == cases[at];
        }
      }
    }
  }

  /** Exactly when a blocked select keeps the invariant: it does not send on a closed channel, nor
      both send on and receive from one channel. */
  lemma BlockExact<T>(w: World<T>, cases: seq<Case<T>>)
    requires Inv(w) && NoneReady(w, cases)
    ensures Inv(RegisterAll(AddOp(w, cases, None), |w.ops|, cases)) <==> MayBlock(w, cases)
  {
    hide InvBut, RegisterAll;
    var added := AddOp(w, cases, None);
    var next := RegisterAll(added, |w.ops|, cases);
    if MayBlock(w, cases) {
      BlockKeeps(w, cases);
    } else {
      RegisterShape(added, |w.ops|, cases);
      var i, c :| 0 <= i < |cases| && cases[i].SendCase? && cases[i].on == Some(c) && c < |w.channels| &&
                  (w.channels[c].closed || ReceiveCase(Some(c)) in cases);
      assert QueuesGain(added.channels[c], next.channels[c], c, |w.ops|, cases);
      assert HasSender(next.channels[c].senders, |w.ops|, i);
      if !w.channels[c].closed {
        var j :| 0 <= j < |cases| && cases[j] == ReceiveCase(Some(c));
        assert Waiter(|w.ops|, j) in next.channels[c].receivers;
      }
      BadQueues(next, c);
    }
  }

  /** A select that would both send on and receive from one channel waits in both of its queues, where
      neither case ever meets the other. */
  lemma BothWaysExample()
    ensures var cases := [SendCase(Some(0), 5), ReceiveCase(Some(0))];
            var before: World<int> := World([Chan(0, false, [], [], [], [], [], {})], [], 0, []);
            var after := Select(before, cases, false, 0);
            && Inv(before) && !MayBlock(before, cases) && !Inv(after)
            && |after.channels| == 1 && Waiter(0, 1) in after.channels[0].receivers && HasSender(after.channels[0].senders, 0, 0)
  {
    var cases := [SendCase(Some(0), 5), ReceiveCase(Some(0))];
    var before: World<int> := World([Chan(0, false, [], [], [], [], [], {})], [], 0, []);
    assert Inv(before) by {
      assert ItemsOf<int>([]) == [];
    }
    assert !SomeReady(before, cases);
    assert cases[0].on == Some(0) && cases[1] == ReceiveCase(Some(0));
    BlockExact(before, cases);
    hide InvBut, RegisterAll;
    RegisterShape(AddOp(before, cases, None), 0, cases);
  }

  lemma BadQueues<T>(w: World<T>, c: nat)
    requires c < |w.channels| && !QueuesOk(w.channels[c])
    ensures !Inv(w)
  {
  }

  // ----- sends, receives and selects as operations -----

  lemma SettledOpKeeps<T>(w: World<T>, cases: seq<Case<T>>, outcome: Outcome<T>)
    requires Inv(w)
    ensures Inv(AddOp(w, cases, Some(outcome))) && OpsGrow(w, AddOp(w, cases, Some(outcome)))
  {
    var next := AddOp(w, cases, Some(outcome));
    forall c | 0 <= c < |next.channels|
      ensures ChanOk(next.channels[c], next.tickets) && EntriesOk(next, c)
    {
      InvChan(w, {}, c);
      assert forall e :: e in w.channels[c].receivers ==> WaiterOk(w, c, e);
      assert forall s :: s in w.channels[c].senders ==> SenderOk(w, c, s);
    }
    hide ChanOk, EntriesOk;
    forall op | 0 <= op < |next.ops| && next.ops[op].outcome.None?
      ensures FullyRegistered(next, op)
    {
      assert FullyRegistered(w, op);
      forall at | 0 <= at < |w.ops[op].cases|
        ensures Registered(next, op, at)
      {
        assert Registered(w, op, at);
      }
    }
  }

  /** What the caller of a send is told, and what becomes of the value: rejected by a closed channel,
      handed over at once, or waiting with its sender. */
  ghost predicate SendSettles<T>(w: World<T>, next: World<T>, c: nat, value: T)
    requires c < |w.channels|
  {
    var chan := w.channels[c];
    && |next.ops| == |w.ops| + 1 && |next.channels| == |w.channels|
    && var outcome := next.ops[|w.ops|].outcome;
       if chan.closed then outcome == Some(Rejected) && w.ops <= next.ops && next.channels == w.channels
       else if chan.receivers != [] || |chan.values| < chan.capacity then outcome == Some(Sent(0)) && Hands(w, next, c, value)
       else outcome == None && w.ops <= next.ops && SameButQueues(chan, next.channels[c])
  }

  lemma SendKeeps<T>(w: World<T>, c: nat, value: T)
    requires Inv(w) && c < |w.channels|
    ensures WellLinked(w) && Inv(Send(w, c, value)) && OpsGrow(w, Send(w, c, value)) && SendSettles(w, Send(w, c, value), c, value)
  {
    hide InvBut, Settle, TrySend, RegisterAll;
    TrySendKeeps(w, c, value);
    var cases := [SendCase(Some(c), value)];
    var (next, result) := TrySend(w, c, value);
    match result {
      case OnClosed => SettledOpKeeps(w, cases, Rejected);
      case Accepted => SettledOpKeeps(next, cases, Sent(0));
      case Full =>
        FullMeansOpen(w, c, value);
        assert NoneReady(w, cases) && MayBlock(w, cases);
        BlockKeeps(w, cases);
        RegisterShape(AddOp(w, cases, None), |w.ops|, cases);
    }
  }

  lemma FullMeansOpen<T>(w: World<T>, c: nat, value: T)
    requires c < |w.channels| && WellLinked(w) && TrySend(w, c, value).1.Full?
    ensures !w.channels[c].closed && !CanSend(w.channels[c])
  {
  }

  /** What a receive by case `at` that need not wait hands to its caller: the oldest value there is,
      or, when there is none, the end of the channel. */
  ghost predicate Answered<T>(chan: Chan<T>, at: nat, outcome: Option<Outcome<T>>) {
    var waiting := chan.values + ItemsOf(chan.senders);
    outcome == Some(Received(at, if waiting == [] then None else Some(waiting[0].value)))
  }

  /** What the caller of a receive is told, and what it takes from the channel. */
  ghost predicate ReceiveSettles<T>(w: World<T>, next: World<T>, c: nat)
    requires c < |w.channels|
  {
    var chan := w.channels[c];
    && |next.ops| == |w.ops| + 1 && |next.channels| == |w.channels|
    && var outcome := next.ops[|w.ops|].outcome;
       if chan.values == [] && chan.senders == [] && !chan.closed then
         outcome == None && w.ops <= next.ops && SameButQueues(chan, next.channels[c])
       else Answered(chan, 0, outcome) && Takes(w, next, c)
  }

  lemma FoundMeans<T>(w: World<T>, next: World<T>, c: nat, found: Found<T>, at: nat)
    requires c < |w.channels| == |next.channels| && ReceiveOutcome(w, next, c, found) && !found.NotReady?
    ensures CanReceive(w.channels[c]) && Answered(w.channels[c], at, Some(FoundOutcome(at, found))) && Takes(w, next, c)
  {
    assert ItemsOf(w.channels[c].senders) == [] ==> w.channels[c].senders == [];
  }

  /** Takes and Hands speak of the operations that there were. */
  lemma AddedOp<T>(w: World<T>, next: World<T>, op: Op<T>)
    requires |next.ops| == |w.ops| && |next.channels| == |w.channels|
    ensures forall c :: 0 <= c < |w.channels| && Takes(w, next, c) ==> Takes(w, next.(ops := next.ops + [op]), c)
    ensures forall c, value :: 0 <= c < |w.channels| && Hands(w, next, c, value) ==> Hands(w, next.(ops := next.ops + [op]), c, value)
  {
    assert next.ops <= next.ops + [op];
  }

  lemma ReceiveKeeps<T>(w: World<T>, c: nat)
    requires Inv(w) && c < |w.channels|
    ensures WellLinked(w) && Inv(Receive(w, c)) && OpsGrow(w, Receive(w, c)) && ReceiveSettles(w, Receive(w, c), c)
  {
    hide InvBut, TryReceive, RegisterAll, Takes, FoundOutcome, Answered;
    TryReceiveKeeps(w, c);
    var cases: seq<Case<T>> := [ReceiveCase(Some(c))];
    var (next, found) := TryReceive(w, c);
    if found.NotReady? {
      assert NoneReady(w, cases) && MayBlock(w, cases);
      BlockKeeps(w, cases);
      RegisterShape(AddOp(w, cases, None), |w.ops|, cases);
    } else {
      SettledOpKeeps(next, cases, FoundOutcome(0, found));
      FoundMeans(w, next, c, found, 0);
      AddedOp(w, next, Op(cases, Some(FoundOutcome(0, found))));
    }
  }

  /** What the caller of a select is told, and what the case that was taken does. */
  ghost predicate SelectSettles<T>(w: World<T>, next: World<T>, cases: seq<Case<T>>, hasDefault: bool, choice: nat)
    requires SomeReady(w, cases) ==> choice < |cases| && Ready(w, cases[choice])
  {
    && |next.ops| == |w.ops| + 1 && |next.channels| == |w.channels| && next.ops[|w.ops|].cases == cases
    && var outcome := next.ops[|w.ops|].outcome;
       if SomeReady(w, cases) then
         var c := cases[choice].on.value;
         match cases[choice]
         case ReceiveCase(_) => Answered(w.channels[c], choice, outcome) && Takes(w, next, c)
         case SendCase(_, value) => outcome == Some(Sent(choice)) && Hands(w, next, c, value)
       else if hasDefault then outcome == Some(Defaulted) && w.ops <= next.ops && next.channels == w.channels
       else outcome == None && w.ops <= next.ops
  }

  /** A select settles at once by a ready case or its default, or blocks on all of its cases. */
  lemma SelectKeeps<T>(w: World<T>, cases: seq<Case<T>>, hasDefault: bool, choice: nat)
    requires Inv(w) && (Blocks(w, cases, hasDefault) ==> MayBlock(w, cases))
    requires SomeReady(w, cases) ==> choice < |cases| && Ready(w, cases[choice])
    ensures WellLinked(w)
    ensures var next := Select(w, cases, hasDefault, choice);
            Inv(next) && OpsGrow(w, next) && SelectSettles(w, next, cases, hasDefault, choice)
  {
    hide InvBut, TryReceive, TrySend, RegisterAll, Takes, Hands, FoundOutcome, Answered;
    InvLinked(w, {});
    if SomeReady(w, cases) {
      var c := cases[choice].on.value;
      match cases[choice] {
        case ReceiveCase(_) =>
          TryReceiveKeeps(w, c);
          var (next, found) := TryReceive(w, c);
          SettledOpKeeps(next, cases, FoundOutcome(choice, found));
          FoundMeans(w, next, c, found, choice);
          AddedOp(w, next, Op(cases, Some(FoundOutcome(choice, found))));
        case SendCase(_, value) =>
          TrySendKeeps(w, c, value);
          SettledOpKeeps(TrySend(w, c, value).0, cases, Sent(choice));
          AddedOp(w, TrySend(w, c, value).0, Op(cases, Some(Sent(choice))));
      }
    } else if hasDefault {
      SettledOpKeeps(w, cases, Defaulted);
    } else {
      BlockKeeps(w, cases);
      RegisterShape(AddOp(w, cases, None), |w.ops|, cases);
    }
  }

  // ----- closing and draining -----

  lemma ShutChan<T>(c: Chan<T>, tickets: nat)
    requires ChanOk(c, tickets)
    ensures ChanOk(c.(closed := true, senders := [], receivers := [], dropped := c.dropped + AllTickets(ItemsOf(c.senders))), tickets)
    ensures c.receivers == [] ==> ChanOk(c.(closed := true, senders := [], dropped := c.dropped + AllTickets(ItemsOf(c.senders))), tickets)
  {
    hide Live, DistinctTickets;
    DropLast(c.sends, c.dropped, c.received + c.values, ItemsOf(c.senders));
    TicketsBelow(c, 0, tickets);
    assert ItemsOf<T>([]) == [];
    assert c.received + c.values + [] == c.received + c.values;
  }

  lemma NotGone<T>(out: seq<Item<T>>, gone: seq<Item<T>>)
    requires forall x, y :: x in out && y in gone ==> x.ticket != y.ticket
    ensures forall i :: 0 <= i < |out| ==> out[i].ticket !in AllTickets(gone)
  {
    forall i | 0 <= i < |out|
      ensures out[i].ticket !in AllTickets(gone)
    {
      assert forall j :: 0 <= j < |gone| ==> gone[j] in gone;
    }
  }

  lemma AllGone<T>(items: seq<Item<T>>)
    ensures Live(items, AllTickets(items)) == []
  {
    LiveNone(items, AllTickets(items));
  }

  /** Dropping the last of the live offers leaves the ones before them. */
  lemma DropLast<T>(sends: seq<Item<T>>, dropped: set<nat>, out: seq<Item<T>>, last: seq<Item<T>>)
    requires DistinctTickets(sends) && out + last == Live(sends, dropped)
    ensures Live(sends, dropped + AllTickets(last)) == out
  {
    hide Live, DistinctTickets, AllTickets;
    var gone := AllTickets(last);
    LiveDistinct(sends, dropped);
    SplitDistinct(out, last);
    LiveTwice(sends, dropped, gone);
    LiveConcat(out, last, gone);
    NotGone(out, last);
    LiveAll(out, gone);
    AllGone(last);
    assert out + [] == out;
  }

  predicate Settled<T>(w: World<T>, op: nat) {
    op < |w.ops| && w.ops[op].outcome.Some?
  }

  lemma GrowOn<T>(a: World<T>, b: World<T>, c: World<T>)
    requires OpsGrow(a, b) && OpsGrow(b, c)
    ensures OpsGrow(a, c)
    ensures forall op :: Settled(b, op) ==> Settled(c, op)
  {
  }

  lemma GrowSame<T>(w: World<T>)
    ensures OpsGrow(w, w)
  {
  }

  lemma InInit<E>(s: seq<E>, x: E)
    requires s != [] && x in s
    ensures x in s[..|s| - 1] || x == s[|s| - 1]
  {
    assert s == s[..|s| - 1] + [s[|s| - 1]];
  }

  lemma SettleTorn<T>(w: World<T>, op: nat, outcome: Outcome<T>, torn: set<nat>)
    requires InvBut(w, torn) && op < |w.ops| && (outcome.Received? ==> outcome.value.None?)
    ensures var next := Settle(w, op, outcome);
            InvBut(next, torn) && OpsGrow(w, next) && Settled(next, op)
  {
    hide InvBut, Settle;
    if w.ops[op].outcome.None? {
      SettleKeeps(w, op, outcome, torn);
    } else {
      SettledAlready(w, op, outcome);
    }
  }

  lemma {:induction false} RejectAllKeeps<T>(w: World<T>, senders: seq<Sender<T>>, torn: set<nat>)
    requires InvBut(w, torn) && WellLinked(w) && forall x :: x in senders ==> x.op < |w.ops|
    ensures var next := RejectAll(w, senders);
            && InvBut(next, torn) && OpsGrow(w, next)
            && (forall x :: x in senders ==> Settled(next, x.op))
            && (senders == [] ==> next == w)
            && (forall c :: 0 <= c < |w.channels| && w.channels[c].receivers == [] ==> next.channels[c].receivers == [])
  {
    hide InvBut, Settle, OpsGrow, WellLinked, Settled;
    if senders == [] {
      GrowSame(w);
    } else {
      var init, last := senders[..|senders| - 1], senders[|senders| - 1];
      assert forall x :: x in init ==> x in senders;
      RejectAllKeeps(w, init, torn);
      var mid, next := RejectAll(w, init), RejectAll(w, senders);
      SettleShrinks(mid, last.op, Rejected);
      SettleTorn(mid, last.op, Rejected, torn);
      GrowOn(w, mid, next);
      forall x | x in senders
        ensures Settled(next, x.op)
      {
        InInit(senders, x);
      }
    }
  }

  lemma SettledAlready<T>(w: World<T>, op: nat, outcome: Outcome<T>)
    requires op < |w.ops| && w.ops[op].outcome.Some? && (outcome.Received? ==> outcome.value.None?)
    ensures Settle(w, op, outcome) == w
  {
  }

  lemma SettleShrinks<T>(w: World<T>, op: nat, outcome: Outcome<T>)
    requires op < |w.ops|
    ensures var next := Settle(w, op, outcome);
            forall c :: 0 <= c < |w.channels| ==>
                          && next.channels[c].values == w.channels[c].values
                          && (w.channels[c].receivers == [] ==> next.channels[c].receivers == [])
  {
  }

  lemma {:induction false} EndAllKeeps<T>(w: World<T>, c: nat, receivers: seq<Waiter>, torn: set<nat>)
    requires InvBut(w, torn) && WellLinked(w) && c < |w.channels| && w.channels[c].values == [] && forall x :: x in receivers ==> x.op < |w.ops|
    ensures var next := EndAll(w, c, receivers);
            && InvBut(next, torn) && OpsGrow(w, next) && next.channels[c].values == []
            && (forall x :: x in receivers ==> Settled(next, x.op))
  {
    hide InvBut, Settle, EndOne, OpsGrow, WellLinked, Settled;
    if receivers == [] {
      GrowSame(w);
    } else {
      var init, last := receivers[..|receivers| - 1], receivers[|receivers| - 1];
      assert forall x :: x in init ==> x in receivers;
      EndAllKeeps(w, c, init, torn);
      var mid, next := EndAll(w, c, init), EndAll(w, c, receivers);
      NothingBuffered(mid, c, last);
      SettleShrinks(mid, last.op, Received(last.at, None));
      SettleTorn(mid, last.op, Received(last.at, None), torn);
      GrowOn(w, mid, next);
      forall x | x in receivers
        ensures Settled(next, x.op)
      {
        InInit(receivers, x);
      }
    }
  }

  lemma NothingBuffered<T>(w: World<T>, c: nat, e: Waiter)
    requires WellLinked(w) && c < |w.channels| && e.op < |w.ops| && w.channels[c].values == []
    ensures EndOne(w, c, e) == Settle(w, e.op, Received(e.at, None))
  {
  }

  function OpsOf<T>(senders: seq<Sender<T>>, receivers: seq<Waiter>): set<nat> {
    (set i | 0 <= i < |senders| :: senders[i].op) + (set i | 0 <= i < |receivers| :: receivers[i].op)
  }

  lemma InOpsOf<T>(senders: seq<Sender<T>>, receivers: seq<Waiter>)
    ensures forall s :: s in senders ==> s.op in OpsOf(senders, receivers)
    ensures forall e :: e in receivers ==> e.op in OpsOf(senders, receivers)
    ensures forall op :: op in OpsOf(senders, receivers) ==> (exists s :: s in senders && s.op == op) || (exists e :: e in receivers && e.op == op)
  {
    forall op | op in OpsOf(senders, receivers)
      ensures (exists s :: s in senders && s.op == op) || (exists e :: e in receivers && e.op == op)
    {
      if i :| 0 <= i < |senders| && senders[i].op == op {
        assert senders[i] in senders;
      } else {
        var i :| 0 <= i < |receivers| && receivers[i].op == op;
        assert receivers[i] in receivers;
      }
    }
  }

  /** No earlier entry of the queue is of the same operation. */
  ghost predicate FirstEntry(receivers: seq<Waiter>, i: nat)
    requires i < |receivers|
  {
    forall j :: 0 <= j < i ==> receivers[j].op != receivers[i].op
  }

  ghost predicate AwaitsNone<T>(chan: Chan<T>, op: nat) {
    (forall s :: s in chan.senders ==> s.op != op) && (forall e :: e in chan.receivers ==> e.op != op)
  }

  /** What a close does: blocked senders are rejected, waiting receivers are told that the channel
      has ended, by the case of their first entry, nobody else hears of it, and what is buffered
      stays. */
  ghost predicate CloseSettles<T>(w: World<T>, next: World<T>, c: nat)
    requires c < |w.channels|
  {
    var chan := w.channels[c];
    && |next.ops| == |w.ops| && |next.channels| == |w.channels|
    && next.channels[c].closed && next.channels[c].values == chan.values && next.channels[c].received == chan.received
    && (forall s :: s in chan.senders ==> s.op < |w.ops| && next.ops[s.op].outcome == Some(Rejected))
    && (forall i :: 0 <= i < |chan.receivers| && FirstEntry(chan.receivers, i) ==>
          chan.receivers[i].op < |w.ops| && next.ops[chan.receivers[i].op].outcome == Some(Received(chan.receivers[i].at, None)))
    && (forall op :: 0 <= op < |w.ops| && AwaitsNone(chan, op) ==> next.ops[op] == w.ops[op])
  }

  /** A channel holds and gave what it did. */
  ghost predicate SameGoods<T>(was: Chan<T>, now: Chan<T>) {
    now == was.(receivers := now.receivers, senders := now.senders, dropped := now.dropped)
  }

  lemma SettleOne<T>(w: World<T>, op: nat, outcome: Outcome<T>, c: nat)
    requires op < |w.ops| && c < |w.channels|
    ensures var next := Settle(w, op, outcome);
            && SameGoods(w.channels[c], next.channels[c])
            && next.ops == if w.ops[op].outcome.Some? then w.ops else w.ops[op := w.ops[op].(outcome := Some(outcome))]
  {
  }

  lemma {:induction false} RejectsAll<T>(w: World<T>, senders: seq<Sender<T>>, c: nat)
    requires WellLinked(w) && c < |w.channels| && forall x :: x in senders ==> x.op < |w.ops|
    ensures var next := RejectAll(w, senders);
            && SameGoods(w.channels[c], next.channels[c])
            && (forall s :: s in senders && w.ops[s.op].outcome.None? ==> next.ops[s.op].outcome == Some(Rejected))
            && (forall op :: 0 <= op < |w.ops| && (w.ops[op].outcome.Some? || forall s :: s in senders ==> s.op != op) ==> next.ops[op] == w.ops[op])
  {
    hide Settle, WellLinked;
    if senders == [] {
    } else {
      var init, last := senders[..|senders| - 1], senders[|senders| - 1];
      assert senders == init + [last];
      RejectsAll(w, init, c);
      SettleOne(RejectAll(w, init), last.op, Rejected, c);
    }
  }

  lemma {:induction false} EndsAll<T>(w: World<T>, c: nat, receivers: seq<Waiter>)
    requires WellLinked(w) && c < |w.channels| && w.channels[c].values == [] && forall x :: x in receivers ==> x.op < |w.ops|
    ensures var next := EndAll(w, c, receivers);
            && SameGoods(w.channels[c], next.channels[c])
            && (forall i :: 0 <= i < |receivers| && FirstEntry(receivers, i) && w.ops[receivers[i].op].outcome.None? ==>
                  next.ops[receivers[i].op].outcome == Some(Received(receivers[i].at, None)))
            && (forall op :: 0 <= op < |w.ops| && (w.ops[op].outcome.Some? || forall e :: e in receivers ==> e.op != op) ==> next.ops[op] == w.ops[op])
  {
    hide Settle, WellLinked, EndOne, FirstEntry;
    if receivers == [] {
    } else {
      var init, last := receivers[..|receivers| - 1], receivers[|receivers| - 1];
      assert receivers == init + [last];
      EndsAll(w, c, init);
      var mid, next := EndAll(w, c, init), EndAll(w, c, receivers);
      NothingBuffered(mid, c, last);
      SettleOne(mid, last.op, Received(last.at, None), c);
      forall i | 0 <= i < |receivers| && FirstEntry(receivers, i) && w.ops[receivers[i].op].outcome.None?
        ensures next.ops[receivers[i].op].outcome == Some(Received(receivers[i].at, None))
      {
        FirstInInit(receivers, i);
      }
    }
  }

  lemma FirstInInit(receivers: seq<Waiter>, i: nat)
    requires i < |receivers| && FirstEntry(receivers, i)
    ensures var init := receivers[..|receivers| - 1];
            if i < |init| then FirstEntry(init, i) && init[i] == receivers[i] else forall e :: e in init ==> e.op != receivers[i].op
  {
  }

  lemma ShutLinked<T>(w: World<T>, c: nat)
    requires WellLinked(w) && c < |w.channels|
    ensures var chan := w.channels[c];
            WellLinked(SetChan(w, c, chan.(closed := true, senders := [], dropped := chan.dropped + AllTickets(ItemsOf(chan.senders)))))
  {
    assert Linked(w.channels[c], |w.ops|);
  }

  lemma {:induction false} RejectShrinks<T>(w: World<T>, senders: seq<Sender<T>>, c: nat)
    requires WellLinked(w) && c < |w.channels| && w.channels[c].receivers == [] && forall x :: x in senders ==> x.op < |w.ops|
    ensures RejectAll(w, senders).channels[c].receivers == []
  {
    hide Settle, WellLinked;
    if senders != [] {
      var init := senders[..|senders| - 1];
      RejectShrinks(w, init, c);
      SettleShrinks(RejectAll(w, init), senders[|senders| - 1].op, Rejected);
    }
  }

  /** A close rejects the senders or ends the receivers: only one side ever waits. */
  lemma OneSideCloses<T>(w: World<T>, c: nat)
    requires WellLinked(w) && c < |w.channels| && !w.channels[c].closed && ChanOk(w.channels[c], w.tickets)
    ensures var chan := w.channels[c];
            var shut := SetChan(w, c, chan.(closed := true, senders := [], dropped := chan.dropped + AllTickets(ItemsOf(chan.senders))));
            var bare := SetChan(shut, c, shut.channels[c].(receivers := []));
            && WellLinked(shut) && WellLinked(bare)
            && (forall x :: x in chan.senders ==> x.op < |w.ops|) && (forall x :: x in chan.receivers ==> x.op < |w.ops|)
            && Close(w, c).0 == if chan.receivers == [] then RejectAll(shut, chan.senders) else EndAll(bare, c, chan.receivers)
  {
    LinkedBelow(w, c);
    OneSide(w, c);
    var chan := w.channels[c];
    hide ChanOk, AllTickets, WellLinked, RejectAll, EndAll;
    var shut := SetChan(w, c, chan.(closed := true, senders := [], dropped := chan.dropped + AllTickets(ItemsOf(chan.senders))));
    ShutLinked(w, c);
    BareLinked(shut, c);
    if chan.receivers == [] {
      RejectShrinks(shut, chan.senders, c);
      var rejected := RejectAll(shut, chan.senders);
      var waiting := SetChan(rejected, c, rejected.channels[c].(receivers := []));
      assert waiting == rejected;
      EndNone(waiting, c);
    } else {
      RejectNone(shut);
    }
  }

  lemma WaitingUnsettled<T>(w: World<T>, c: nat)
    requires c < |w.channels| && EntriesOk(w, c)
    ensures forall s :: s in w.channels[c].senders ==> s.op < |w.ops| && w.ops[s.op].outcome.None?
    ensures forall e :: e in w.channels[c].receivers ==> e.op < |w.ops| && w.ops[e.op].outcome.None?
  {
    assert forall s :: s in w.channels[c].senders ==> SenderOk(w, c, s);
    assert forall e :: e in w.channels[c].receivers ==> WaiterOk(w, c, e);
  }

  lemma ClosesAsTold<T>(w: World<T>, c: nat)
    requires Inv(w) && WellLinked(w) && c < |w.channels| && !w.channels[c].closed
    ensures CloseSettles(w, Close(w, c).0, c)
  {
    hide InvBut, ChanOk, Settle, EntriesOk, AllTickets, FirstEntry, WellLinked, RejectAll, EndAll, Close;
    InvChan(w, {}, c);
    WaitingUnsettled(w, c);
    OneSide(w, c);
    OneSideCloses(w, c);
    var chan := w.channels[c];
    var shut := SetChan(w, c, chan.(closed := true, senders := [], dropped := chan.dropped + AllTickets(ItemsOf(chan.senders))));
    if chan.receivers == [] {
      RejectsAll(shut, chan.senders, c);
    } else {
      EndsAll(SetChan(shut, c, shut.channels[c].(receivers := [])), c, chan.receivers);
    }
  }

  lemma EndNone<T>(w: World<T>, c: nat)
    requires WellLinked(w) && c < |w.channels|
    ensures EndAll(w, c, []) == w
  {
  }

  lemma RejectNone<T>(w: World<T>)
    requires WellLinked(w)
    ensures RejectAll(w, []) == w
  {
  }

  lemma BareLinked<T>(w: World<T>, c: nat)
    requires WellLinked(w) && c < |w.channels|
    ensures WellLinked(SetChan(w, c, w.channels[c].(receivers := [])))
  {
    assert Linked(w.channels[c], |w.ops|);
  }

  lemma OneSide<T>(w: World<T>, c: nat)
    requires c < |w.channels| && ChanOk(w.channels[c], w.tickets)
    ensures w.channels[c].receivers != [] ==> w.channels[c].senders == [] && w.channels[c].values == []
  {
  }

  /** Closing settles everything that waited on the channel, and nothing else. */
  lemma CloseKeeps<T>(w: World<T>, c: nat)
    requires Inv(w) && c < |w.channels|
    ensures WellLinked(w) && Inv(Close(w, c).0) && OpsGrow(w, Close(w, c).0)
    ensures Close(w, c).1 <==> !w.channels[c].closed
    ensures if w.channels[c].closed then Close(w, c).0 == w else CloseSettles(w, Close(w, c).0, c)
  {
    InvLinked(w, {});
    InvChan(w, {}, c);
    var chan := w.channels[c];
    if !chan.closed {
      var torn := OpsOf(chan.senders, chan.receivers);
      InOpsOf(chan.senders, chan.receivers);
      TearMore(w, {}, torn);
      assert {} + torn == torn;
      ShutChan(chan, w.tickets);
      LinkedBelow(w, c);
      ClosesAsTold(w, c);
      hide CloseSettles;
      if chan.receivers == [] {
        CloseSenders(w, c, torn);
      } else {
        CloseReceivers(w, c, torn);
      }
    }
  }

  lemma LinkedBelow<T>(w: World<T>, c: nat)
    requires WellLinked(w) && c < |w.channels|
    ensures forall x :: x in w.channels[c].senders ==> x.op < |w.ops|
    ensures forall x :: x in w.channels[c].receivers ==> x.op < |w.ops|
  {
    assert Linked(w.channels[c], |w.ops|);
  }

  lemma CloseSenders<T>(w: World<T>, c: nat, torn: set<nat>)
    requires InvBut(w, torn) && WellLinked(w) && c < |w.channels| && !w.channels[c].closed && w.channels[c].receivers == []
    requires forall s :: s in w.channels[c].senders ==> s.op in torn && s.op < |w.ops|
    requires forall op :: op in torn ==> exists s :: s in w.channels[c].senders && s.op == op
    requires var chan := w.channels[c];
             ChanOk(chan.(closed := true, senders := [], dropped := chan.dropped + AllTickets(ItemsOf(chan.senders))), w.tickets)
    ensures Inv(Close(w, c).0) && OpsGrow(w, Close(w, c).0)
  {
    hide InvBut, ChanOk;
    var chan := w.channels[c];
    var shutChan := chan.(closed := true, senders := [], dropped := chan.dropped + AllTickets(ItemsOf(chan.senders)));
    ChangeChan(w, torn, c, shutChan, w.tickets);
    var shut := SetChan(w, c, shutChan);
    InvLinked(shut, torn);
    RejectAllKeeps(shut, chan.senders, torn);
    var rejected := RejectAll(shut, chan.senders);
    assert SetChan(rejected, c, rejected.channels[c].(receivers := [])) == rejected;
    TornSettled(rejected, torn);
  }

  lemma CloseReceivers<T>(w: World<T>, c: nat, torn: set<nat>)
    requires InvBut(w, torn) && WellLinked(w) && c < |w.channels| && !w.channels[c].closed && w.channels[c].receivers != []
    requires forall e :: e in w.channels[c].receivers ==> e.op in torn && e.op < |w.ops|
    requires forall op :: op in torn ==> (exists s :: s in w.channels[c].senders && s.op == op) || (exists e :: e in w.channels[c].receivers && e.op == op)
    requires var chan := w.channels[c];
             ChanOk(chan.(closed := true, senders := [], receivers := [], dropped := chan.dropped + AllTickets(ItemsOf(chan.senders))), w.tickets)
    ensures Inv(Close(w, c).0) && OpsGrow(w, Close(w, c).0)
  {
    InvChan(w, torn, c);
    var chan := w.channels[c];
    assert chan.senders == [] && chan.values == [];
    hide InvBut, ChanOk;
    var shutChan := chan.(closed := true, senders := [], dropped := chan.dropped + AllTickets(ItemsOf(chan.senders)));
    var ended := shutChan.(receivers := []);
    ChangeChan(w, torn, c, ended, w.tickets);
    var shut, bare := SetChan(w, c, shutChan), SetChan(w, c, ended);
    SetTwice(w.channels, c, shutChan, ended);
    InvLinked(bare, torn);
    EndAllKeeps(bare, c, chan.receivers, torn);
    TornSettled(EndAll(bare, c, chan.receivers), torn);
  }

  lemma DrainedChan<T>(c: Chan<T>, tickets: nat)
    requires ChanOk(c, tickets)
    ensures ChanOk(c.(values := [], dropped := c.dropped + AllTickets(c.values)), tickets) <==> c.senders == [] || c.capacity == 0
  {
    hide Live, DistinctTickets;
    assert ItemsOf<T>([]) == [];
    if c.senders == [] {
      assert c.received + c.values + [] == c.received + c.values;
      assert c.received + [] + [] == c.received;
      DropLast(c.sends, c.dropped, c.received, c.values);
      BufferedBelow(c, tickets);
    } else if c.capacity == 0 {
      assert c.values == [] && AllTickets(c.values) == {};
      assert c.dropped + {} == c.dropped;
      assert c.(values := [], dropped := c.dropped + AllTickets(c.values)) == c;
    }
  }

  lemma BufferedBelow<T>(c: Chan<T>, tickets: nat)
    requires Balanced(c) && Ticketed(c, tickets)
    ensures forall t :: t in AllTickets(c.values) ==> t < tickets
  {
    forall i | 0 <= i < |c.values|
      ensures c.values[i].ticket < tickets
    {
      assert (c.received + c.values + ItemsOf(c.senders))[|c.received| + i] == c.values[i];
      assert c.values[i] in Live(c.sends, c.dropped);
    }
  }

  /** Exactly when draining a buffer keeps the invariant: no sender is blocked on it. */
  lemma DrainExact<T>(w: World<T>, c: nat)
    requires Inv(w) && c < |w.channels|
    ensures Inv(DrainBuffered(w, c)) <==> w.channels[c].senders == [] || w.channels[c].capacity == 0
  {
    InvChan(w, {}, c);
    var chan := w.channels[c];
    DrainedChan(chan, w.tickets);
    var next := chan.(values := [], dropped := chan.dropped + AllTickets(chan.values));
    if chan.senders == [] || chan.capacity == 0 {
      hide ChanOk, InvBut;
      ChangeChan(w, {}, c, next, w.tickets);
    } else {
      assert DrainBuffered(w, c).channels[c] == next;
    }
  }

  // ----- whole runs -----

  datatype Step<T> =
    | Make(capacity: nat)
    | DoTrySend(on: nat, value: T)
    | DoSend(on: nat, value: T)
    | DoTryReceive(on: nat)
    | DoReceive(on: nat)
    | DoSelect(cases: seq<Case<T>>, hasDefault: bool, choice: nat)
    | DoClose(on: nat)
    | DoDrain(on: nat)

  ghost predicate Enabled<T>(w: World<T>, step: Step<T>) {
    WellLinked(w) &&
    match step
    case Make(_) => true
    case DoSelect(cases, _, choice) => SomeReady(w, cases) ==> choice < |cases| && Ready(w, cases[choice])
    case _ => step.on < |w.channels|
  }

  ghost function Apply<T>(w: World<T>, step: Step<T>): World<T>
    requires Enabled(w, step)
  {
    match step
    case Make(capacity) => w.(channels := w.channels + [Chan(capacity, false, [], [], [], [], [], {})])
    case DoTrySend(c, value) => TrySend(w, c, value).0
    case DoSend(c, value) => Send(w, c, value)
    case DoTryReceive(c) => TryReceive(w, c).0
    case DoReceive(c) => Receive(w, c)
    case DoSelect(cases, hasDefault, choice) => Select(w, cases, hasDefault, choice)
    case DoClose(c) => Close(w, c).0
    case DoDrain(c) => DrainBuffered(w, c)
  }

  /** What the callers of channels must observe: see BlockExact and DrainExact. */
  ghost predicate Proper<T>(w: World<T>, step: Step<T>) {
    match step
    case DoSelect(cases, hasDefault, _) => (Blocks(w, cases, hasDefault) ==> MayBlock(w, cases)) && NoneNamed(w, cases)
    case DoDrain(c) => c < |w.channels| ==> w.channels[c].senders == [] || w.channels[c].capacity == 0
    case _ => true
  }

  /** Every channel named by a case exists. */
  predicate NoneNamed<T>(w: World<T>, cases: seq<Case<T>>) {
    forall i :: 0 <= i < |cases| && cases[i].on.Some? ==> cases[i].on.value < |w.channels|
  }

  lemma MakeKeeps<T>(w: World<T>, capacity: nat)
    requires Inv(w) && AllNamed(w)
    ensures var next := w.(channels := w.channels + [Chan(capacity, false, [], [], [], [], [], {})]);
            Inv(next) && OpsGrow(w, next)
  {
    var chan: Chan<T> := Chan(capacity, false, [], [], [], [], [], {});
    var next := w.(channels := w.channels + [chan]);
    assert ChanOk(chan, w.tickets) by {
      assert ItemsOf<T>([]) == [];
    }
    forall c | 0 <= c < |next.channels|
      ensures ChanOk(next.channels[c], next.tickets) && EntriesOk(next, c)
    {
      if c < |w.channels| {
        InvChan(w, {}, c);
        assert forall e :: e in w.channels[c].receivers ==> WaiterOk(w, c, e);
        assert forall s :: s in w.channels[c].senders ==> SenderOk(w, c, s);
      }
    }
    hide ChanOk, EntriesOk;
    forall op | 0 <= op < |next.ops| && next.ops[op].outcome.None?
      ensures FullyRegistered(next, op)
    {
      assert FullyRegistered(w, op) && NoneNamed(w, w.ops[op].cases);
      forall at | 0 <= at < |w.ops[op].cases|
        ensures Registered(next, op, at)
      {
        assert Registered(w, op, at);
      }
    }
  }

  /** Operations name channels that existed when they began. */
  ghost predicate AllNamed<T>(w: World<T>) {
    forall op :: 0 <= op < |w.ops| ==> NoneNamed(w, w.ops[op].cases)
  }

  lemma NamedGrow<T>(w: World<T>, next: World<T>, cases: seq<Case<T>>)
    requires AllNamed(w) && OpsGrow(w, next) && |next.ops| <= |w.ops| + 1
    requires |next.ops| > |w.ops| ==> next.ops[|w.ops|].cases == cases && NoneNamed(w, cases)
    ensures AllNamed(next)
  {
    forall op | 0 <= op < |next.ops|
      ensures NoneNamed(next, next.ops[op].cases)
    {
      assert op < |w.ops| ==> NoneNamed(w, w.ops[op].cases);
    }
  }

  /** What a step appends to the operations. */
  lemma StepCases<T>(w: World<T>, step: Step<T>)
    requires Inv(w) && Enabled(w, step)
    ensures var next := Apply(w, step);
            |next.ops| <= |w.ops| + 1 &&
            (|next.ops| > |w.ops| ==>
               next.ops[|w.ops|].cases == (match step
                 case DoSend(c, value) => [SendCase(Some(c), value)]
                 case DoReceive(c) => [ReceiveCase(Some(c))]
                 case DoSelect(cases, _, _) => cases
                 case _ => []))
  {
    hide InvBut, TrySend, TryReceive, RegisterAll, RejectAll, EndAll;
    match step {
      case DoTrySend(c, value) => TrySendKeeps(w, c, value);
      case DoSend(c, value) =>
        TrySendKeeps(w, c, value);
        RegisterShape(AddOp(w, [SendCase(Some(c), value)], None), |w.ops|, [SendCase(Some(c), value)]);
      case DoTryReceive(c) => TryReceiveKeeps(w, c);
      case DoReceive(c) =>
        TryReceiveKeeps(w, c);
        RegisterShape(AddOp(w, [ReceiveCase(Some(c))], None), |w.ops|, [ReceiveCase(Some(c))]);
      case DoSelect(cases, hasDefault, choice) =>
        if SomeReady(w, cases) {
          match cases[choice] {
            case ReceiveCase(_) => TryReceiveKeeps(w, cases[choice].on.value);
            case SendCase(_, value) => TrySendKeeps(w, cases[choice].on.value, value);
          }
        }
        RegisterShape(AddOp(w, cases, None), |w.ops|, cases);
      case _ =>
    }
  }

  lemma StepKeeps<T>(w: World<T>, step: Step<T>)
    requires Inv(w) && AllNamed(w) && Enabled(w, step) && Proper(w, step)
    ensures Inv(Apply(w, step)) && AllNamed(Apply(w, step)) && OpsGrow(w, Apply(w, step))
  {
    hide InvBut, TrySend, TryReceive, Send, Receive, Select, Close, MayBlock;
    match step {
      case Make(capacity) => MakeKeeps(w, capacity);
      case DoTrySend(c, value) => TrySendKeeps(w, c, value);
      case DoSend(c, value) => SendKeeps(w, c, value);
      case DoTryReceive(c) => TryReceiveKeeps(w, c);
      case DoReceive(c) => ReceiveKeeps(w, c);
      case DoSelect(cases, hasDefault, choice) => SelectKeeps(w, cases, hasDefault, choice);
      case DoClose(c) => CloseKeeps(w, c);
      case DoDrain(c) => DrainExact(w, c);
    }
    StepCases(w, step);
    var cases: seq<Case<T>> := match step
      case DoSend(c, value) => [SendCase(Some(c), value)]
      case DoReceive(c) => [ReceiveCase(Some(c))]
      case DoSelect(cs, _, _) => cs
      case _ => [];
    hide Apply;
    NamedGrow(w, Apply(w, step), cases);
  }

  ghost predicate Run<T>(steps: seq<Step<T>>, worlds: seq<World<T>>) {
    && |worlds| == |steps| + 1
    && worlds[0] == World([], [], 0, [])
    && forall i :: 0 <= i < |steps| ==> Enabled(worlds[i], steps[i]) && worlds[i + 1] == Apply(worlds[i], steps[i])
  }

  lemma NothingYet<T>()
    ensures Inv<T>(World([], [], 0, [])) && AllNamed<T>(World([], [], 0, []))
  {
  }

  /** In every world of every proper run, the queues and the ledgers are sound. */
  lemma {:induction false} RunsKeep<T>(steps: seq<Step<T>>, worlds: seq<World<T>>, n: nat)
    requires Run(steps, worlds) && n <= |steps|
    requires forall i :: 0 <= i < |steps| ==> Proper(worlds[i], steps[i])
    ensures Inv(worlds[n]) && AllNamed(worlds[n])
    ensures forall m :: 0 <= m <= n ==> OpsGrow(worlds[m], worlds[n])
  {
    hide InvBut, Apply, Enabled, Proper, OpsGrow, AllNamed;
    GrowSame(worlds[n]);
    if n == 0 {
      NothingYet<T>();
    } else {
      RunsKeep(steps, worlds, n - 1);
      StepKeeps(worlds[n - 1], steps[n - 1]);
      forall m | 0 <= m < n
        ensures OpsGrow(worlds[m], worlds[n])
      {
        GrowOn(worlds[m], worlds[n - 1], worlds[n]);
      }
    }
  }

  /** Once an operation has settled, no queue of any channel holds an entry of it, and no value is
      ever handed to it: it settles by one case at most. */
  lemma SettledIsGone<T>(w: World<T>, op: nat, c: nat)
    requires Inv(w) && op < |w.ops| && w.ops[op].outcome.Some? && c < |w.channels|
    ensures w.lost == []
    ensures forall e :: e in w.channels[c].receivers ==> e.op != op
    ensures forall s :: s in w.channels[c].senders ==> s.op != op
  {
    InvChan(w, {}, c);
    assert forall e :: e in w.channels[c].receivers ==> WaiterOk(w, c, e);
    assert forall s :: s in w.channels[c].senders ==> SenderOk(w, c, s);
  }

  /** First in, first out: what came out, what is buffered and what blocked senders hold make up,
      in this order, the offers that were not dropped; and waiting on either side means that there
      is nothing on the other. */
  lemma FirstInFirstOut<T>(w: World<T>, c: nat)
    requires Inv(w) && c < |w.channels|
    ensures var chan := w.channels[c];
            && chan.received + chan.values + ItemsOf(chan.senders) == Live(chan.sends, chan.dropped)
            && |chan.values| <= chan.capacity
            && (chan.receivers != [] ==> chan.values == [] && chan.senders == [])
            && (chan.senders != [] ==> |chan.values| == chan.capacity)
  {
    InvChan(w, {}, c);
  }

  /** No wake-up is lost: an operation that is still blocked has no case that could go on. */
  lemma NoLostWakeUp<T>(w: World<T>, op: nat)
    requires Inv(w) && op < |w.ops| && w.ops[op].outcome.None?
    ensures !SomeReady(w, w.ops[op].cases)
  {
    assert FullyRegistered(w, op);
    forall at | 0 <= at < |w.ops[op].cases|
      ensures !Ready(w, w.ops[op].cases[at])
    {
      assert Registered(w, op, at);
      var on := w.ops[op].cases[at].on;
      if on.Some? && on.value < |w.channels| {
        InvChan(w, {}, on.value);
      }
    }
  }
}
