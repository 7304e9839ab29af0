/** Channels as the objects that change in place: each operation moves the world of channels exactly
    as its specification says, and keeps its queues and ledgers sound. */
module Runtime {
  import opened Options
  import opened C = Channels

  class Channels<T> {
    var channels: seq<Chan<T>>
    var ops: seq<Op<T>>
    var tickets: nat
    var lost: seq<T>

    /** Queues and ledgers are sound. */
    ghost predicate Valid()
      reads this
    {
      C.Inv(View())
    }

    constructor ()
      ensures Valid() && View() == World([], [], 0, [])
    {
      channels, ops, tickets, lost := [], [], 0, [];
    }

    ghost function View(): World<T>
      reads this
    {
      World(channels, ops, tickets, lost)
    }

    /** Takes an operation out of every queue in which it waits. */
    method Cancel(op: nat)
      modifies this`channels
      ensures channels == Detach(old(channels), op)
    {
      for i := 0 to |channels|
        invariant |channels| == |old(channels)|
        invariant forall j :: 0 <= j < i ==> channels[j] == DetachFrom(old(channels)[j], op)
        invariant forall j :: i <= j < |channels| ==> channels[j] == old(channels)[j]
      {
        var chan := channels[i];
        var receivers := CancelReceiver(chan.receivers, op);
        var senders, tickets := CancelSender(chan.senders, op);
        channels := channels[i := chan.(receivers := receivers, senders := senders, dropped := chan.dropped + tickets)];
      }
    }

    static method CancelReceiver(receivers: seq<Waiter>, op: nat) returns (rest: seq<Waiter>)
      ensures rest == WithoutWaiters(receivers, op)
    {
      rest := [];
      for i := 0 to |receivers|
        invariant rest == WithoutWaiters(receivers[..i], op)
      {
        assert receivers[..i + 1][..i] == receivers[..i];
        if receivers[i].op != op {
          rest := rest + [receivers[i]];
        }
      }
      assert receivers[..|receivers|] == receivers;
    }

    static method CancelSender(senders: seq<Sender<T>>, op: nat) returns (rest: seq<Sender<T>>, tickets: set<nat>)
      ensures rest == WithoutSenders(senders, op) && tickets == TicketsOf(senders, op)
    {
      rest, tickets := [], {};
      for i := 0 to |senders|
        invariant rest == WithoutSenders(senders[..i], op)
        invariant tickets == set j | 0 <= j < i && senders[j].op == op :: senders[j].item.ticket
      {
        assert senders[..i + 1][..i] == senders[..i];
        if senders[i].op != op {
          rest := rest + [senders[i]];
        } else {
          tickets := tickets + {senders[i].item.ticket};
        }
      }
      assert senders[..|senders|] == senders;
    }

    /** The first outcome settles an operation. */
    method SettleOp(op: nat, outcome: Outcome<T>)
      requires op < |ops|
      modifies this
      ensures View() == Settle(old(View()), op, outcome)
    {
      if ops[op].outcome.Some? {
        if outcome.Received? && outcome.value.Some? {
          lost := lost + [outcome.value.value];
        }
        return;
      }
      ops := ops[op := ops[op].(outcome := Some(outcome))];
      Cancel(op);
    }

    method TrySend(c: nat, value: T) returns (result: SendResult)
      requires c < |channels| && WellLinked(View())
      modifies this
      ensures (View(), result) == C.TrySend(old(View()), c, value)
      ensures |channels| == |old(channels)| && |ops| == |old(ops)|
      ensures (result.Accepted? <==> CanSend(old(channels)[c])) && (!result.Accepted? ==> View() == old(View()))
      ensures old(Valid()) ==> Valid() && SendOutcome(old(View()), View(), c, value, result)
    {
      hide C.Inv, SendOutcome;
      if Valid() {
        TrySendKeeps(View(), c, value);
      }
      var chan, item := channels[c], Item(tickets, value);
      if chan.closed {
        return OnClosed;
      }
      if |chan.receivers| > 0 {
        var receiver := chan.receivers[0];
        assert receiver in chan.receivers && Linked(chan, |ops|);
        channels := channels[c := chan.(receivers := chan.receivers[1..], sends := chan.sends + [item], received := chan.received + [item])];
        tickets := tickets + 1;
        SettleOp(receiver.op, Received(receiver.at, Some(value)));
        return Accepted;
      }
      if |chan.values| >= chan.capacity {
        return Full;
      }
      channels := channels[c := chan.(sends := chan.sends + [item], values := chan.values + [item])];
      tickets := tickets + 1;
      return Accepted;
    }

    method DrainSender(c: nat)
      requires c < |channels| && WellLinked(View())
      modifies this
      ensures View() == C.DrainSender(old(View()), c)
      ensures |channels| == |old(channels)| && |ops| == |old(ops)|
    {
      var chan := channels[c];
      if chan.closed || |chan.senders| == 0 {
        return;
      }
      var sender := chan.senders[0];
      assert sender in chan.senders && Linked(chan, |ops|);
      if |chan.receivers| > 0 {
        var receiver := chan.receivers[0];
        assert receiver in chan.receivers;
        channels := channels[c := chan.(senders := chan.senders[1..], receivers := chan.receivers[1..], received := chan.received + [sender.item])];
        SettleOp(sender.op, Sent(sender.at));
        SettleOp(receiver.op, Received(receiver.at, Some(sender.item.value)));
        return;
      }
      if |chan.values| < chan.capacity {
        channels := channels[c := chan.(senders := chan.senders[1..], values := chan.values + [sender.item])];
        SettleOp(sender.op, Sent(sender.at));
      }
    }

    method TryReceive(c: nat) returns (found: Found<T>)
      requires c < |channels| && WellLinked(View())
      modifies this
      ensures (View(), found) == C.TryReceive(old(View()), c)
      ensures |channels| == |old(channels)| && |ops| == |old(ops)|
      ensures (found.NotReady? <==> !CanReceive(old(channels)[c])) && (found.NotReady? ==> View() == old(View()))
      ensures old(Valid()) ==> Valid() && ReceiveOutcome(old(View()), View(), c, found)
    {
      hide C.Inv, ReceiveOutcome;
      if Valid() {
        TryReceiveKeeps(View(), c);
      }
      var chan := channels[c];
      if |chan.values| > 0 {
        var v := chan.values[0];
        channels := channels[c := chan.(values := chan.values[1..], received := chan.received + [v])];
        DrainSender(c);
        return Value(v.value);
      }
      if |chan.senders| > 0 {
        var sender := chan.senders[0];
        assert sender in chan.senders && Linked(chan, |ops|);
        channels := channels[c := chan.(senders := chan.senders[1..], received := chan.received + [sender.item])];
        SettleOp(sender.op, Sent(sender.at));
        return Value(sender.item.value);
      }
      return if chan.closed then End else NotReady;
    }

    /** Registers a blocked operation with each of its cases. */
    method Block(op: nat, cases: seq<Case<T>>)
      modifies this
      ensures View() == RegisterAll(old(View()), op, cases)
    {
      for at := 0 to |cases|
        invariant View() == RegisterAll(old(View()), op, cases[..at])
      {
        assert cases[..at + 1][..at] == cases[..at];
        var on := cases[at].on;
        if on.None? || on.value >= |channels| {
          continue;
        }
        var chan := channels[on.value];
        match cases[at] {
          case ReceiveCase(_) =>
            channels := channels[on.value := chan.(receivers := chan.receivers + [Waiter(op, at)])];
          case SendCase(_, value) =>
            var item := Item(tickets, value);
            channels := channels[on.value := chan.(senders := chan.senders + [Sender(op, at, item)], sends := chan.sends + [item])];
            tickets := tickets + 1;
        }
      }
      assert cases[..|cases|] == cases;
    }

    method Send(c: nat, value: T)
      requires c < |channels| && WellLinked(View())
      modifies this
      ensures View() == C.Send(old(View()), c, value)
      ensures old(Valid()) ==> Valid() && SendSettles(old(View()), View(), c, value)
    {
      hide C.Inv, C.TrySend, SendOutcome, SendSettles;
      if Valid() {
        SendKeeps(View(), c, value);
      }
      var cases := [SendCase(Some(c), value)];
      var result := TrySend(c, value);
      match result {
        case OnClosed => ops := ops + [Op(cases, Some(Rejected))];
        case Accepted => ops := ops + [Op(cases, Some(Sent(0)))];
        case Full =>
          ops := ops + [Op(cases, None)];
          Block(|ops| - 1, cases);
      }
    }

    method Receive(c: nat)
      requires c < |channels| && WellLinked(View())
      modifies this
      ensures View() == C.Receive(old(View()), c)
      ensures old(Valid()) ==> Valid() && ReceiveSettles(old(View()), View(), c)
    {
      hide C.Inv, C.TryReceive, ReceiveOutcome, ReceiveSettles;
      if Valid() {
        ReceiveKeeps(View(), c);
      }
      var cases: seq<Case<T>> := [ReceiveCase(Some(c))];
      var found := TryReceive(c);
      if found.NotReady? {
        ops := ops + [Op(cases, None)];
        Block(|ops| - 1, cases);
      } else {
        ops := ops + [Op(cases, Some(FoundOutcome(0, found)))];
      }
    }

    /** The cases that are ready, in order. */
    method ReadyCases(cases: seq<Case<T>>) returns (ready: seq<nat>)
      ensures forall i :: i in ready ==> i < |cases| && Ready(View(), cases[i])
      ensures ready == [] ==> !SomeReady(View(), cases)
    {
      ready := [];
      for i := 0 to |cases|
        invariant forall k :: k in ready ==> k < i && Ready(View(), cases[k])
        invariant ready == [] ==> forall k :: 0 <= k < i ==> !Ready(View(), cases[k])
      {
        var on := cases[i].on;
        if on.Some? && on.value < |channels| {
          if (if cases[i].ReceiveCase? then CanReceive(channels[on.value]) else CanSend(channels[on.value])) {
            ready := ready + [i];
          }
        }
      }
    }

    /** A select; `random` picks among the ready cases. */
    method Select(cases: seq<Case<T>>, hasDefault: bool, random: nat) returns (ghost choice: nat)
      requires WellLinked(View())
      modifies this
      ensures SomeReady(old(View()), cases) ==> choice < |cases| && Ready(old(View()), cases[choice])
      ensures View() == C.Select(old(View()), cases, hasDefault, choice)
      ensures old(Valid()) && (Blocks(old(View()), cases, hasDefault) ==> MayBlock(old(View()), cases)) ==>
                Valid() && SelectSettles(old(View()), View(), cases, hasDefault, choice)
    {
      hide C.Inv, SelectSettles, C.TrySend, C.TryReceive, SendOutcome, ReceiveOutcome, MayBlock;
      var ready := ReadyCases(cases);
      choice := 0;
      if |ready| > 0 {
        var selected := ready[random % |ready|];
        assert selected in ready;
        choice := selected;
        if Valid() && (Blocks(View(), cases, hasDefault) ==> MayBlock(View(), cases)) {
          SelectKeeps(View(), cases, hasDefault, choice);
        }
        match cases[selected] {
          case ReceiveCase(on) =>
            var found := TryReceive(on.value);
            ops := ops + [Op(cases, Some(FoundOutcome(selected, found)))];
          case SendCase(on, value) =>
            var _ := TrySend(on.value, value);
            ops := ops + [Op(cases, Some(Sent(selected)))];
        }
        return;
      }
      if Valid() && (Blocks(View(), cases, hasDefault) ==> MayBlock(View(), cases)) {
        SelectKeeps(View(), cases, hasDefault, choice);
      }
      if hasDefault {
        ops := ops + [Op(cases, Some(Defaulted))];
      } else {
        ops := ops + [Op(cases, None)];
        Block(|ops| - 1, cases);
      }
    }

    /** Closes a channel; closing it twice is refused. */
    method Close(c: nat) returns (done: bool)
      requires c < |channels| && WellLinked(View())
      modifies this
      ensures (View(), done) == C.Close(old(View()), c)
      ensures done <==> !old(channels)[c].closed
      ensures old(Valid()) ==> Valid() && if done then CloseSettles(old(View()), View(), c) else View() == old(View())
    {
      hide C.Inv, CloseSettles, RejectAll, EndAll;
      if Valid() {
        CloseKeeps(View(), c);
      }
      var chan := channels[c];
      if chan.closed {
        return false;
      }
      assert Linked(chan, |ops|);
      channels := channels[c := chan.(closed := true, senders := [], dropped := chan.dropped + AllTickets(ItemsOf(chan.senders)))];
      RejectSenders(chan.senders);
      var waiting := channels[c];
      assert Linked(waiting, |ops|);
      channels := channels[c := waiting.(receivers := [])];
      EndReceivers(c, waiting.receivers);
      return true;
    }

    method RejectSenders(senders: seq<Sender<T>>)
      requires WellLinked(View()) && forall x :: x in senders ==> x.op < |ops|
      modifies this
      ensures View() == RejectAll(old(View()), senders)
    {
      hide WellLinked, Settle;
      for i := 0 to |senders|
        invariant |ops| == |old(ops)|
        invariant View() == RejectAll(old(View()), senders[..i])
      {
        hide WellLinked, Settle;
        assert senders[..i + 1][..i] == senders[..i];
        SettleOp(senders[i].op, Rejected);
      }
      assert senders[..|senders|] == senders;
    }

    method EndReceivers(c: nat, receivers: seq<Waiter>)
      requires WellLinked(View()) && c < |channels| && forall x :: x in receivers ==> x.op < |ops|
      modifies this
      ensures View() == EndAll(old(View()), c, receivers)
    {
      hide WellLinked, Settle, EndOne;
      for i := 0 to |receivers|
        invariant |channels| == |old(channels)| && |ops| == |old(ops)|
        invariant View() == EndAll(old(View()), c, receivers[..i])
      {
        hide WellLinked, Settle, EndOne;
        assert receivers[..i + 1][..i] == receivers[..i];
        EndReceiver(c, receivers[i]);
      }
      assert receivers[..|receivers|] == receivers;
    }

    /** Ends one waiting receiver, with a value if one is buffered after all. */
    method EndReceiver(c: nat, receiver: Waiter)
      requires WellLinked(View()) && c < |channels| && receiver.op < |ops|
      modifies this
      ensures View() == EndOne(old(View()), c, receiver)
    {
      hide WellLinked, Settle;
      var now := channels[c];
      if |now.values| == 0 {
        SettleOp(receiver.op, Received(receiver.at, None));
      } else {
        var v := now.values[0];
        channels := channels[c := now.(values := now.values[1..], received := now.received + [v])];
        SettleOp(receiver.op, Received(receiver.at, Some(v.value)));
      }
    }

    method DrainBuffered(c: nat)
      requires c < |channels|
      modifies this`channels
      ensures View() == C.DrainBuffered(old(View()), c)
      ensures old(Valid()) ==> (Valid() <==> old(channels)[c].senders == [] || old(channels)[c].capacity == 0)
    {
      hide C.Inv;
      if Valid() {
        DrainExact(View(), c);
      }
      channels := channels[c := channels[c].(values := [], dropped := channels[c].dropped + AllTickets(channels[c].values))];
    }
  }
}
