/** The server's routing code in its own imperative form: the global session
    table, the offline store, and the handlers that work on both. */
module Router {
  import opened Options
  import opened Jids
  import opened Stanzas
  import opened Sessions
  import opened Offline
  import opened Routing
  import opened RoutingRuns

  /** The cap notice only matters on the offline path. */
  lemma {:induction false} CapNoticeOnlyOffline(s: seq<Entry>, d: Delivery, route: Route, notice: seq<Write>)
    ensures route.Nowhere? ==> Writes(s, d, route, notice) == []
    ensures !route.Nobody? ==> Writes(s, d, route, notice) == Writes(s, d, route, [])
  {
  }

  lemma {:induction false} StoreStep(n: Net, d: Delivery, stamp: int -> string)
    ensures Next(n, Deliver(d), stamp).rows == n.rows + DueRow(n, d)
  {
    hide Stored, Traffic, Notices, RouteOf, Touched, DueRow;
    StoredIsDue(n, d);
  }

  class Server {
    const table: SessionTable
    const store: OfflineStore

    /** The table is in order; a handler halfway through keeps this. */
    ghost predicate Ready()
      reads this, table, table.slots
    {
      table.Valid()
    }

    /** Between handlers: distinct keys, nobody both online and stored for, every
        queue within its quota, and no accepted message lost. */
    ghost predicate Valid()
      reads this, table, table.slots, store
    {
      Ready() && Inv(View())
    }

    ghost function View(): Net
      requires Ready()
      reads this, table, table.slots, store
    {
      Net(table.Table(), table.wire, store.rows, store.accepted, store.handed)
    }

    constructor (stamp: int -> string)
      ensures Valid() && fresh(table) && fresh(table.slots) && fresh(store)
      ensures View() == EmptyNet && store.stamp == stamp
    {
      table := new SessionTable();
      store := new OfflineStore(stamp);
      new;
      RunKeepsInvariant([], stamp);
    }

    /** xmpp_session_table_register: claim or refresh a slot, and drain the
        offline store into a session that is new in the table. */
    method Register(who: Client, now: nat, down: set<Sink>)
      requires Valid()
      modifies table, table.slots, store
      ensures Valid()
      ensures View() == Next(old(View()), Op.Register(who, now, down), store.stamp)
    {
      NextKeepsInvariant(View(), Op.Register(who, now, down), store.stamp);
      hide Inv, Next;
      ClaimAndDrain(who, now, down);
    }

    method ClaimAndDrain(who: Client, now: nat, down: set<Sink>)
      requires Ready()
      modifies table, table.slots, store
      ensures Ready()
      ensures View() == Next(old(View()), Op.Register(who, now, down), store.stamp)
    {
      hide Find, Bare, Pending, Bytes, SlotOf, ByTime, Without, Replays;
      var claimed := table.Claim(who.jid, who.sink, who.carbons, now);
      if !claimed {
        return;
      }
      var texts := store.Drain(Bare(who.jid));
      if who.sink in down {
        assert ReplayWrites(who.jid, who.sink, texts, down) == [];
        assert table.wire == old(table.wire) + [];
        return;
      }
      var i := 0;
      while i < |texts|
        invariant i <= |texts|
        invariant table.Valid() && table.Table() == Registered(old(table.Table()), who.jid, who.sink, who.carbons, now)
        invariant table.wire == old(table.wire) + ReplayWrites(who.jid, who.sink, texts[..i], down)
        modifies table`wire
      {
        assert texts[..i + 1][..i] == texts[..i];
        table.wire := table.wire + [ToSession(who.jid, who.sink, Replayed(texts[i]))];
        i := i + 1;
      }
      assert texts[..i] == texts;
    }

    method Unregister(jid: Jid)
      requires Valid()
      modifies table, table.slots
      ensures Valid()
      ensures View() == Next(old(View()), Op.Unregister(jid), store.stamp)
    {
      NextKeepsInvariant(View(), Op.Unregister(jid), store.stamp);
      hide Inv;
      table.Unregister(jid);
    }

    method SetPriority(jid: Jid, priority: int)
      requires Valid()
      modifies table.slots
      ensures Valid()
      ensures View() == Next(old(View()), Op.SetPriority(jid, priority), store.stamp)
    {
      NextKeepsInvariant(View(), Op.SetPriority(jid, priority), store.stamp);
      hide Inv;
      table.UpdatePriority(jid, priority);
    }

    method SetCarbons(jid: Jid, enabled: bool)
      requires Valid()
      modifies table.slots
      ensures Valid()
      ensures View() == Next(old(View()), Op.SetCarbons(jid, enabled), store.stamp)
    {
      NextKeepsInvariant(View(), Op.SetCarbons(jid, enabled), store.stamp);
      hide Inv;
      table.UpdateCarbons(jid, enabled);
    }

    /** A pass over the table changes nothing but the log. */
    method Broadcast(a: Audience, p: Packet, down: set<Sink>)
      requires Valid()
      modifies table`wire
      ensures Valid() && View() == old(View()).(wire := table.wire)
      ensures table.wire == old(table.wire) + Fanout(table.Table(), a, p, down)
    {
      hide Fanout, Inv;
      table.Broadcast(a, p, down);
      InvIgnoresWire(old(View()), table.wire);
    }

    method SendBack(d: Delivery, text: Option<string>)
      requires Ready()
      modifies table`wire
      ensures Ready() && table.Table() == old(table.Table())
      ensures table.wire == old(table.wire) + Back(d, text)
    {
      if text.Some? {
        table.Reply(d.who.sink, Notice(text.value), d.down);
      }
    }

    method SendCarbonSent(d: Delivery, to: string)
      requires Ready()
      modifies table`wire
      ensures Ready() && table.Table() == old(table.Table())
      ensures table.wire == old(table.wire) + SentCopies(table.Table(), d, to)
    {
      if !d.msg.isPrivate && !d.msg.isReceiptAck {
        var mine := Bare(d.who.jid);
        table.Broadcast(Audience(mine, Some(d.who.jid), true),
                        Carbon(Sent, mine, d.who.jid, to, d.msg.kind, d.msg.id, d.msg.body), d.down);
      }
    }

    method SendCarbonReceived(d: Delivery, toBare: Jid, except: Jid)
      requires Ready() && toBare == Bare(To(d.msg))
      modifies table`wire
      ensures Ready() && table.Table() == old(table.Table())
      ensures table.wire == old(table.wire) + ReceivedCopies(table.Table(), d, except)
    {
      if !d.msg.isPrivate && !d.msg.isReceiptAck {
        table.Broadcast(Audience(toBare, Some(except), true),
                        Carbon(Received, toBare, d.who.jid, To(d.msg), d.msg.kind, d.msg.id, d.msg.body), d.down);
      }
    }

    /** The handler up to routing: required `to`, local domain, receipt,
        blocklist. */
    method Admit(d: Delivery) returns (go: bool)
      requires Ready()
      modifies table`wire
      ensures Ready() && table.Table() == old(table.Table())
      ensures go <==> && d.msg.to.Some? && d.msg.to.value != "" && Domain(d.msg.to.value) == d.who.domain
                      && !d.blocked
      ensures go <==> Admission(d) == Accepted
      ensures table.wire == old(table.wire) + Notices(d)
    {
      if d.msg.to.None? || d.msg.to.value == "" {
        SendBack(d, ErrorText(d.msg.id, "", "modify", "bad-request"));
        return false;
      }
      if Domain(d.msg.to.value) != d.who.domain {
        SendBack(d, ErrorText(d.msg.id, d.msg.to.value, "cancel", "service-unavailable"));
        return false;
      }
      SendBack(d, Receipt(d));
      return !d.blocked;
    }

    /** Full-JID target: the exact resource, then its received carbons. */
    method TryExact(d: Delivery) returns (done: bool)
      requires Ready() && HasResource(To(d.msg))
      modifies table`wire, table.slots
      ensures Ready()
      ensures done <==> Text(d, To(d.msg)).Some? && Reachable(AsMap(old(table.Table())), To(d.msg), d.down)
      ensures done ==> && table.Table() == Touched(old(table.Table()), d.who.jid, d.now)
                       && table.wire == old(table.wire)
                            + Writes(old(table.Table()), d, Exact(To(d.msg), Text(d, To(d.msg)).value), [])
      ensures !done ==> table.Table() == old(table.Table()) && table.wire == old(table.wire)
    {
      hide Built, MessageText, Find, Bare, Domain, SlotOf;
      var to := d.msg.to.value;
      var fwd := BuildMessage(d.who.jid, to, d.msg.kind, d.msg.id, d.msg.body);
      if fwd.None? {
        return false;
      }
      done := table.WriteTo(to, Forwarded(fwd.value), d.down);
      if done {
        table.Touch(d.who.jid, d.now);
        SendCarbonReceived(d, Bare(to), to);
      }
    }

    /** Self-addressed: every other resource of the sender. */
    method ToMyself(d: Delivery, text: string)
      requires Ready()
      modifies table`wire, table.slots
      ensures Ready()
      ensures table.Table() == Touched(old(table.Table()), d.who.jid, d.now)
      ensures table.wire == old(table.wire) + Writes(old(table.Table()), d, Myself(text), [])
    {
      hide Find, Bare, SlotOf, Fanout;
      table.Broadcast(Audience(Bare(d.who.jid), Some(d.who.jid), false), Forwarded(text), d.down);
      table.Touch(d.who.jid, d.now);
      SendCarbonSent(d, Bare(To(d.msg)));
    }

    method ToBest(d: Delivery, best: Jid, text: string)
      requires Ready()
      modifies table`wire, table.slots
      ensures Ready()
      ensures table.Table() == Touched(old(table.Table()), d.who.jid, d.now)
      ensures table.wire == old(table.wire) + Writes(old(table.Table()), d, Best(best, text), [])
    {
      hide Find, Bare, SlotOf, Fanout;
      var ok := table.WriteTo(best, Forwarded(text), d.down);
      table.Touch(d.who.jid, d.now);
      if ok {
        SendCarbonSent(d, To(d.msg));
        SendCarbonReceived(d, Bare(To(d.msg)), best);
      }
    }

    /** No online resource: xep0160_store, then the sent carbons. */
    method ToNobody(d: Delivery, text: string)
      requires Ready()
      modifies table`wire, table.slots, store
      ensures Ready()
      ensures table.Table() == Touched(old(table.Table()), d.who.jid, d.now)
      ensures table.wire == old(table.wire)
                + Writes(old(table.Table()), d, Nobody(text), CapNotice(old(store.rows), d))
      ensures var bare := Bare(To(d.msg));
              var added := if Capped(old(store.rows), bare) then [] else [Row(bare, d.who.jid, text, d.at)];
              && store.rows == old(store.rows) + added
              && store.accepted == old(store.accepted) + added
              && store.handed == old(store.handed)
    {
      hide Find, Bare, Pending, Bytes, ErrorText, SlotOf, Fanout;
      var ok := store.Store(Bare(To(d.msg)), d.who.jid, text, d.at);
      if !ok {
        SendBack(d, CapError(d));
      }
      table.Touch(d.who.jid, d.now);
      SendCarbonSent(d, Bare(To(d.msg)));
    }

    /** Bare-JID routing, also the fall-back of a full-JID target. */
    method RouteBare(d: Delivery)
      requires Ready() && Admission(d) == Accepted
      modifies table`wire, table.slots, store
      ensures Ready()
      ensures !RouteOf(old(table.Table()), d).Exact? ==> Routed(old(View()), d, View())
    {
      hide Built, MessageText, Find, Bare, Domain, BestSlot, Pending, Bytes, AsMap, SlotOf, Fanout, Notices, Writes,
        CapNotice,
        Capped;
      ghost var n, route := View(), RouteOf(table.Table(), d);
      CapNoticeOnlyOffline(n.slots, d, route, CapNotice(n.rows, d));
      var toBare := Bare(d.msg.to.value);
      if toBare == Bare(d.who.jid) {
        var fwd := BuildMessage(d.who.jid, toBare, d.msg.kind, d.msg.id, d.msg.body);
        if fwd.Some? {
          assert !route.Exact? ==> route == Myself(fwd.value);
          ToMyself(d, fwd.value);
        }
        return;
      }
      var best := table.BestResource(toBare);
      if best.Some? {
        var fwd := BuildMessage(d.who.jid, best.value, d.msg.kind, d.msg.id, d.msg.body);
        if fwd.Some? {
          assert !route.Exact? ==> route == Best(best.value, fwd.value);
          ToBest(d, best.value, fwd.value);
        }
      } else {
        var fwd := BuildMessage(d.who.jid, toBare, d.msg.kind, d.msg.id, d.msg.body);
        if fwd.Some? {
          assert !route.Exact? ==> route == Nobody(fwd.value);
          ToNobody(d, fwd.value);
        }
      }
    }

    /** xmpp_message_handle. */
    method HandleMessage(d: Delivery)
      requires Valid()
      modifies table`wire, table.slots, store
      ensures Valid()
      ensures View() == Next(old(View()), Deliver(d), store.stamp)
      ensures old(table.wire) <= table.wire
      ensures forall jid :: Inbox(table.wire[|old(table.wire)|..], jid) == Due(old(table.Table()), d, jid)
      ensures Replies(table.wire[|old(table.wire)|..]) == DueBack(old(View()), d)
      ensures store.rows == old(store.rows) + DueRow(old(View()), d)
    {
      ghost var n := View();
      NextKeepsInvariant(n, Deliver(d), store.stamp);
      DeliverWire(n, d, store.stamp);
      StoreStep(n, d, store.stamp);
      hide Inv, Next, Inbox, Replies, Due, DueBack, DueRow, Notices, Traffic;
      CheckAndRoute(d);
      assert table.wire[|n.wire|..] == Notices(d) + Traffic(n, d);
      forall jid ensures Inbox(Notices(d) + Traffic(n, d), jid) == Due(n.slots, d, jid) {
        TrafficIsDue(n, d, jid);
      }
      RepliesAreDue(n, d);
    }

    method CheckAndRoute(d: Delivery)
      requires Ready()
      modifies table`wire, table.slots, store
      ensures Ready()
      ensures View() == Next(old(View()), Deliver(d), store.stamp)
    {
      hide Built, MessageText, Find, Bare, Domain, BestJid, Capped, AsMap, Touched, Fanout, Notices, Writes, CapNotice;
      var go := Admit(d);
      ghost var n := View();
      CapNoticeOnlyOffline(n.slots, d, RouteOf(n.slots, d), CapNotice(n.rows, d));
      if go {
        var done := false;
        if HasResource(d.msg.to.value) {
          done := TryExact(d);
        }
        if !done {
          RouteBare(d);
        }
      }
      assert Routed(n, d, View());
      assert View().wire == old(View()).wire + (Notices(d) + Traffic(n, d));
    }
  }

  /** The part of a delivery behind the notices. */
  ghost predicate Routed(n: Net, d: Delivery, n': Net) {
    n' == n.(slots := if RouteOf(n.slots, d).Nowhere? then n.slots else Touched(n.slots, d.who.jid, d.now),
             wire := n.wire + Traffic(n, d),
             rows := n.rows + Stored(n, d),
             accepted := n.accepted + Stored(n, d))
  }
}
