/** Single-flight registration, shared by both caches: the table of in-flight
    downloads, one event per download, and where each caller stands with it. */
module InFlight {

  /** A caller outside the protocol, waiting on an event, working as the initiator
      of a download, or closing: entry popped, event not yet set. */
  datatype Slot =
    | Outside
    | Waiting(uri: string, ev: nat)
    | Working(uri: string, ev: nat)
    | Closing(uri: string, ev: nat)

  /** The in-flight table, the events that are set and the next fresh one. owner
      is history: which caller created an event. */
  datatype Desk = Desk(inflight: map<string, nat>, fired: set<nat>, next: nat, owner: map<nat, nat>)

  const EMPTY := Desk(map[], {}, 0, map[])

  function Opened(d: Desk, t: nat, uri: string): Desk {
    d.(inflight := d.inflight[uri := d.next], next := d.next + 1, owner := d.owner[d.next := t])
  }

  function Closed(d: Desk, uri: string): Desk { d.(inflight := d.inflight - {uri}) }

  function Fired(d: Desk, ev: nat): Desk { d.(fired := d.fired + {ev}) }

  predicate OnItsWay(slot: Slot) { slot.Working? || slot.Closing? }

  /** The event's creator is still on its way to setting it. */
  predicate IsInitiator(d: Desk, slots: map<nat, Slot>, ev: nat, uri: string) {
    && ev in d.owner && d.owner[ev] in slots
    && (slots[d.owner[ev]] == Working(uri, ev) || slots[d.owner[ev]] == Closing(uri, ev))
  }

  predicate SlotOk(d: Desk, slots: map<nat, Slot>, t: nat)
    requires t in slots
  {
    var slot := slots[t];
    && (slot.Working? ==> slot.uri in d.inflight && d.inflight[slot.uri] == slot.ev)
    && (OnItsWay(slot) ==>
          slot.ev < d.next && slot.ev !in d.fired && slot.ev in d.owner && d.owner[slot.ev] == t)
    && (slot.Waiting? ==> slot.ev < d.next && (slot.ev in d.fired || IsInitiator(d, slots, slot.ev, slot.uri)))
  }

  predicate EntryOk(d: Desk, slots: map<nat, Slot>, uri: string)
    requires uri in d.inflight
  {
    var ev := d.inflight[uri];
    ev in d.owner && d.owner[ev] in slots && slots[d.owner[ev]] == Working(uri, ev)
  }

  ghost predicate DeskOk(d: Desk, slots: map<nat, Slot>) {
    && (forall t :: t in slots ==> SlotOk(d, slots, t))
    && (forall uri :: uri in d.inflight ==> EntryOk(d, slots, uri))
    && (forall ev :: ev in d.fired ==> ev < d.next)
  }

  /** Two callers working on one URI are one caller. */
  lemma OneWorker(d: Desk, slots: map<nat, Slot>, t: nat, u: nat)
    requires DeskOk(d, slots) && t in slots && u in slots
    requires slots[t].Working? && slots[u].Working? && slots[t].uri == slots[u].uri
    ensures t == u
  {
    assert SlotOk(d, slots, t) && SlotOk(d, slots, u);
  }

  /** The event of an in-flight entry is not set. */
  lemma PendingEvents(d: Desk, slots: map<nat, Slot>, uri: string)
    requires DeskOk(d, slots) && uri in d.inflight
    ensures d.inflight[uri] !in d.fired && d.inflight[uri] < d.next
  {
    assert EntryOk(d, slots, uri);
    assert SlotOk(d, slots, d.owner[d.inflight[uri]]);
  }

  /** A newcomer arrives, or a caller that owes nobody an event leaves. */
  lemma OutsideKeepsDesk(d: Desk, slots: map<nat, Slot>, t: nat)
    requires DeskOk(d, slots) && (t in slots ==> !OnItsWay(slots[t]))
    ensures DeskOk(d, slots[t := Outside])
  {
    var after := slots[t := Outside];
    forall x | x in after ensures SlotOk(d, after, x) {
      if x != t { assert SlotOk(d, slots, x); }
    }
    forall u | u in d.inflight ensures EntryOk(d, after, u) { assert EntryOk(d, slots, u); }
  }

  lemma WaitKeepsDesk(d: Desk, slots: map<nat, Slot>, t: nat, uri: string)
    requires DeskOk(d, slots) && t in slots && slots[t].Outside? && uri in d.inflight
    ensures DeskOk(d, slots[t := Waiting(uri, d.inflight[uri])])
  {
    var after := slots[t := Waiting(uri, d.inflight[uri])];
    assert EntryOk(d, slots, uri);
    PendingEvents(d, slots, uri);
    forall x | x in after ensures SlotOk(d, after, x) {
      if x != t { assert SlotOk(d, slots, x); }
    }
    forall u | u in d.inflight ensures EntryOk(d, after, u) { assert EntryOk(d, slots, u); }
  }

  lemma OpenKeepsDesk(d: Desk, slots: map<nat, Slot>, t: nat, uri: string)
    requires DeskOk(d, slots) && t in slots && slots[t].Outside? && uri !in d.inflight
    ensures DeskOk(Opened(d, t, uri), slots[t := Working(uri, d.next)])
  {
    var after, d' := slots[t := Working(uri, d.next)], Opened(d, t, uri);
    forall x | x in after ensures SlotOk(d', after, x) {
      if x != t { assert SlotOk(d, slots, x); }
    }
    forall u | u in d'.inflight ensures EntryOk(d', after, u) {
      if u != uri {
        assert EntryOk(d, slots, u);
        PendingEvents(d, slots, u);
      }
    }
  }

  lemma CloseKeepsDesk(d: Desk, slots: map<nat, Slot>, t: nat)
    requires DeskOk(d, slots) && t in slots && slots[t].Working?
    ensures DeskOk(Closed(d, slots[t].uri), slots[t := Closing(slots[t].uri, slots[t].ev)])
  {
    var uri, after := slots[t].uri, slots[t := Closing(slots[t].uri, slots[t].ev)];
    var d' := Closed(d, uri);
    assert SlotOk(d, slots, t);
    forall x | x in after ensures SlotOk(d', after, x) {
      if x != t {
        assert SlotOk(d, slots, x);
        if slots[x].Working? && slots[x].uri == uri { OneWorker(d, slots, x, t); }
      }
    }
    forall u | u in d'.inflight ensures EntryOk(d', after, u) { assert EntryOk(d, slots, u); }
  }

  lemma FireKeepsDesk(d: Desk, slots: map<nat, Slot>, t: nat)
    requires DeskOk(d, slots) && t in slots && slots[t].Closing?
    ensures DeskOk(Fired(d, slots[t].ev), slots[t := Outside])
  {
    var after, d' := slots[t := Outside], Fired(d, slots[t].ev);
    assert SlotOk(d, slots, t);
    forall x | x in after ensures SlotOk(d', after, x) {
      if x != t { assert SlotOk(d, slots, x); }
    }
    forall u | u in d'.inflight ensures EntryOk(d', after, u) { assert EntryOk(d, slots, u); }
  }
}
