/** Handlers neither look at nor change the read flags that members set on their notifications. */
module ReadFlags {
  import opened Outcomes
  import opened Events
  import opened EventLog
  import opened Handlers

  function Unread(n: Notes): Notes {
    map k | k in n :: n[k].(read := false)
  }

  /** The tables with every notification unread. */
  function Strip(t: Tables): Tables {
    t.(notifications := Unread(t.notifications))
  }

  lemma NotifyIgnoresReads(n: Notes, ev: Event, a: Address)
    ensures Notify(Unread(n), ev, a) == Unread(Notify(n, ev, a))
  {
  }

  /** Folding an event and clearing the flags can be done in either order. */
  lemma ApplyIgnoresReads(t: Tables, ev: Event)
    ensures Apply(Strip(t), ev) == match Apply(t, ev) { case Ok(t') => Ok(Strip(t')) case Err(m) => Err(m) }
  {
    hide Handle;
    match Handle(t.core, ev) {
      case Ok(e) => NotifyIgnoresReads(t.notifications, ev, e.told);
      case Err(_) =>
    }
  }

  /** What changes the tables between rebuilds: folded events, and members marking notifications read. */
  datatype Change = Folded(ev: Event) | MarkedRead(id: EventId, address: Address)

  /** UPDATE notifications SET read = true for one notification, if there is one. */
  function MarkRead(n: Notes, id: EventId, address: Address): Notes {
    if (id, address) !in n then n else n[(id, address) := n[(id, address)].(read := true)]
  }

  /** The live tables after a history of changes. */
  function Live(changes: seq<Change>): Outcome<Tables> {
    if changes == [] then Ok(EMPTY)
    else
      var t :- Live(changes[..|changes| - 1]);
      match changes[|changes| - 1]
      case Folded(ev) => Apply(t, ev)
      case MarkedRead(id, address) => Ok(t.(notifications := MarkRead(t.notifications, id, address)))
  }

  function FoldedEvents(changes: seq<Change>): seq<Event> {
    if changes == [] then []
    else
      var evs := FoldedEvents(changes[..|changes| - 1]);
      match changes[|changes| - 1]
      case Folded(ev) => evs + [ev]
      case MarkedRead(_, _) => evs
  }

  lemma MarkReadIsOnlyAFlag(n: Notes, id: EventId, address: Address)
    ensures Unread(MarkRead(n, id, address)) == Unread(n)
  {
  }

  /** Apart from the flags, the live tables are the fold of the folded events. */
  lemma {:induction false} LiveIsFoldPlusFlags(changes: seq<Change>)
    requires Live(changes).Ok?
    ensures Fold(Apply, EMPTY, FoldedEvents(changes)) == Ok(Strip(Live(changes).value))
  {
    if changes == [] {
      assert Unread(map[]) == map[];
    } else {
      var n := |changes| - 1;
      LiveIsFoldPlusFlags(changes[..n]);
      var t := Live(changes[..n]).value;
      hide Apply;
      match changes[n] {
        case Folded(ev) =>
          ApplyIgnoresReads(t, ev);
          FoldSnoc(Apply, EMPTY, FoldedEvents(changes[..n]), ev);
        case MarkedRead(id, address) =>
          MarkReadIsOnlyAFlag(t.notifications, id, address);
      }
    }
  }

  /** The flags a rebuild saves before it truncates. */
  function SavedReads(n: Notes): set<(EventId, Address)> {
    set k | k in n && n[k].read
  }

  /** Every saved flag whose notification exists again is set again. */
  function RestoreReads(n: Notes, saved: set<(EventId, Address)>): Notes {
    map k | k in n :: if k in saved then n[k].(read := true) else n[k]
  }

  lemma RestoreUndoesUnread(n: Notes)
    ensures RestoreReads(Unread(n), SavedReads(n)) == n
  {
  }
}
