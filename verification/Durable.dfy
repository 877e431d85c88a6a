/** Durable handles: entries that outlive their connection until a deadline. */
module Durable {
  import opened Handles
  import opened Seqs

  /** The client's NEGOTIATE GUID and the CreateGuid (the FileID for a v1 handle). */
  datatype DurableKey = DurableKey(client: nat, create: nat)

  /** No deadline means a live connection still owns the handle. */
  datatype DurableEntry = DurableEntry(open: Open, deadline: Option<int>, timeout: int, share: string, user: string) {
    predicate Attached() { deadline == None }
    predicate Expired(now: int) { deadline != None && now > deadline.value }
  }

  type Entries = map<DurableKey, DurableEntry>

  /** What one locked region does: the new entries, the opens it released
      (locks dropped, descriptor closed) and the open it hands to the caller. */
  datatype Outcome = Outcome(entries: Entries, released: set<Open>, ok: bool, taken: Option<Open>)

  function Registering(t: Entries, k: DurableKey, open: Open, timeout: int, share: string, user: string): Outcome {
    var superseded := k in t && t[k].open != open;
    if timeout <= 0 then
      Outcome(t - {k}, if superseded && !t[k].Attached() then {t[k].open} else {}, false, None)
    else if superseded && t[k].Attached() then
      Outcome(t, {}, false, None)
    else
      Outcome(t[k := DurableEntry(open, None, timeout, share, user)], if superseded then {t[k].open} else {}, true, None)
  }

  function Detaching(t: Entries, k: DurableKey, now: int): Entries {
    if k !in t || !t[k].Attached() then t else t[k := t[k].(deadline := Some(now + t[k].timeout))]
  }

  /** The DH2C/DHnC path: only a detached entry, on its share, for its user. */
  function Reconnecting(t: Entries, k: DurableKey, share: string, user: string, now: int): Outcome {
    if k !in t then Outcome(t, {}, false, None)
    else if t[k].Expired(now) then Outcome(t - {k}, {t[k].open}, false, None)
    else if t[k].Attached() || t[k].share != share || t[k].user != user then Outcome(t, {}, false, None)
    else Outcome(t - {k}, {}, true, Some(t[k].open))
  }

  predicate Holding(t: Entries, k: DurableKey, now: int) {
    k in t && !t[k].Expired(now)
  }

  function Expired(t: Entries, now: int): set<DurableKey> {
    set k | k in t && t[k].Expired(now)
  }

  function OpensOf(t: Entries, keys: set<DurableKey>): set<Open> {
    set k | k in keys && k in t :: t[k].open
  }

  function Expiring(t: Entries, now: int): Outcome {
    Outcome(t - Expired(t, now), OpensOf(t, Expired(t, now)), true, None)
  }

  // ---- whole runs of the table ----

  datatype Event =
    | Register(key: DurableKey, open: Open, timeout: int, share: string, user: string)
    | Detach(key: DurableKey, now: int)
    | Reconnect(key: DurableKey, share: string, user: string, now: int)
    | Remove(key: DurableKey)
    | Expire(now: int)

  function Happen(t: Entries, e: Event): Outcome {
    match e
    case Register(k, open, timeout, share, user) => Registering(t, k, open, timeout, share, user)
    case Detach(k, now) => Outcome(Detaching(t, k, now), {}, true, None)
    case Reconnect(k, share, user, now) => Reconnecting(t, k, share, user, now)
    case Remove(k) => Outcome(t - {k}, {}, true, None)
    case Expire(now) => Expiring(t, now)
  }

  function After(t: Entries, events: seq<Event>): Entries {
    if events == [] then t else Happen(After(t, events[..|events| - 1]), events[|events| - 1]).entries
  }

  /** The events that are the owner's own to make: its Detach, its CLOSE, and a
      registration that drops durability or re-registers the same handle. */
  predicate ByOwner(e: Event, k: DurableKey, open: Open) {
    || (e.Detach? && e.key == k)
    || (e.Remove? && e.key == k)
    || (e.Register? && e.key == k && (e.timeout <= 0 || e.open == open))
  }

  /** From Register until Detach an attached handle is nobody else's: no expiry
      at any clock value, no reconnect and no competing registration changes its
      entry, however many of them run. */
  lemma {:induction false} AttachedStays(t: Entries, events: seq<Event>, k: DurableKey)
    requires k in t && t[k].Attached()
    requires forall e :: e in events ==> !ByOwner(e, k, t[k].open)
    ensures k in After(t, events) && After(t, events)[k] == t[k]
  {
    if events != [] {
      AttachedStays(t, events[..|events| - 1], k);
      assert events[|events| - 1] in events;
    }
  }

  /** Every open an event releases was detached, and the entry that named it is
      gone from its slot, so no later event can release it again through it. */
  lemma ReleasedWasDetached(t: Entries, e: Event, o: Open)
    requires o in Happen(t, e).released
    ensures exists k :: (&& k in t && t[k].open == o && !t[k].Attached()
                         && (k !in Happen(t, e).entries || Happen(t, e).entries[k].open != o))
  {
    match e
    case Register(k, _, _, _, _) => assert k in t && t[k].open == o;
    case Reconnect(k, _, _, _) => assert k in t && t[k].open == o;
    case Expire(now) =>
      var k :| k in Expired(t, now) && t[k].open == o;
      assert k in t && k !in Happen(t, e).entries;
    case _ =>
  }

  /** A key that is out of the table stays out, and no event releases or hands
      over a handle through it, until somebody registers it. */
  lemma {:induction false} RemovedForGood(t: Entries, events: seq<Event>, k: DurableKey)
    requires k !in t && forall e :: e in events ==> !(e.Register? && e.key == k)
    ensures k !in After(t, events)
    ensures forall share, user, now :: !Reconnecting(After(t, events), k, share, user, now).ok
    ensures forall now :: !Holding(After(t, events), k, now)
  {
    if events != [] {
      RemovedForGood(t, events[..|events| - 1], k);
      assert events[|events| - 1] in events;
    }
  }

  /** A granted reconnect consumes exactly its entry, and no other reconnect for
      the key is granted, whatever happens, until it is registered again. */
  lemma ReconnectGrantsOnce(t: Entries, k: DurableKey, share: string, user: string, now: int, events: seq<Event>)
    requires Reconnecting(t, k, share, user, now).ok && forall e :: e in events ==> !(e.Register? && e.key == k)
    ensures var r := Reconnecting(t, k, share, user, now).entries;
      && r == t - {k}
      && forall share', user', now' :: !Reconnecting(After(r, events), k, share', user', now').ok
  {
    RemovedForGood(t - {k}, events, k);
  }

  lemma {:induction false} SweepsOnlyRemove(t: Entries, sweeps: seq<Event>, k: DurableKey)
    requires forall e :: e in sweeps ==> e.Expire?
    ensures k in After(t, sweeps) ==> k in t && After(t, sweeps)[k] == t[k]
  {
    if sweeps != [] {
      SweepsOnlyRemove(t, sweeps[..|sweeps| - 1], k);
      assert sweeps[|sweeps| - 1] in sweeps;
    }
  }

  lemma {:induction false} SweepsSpare(t: Entries, sweeps: seq<Event>, k: DurableKey, now: int)
    requires k in t && t[k].deadline.Some? && now <= t[k].deadline.value
    requires forall e :: e in sweeps ==> e.Expire? && e.now <= now
    ensures k in After(t, sweeps) && After(t, sweeps)[k] == t[k]
  {
    if sweeps != [] {
      SweepsSpare(t, sweeps[..|sweeps| - 1], k, now);
      assert sweeps[|sweeps| - 1] in sweeps;
    }
  }

  /** From Detach on, however often the sweeper has run, a reconnect is granted
      exactly to the right user on the right share until the timeout has passed,
      and Has answers exactly until then; before Detach it answers always. */
  lemma DetachedKeepsItsGrace(t: Entries, sweeps: seq<Event>, k: DurableKey, at: int, share: string, user: string, now: int)
    requires k in t && t[k].Attached()
    requires forall e :: e in sweeps ==> e.Expire? && e.now <= now
    ensures Holding(t, k, now)
    ensures var later := After(Detaching(t, k, at), sweeps);
      && (Holding(later, k, now) <==> now <= at + t[k].timeout)
      && (Reconnecting(later, k, share, user, now).ok <==> now <= at + t[k].timeout && share == t[k].share && user == t[k].user)
      && (Reconnecting(later, k, share, user, now).ok ==> Reconnecting(later, k, share, user, now).taken == Some(t[k].open))
  {
    SweepsOnlyRemove(Detaching(t, k, at), sweeps, k);
    if now <= at + t[k].timeout { SweepsSpare(Detaching(t, k, at), sweeps, k, now); }
  }

  /** From the arguments of a registration to the answer of a reconnect: between
      them events that are not the owner's, the owner's Detach, and sweeps. */
  lemma RegisteredThenReclaimed(t: Entries, k: DurableKey, open: Open, timeout: int, share: string, user: string,
                                others: seq<Event>, at: int, sweeps: seq<Event>, share': string, user': string, now: int)
    requires Registering(t, k, open, timeout, share, user).ok
    requires forall e :: e in others ==> !ByOwner(e, k, open)
    requires forall e :: e in sweeps ==> e.Expire? && e.now <= now
    ensures var registered := Registering(t, k, open, timeout, share, user).entries;
      var later := After(Detaching(After(registered, others), k, at), sweeps);
      && (Reconnecting(later, k, share', user', now).ok <==> now <= at + timeout && share' == share && user' == user)
      && (Reconnecting(later, k, share', user', now).ok ==> Reconnecting(later, k, share', user', now).taken == Some(open))
  {
    var registered := Registering(t, k, open, timeout, share, user).entries;
    AttachedStays(registered, others, k);
    DetachedKeepsItsGrace(After(registered, others), sweeps, k, at, share', user', now);
  }

  /** A sweep evicts exactly the entries whose deadline has passed, and releases
      exactly their handles. */
  lemma ExpiringExactly(t: Entries, now: int)
    ensures var r := Expiring(t, now);
      && (forall k :: k in r.entries <==> k in t && !(t[k].deadline.Some? && now > t[k].deadline.value))
      && (forall k :: k in r.entries ==> r.entries[k] == t[k])
      && (forall o :: o in r.released <==> exists k :: k in t && k !in r.entries && t[k].open == o)
  {
  }

  lemma OpensOfAdd(t: Entries, keys: set<DurableKey>, k: DurableKey)
    requires k in t
    ensures OpensOf(t, keys + {k}) == OpensOf(t, keys) + {t[k].open}
  {
  }

  /** The mutex-guarded table; released collects the opens given up. */
  class DurableTable {
    var entries: Entries

    constructor ()
      ensures entries == map[]
    {
      entries := map[];
    }

    method Register(k: DurableKey, open: Open, timeout: int, share: string, user: string)
        returns (ok: bool, released: set<Open>)
      modifies this
      ensures Outcome(entries, released, ok, None) == Registering(old(entries), k, open, timeout, share, user)
      ensures ok <==> timeout > 0 && !(k in old(entries) && old(entries)[k].deadline == None && old(entries)[k].open != open)
      ensures ok ==> k in entries && entries[k].open == open && entries[k].deadline == None && entries[k].timeout == timeout
      ensures ok ==> entries[k].share == share && entries[k].user == user
      ensures forall o :: o in released <==>
        k in old(entries) && o == old(entries)[k].open != open && old(entries)[k].deadline != None
      ensures forall j :: j != k ==> (j in entries <==> j in old(entries)) && (j in entries ==> entries[j] == old(entries)[j])
    {
      released := {};
      var superseded := k in entries && entries[k].open != open;
      if timeout <= 0 {
        if superseded && !entries[k].Attached() {
          released := {entries[k].open};
        }
        entries := entries - {k};
        return false, released;
      }
      if superseded {
        if entries[k].Attached() {
          return false, released;
        }
        released := {entries[k].open};
      }
      entries := entries[k := DurableEntry(open, None, timeout, share, user)];
      return true, released;
    }

    method Detach(k: DurableKey, now: int)
      modifies this
      ensures entries == Detaching(old(entries), k, now)
    {
      if k !in entries || !entries[k].Attached() {
        return;
      }
      entries := entries[k := entries[k].(deadline := Some(now + entries[k].timeout))];
    }

    method ReclaimForReconnect(k: DurableKey, share: string, user: string, now: int)
        returns (taken: Option<Open>, released: set<Open>)
      modifies this
      ensures Outcome(entries, released, taken.Some?, taken) == Reconnecting(old(entries), k, share, user, now)
      ensures taken.Some? <==>
        && k in old(entries) && old(entries)[k].deadline.Some? && now <= old(entries)[k].deadline.value
        && old(entries)[k].share == share && old(entries)[k].user == user
      ensures taken.Some? ==> taken.value == old(entries)[k].open && entries == old(entries) - {k} && released == {}
      ensures taken.None? ==> entries == if k in old(entries) && old(entries)[k].Expired(now) then old(entries) - {k} else old(entries)
    {
      taken, released := None, {};
      if k !in entries {
        return;
      }
      var e := entries[k];
      if e.Expired(now) {
        released := {e.open};
        entries := entries - {k};
        return;
      }
      if e.Attached() || e.share != share || e.user != user {
        return;
      }
      entries := entries - {k};
      taken := Some(e.open);
    }

    method Remove(k: DurableKey)
      modifies this
      ensures entries == old(entries) - {k}
    {
      entries := entries - {k};
    }

    method Has(k: DurableKey, now: int) returns (live: bool)
      ensures live == Holding(entries, k, now)
    {
      live := k in entries && !entries[k].Expired(now);
    }

    /** The sweeper walks the map in whatever order it likes. */
    method Expire(now: int) returns (n: nat, released: set<Open>)
      modifies this
      ensures Outcome(entries, released, true, None) == Expiring(old(entries), now)
      ensures n == |Expired(old(entries), now)|
    {
      n, released := 0, {};
      var t := entries;
      var todo, evicted := t.Keys, {};
      while todo != {}
        invariant todo <= t.Keys && t.Keys == old(entries).Keys
        invariant evicted <= Expired(t, now) <= evicted + todo
        invariant evicted !! todo
        invariant entries == t - evicted
        invariant released == OpensOf(t, evicted)
        invariant n == |evicted|
        decreases todo
      {
        var k :| k in todo;
        todo := todo - {k};
        if t[k].Expired(now) {
          OpensOfAdd(t, evicted, k);
          released := released + {t[k].open};
          evicted := evicted + {k};
          entries := t - evicted;
          n := n + 1;
        }
      }
      assert evicted == Expired(t, now);
    }
  }
}
