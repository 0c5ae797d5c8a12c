/** The in-memory session store: records with a time to live, expired lazily on reading, and a
    background sweep that nobody can notice. */
module SessionStore {
  import opened Prelude
  import opened Game
  import RoomModel
  import RoomRuns

  datatype Record = Record(roomId: string, playerId: PlayerId, ownerNode: string, lastSeq: nat)

  datatype Entry = Entry(record: Record, expires: Time)

  type Entries = map<string, Entry>

  predicate Expired(e: Entry, now: Time) {
    e.expires < now
  }

  function Load(m: Entries, id: string, now: Time): Option<Record> {
    if id !in m || Expired(m[id], now) then None else Some(m[id].record)
  }

  function Swept(m: Entries, now: Time): Entries {
    map id | id in m && !Expired(m[id], now) :: m[id]
  }

  class Store {
    var entries: Entries

    constructor ()
      ensures entries == map[]
    {
      entries := map[];
    }

    method SaveSession(now: Time, id: string, rec: Record, ttl: nat)
      modifies this
      ensures entries == Apply(old(entries), At(now, Save(id, rec, ttl)))
      ensures id in entries && entries[id].record == rec && entries[id].expires == now + ttl
      ensures forall other :: other != id ==> (other in entries <==> other in old(entries))
      ensures forall other :: other != id && other in entries ==> entries[other] == old(entries)[other]
    {
      entries := entries[id := Entry(rec, now + ttl)];
    }

    method LoadSession(now: Time, id: string) returns (r: Option<Record>)
      ensures r == Load(entries, id, now) && Answers(entries, [At(now, Lookup(id))]) == [r]
    {
      if id !in entries || entries[id].expires < now {
        return None;
      }
      return Some(entries[id].record);
    }

    method DeleteSession(ghost now: Time, id: string)
      modifies this
      ensures entries == Apply(old(entries), At(now, Delete(id)))
      ensures id !in entries
      ensures forall other :: other != id ==> (other in entries <==> other in old(entries))
      ensures forall other :: other in entries ==> entries[other] == old(entries)[other]
    {
      entries := entries - {id};
    }

    /** Deletes while walking the map, in any order. */
    method Sweep(now: Time)
      modifies this
      ensures entries == Apply(old(entries), At(now, Op.Sweep))
      ensures forall id :: id in entries <==> id in old(entries) && now <= old(entries)[id].expires
      ensures forall id :: id in entries ==> entries[id] == old(entries)[id]
    {
      var todo := entries.Keys;
      while todo != {}
        invariant todo <= old(entries).Keys
        invariant forall id :: id in entries ==> id in old(entries) && entries[id] == old(entries)[id]
        invariant forall id :: id in old(entries) ==>
          (id in entries <==> id in todo || !Expired(old(entries)[id], now))
        decreases |todo|
      {
        var id :| id in todo;
        if entries[id].expires < now {
          entries := entries - {id};
        }
        todo := todo - {id};
      }
    }
  }

  // ----- runs ---------------------------------------------------------------------------

  datatype Op = Save(id: string, rec: Record, ttl: nat) | Lookup(id: string) | Delete(id: string) | Sweep

  datatype Call = At(now: Time, op: Op)

  function Apply(m: Entries, c: Call): Entries {
    match c.op
    case Save(id, rec, ttl) => m[id := Entry(rec, c.now + ttl)]
    case Lookup(_) => m
    case Delete(id) => m - {id}
    case Sweep => Swept(m, c.now)
  }

  /** What the lookups of a run return, in order. */
  function Answers(m: Entries, cs: seq<Call>): seq<Option<Record>>
    decreases |cs|
  {
    if cs == [] then []
    else
      var rest := Answers(Apply(m, cs[0]), cs[1..]);
      if cs[0].op.Lookup? then [Load(m, cs[0].op.id, cs[0].now)] + rest else rest
  }

  /** The run without its sweeps. */
  function Unswept(cs: seq<Call>): seq<Call> {
    if cs == [] then []
    else (if cs[0].op.Sweep? then [] else [cs[0]]) + Unswept(cs[1..])
  }

  ghost predicate InOrder(since: Time, cs: seq<Call>)
    decreases |cs|
  {
    cs == [] || (since <= cs[0].now && InOrder(cs[0].now, cs[1..]))
  }

  /** From `now` on, no lookup can tell the two stores apart: they differ only in expired entries. */
  ghost predicate Indistinguishable(m: Entries, n: Entries, now: Time) {
    forall id :: id in m || id in n ==>
      || (id in m && id in n && m[id] == n[id])
      || ((id in m ==> Expired(m[id], now)) && (id in n ==> Expired(n[id], now)))
  }

  lemma SameStep(m: Entries, n: Entries, since: Time, c: Call)
    requires Indistinguishable(m, n, since) && since <= c.now
    ensures Indistinguishable(Apply(m, c), if c.op.Sweep? then n else Apply(n, c), c.now)
  {
  }

  lemma {:induction false} SameAnswers(m: Entries, n: Entries, since: Time, cs: seq<Call>)
    requires Indistinguishable(m, n, since) && InOrder(since, cs)
    ensures Answers(m, cs) == Answers(n, Unswept(cs))
    decreases |cs|
  {
    if cs != [] {
      var c := cs[0];
      SameStep(m, n, since, c);
      SameAnswers(Apply(m, c), if c.op.Sweep? then n else Apply(n, c), c.now, cs[1..]);
      if !c.op.Sweep? {
        assert Unswept(cs)[0] == c && Unswept(cs)[1..] == Unswept(cs[1..]);
      } else {
        assert Unswept(cs) == Unswept(cs[1..]);
      }
    }
  }

  /** Sweeping is unobservable: two runs that differ only in where they sweep, on a clock that
      does not step back, answer every lookup alike. */
  lemma SweepIsUnobservable(m: Entries, cs: seq<Call>, ds: seq<Call>, since: Time)
    requires InOrder(since, cs) && InOrder(since, ds) && Unswept(cs) == Unswept(ds)
    ensures Answers(m, cs) == Answers(m, ds)
  {
    SameAnswers(m, m, since, cs);
    SameAnswers(m, m, since, ds);
  }

  // ----- the record of a disconnected player --------------------------------------------

  const GRACE_BUFFER: nat := 5 * SECOND

  function Exec(m: Entries, cs: seq<Call>): Entries
    decreases |cs|
  {
    if cs == [] then m else Apply(Exec(m, cs[..|cs| - 1]), cs[|cs| - 1])
  }

  ghost predicate LeavesAlone(c: Call, id: string) {
    !(c.op.Save? && c.op.id == id) && !(c.op.Delete? && c.op.id == id)
  }

  lemma {:induction false} EntryLives(m: Entries, cs: seq<Call>, id: string, e: Entry, now: Time)
    requires id in m && m[id] == e
    requires forall k :: 0 <= k < |cs| ==> LeavesAlone(cs[k], id) && cs[k].now <= now
    ensures Load(Exec(m, cs), id, now) == if now <= e.expires then Some(e.record) else None
    ensures id in Exec(m, cs) ==> Exec(m, cs)[id] == e
    decreases |cs|
  {
    if cs != [] {
      EntryLives(m, cs[..|cs| - 1], id, e, now);
    }
  }

  /** Whatever happens to other sessions, and however often the store is swept, a saved record can be
      loaded exactly until its time to live is over. */
  lemma {:induction false} RecordLives(m: Entries, cs: seq<Call>, id: string, rec: Record, savedAt: Time, ttl: nat, now: Time)
    requires forall k :: 0 <= k < |cs| ==> LeavesAlone(cs[k], id) && cs[k].now <= now
    ensures Load(Exec(Apply(m, At(savedAt, Save(id, rec, ttl))), cs), id, now) == if now <= savedAt + ttl then Some(rec) else None
  {
    EntryLives(Apply(m, At(savedAt, Save(id, rec, ttl))), cs, id, Entry(rec, savedAt + ttl), now);
  }

  /** A deleted session is not found again, at any time, until it is saved anew. */
  lemma {:induction false} DeletedIsGone(m: Entries, cs: seq<Call>, id: string, deletedAt: Time, now: Time)
    requires forall k :: 0 <= k < |cs| ==> !(cs[k].op.Save? && cs[k].op.id == id)
    ensures Load(Exec(Apply(m, At(deletedAt, Delete(id))), cs), id, now) == None
  {
    StaysGone(Apply(m, At(deletedAt, Delete(id))), cs, id);
  }

  lemma {:induction false} StaysGone(m: Entries, cs: seq<Call>, id: string)
    requires id !in m && forall k :: 0 <= k < |cs| ==> !(cs[k].op.Save? && cs[k].op.id == id)
    ensures id !in Exec(m, cs)
    decreases |cs|
  {
    if cs != [] {
      StaysGone(m, cs[..|cs| - 1], id);
    }
  }

  /** The record saved when a connection closes outlives the grace window of that disconnect: if, at
      any point of any run of a room with this grace period, handling the disconnect set timer `t`, the
      record can be loaded up to the deadline of `t`, even if the room got round to the disconnect up to
      the buffer after the record was saved. */
  lemma {:induction false} RecordOutlivesGrace(m: Entries, cs: seq<Call>, id: string, rec: Record, savedAt: Time, game: Game, grace: nat,
                            start: Time, es: seq<RoomModel.Timed>, i: nat, t: RoomModel.Timer, now: Time)
    requires i < |es| && RoomRuns.Drops(RoomRuns.After(RoomModel.NewRoom(game, grace, start), es, i), es[i], t)
    requires es[i].now <= savedAt + GRACE_BUFFER && now <= t.deadline
    requires forall k :: 0 <= k < |cs| ==> LeavesAlone(cs[k], id) && cs[k].now <= now
    ensures t in RoomRuns.After(RoomModel.NewRoom(game, grace, start), es, i + 1).timers
    ensures Load(Exec(Apply(m, At(savedAt, Save(id, rec, grace + GRACE_BUFFER))), cs), id, now) == Some(rec)
  {
    var r := RoomModel.NewRoom(game, grace, start);
    RoomRuns.AfterStep(r, es, i);
    RoomRuns.DropDisconnects(RoomRuns.After(r, es, i), es[i], t);
    RoomRuns.ConfiguredForLife(game, grace, start, es, i);
    RecordLives(m, cs, id, rec, savedAt, grace + GRACE_BUFFER, now);
  }
}
