/** Room-ownership leases: one expiring Redis key per room, stepped on by any number of nodes,
    and the renewal loop that keeps a lease alive. */
module Lease {
  import opened Prelude

  const MILLISECOND: nat := 1_000_000

  /** Lease durations are positive and a whole number of milliseconds, the unit Redis expires keys in. */
  type Ttl = t: nat | 0 < t && t % MILLISECOND == 0 witness MILLISECOND

  datatype Entry = Entry(owner: string, expiresAt: Time)

  /** The keys "room:{id}:owner", by room. An entry past its expiry no longer exists for Redis. */
  type Keys = map<string, Entry>

  predicate Live(ks: Keys, room: string, now: Time) {
    room in ks && now < ks[room].expiresAt
  }

  predicate OwnedBy(ks: Keys, room: string, node: string, now: Time) {
    Live(ks, room, now) && ks[room].owner == node
  }

  datatype Op =
    | Acquire(room: string, node: string, ttl: Ttl)
    | Renew(room: string, node: string, ttl: Ttl)
    | Release(room: string, node: string)

  /** One script or command, executed atomically by Redis at `now`. */
  datatype Step = At(now: Time, op: Op)

  /** SET NX succeeds on a missing key, the renew and release scripts on the caller's own live key. */
  predicate Succeeds(ks: Keys, e: Step) {
    match e.op
    case Acquire(room, _, _) => !Live(ks, room, e.now)
    case Renew(room, node, _) => OwnedBy(ks, room, node, e.now)
    case Release(room, node) => OwnedBy(ks, room, node, e.now)
  }

  function Apply(ks: Keys, e: Step): Keys {
    if !Succeeds(ks, e) then ks
    else match e.op
      case Acquire(room, node, ttl) => ks[room := Entry(node, e.now + ttl)]
      case Renew(room, node, ttl) => ks[room := Entry(node, e.now + ttl)]
      case Release(room, _) => ks - {room}
  }

  function RoomOwner(ks: Keys, room: string, now: Time): Option<string> {
    if Live(ks, room, now) then Some(ks[room].owner) else None
  }

  /** The keys after the first `k` steps. */
  ghost function After(ks: Keys, es: seq<Step>, k: nat): Keys
    requires k <= |es|
  {
    if k == 0 then ks else Apply(After(ks, es, k - 1), es[k - 1])
  }

  // ----- exclusivity --------------------------------------------------------------------

  ghost predicate InOrder(es: seq<Step>) {
    forall i, j :: 0 <= i <= j < |es| ==> es[i].now <= es[j].now
  }

  /** Every node always asks for its own configured duration. */
  ghost predicate Configured(es: seq<Step>, ttl: string -> Ttl) {
    forall i :: 0 <= i < |es| && !es[i].op.Release? ==> es[i].op.ttl == ttl(es[i].op.node)
  }

  /** Step `i` gives or extends the lease on `room` to `node`. */
  ghost predicate Grant(es: seq<Step>, i: nat, room: string, node: string)
    requires i < |es|
  {
    !es[i].op.Release? && es[i].op.room == room && es[i].op.node == node && Succeeds(After(map[], es, i), es[i])
  }

  ghost predicate GivesUp(e: Step, room: string, node: string) {
    e.op == Release(room, node)
  }

  /** The grant of step `i`, not released before step `k`. */
  ghost predicate Claim(es: seq<Step>, i: nat, k: nat, room: string, node: string)
    requires i < k <= |es|
  {
    Grant(es, i, room, node) && forall j :: i < j < k ==> !GivesUp(es[j], room, node)
  }

  /** A claim is backed by the key until it runs out. */
  lemma {:induction false} ClaimIsBacked(es: seq<Step>, i: nat, k: nat, room: string, node: string, ttl: string -> Ttl)
    requires InOrder(es) && Configured(es, ttl) && i < k <= |es| && Claim(es, i, k, room, node)
    ensures var end := es[i].now + ttl(node);
            var ks := After(map[], es, k);
            end <= es[k - 1].now || (room in ks && ks[room].owner == node && end <= ks[room].expiresAt)
    decreases k
  {
    if i < k - 1 {
      ClaimIsBacked(es, i, k - 1, room, node, ttl);
      assert es[k - 2].now <= es[k - 1].now && es[i].now <= es[k - 1].now;
      assert !GivesUp(es[k - 1], room, node);
    }
  }

  /** A live key was put there by its owner, who has not given it up since. */
  lemma {:induction false} LiveKeyHasClaim(es: seq<Step>, k: nat, room: string, now: Time, ttl: string -> Ttl) returns (i: nat)
    requires InOrder(es) && Configured(es, ttl) && k <= |es| && Live(After(map[], es, k), room, now)
    requires k > 0 ==> es[k - 1].now <= now
    ensures i < k
    ensures var e := After(map[], es, k)[room];
            Claim(es, i, k, room, e.owner) && e.expiresAt == es[i].now + ttl(e.owner)
    decreases k
  {
    if Grant(es, k - 1, room, After(map[], es, k)[room].owner) {
      i := k - 1;
    } else {
      i := LiveKeyHasClaim(es, k - 1, room, now, ttl);
    }
  }

  /** At `now`, after `k` steps, `node` may believe that it owns `room`. */
  ghost predicate Holds(es: seq<Step>, k: nat, room: string, node: string, now: Time, ttl: string -> Ttl)
    requires k <= |es|
  {
    exists i :: 0 <= i < k && Claim(es, i, k, room, node) && now < es[i].now + ttl(node)
  }

  /** Over every interleaving of any nodes, RoomOwner names exactly the node that holds an
      unexpired, unreleased grant, and reports nobody exactly when there is none. */
  lemma {:induction false} OwnerIsTheHolder(es: seq<Step>, k: nat, room: string, node: string, now: Time, ttl: string -> Ttl)
    requires InOrder(es) && Configured(es, ttl) && k <= |es| && (k > 0 ==> es[k - 1].now <= now)
    ensures RoomOwner(After(map[], es, k), room, now) == Some(node) <==> Holds(es, k, room, node, now, ttl)
  {
    if Live(After(map[], es, k), room, now) {
      var i := LiveKeyHasClaim(es, k, room, now, ttl);
    }
    if Holds(es, k, room, node, now, ttl) {
      var i :| 0 <= i < k && Claim(es, i, k, room, node) && now < es[i].now + ttl(node);
      ClaimIsBacked(es, i, k, room, node, ttl);
    }
  }

  /** The periods granted to different nodes never overlap: a later grant to somebody else comes
      after the earlier one has run out, unless its owner released it in between. */
  lemma GrantsNeverOverlap(es: seq<Step>, i: nat, j: nat, room: string, a: string, b: string, ttl: string -> Ttl)
    requires InOrder(es) && Configured(es, ttl) && i < j < |es| && a != b
    requires Grant(es, i, room, a) && Grant(es, j, room, b)
    ensures es[i].now + ttl(a) <= es[j].now || exists k :: i < k < j && GivesUp(es[k], room, a)
  {
    if forall k :: i < k < j ==> !GivesUp(es[k], room, a) {
      ClaimIsBacked(es, i, j, room, a, ttl);
      assert es[j - 1].now <= es[j].now;
    }
  }

  /** At no instant do two nodes hold the same room. */
  lemma OneHolder(es: seq<Step>, k: nat, room: string, a: string, b: string, now: Time, ttl: string -> Ttl)
    requires InOrder(es) && Configured(es, ttl) && k <= |es| && (k > 0 ==> es[k - 1].now <= now)
    requires Holds(es, k, room, a, now, ttl) && Holds(es, k, room, b, now, ttl)
    ensures a == b
  {
    OwnerIsTheHolder(es, k, room, a, now, ttl);
    OwnerIsTheHolder(es, k, room, b, now, ttl);
  }

  // ----- keeping a lease ----------------------------------------------------------------

  /** How often maintainLease wakes up. */
  function RenewInterval(ttl: int): (interval: nat)
    ensures 3 <= ttl ==> 3 * interval <= ttl < 3 * (interval + 1)
    ensures ttl < 3 ==> interval == 1_000_000_000
  {
    var third := if ttl >= 0 then ttl / 3 else -(-ttl / 3);
    if third <= 0 then SECOND else third
  }

  /** The last time `node` renewed its lease on `room`, or `t0` when it has not yet. */
  ghost function LastBeat(t0: Time, es: seq<Step>, k: nat, room: string, node: string): Time
    requires k <= |es|
  {
    if k == 0 then t0
    else if es[k - 1].op.Renew? && es[k - 1].op.room == room && es[k - 1].op.node == node then es[k - 1].now
    else LastBeat(t0, es, k - 1, room, node)
  }

  /** `node` renews and, after a wake-up that went wrong, tries to re-acquire; the run is never more
      than two wake-ups past its last renewal: one may be missed. Other nodes do what they like. */
  ghost predicate Beats(t0: Time, es: seq<Step>, room: string, node: string, ttl: Ttl) {
    && (forall k :: 0 <= k < |es| && es[k].op.node == node && es[k].op.room == room ==>
          es[k].op.Acquire? || es[k].op == Renew(room, node, ttl))
    && (forall k :: 0 <= k < |es| ==> es[k].now <= LastBeat(t0, es, k, room, node) + 2 * RenewInterval(ttl))
  }

  /** A lease renewed in time never lapses and is never taken, whatever the other nodes try. */
  lemma {:induction false} LeaseNeverLapses(ks: Keys, t0: Time, es: seq<Step>, k: nat, room: string, node: string, ttl: Ttl)
    requires room in ks && ks[room] == Entry(node, t0 + ttl) && Beats(t0, es, room, node, ttl) && k <= |es|
    ensures room in After(ks, es, k)
    ensures After(ks, es, k)[room] == Entry(node, LastBeat(t0, es, k, room, node) + ttl)
    ensures k < |es| ==> RoomOwner(After(ks, es, k), room, es[k].now) == Some(node)
    ensures k < |es| && es[k].op == Renew(room, node, ttl) ==> Succeeds(After(ks, es, k), es[k])
    decreases k
  {
    assert 0 < ttl / 3 && 2 * RenewInterval(ttl) < ttl;
    if k > 0 {
      LeaseNeverLapses(ks, t0, es, k - 1, room, node, ttl);
    }
  }

  // ----- the store and the renewal loop -------------------------------------------------

  /** What happens to a request on the wire. */
  datatype Wire = Clean | RequestLost | ReplyLost

  class RoomLocator {
    var keys: Keys

    constructor ()
      ensures keys == map[]
    {
      keys := map[];
    }

    method AcquireRoomLease(now: Time, room: string, node: string, ttl: Ttl) returns (ok: bool)
      modifies this
      ensures ok == Succeeds(old(keys), At(now, Acquire(room, node, ttl)))
      ensures keys == Apply(old(keys), At(now, Acquire(room, node, ttl)))
    {
      if room in keys && now < keys[room].expiresAt {
        return false;
      }
      keys := keys[room := Entry(node, now + ttl)];
      return true;
    }

    method RenewRoomLease(now: Time, room: string, node: string, ttl: Ttl) returns (ok: bool)
      modifies this
      ensures ok == Succeeds(old(keys), At(now, Renew(room, node, ttl)))
      ensures keys == Apply(old(keys), At(now, Renew(room, node, ttl)))
    {
      var got := Get(now, room);
      if got == Some(node) {
        keys := keys[room := keys[room].(expiresAt := now + ttl)];
        return true;
      }
      return false;
    }

    method ReleaseRoomLease(now: Time, room: string, node: string)
      modifies this
      ensures keys == Apply(old(keys), At(now, Release(room, node)))
    {
      var got := Get(now, room);
      if got == Some(node) {
        keys := keys - {room};
      }
    }

    method Get(now: Time, room: string) returns (owner: Option<string>)
      ensures owner == RoomOwner(keys, room, now)
    {
      if room in keys && now < keys[room].expiresAt {
        return Some(keys[room].owner);
      }
      return None;
    }

    /** Steps of other nodes, in the order Redis executes them. */
    method Interfere(es: seq<Step>)
      modifies this
      ensures keys == After(old(keys), es, |es|)
    {
      for k := 0 to |es|
        invariant keys == After(old(keys), es, k)
      {
        match es[k].op
        case Acquire(room, node, ttl) => var _ := AcquireRoomLease(es[k].now, room, node, ttl);
        case Renew(room, node, ttl) => var _ := RenewRoomLease(es[k].now, room, node, ttl);
        case Release(room, node) => ReleaseRoomLease(es[k].now, room, node);
      }
    }

    /** One wake-up of maintainLease: renew, and if that did not visibly work, re-acquire. Other
        nodes act in between and either request may be lost or go unanswered. */
    method MaintainOnce(room: string, node: string, ttl: Ttl, renewAt: Time, renewWire: Wire,
                        others: seq<Step>, acquireAt: Time, acquireWire: Wire) returns (healthy: bool)
      requires renewAt <= acquireAt
      requires forall k :: 0 <= k < |others| ==> others[k].op.node != node
      modifies this
      ensures renewWire == Clean && OwnedBy(old(keys), room, node, renewAt) ==>
                healthy && keys == old(keys)[room := Entry(node, renewAt + ttl)]
      ensures renewWire == acquireWire == Clean && !OwnedBy(old(keys), room, node, renewAt) ==>
                if healthy then RoomOwner(keys, room, acquireAt) == Some(node) && keys[room].expiresAt == acquireAt + ttl
                else RoomOwner(keys, room, acquireAt).Some? && RoomOwner(keys, room, acquireAt) != Some(node)
      ensures healthy ==> room in keys && keys[room].owner == node
                          && (keys[room].expiresAt == renewAt + ttl || keys[room].expiresAt == acquireAt + ttl)
    {
      var ok := false;
      if renewWire != RequestLost {
        ok := RenewRoomLease(renewAt, room, node, ttl);
      }
      if renewWire == Clean && ok {
        return true;
      }
      ghost var mid := keys;
      Interfere(others);
      assert !OwnedBy(mid, room, node, renewAt) ==> !OwnedBy(keys, room, node, acquireAt) by {
        if !OwnedBy(mid, room, node, renewAt) {
          OthersDoNotHelp(mid, others, |others|, room, node, renewAt);
        }
      }
      ok := false;
      if acquireWire != RequestLost {
        ok := AcquireRoomLease(acquireAt, room, node, ttl);
      }
      healthy := acquireWire == Clean && ok;
    }
  }

  /** Nobody else can make `node` the owner. */
  lemma {:induction false} OthersDoNotHelp(ks: Keys, es: seq<Step>, k: nat, room: string, node: string, since: Time)
    requires k <= |es| && !OwnedBy(ks, room, node, since)
    requires forall i :: 0 <= i < |es| ==> es[i].op.node != node
    ensures !OwnedBy(After(ks, es, k), room, node, since)
  {
    if k > 0 {
      OthersDoNotHelp(ks, es, k - 1, room, node, since);
    }
  }

  /** No step of a node touches a live lease of another, so neither renewing nor re-acquiring can steal one. */
  lemma NobodySteals(ks: Keys, e: Step, room: string)
    requires Live(ks, room, e.now) && ks[room].owner != e.op.node
    ensures room in Apply(ks, e) && Apply(ks, e)[room] == ks[room]
  {
  }
}
