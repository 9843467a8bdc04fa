/** The session map of the tenant manager and the slots that its sessions hold, for calls
    made one after the other. A session's guard lives in its map entry, so an entry that
    leaves the map gives its slot back. */
module SessionManager {
  import opened Wrappers

  type Uuid = nat
  type Key = (string, Uuid)

  const MAX_BATCH := 10

  /** What a session keeps besides its guard. */
  type Info = string

  datatype Error =
    | TenantNotFound
    | SessionLimitExceeded(max: nat, current: nat)
    | SessionNotFound
    | BadRequest
    | Internal

  /** What the surroundings do to one creation: the id that is drawn, and the stage, if any,
      at which it fails once the slot is reserved. */
  datatype Stage = Endpoints | Build | Webhook
  datatype Draw = Draw(id: Uuid, failure: Option<Stage>)

  datatype Created = Ok(id: Uuid) | Err(error: Error)
  datatype BatchResult = AllCreated(ids: seq<Uuid>) | Failed(error: Error)

  function Owned(sessions: map<Key, Info>, tenant: string): set<Key> { set k | k in sessions && k.0 == tenant }

  function KeySet(tenant: string, ids: set<Uuid>): set<Key> { set id | id in ids :: (tenant, id) }

  /** The map with sessions of one tenant added. */
  function With(sessions: map<Key, Info>, tenant: string, ids: set<Uuid>, info: Info): map<Key, Info> {
    sessions + map k | k in KeySet(tenant, ids) :: info
  }

  function IdSet(ids: seq<Uuid>): set<Uuid> { set id | id in ids }

  function IdsOf(draws: seq<Draw>): (r: seq<Uuid>)
    ensures |r| == |draws|
  {
    seq(|draws|, i requires 0 <= i < |draws| => draws[i].id)
  }

  /** The ids drawn are new and all different. */
  ghost predicate FreshDraws(sessions: map<Key, Info>, tenant: string, draws: seq<Draw>) {
    && (forall i | 0 <= i < |draws| :: (tenant, draws[i].id) !in sessions)
    && (forall i, j | 0 <= i < j < |draws| :: draws[i].id != draws[j].id)
  }

  lemma OwnedGrows(sessions: map<Key, Info>, key: Key, info: Info, tenant: string)
    ensures |Owned(sessions[key := info], tenant)|
            == |Owned(sessions, tenant)| + (if key.0 == tenant && key !in sessions then 1 else 0)
  {
    var after := sessions[key := info];
    if key.0 == tenant && key !in sessions {
      assert Owned(after, tenant) == Owned(sessions, tenant) + {key};
    } else {
      assert Owned(after, tenant) == Owned(sessions, tenant);
    }
  }

  lemma OwnedShrinks(sessions: map<Key, Info>, key: Key, tenant: string)
    requires key in sessions
    ensures |Owned(sessions - {key}, tenant)| == |Owned(sessions, tenant)| - (if key.0 == tenant then 1 else 0)
  {
    var after := sessions - {key};
    if key.0 == tenant {
      assert key in Owned(sessions, tenant);
      assert Owned(after, tenant) == Owned(sessions, tenant) - {key};
    } else {
      assert Owned(after, tenant) == Owned(sessions, tenant);
    }
  }

  lemma IdSetSnoc(ids: seq<Uuid>, id: Uuid)
    ensures IdSet(ids + [id]) == IdSet(ids) + {id}
  {}

  lemma IdSetTail(ids: seq<Uuid>, i: nat)
    requires i < |ids| && forall j | i < j < |ids| :: ids[j] != ids[i]
    ensures ids[i] in IdSet(ids[i..]) && IdSet(ids[i + 1..]) == IdSet(ids[i..]) - {ids[i]}
  {
    assert ids[i..] == [ids[i]] + ids[i + 1..];
  }

  lemma WithNone(sessions: map<Key, Info>, tenant: string, info: Info)
    ensures With(sessions, tenant, {}, info) == sessions
  {}

  lemma WithOneMore(sessions: map<Key, Info>, tenant: string, ids: set<Uuid>, id: Uuid, info: Info)
    ensures With(sessions, tenant, ids + {id}, info) == With(sessions, tenant, ids, info)[(tenant, id) := info]
  {}

  lemma WithOneLess(sessions: map<Key, Info>, tenant: string, ids: set<Uuid>, id: Uuid, info: Info)
    requires (tenant, id) !in sessions && id in ids
    ensures With(sessions, tenant, ids - {id}, info) == With(sessions, tenant, ids, info) - {(tenant, id)}
  {}

  lemma OwnedWith(sessions: map<Key, Info>, tenant: string, ids: set<Uuid>, info: Info)
    requires forall id <- ids :: (tenant, id) !in sessions
    ensures |Owned(With(sessions, tenant, ids, info), tenant)| == |Owned(sessions, tenant)| + |ids|
  {
    if ids == {} {
      assert With(sessions, tenant, ids, info) == sessions;
    } else {
      var id :| id in ids;
      OwnedWith(sessions, tenant, ids - {id}, info);
      WithOneMore(sessions, tenant, ids - {id}, id, info);
      assert ids - {id} + {id} == ids;
      OwnedGrows(With(sessions, tenant, ids - {id}, info), (tenant, id), info, tenant);
    }
  }

  lemma {:induction false} DistinctIds(ids: seq<Uuid>)
    requires forall i, j | 0 <= i < j < |ids| :: ids[i] != ids[j]
    ensures |IdSet(ids)| == |ids|
  {
    if ids == [] {
      assert IdSet(ids) == {};
    } else {
      var n := |ids| - 1;
      DistinctIds(ids[..n]);
      assert ids == ids[..n] + [ids[n]];
      IdSetSnoc(ids[..n], ids[n]);
    }
  }

  /** New sessions under fresh ids each add one to the tenant's. */
  lemma FreshDrawsCount(before: map<Key, Info>, tenant: string, draws: seq<Draw>, i: nat, info: Info)
    requires FreshDraws(before, tenant, draws) && i <= |draws|
    ensures |Owned(With(before, tenant, IdSet(IdsOf(draws[..i])), info), tenant)| == |Owned(before, tenant)| + i
  {
    var ids := IdsOf(draws[..i]);
    DistinctIds(ids);
    OwnedWith(before, tenant, IdSet(ids), info);
  }

  /** The map with sessions of one tenant added one after the other. */
  function Added(sessions: map<Key, Info>, tenant: string, ids: seq<Uuid>, info: Info): map<Key, Info> {
    if ids == [] then sessions else Added(sessions, tenant, ids[..|ids| - 1], info)[(tenant, ids[|ids| - 1]) := info]
  }

  lemma IdsOfFirst(draws: seq<Draw>, ids: seq<Uuid>)
    requires |ids| <= |draws| && forall j | 0 <= j < |ids| :: ids[j] == draws[j].id
    ensures ids == IdsOf(draws[..|ids|])
  {
  }

  lemma AddedSnoc(sessions: map<Key, Info>, tenant: string, ids: seq<Uuid>, id: Uuid, info: Info)
    ensures Added(sessions, tenant, ids + [id], info) == Added(sessions, tenant, ids, info)[(tenant, id) := info]
  {
    assert (ids + [id])[..|ids|] == ids;
  }

  lemma {:induction false} AddedIsWith(sessions: map<Key, Info>, tenant: string, ids: seq<Uuid>, info: Info)
    ensures Added(sessions, tenant, ids, info) == With(sessions, tenant, IdSet(ids), info)
  {
    if ids == [] {
      assert IdSet(ids) == {};
      WithNone(sessions, tenant, info);
    } else {
      var front, last := ids[..|ids| - 1], ids[|ids| - 1];
      AddedIsWith(sessions, tenant, front, info);
      assert ids == front + [last];
      IdSetSnoc(front, last);
      WithOneMore(sessions, tenant, IdSet(front), last, info);
    }
  }

  class TenantManager {
    var sessions: map<Key, Info>
    var active: map<string, nat>    // the supervisors' counters
    const limits: map<string, nat>

    constructor (limits: map<string, nat>)
      ensures Valid() && sessions == map[] && this.limits == limits
    {
      this.limits := limits;
      sessions := map[];
      active := map t | t in limits :: 0;
    }

    /** Every slot taken belongs to a session in the map, and none is over the limit. */
    ghost predicate Valid()
      reads this
    {
      && active.Keys == limits.Keys
      && (forall t <- active :: active[t] == |Owned(sessions, t)| <= limits[t])
      && (forall k <- sessions :: k.0 in active)
    }

    /** Creates a session. However it fails, nothing changes. A drawn id that is already in
        use replaces that session, whose guard gives its slot back. */
    method CreateSession(tenant: string, info: Info, draw: Draw) returns (r: Created)
      requires Valid()
      modifies this
      ensures Valid()
      ensures r.Ok? <==> tenant in limits && |Owned(old(sessions), tenant)| < limits[tenant] && draw.failure.None?
      ensures r.Ok? ==> r.id == draw.id && sessions == old(sessions)[(tenant, draw.id) := info]
      ensures r.Err? ==> sessions == old(sessions) && active == old(active)
      ensures r.Err? && tenant !in limits ==> r.error == TenantNotFound
      ensures r.Err? && tenant in limits && old(active)[tenant] >= limits[tenant] ==>
                r.error == SessionLimitExceeded(limits[tenant], old(active)[tenant])
      ensures r.Err? && tenant in limits && old(active)[tenant] < limits[tenant] ==>
                r.error == if draw.failure == Some(Build) then Internal else BadRequest
    {
      if tenant !in active {
        return Err(TenantNotFound);
      }
      active := active[tenant := active[tenant] + 1];
      if active[tenant] > limits[tenant] {
        active := active[tenant := active[tenant] - 1];
        assert active == old(active);
        return Err(SessionLimitExceeded(limits[tenant], active[tenant]));
      }
      if draw.failure.Some? {
        active := active[tenant := active[tenant] - 1];
        assert active == old(active);
        return Err(if draw.failure.value == Build then Internal else BadRequest);
      }
      var key := (tenant, draw.id);
      var replaced := key in sessions;
      sessions := sessions[key := info];
      if replaced {
        active := active[tenant := active[tenant] - 1];
      }
      assert Valid() by {
        forall t <- active
          ensures active[t] == |Owned(sessions, t)| <= limits[t]
        {
          OwnedGrows(old(sessions), key, info, t);
          assert old(active)[t] == |Owned(old(sessions), t)|;
        }
      }
      return Ok(draw.id);
    }

    method DeleteSession(tenant: string, id: Uuid) returns (error: Option<Error>)
      requires Valid()
      modifies this
      ensures Valid()
      ensures error == if (tenant, id) in old(sessions) then None else Some(SessionNotFound)
      ensures sessions == old(sessions) - {(tenant, id)}
    {
      var key := (tenant, id);
      if key !in sessions {
        assert sessions == sessions - {key};
        return Some(SessionNotFound);
      }
      assert key in Owned(sessions, tenant);
      sessions := sessions - {key};
      active := active[tenant := active[tenant] - 1];
      forall t <- active
        ensures active[t] == |Owned(sessions, t)| <= limits[t]
      {
        OwnedShrinks(old(sessions), key, t);
        assert old(active)[t] == |Owned(old(sessions), t)|;
      }
      return None;
    }

    /** Takes the sessions of `ids` out again, in the order they were made. */
    method RollBack(tenant: string, ids: seq<Uuid>, info: Info, ghost before: map<Key, Info>)
      requires Valid() && sessions == With(before, tenant, IdSet(ids), info)
      requires forall id <- ids :: (tenant, id) !in before
      requires forall i, j | 0 <= i < j < |ids| :: ids[i] != ids[j]
      modifies this
      ensures Valid() && sessions == before
    {
      assert ids[0..] == ids;
      for i := 0 to |ids|
        invariant Valid()
        invariant sessions == With(before, tenant, IdSet(ids[i..]), info)
      {
        IdSetTail(ids, i);
        WithOneLess(before, tenant, IdSet(ids[i..]), ids[i], info);
        var _ := DeleteSession(tenant, ids[i]);
      }
      assert IdSet(ids[|ids|..]) == {};
      WithNone(before, tenant, info);
    }

    /** Creates sessions until one fails. */
    method CreateEach(tenant: string, info: Info, draws: seq<Draw>) returns (created: seq<Uuid>)
      requires Valid() && FreshDraws(sessions, tenant, draws)
      requires tenant in limits && |Owned(sessions, tenant)| + |draws| <= limits[tenant]
      modifies this
      ensures Valid() && |created| <= |draws| && created == IdsOf(draws[..|created|])
      ensures sessions == With(old(sessions), tenant, IdSet(created), info)
      ensures |created| == |draws| <==> forall i | 0 <= i < |draws| :: draws[i].failure.None?
    {
      created := [];
      ghost var before := sessions;
      for i := 0 to |draws|
        invariant Valid() && |created| == i
        invariant forall j | 0 <= j < i :: created[j] == draws[j].id && draws[j].failure.None?
        invariant sessions == Added(before, tenant, created, info)
        invariant |Owned(sessions, tenant)| == |Owned(before, tenant)| + i
        invariant forall j | i <= j < |draws| :: (tenant, draws[j].id) !in sessions
      {
        ghost var now := sessions;
        var one := CreateSession(tenant, info, draws[i]);
        if one.Err? {
          assert draws[i].failure.Some?;
          AddedIsWith(before, tenant, created, info);
          IdsOfFirst(draws, created);
          return;
        }
        OwnedGrows(now, (tenant, draws[i].id), info, tenant);
        AddedSnoc(before, tenant, created, draws[i].id, info);
        created := created + [one.id];
      }
      AddedIsWith(before, tenant, created, info);
      IdsOfFirst(draws, created);
    }

    /** Creates `count` sessions or none: it succeeds exactly when the batch is small enough,
        the tenant is known and has room for all of it, and no creation fails; otherwise the
        map and every counter are as before. */
    method BatchCreateSessions(tenant: string, count: nat, info: Info, draws: seq<Draw>) returns (r: BatchResult)
      requires Valid() && |draws| == count && FreshDraws(sessions, tenant, draws)
      modifies this
      ensures Valid()
      ensures r.AllCreated? <==>
              && count <= MAX_BATCH && tenant in limits
              && |Owned(old(sessions), tenant)| + count <= limits[tenant]
              && forall i | 0 <= i < count :: draws[i].failure.None?
      ensures r.AllCreated? ==> r.ids == IdsOf(draws) && sessions == With(old(sessions), tenant, IdSet(r.ids), info)
      ensures r.AllCreated? ==> active[tenant] == old(active)[tenant] + count
      ensures r.Failed? ==> sessions == old(sessions) && active == old(active)
      ensures r.Failed? ==>
                r.error == if count > MAX_BATCH then BadRequest
                           else if tenant !in limits then TenantNotFound
                           else if old(active)[tenant] + count > limits[tenant]
                           then SessionLimitExceeded(limits[tenant], old(active)[tenant]) else Internal
    {
      if count > MAX_BATCH {
        return Failed(BadRequest);
      }
      if tenant !in active {
        return Failed(TenantNotFound);
      }
      if active[tenant] + count > limits[tenant] {
        return Failed(SessionLimitExceeded(limits[tenant], active[tenant]));
      }
      var created := CreateEach(tenant, info, draws);
      if |created| < count {
        RollBack(tenant, created, info, old(sessions));
        SameMapSameCounters();
        return Failed(Internal);
      }
      assert |Owned(sessions, tenant)| == |Owned(old(sessions), tenant)| + count by {
        assert draws[..count] == draws;
        FreshDrawsCount(old(sessions), tenant, draws, count, info);
      }
      return AllCreated(created);
    }

    /** A valid manager's counters are determined by its map. */
    twostate lemma SameMapSameCounters()
      requires old(Valid()) && Valid() && sessions == old(sessions)
      ensures active == old(active)
    {}
  }

  /** Sessions of the tenant under the ids have the new info, and all others are as they were. */
  lemma WithHolds(sessions: map<Key, Info>, tenant: string, ids: set<Uuid>, info: Info, key: Key)
    ensures var r := With(sessions, tenant, ids, info);
            && (key in r <==> key in sessions || (key.0 == tenant && key.1 in ids))
            && (key in r ==> r[key] == if key.0 == tenant && key.1 in ids then info else sessions[key])
  {}
}
