/** What the tank server keeps over whole runs of register, move and offline. */
module TankLaws {
  import opened TankServer
  import TankMap
  import Counting

  // ---------------------------------------------------------------- invariant

  predicate MemberOk(w: World, m: MapId, k: MapObj, s: Sid) {
    && s in w.players && w.players[s].mapId == m && |k.teams| == 4
    && 1 <= w.players[s].teamId <= 4 && s in k.teams[w.players[s].teamId - 1]
    && 1 <= w.players[s].tankId <= MAX_NUM_EACH_MAP
  }

  predicate TeamsOk(w: World, k: MapObj) {
    forall i, s :: 0 <= i < |k.teams| && s in k.teams[i] ==> s in k.members && s in w.players && w.players[s].teamId == i + 1
  }

  predicate IdsOk(w: World, k: MapObj) {
    forall s, u :: s in k.members && u in k.members && s != u && s in w.players && u in w.players ==>
      w.players[s].tankId != w.players[u].tankId
  }

  /** Map m: at most 12 members, each in exactly the team its record names, with distinct
      tank ids in 1..12. */
  predicate MapOk(w: World, m: MapId)
    requires m in w.maps
  {
    var k := w.maps[m];
    && m <= w.gId && |k.teams| == 4 && |k.members| <= MAX_NUM_EACH_MAP
    && (forall s :: s in k.members ==> MemberOk(w, m, k, s))
    && TeamsOk(w, k) && IdsOk(w, k)
  }

  predicate SameSeat(p: Player, q: Player) {
    p.mapId == q.mapId && p.teamId == q.teamId && p.tankId == q.tankId
  }

  /** A map nobody joins or leaves stays sound. */
  lemma MapFrame(w: World, w': World, m: MapId)
    requires m in w.maps && MapOk(w, m) && m in w'.maps && w'.maps[m] == w.maps[m] && w.gId <= w'.gId
    requires forall s :: s in w.maps[m].members ==>
               s in w'.players && s in w.players && SameSeat(w.players[s], w'.players[s])
    ensures MapOk(w', m)
  {
    forall s | s in w.maps[m].members ensures MemberOk(w', m, w.maps[m], s) {
      assert MemberOk(w, m, w.maps[m], s);
    }
  }

  predicate PlayerOk(w: World, s: Sid)
    requires s in w.players
  {
    w.players[s].mapId in w.maps && s in w.maps[w.players[s].mapId].members
  }

  predicate Registry(w: World) {
    && (forall m :: m in w.maps ==> MapOk(w, m))
    && (forall s :: s in w.players ==> PlayerOk(w, s))
  }

  // -------------------------------------------------------------- tank ids

  /** The ids 1, ..., r-1. */
  function Below(r: nat): (b: set<int>)
    ensures forall j :: j in b <==> 1 <= j < r
    ensures r >= 1 ==> |b| == r - 1
  {
    if r <= 1 then {} else Below(r - 1) + {r - 1}
  }

  lemma Crowd(used: set<int>, n: nat)
    requires forall j :: 1 <= j <= n ==> j in used
    ensures n <= |used - {0}|
  {
    Counting.Smaller(Below(n + 1), used - {0});
  }

  /** Pigeonhole: with at most 11 positive ids in use, the smallest free id is at most 12. */
  lemma FreeIdIsSmall(used: set<int>)
    requires |used - {0}| < MAX_NUM_EACH_MAP
    ensures 1 <= FreeFrom(used, 1) <= MAX_NUM_EACH_MAP && FreeFrom(used, 1) !in used
  {
    if !(1 <= FreeFrom(used, 1) <= MAX_NUM_EACH_MAP && FreeFrom(used, 1) !in used) {
      Crowd(used, MAX_NUM_EACH_MAP);
    }
  }

  lemma {:induction false} UsedSize(players: map<Sid, Player>, members: set<Sid>)
    ensures |UsedIds(players, members)| <= |members|
    decreases |members|
  {
    if s :| s in members {
      UsedSize(players, members - {s});
      var rest := UsedIds(players, members - {s});
      if s in players {
        assert UsedIds(players, members) == rest + {players[s].tankId};
      } else {
        assert UsedIds(players, members) == rest;
      }
    } else {
      assert UsedIds(players, members) == {};
    }
  }

  /** The id given out on a map with room is in 1..12 and new among the other members. */
  lemma NewIdIsFree(w: World, sid: Sid, m: MapId)
    requires m in w.maps && HasRoom(w.maps[m]) && (sid in w.players ==> sid in w.maps[m].members)
    requires forall s :: s in w.maps[m].members ==> s in w.players
    ensures var members := w.maps[m].members + {sid};
            var id := FreeFrom(UsedIds(w.players[sid := PlayerAt(w, sid)], members), 1);
            && 1 <= id <= MAX_NUM_EACH_MAP
            && forall s :: s in w.maps[m].members && s != sid ==> w.players[s].tankId != id
  {
    var known := w.players[sid := PlayerAt(w, sid)];
    var used := UsedIds(known, w.maps[m].members + {sid});
    UsedSize(w.players, w.maps[m].members);
    assert used - {0} <= UsedIds(w.players, w.maps[m].members);
    Counting.Smaller(used - {0}, UsedIds(w.players, w.maps[m].members));
    FreeIdIsSmall(used);
    forall s | s in w.maps[m].members && s != sid ensures known[s].tankId in used {
    }
  }

  // -------------------------------------------------------------- each request

  /** A registration: the session's record names the map, the first of its smallest teams, the
      smallest id free there and that team's spawn point; it joins the map and that team; everybody
      and everything else stays. */
  lemma LoginShape(w: World, sid: Sid, m: MapId)
    requires |MapAt(w, m).teams| == 4
    ensures var w' := LoginAt(w, sid, m);
            var host := MapAt(w, m);
            var t := FirstMin(host.teams);
            var id := FreeFrom(UsedIds(w.players[sid := PlayerAt(w, sid)], host.members + {sid}), 1);
            && w'.players == w.players[sid := Player(m, t + 1, id, TEAM_INIT_POS[t].0, TEAM_INIT_POS[t].1)]
            && w'.maps == w.maps[m := MapObj(host.members + {sid}, host.teams[t := host.teams[t] + {sid}])]
            && w'.gId == if m in w.maps then w.gId else w.gId + 1
  {
  }

  lemma OldIds(w: World, sid: Sid, m: MapId)
    requires Registry(w) && CanHost(w, m) && (sid in w.players ==> m in w.maps && w.players[sid].mapId == m)
    ensures |MapAt(w, m).teams| == 4 && |MapAt(w, m).members| < MAX_NUM_EACH_MAP
    ensures var id := LoginAt(w, sid, m).players[sid].tankId;
            && 1 <= id <= MAX_NUM_EACH_MAP
            && forall s :: s in MapAt(w, m).members && s != sid ==> w.players[s].tankId != id
  {
    LoginShape(w, sid, m);
    if m in w.maps {
      assert MapOk(w, m);
      if sid in w.players {
        assert PlayerOk(w, sid);
      }
      NewIdIsFree(w, sid, m);
    } else {
      UsedSize(w.players[sid := NEW_PLAYER], {sid});
      Counting.Smaller(UsedIds(w.players[sid := NEW_PLAYER], {} + {sid}) - {0}, UsedIds(w.players[sid := NEW_PLAYER], {sid}));
      FreeIdIsSmall(UsedIds(w.players[sid := NEW_PLAYER], {} + {sid}));
    }
  }

  /** A session that is new, or comes back to the seat it already has. */
  predicate KeepsSeat(w: World, sid: Sid, m: MapId)
    requires MapAt(w, m).teams != []
  {
    sid !in w.players || (w.players[sid].mapId == m && FirstMin(MapAt(w, m).teams) + 1 == w.players[sid].teamId)
  }

  lemma HostTeams(w: World, m: MapId)
    requires Registry(w)
    ensures |MapAt(w, m).teams| == 4
  {
    if m in w.maps {
      assert MapOk(w, m);
    }
  }

  /** The map a session joins: its members are seated soundly, and the session itself sits in
      team t or nowhere. */
  predicate SeatReady(w: World, m: MapId, host: MapObj, sid: Sid, t: nat) {
    && |host.teams| == 4 && t < 4 && |host.members + {sid}| <= MAX_NUM_EACH_MAP
    && (forall s :: s in host.members ==> MemberOk(w, m, host, s))
    && TeamsOk(w, host) && IdsOk(w, host)
    && (forall i :: 0 <= i < 4 && sid in host.teams[i] ==> i == t)
  }

  function Seated(host: MapObj, sid: Sid, t: nat): MapObj
    requires t < |host.teams|
  {
    MapObj(host.members + {sid}, host.teams[t := host.teams[t] + {sid}])
  }

  lemma SeatMembers(w: World, w': World, m: MapId, host: MapObj, sid: Sid, t: nat, p: Player, s: Sid)
    requires SeatReady(w, m, host, sid, t) && w'.players == w.players[sid := p]
    requires p.mapId == m && p.teamId == t + 1 && 1 <= p.tankId <= MAX_NUM_EACH_MAP
    requires s in Seated(host, sid, t).members
    ensures MemberOk(w', m, Seated(host, sid, t), s)
  {
    if s != sid {
      assert MemberOk(w, m, host, s);
    }
  }

  lemma SeatTeams(w: World, w': World, m: MapId, host: MapObj, sid: Sid, t: nat, p: Player)
    requires SeatReady(w, m, host, sid, t) && w'.players == w.players[sid := p] && p.teamId == t + 1
    ensures TeamsOk(w', Seated(host, sid, t))
  {
  }

  lemma SeatIds(w: World, w': World, m: MapId, host: MapObj, sid: Sid, t: nat, p: Player)
    requires SeatReady(w, m, host, sid, t) && w'.players == w.players[sid := p]
    requires forall s :: s in host.members && s in w.players && s != sid ==> w.players[s].tankId != p.tankId
    ensures IdsOk(w', Seated(host, sid, t))
  {
  }

  lemma HostReady(w: World, sid: Sid, m: MapId)
    requires Registry(w) && CanHost(w, m) && |MapAt(w, m).teams| == 4 && KeepsSeat(w, sid, m)
    ensures SeatReady(w, m, MapAt(w, m), sid, FirstMin(MapAt(w, m).teams))
    ensures m in w.maps ==> m <= w.gId
  {
    if m in w.maps {
      assert MapOk(w, m);
    }
    assert |MapAt(w, m).members + {sid}| <= |MapAt(w, m).members| + 1;
  }

  lemma HostKeeps(w: World, sid: Sid, m: MapId)
    requires Registry(w) && CanHost(w, m) && |MapAt(w, m).teams| == 4 && KeepsSeat(w, sid, m)
    ensures m in LoginAt(w, sid, m).maps && MapOk(LoginAt(w, sid, m), m)
  {
    var w' := LoginAt(w, sid, m);
    var host, t := MapAt(w, m), FirstMin(MapAt(w, m).teams);
    OldIds(w, sid, m);
    HostReady(w, sid, m);
    LoginShape(w, sid, m);
    SeatTeams(w, w', m, host, sid, t, w'.players[sid]);
    SeatIds(w, w', m, host, sid, t, w'.players[sid]);
    forall s | s in w'.maps[m].members ensures MemberOk(w', m, w'.maps[m], s) {
      SeatMembers(w, w', m, host, sid, t, w'.players[sid], s);
    }
  }

  lemma OthersKeep(w: World, sid: Sid, m: MapId, k: MapId)
    requires Registry(w) && CanHost(w, m) && |MapAt(w, m).teams| == 4 && KeepsSeat(w, sid, m)
    requires k in w.maps && k != m
    ensures MapOk(LoginAt(w, sid, m), k)
  {
    LoginShape(w, sid, m);
    assert MapOk(w, k);
    forall s | s in w.maps[k].members ensures s in w.players && s != sid {
      assert MemberOk(w, k, w.maps[k], s);
    }
    MapFrame(w, LoginAt(w, sid, m), k);
  }

  /** register.game keeps the registry sound exactly when the session is unregistered or is
      sent back to the seat it already has; otherwise its old membership is left behind. */
  lemma LoginKeepsRegistryIff(w: World, sid: Sid, m: MapId)
    requires Registry(w) && CanHost(w, m)
    ensures |MapAt(w, m).teams| == 4
    ensures Registry(LoginAt(w, sid, m)) <==> KeepsSeat(w, sid, m)
  {
    HostTeams(w, m);
    var w' := LoginAt(w, sid, m);
    LoginShape(w, sid, m);
    if KeepsSeat(w, sid, m) {
      forall k | k in w'.maps ensures MapOk(w', k) {
        if k == m {
          HostKeeps(w, sid, m);
        } else {
          OthersKeep(w, sid, m, k);
        }
      }
      forall s | s in w'.players ensures PlayerOk(w', s) {
        if s != sid {
          assert PlayerOk(w, s);
        }
      }
    } else {
      StaleMembership(w, sid, m);
    }
  }

  lemma StaleTeam(w: World, sid: Sid, m: MapId)
    requires Registry(w) && sid in w.players && w.players[sid].mapId == m && CanHost(w, m)
    requires |MapAt(w, m).teams| == 4 && FirstMin(MapAt(w, m).teams) + 1 != w.players[sid].teamId
    ensures m in LoginAt(w, sid, m).maps && !MapOk(LoginAt(w, sid, m), m)
  {
    LoginShape(w, sid, m);
    assert PlayerOk(w, sid) && MapOk(w, m);
    assert MemberOk(w, m, w.maps[m], sid);
    assert sid in LoginAt(w, sid, m).maps[m].teams[w.players[sid].teamId - 1];
  }

  lemma StaleMap(w: World, sid: Sid, m: MapId)
    requires Registry(w) && sid in w.players && w.players[sid].mapId != m && |MapAt(w, m).teams| == 4
    ensures w.players[sid].mapId in LoginAt(w, sid, m).maps && !MapOk(LoginAt(w, sid, m), w.players[sid].mapId)
  {
    LoginShape(w, sid, m);
    assert PlayerOk(w, sid);
    var k := w.players[sid].mapId;
    var w' := LoginAt(w, sid, m);
    assert w'.maps[k] == w.maps[k] && sid in w'.maps[k].members;
    assert !MemberOk(w', k, w'.maps[k], sid);
  }

  lemma StaleMembership(w: World, sid: Sid, m: MapId)
    requires Registry(w) && CanHost(w, m) && |MapAt(w, m).teams| == 4 && !KeepsSeat(w, sid, m)
    ensures !Registry(LoginAt(w, sid, m))
  {
    if w.players[sid].mapId == m {
      StaleTeam(w, sid, m);
    } else {
      StaleMap(w, sid, m);
    }
  }

  lemma FirstMinIs(teams: seq<set<Sid>>, i: nat)
    requires i < |teams| && forall j :: 0 <= j < |teams| ==> |teams[i]| <= |teams[j]|
    requires forall j :: 0 <= j < i ==> |teams[i]| < |teams[j]|
    ensures FirstMin(teams) == i
  {
    var f := FirstMin(teams);
    assert |teams[f]| <= |teams[i]| <= |teams[f]|;
  }

  lemma FirstTeams()
    ensures FirstMin(NEW_MAP.teams) == 0 && FirstMin([{1}, {}, {}, {}]) == 1
  {
    FirstMinIs(NEW_MAP.teams, 0);
    FirstMinIs([{1}, {}, {}, {}], 1);
  }

  /** From the empty server: session 1 registers twice, and is in two teams. */
  lemma RegisteredTwice()
    ensures CanHost(EMPTY, 1) && |MapAt(EMPTY, 1).teams| == 4
    ensures var w := LoginAt(EMPTY, 1, 1);
            && Registry(w) && CanHost(w, 1) && |MapAt(w, 1).teams| == 4
            && var v := LoginAt(w, 1, 1);
            1 in v.maps && |v.maps[1].teams| == 4 && 1 in v.maps[1].teams[0] && 1 in v.maps[1].teams[1] && !Registry(v)
  {
    FirstTeams();
    LoginKeepsRegistryIff(EMPTY, 1, 1);
    var w := LoginAt(EMPTY, 1, 1);
    assert w.maps[1] == MapObj({1}, [{1}, {}, {}, {}]);
    assert w.players[1].teamId == 1 && w.players[1].mapId == 1;
    LoginKeepsRegistryIff(w, 1, 1);
  }

  lemma DropMapKeeps(w: World, sid: Sid)
    requires Registry(w) && sid in w.players
    ensures w.players[sid].mapId in Offline(w, sid).maps
    ensures MapOk(Offline(w, sid), w.players[sid].mapId)
  {
    var m := w.players[sid].mapId;
    assert PlayerOk(w, sid) && MapOk(w, m);
    var k := w.maps[m];
    assert Offline(w, sid).maps[m] == MapObj(k.members - {sid}, Without(k.teams, sid));
    assert k.members == (k.members - {sid}) + {sid};
  }

  /** A session that leaves is forgotten by its map and its team, and by nobody else. */
  lemma OfflineKeepsRegistry(w: World, sid: Sid)
    requires Registry(w)
    ensures Registry(Offline(w, sid)) && sid !in Offline(w, sid).players
    ensures forall m :: m in Offline(w, sid).maps ==> sid !in Offline(w, sid).maps[m].members
  {
    var w' := Offline(w, sid);
    if sid in w.players {
      forall k | k in w'.maps ensures MapOk(w', k) && sid !in w'.maps[k].members {
        assert MapOk(w, k);
        if k == w.players[sid].mapId {
          DropMapKeeps(w, sid);
        } else {
          forall s | s in w.maps[k].members ensures s in w.players && s != sid {
            assert MemberOk(w, k, w.maps[k], s);
          }
          MapFrame(w, w', k);
        }
      }
      forall s | s in w'.players ensures PlayerOk(w', s) {
        assert PlayerOk(w, s);
      }
    } else {
      forall k | k in w'.maps ensures sid !in w'.maps[k].members {
        assert MapOk(w, k);
        assert sid in w.maps[k].members ==> MemberOk(w, k, w.maps[k], sid);
      }
    }
  }

  lemma MoveKeepsRegistry(w: World, sid: Sid, dx: real, dy: real)
    requires Registry(w)
    ensures Registry(Move(w, sid, dx, dy))
  {
    var w' := Move(w, sid, dx, dy);
    forall k | k in w'.maps ensures MapOk(w', k) {
      assert MapOk(w, k);
      forall s | s in w.maps[k].members ensures s in w.players && SameSeat(w.players[s], w'.players[s]) {
        assert MemberOk(w, k, w.maps[k], s);
      }
      MapFrame(w, w', k);
    }
    forall s | s in w'.players ensures PlayerOk(w', s) {
      assert PlayerOk(w, s);
    }
  }

  // ----------------------------------------------------------------- positions

  /** Every tank's square of half-width 0.5 is strictly inside the map and overlaps no block. */
  ghost predicate Safe(w: World) {
    forall s :: s in w.players ==> !TankMap.Blocked(w.players[s].x, w.players[s].y, 0.5)
  }

  lemma MeetsNear(x: real, y: real, r: real, b: TankMap.Block)
    requires TankMap.Meets(x, y, r, b)
    ensures x - r < b.cx + b.w / 2.0 && b.cx - b.w / 2.0 < x + r && y - r < b.cy + b.h / 2.0 && b.cy - b.h / 2.0 < y + r
  {
  }

  lemma SpawnsAreSafe(t: nat)
    requires t < 4
    ensures !TankMap.Blocked(TEAM_INIT_POS[t].0, TEAM_INIT_POS[t].1, 0.5)
  {
    forall k | 0 <= k < |TankMap.BLOCK_CFG| ensures !TankMap.Meets(TEAM_INIT_POS[t].0, TEAM_INIT_POS[t].1, 0.5, TankMap.BLOCK_CFG[k]) {
      var b := TankMap.BLOCK_CFG[k];
      if TankMap.Meets(TEAM_INIT_POS[t].0, TEAM_INIT_POS[t].1, 0.5, b) {
        MeetsNear(TEAM_INIT_POS[t].0, TEAM_INIT_POS[t].1, 0.5, b);
      }
    }
  }

  // ------------------------------------------------------------------ balance

  /** Team sizes differ by at most one. */
  predicate Balanced(teams: seq<set<Sid>>) {
    forall i, j :: 0 <= i < |teams| && 0 <= j < |teams| ==> |teams[i]| <= |teams[j]| + 1
  }

  lemma JoinKeepsBalance(teams: seq<set<Sid>>, sid: Sid)
    requires teams != [] && Balanced(teams)
    ensures var t := FirstMin(teams); Balanced(teams[t := teams[t] + {sid}])
  {
    var t := FirstMin(teams);
    assert |teams[t]| <= |teams[t] + {sid}| <= |teams[t]| + 1 by {
      if sid in teams[t] {
        assert teams[t] + {sid} == teams[t];
      }
    }
  }

  // ------------------------------------------------------------------ whole runs

  datatype Event = Register(sid: Sid, m: MapId) | Shift(sid: Sid, dx: real, dy: real) | Leave(sid: Sid)

  /** Registration of a session that is not registered yet, on a map allocMap may return; any
      move request; any disconnect. */
  predicate Possible(w: World, ev: Event) {
    match ev
    case Register(sid, m) => sid !in w.players && CanHost(w, m) && |MapAt(w, m).teams| == 4
    case Shift(_, _, _) => true
    case Leave(_) => true
  }

  ghost function Next(w: World, ev: Event): World
    requires Possible(w, ev)
  {
    match ev
    case Register(sid, m) => LoginAt(w, sid, m)
    case Shift(sid, dx, dy) => Move(w, sid, dx, dy)
    case Leave(sid) => Offline(w, sid)
  }

  ghost predicate Runs(w: World, run: seq<Event>)
    decreases |run|
  {
    run != [] ==> Possible(w, run[0]) && Runs(Next(w, run[0]), run[1..])
  }

  ghost function Run(w: World, run: seq<Event>): World
    requires Runs(w, run)
    decreases |run|
  {
    if run == [] then w else Run(Next(w, run[0]), run[1..])
  }

  /** A move request: the record of a registered session whose new square is free has the sums as
      coordinates and keeps its seat; in every other case, and for everybody else, nothing changes. */
  lemma MoveMoves(w: World, sid: Sid, dx: real, dy: real)
    ensures var w' := Next(w, Shift(sid, dx, dy));
            && w'.maps == w.maps && w'.gId == w.gId && w'.players.Keys == w.players.Keys
            && (forall s :: s in w.players && s != sid ==> w'.players[s] == w.players[s])
            && (sid in w.players ==>
                  var p, q := w.players[sid], w'.players[sid];
                  && SameSeat(p, q)
                  && (!TankMap.Blocked(p.x + dx, p.y + dy, 0.5) ==> q.x == p.x + dx && q.y == p.y + dy)
                  && (TankMap.Blocked(p.x + dx, p.y + dy, 0.5) ==> q == p))
  {
  }

  /** A disconnect: the session's record is gone and its map and teams are without it; everybody
      and everything else stays. */
  lemma LeaveLeaves(w: World, sid: Sid)
    requires Registry(w)
    ensures var w' := Next(w, Leave(sid));
            && w'.players == w.players - {sid} && w'.gId == w.gId && w'.maps.Keys == w.maps.Keys
            && forall m :: m in w.maps ==>
                 && w'.maps[m].members == w.maps[m].members - {sid} && |w'.maps[m].teams| == |w.maps[m].teams|
                 && forall i :: 0 <= i < |w.maps[m].teams| ==> w'.maps[m].teams[i] == w.maps[m].teams[i] - {sid}
  {
    forall m | m in w.maps
      ensures Next(w, Leave(sid)).maps[m].members == w.maps[m].members - {sid}
      ensures |Next(w, Leave(sid)).maps[m].teams| == |w.maps[m].teams|
      ensures forall i :: 0 <= i < |w.maps[m].teams| ==> Next(w, Leave(sid)).maps[m].teams[i] == w.maps[m].teams[i] - {sid}
    {
      LeaveMap(w, sid, m);
    }
  }

  lemma LeaveMap(w: World, sid: Sid, m: MapId)
    requires Registry(w) && m in w.maps
    ensures m in Offline(w, sid).maps
    ensures var k, k' := w.maps[m], Offline(w, sid).maps[m];
            && k'.members == k.members - {sid} && |k'.teams| == |k.teams|
            && forall i :: 0 <= i < |k.teams| ==> k'.teams[i] == k.teams[i] - {sid}
  {
    var k := w.maps[m];
    assert MapOk(w, m);
    if sid in w.players && w.players[sid].mapId == m {
      assert PlayerOk(w, sid);
    } else {
      assert sid in k.members ==> MemberOk(w, m, k, sid);
      assert sid !in k.members;
      assert forall i :: 0 <= i < |k.teams| ==> sid !in k.teams[i];
    }
  }

  lemma LoginIsSafe(w: World, sid: Sid, m: MapId)
    requires Safe(w) && |MapAt(w, m).teams| == 4
    ensures Safe(LoginAt(w, sid, m))
  {
    LoginShape(w, sid, m);
    SpawnsAreSafe(FirstMin(MapAt(w, m).teams));
  }

  lemma NextKeeps(w: World, ev: Event)
    requires Registry(w) && Safe(w) && Possible(w, ev)
    ensures Registry(Next(w, ev)) && Safe(Next(w, ev))
  {
    match ev {
      case Register(sid, m) =>
        LoginKeepsRegistryIff(w, sid, m);
        LoginIsSafe(w, sid, m);
      case Shift(sid, dx, dy) => MoveKeepsRegistry(w, sid, dx, dy);
      case Leave(sid) => OfflineKeepsRegistry(w, sid);
    }
  }

  lemma {:induction false} RunKeeps(w: World, run: seq<Event>)
    requires Registry(w) && Safe(w) && Runs(w, run)
    ensures Registry(Run(w, run)) && Safe(Run(w, run))
    decreases |run|
  {
    if run != [] {
      NextKeeps(w, run[0]);
      RunKeeps(Next(w, run[0]), run[1..]);
    }
  }

  lemma SeatOf(w: World, s: Sid)
    requires Registry(w) && s in w.players
    ensures w.players[s].mapId in w.maps && s in w.maps[w.players[s].mapId].members
    ensures MemberOk(w, w.players[s].mapId, w.maps[w.players[s].mapId], s)
  {
    assert PlayerOk(w, s) && MapOk(w, w.players[s].mapId);
  }

  lemma OneSeat(w: World, s: Sid, m: MapId, i: nat)
    requires Registry(w) && s in w.players && m in w.maps && i < 4
    ensures s in w.maps[m].members <==> w.players[s].mapId == m
    ensures |w.maps[m].teams| == 4 && |w.maps[m].members| <= MAX_NUM_EACH_MAP
    ensures s in w.maps[m].teams[i] <==> (w.players[s].mapId == m && w.players[s].teamId == i + 1)
  {
    SeatOf(w, s);
    assert MapOk(w, m);
    assert s in w.maps[m].members ==> MemberOk(w, m, w.maps[m], s);
  }

  /** Over every run every registered session is in exactly one map and exactly one of its
      teams, and no map has more than 12 players. */
  lemma EverySessionIsSeatedOnce(run: seq<Event>, s: Sid, m: MapId, i: nat)
    requires Runs(EMPTY, run) && s in Run(EMPTY, run).players && m in Run(EMPTY, run).maps && i < 4
    ensures var w := Run(EMPTY, run);
            && w.players[s].mapId in w.maps && 1 <= w.players[s].teamId <= 4
            && |w.maps[m].teams| == 4 && |w.maps[m].members| <= MAX_NUM_EACH_MAP
            && (s in w.maps[m].members <==> w.players[s].mapId == m)
            && (s in w.maps[m].teams[i] <==> (w.players[s].mapId == m && w.players[s].teamId == i + 1))
  {
    RunKeeps(EMPTY, run);
    SeatOf(Run(EMPTY, run), s);
    OneSeat(Run(EMPTY, run), s, m, i);
  }

  /** Over every run the tank ids of a map are pairwise distinct and lie in 1..12. */
  lemma TankIdsAreDistinct(run: seq<Event>, s: Sid, u: Sid)
    requires Runs(EMPTY, run) && s in Run(EMPTY, run).players && u in Run(EMPTY, run).players
    ensures var w := Run(EMPTY, run);
            && 1 <= w.players[s].tankId <= MAX_NUM_EACH_MAP
            && (s != u && w.players[s].mapId == w.players[u].mapId ==> w.players[s].tankId != w.players[u].tankId)
  {
    RunKeeps(EMPTY, run);
    var w := Run(EMPTY, run);
    SeatOf(w, s);
    SeatOf(w, u);
    assert MapOk(w, w.players[s].mapId);
    assert IdsOk(w, w.maps[w.players[s].mapId]);
  }

  /** From the spawn points through every accepted or refused move, no tank ever touches the
      border or overlaps a block. */
  lemma TanksNeverOverlapBlocks(run: seq<Event>, s: Sid)
    requires Runs(EMPTY, run) && s in Run(EMPTY, run).players
    ensures var p := Run(EMPTY, run).players[s];
            && 0.5 < p.x < TankMap.WIDTH - 0.5 && 0.5 < p.y < TankMap.HEIGHT - 0.5
            && forall k :: 0 <= k < |TankMap.BLOCK_CFG| ==> !TankMap.Meets(p.x, p.y, 0.5, TankMap.BLOCK_CFG[k])
  {
    RunKeeps(EMPTY, run);
  }

  predicate AllBalanced(w: World) {
    forall m :: m in w.maps ==> Balanced(w.maps[m].teams)
  }

  lemma LoginKeepsBalance(w: World, sid: Sid, m: MapId)
    requires AllBalanced(w) && |MapAt(w, m).teams| == 4
    ensures AllBalanced(LoginAt(w, sid, m))
  {
    LoginShape(w, sid, m);
    assert Balanced(NEW_MAP.teams);
    JoinKeepsBalance(MapAt(w, m).teams, sid);
  }

  /** While sessions only join, the teams of every map stay balanced. */
  lemma {:induction false} JoinOnlyStaysBalanced(w: World, run: seq<Event>)
    requires Runs(w, run) && (forall i :: 0 <= i < |run| ==> run[i].Register?) && AllBalanced(w)
    ensures AllBalanced(Run(w, run))
    decreases |run|
  {
    if run != [] {
      LoginKeepsBalance(w, run[0].sid, run[0].m);
      JoinOnlyStaysBalanced(Next(w, run[0]), run[1..]);
    }
  }
}
