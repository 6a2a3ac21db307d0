/** Sessions, maps, teams, tank ids and positions of the tank game (main.py:91-189, 253-307,
    342-417 and 468-502).  Objects are referred to by their ids. */
module TankServer {
  import opened Options
  import TankMap

  type Sid = int
  type MapId = nat

  datatype Player = Player(mapId: MapId, teamId: nat, tankId: int, x: real, y: real)

  /** `teams[i]` holds the members of the team whose teamID is i + 1. */
  datatype MapObj = MapObj(members: set<Sid>, teams: seq<set<Sid>>)

  datatype World = World(players: map<Sid, Player>, maps: map<MapId, MapObj>, gId: nat)

  const MAX_NUM_EACH_MAP := 12
  const TEAM_INIT_POS := [(6.0, 6.0), (6.0, 40.0), (40.0, 40.0), (40.0, 6.0)]
  const NEW_MAP := MapObj({}, [{}, {}, {}, {}])
  const EMPTY := World(map[], map[], 0)

  // ------------------------------------------------------------ specification

  /** The first of the smallest teams. */
  function FirstMin(teams: seq<set<Sid>>): (i: nat)
    requires teams != []
    ensures i < |teams|
    ensures forall j :: 0 <= j < |teams| ==> |teams[i]| <= |teams[j]|
    ensures forall j :: 0 <= j < i ==> |teams[i]| < |teams[j]|
    decreases |teams|
  {
    if |teams| == 1 then 0
    else
      var last := |teams| - 1;
      var i := FirstMin(teams[..last]);
      assert forall j :: 0 <= j < last ==> teams[..last][j] == teams[j];
      if |teams[last]| < |teams[i]| then last else i
  }

  /** The smallest id from k on that is not used; 1 when none below 100 is free. */
  function FreeFrom(used: set<int>, k: nat): (r: int)
    ensures || (k <= r && r !in used && forall j :: k <= j < r ==> j in used)
            || (r == 1 && forall j :: k <= j < 100 ==> j in used)
    decreases 100 - k
  {
    if k >= 100 then 1 else if k !in used then k else FreeFrom(used, k + 1)
  }

  function UsedIds(players: map<Sid, Player>, members: set<Sid>): set<int> {
    set s | s in members && s in players :: players[s].tankId
  }

  lemma SameUsed(p: map<Sid, Player>, q: map<Sid, Player>, members: set<Sid>)
    requires p.Keys == q.Keys && forall s :: s in p ==> p[s].tankId == q[s].tankId
    ensures UsedIds(p, members) == UsedIds(q, members)
  {
  }

  predicate HasRoom(m: MapObj) {
    |m.members| < MAX_NUM_EACH_MAP
  }

  /** What allocMap may return: a map with room, or a new one when there is none. */
  predicate CanHost(w: World, m: MapId) {
    if m in w.maps then HasRoom(w.maps[m])
    else m == w.gId + 1 && forall k :: k in w.maps ==> !HasRoom(w.maps[k])
  }

  function MapAt(w: World, m: MapId): MapObj {
    if m in w.maps then w.maps[m] else NEW_MAP
  }

  const NEW_PLAYER := Player(0, 0, 0, 0.0, 0.0)

  function PlayerAt(w: World, sid: Sid): Player {
    if sid in w.players then w.players[sid] else NEW_PLAYER
  }

  /** addPlayer, allocTeam and allocTankID on map m. */
  function Seat(w: World, sid: Sid, m: MapId): World
    requires sid in w.players && m in w.maps && |w.maps[m].teams| == 4
  {
    var t := FirstMin(w.maps[m].teams);
    var members := w.maps[m].members + {sid};
    w.(players := w.players[sid := Player(m, t + 1, FreeFrom(UsedIds(w.players, members), 1), TEAM_INIT_POS[t].0, TEAM_INIT_POS[t].1)],
       maps := w.maps[m := MapObj(members, w.maps[m].teams[t := w.maps[m].teams[t] + {sid}])])
  }

  /** register.game for a session whose allocMap returns m. */
  function LoginAt(w: World, sid: Sid, m: MapId): World
    requires |MapAt(w, m).teams| == 4
  {
    Seat(World(w.players[sid := PlayerAt(w, sid)], w.maps[m := MapAt(w, m)], if m in w.maps then w.gId else w.gId + 1), sid, m)
  }

  function Without(teams: seq<set<Sid>>, sid: Sid): seq<set<Sid>> {
    seq(|teams|, i requires 0 <= i < |teams| => teams[i] - {sid})
  }

  function DelPlayer(m: MapObj, sid: Sid): MapObj {
    if sid in m.members then MapObj(m.members - {sid}, Without(m.teams, sid)) else m
  }

  function Offline(w: World, sid: Sid): World {
    if sid !in w.players then w
    else
      var p := w.players[sid];
      w.(players := w.players - {sid},
         maps := if p.mapId in w.maps then w.maps[p.mapId := DelPlayer(w.maps[p.mapId], sid)] else w.maps)
  }

  ghost function Move(w: World, sid: Sid, dx: real, dy: real): World {
    if sid !in w.players then w
    else
      var p := w.players[sid];
      if TankMap.Blocked(p.x + dx, p.y + dy, 0.5) then w
      else w.(players := w.players[sid := p.(x := p.x + dx, y := p.y + dy)])
  }

  // -------------------------------------------------------------------- class

  class TankServer {
    var players: map<Sid, Player>
    var maps: map<MapId, MapObj>
    var gId: nat

    function State(): World
      reads this
    {
      World(players, maps, gId)
    }

    constructor ()
      ensures State() == EMPTY
    {
      players := map[];
      maps := map[];
      gId := 0;
    }

    /** MapObjMgr.allocMap; `order` is the iteration order of the dictionary of maps. */
    method AllocMap(order: seq<MapId>) returns (m: MapId)
      requires forall k :: k in maps <==> k in order
      requires gId + 1 !in maps
      modifies this`maps, this`gId
      ensures CanHost(old(State()), m)
      ensures maps == old(maps)[m := MapAt(old(State()), m)]
      ensures gId == if m in old(maps) then old(gId) else old(gId) + 1
    {
      var i := 0;
      while i < |order|
        invariant i <= |order| && maps == old(maps) && gId == old(gId)
        invariant forall j :: 0 <= j < i ==> !HasRoom(maps[order[j]])
      {
        if |maps[order[i]].members| < MAX_NUM_EACH_MAP {
          assert maps == maps[order[i] := maps[order[i]]];
          return order[i];
        }
        i := i + 1;
      }
      gId := gId + 1;
      m := gId;
      maps := maps[m := MapObj({}, [{}, {}, {}, {}])];
    }

    /** MapObj.allocTeam: the search for the first smallest team. */
    method AllocTeam(teams: seq<set<Sid>>) returns (t: nat)
      requires teams != []
      ensures t == FirstMin(teams)
    {
      var minNum := -1;
      t := 0;
      var i := 0;
      while i < |teams|
        invariant i <= |teams| && t < |teams|
        invariant i == 0 ==> minNum == -1
        invariant i > 0 ==> t < i && minNum == |teams[t]|
        invariant forall j :: 0 <= j < i ==> |teams[t]| <= |teams[j]|
        invariant forall j :: 0 <= j < t ==> |teams[t]| < |teams[j]|
      {
        if minNum == -1 || |teams[i]| < minNum {
          minNum := |teams[i]|;
          t := i;
        }
        i := i + 1;
      }
    }

    /** MapObj.allocTankID for the players in `members`. */
    method AllocTankId(members: set<Sid>) returns (id: int)
      ensures id == FreeFrom(UsedIds(players, members), 1)
    {
      var exist := UsedIds(players, members);
      var k := 1;
      while k < 100
        invariant 1 <= k <= 100 && FreeFrom(exist, k) == FreeFrom(exist, 1)
      {
        if k !in exist {
          return k;
        }
        k := k + 1;
      }
      return 1;
    }

    /** MapObj.addPlayer, allocTeam and allocTankID. */
    method TakeSeat(sid: Sid, m: MapId)
      requires sid in players && m in maps && |maps[m].teams| == 4
      modifies this`players, this`maps
      ensures State() == Seat(old(State()), sid, m)
    {
      ghost var known := players;
      var host := maps[m];
      host := host.(members := host.members + {sid});
      var t := AllocTeam(host.teams);
      players := players[sid := players[sid].(mapId := m, teamId := t + 1, x := TEAM_INIT_POS[t].0, y := TEAM_INIT_POS[t].1)];
      host := host.(teams := host.teams[t := host.teams[t] + {sid}]);
      maps := maps[m := host];
      SameUsed(known, players, host.members);
      var id := AllocTankId(host.members);
      players := players[sid := players[sid].(tankId := id)];
      assert players == known[sid := players[sid]];
    }

    method Login(sid: Sid, order: seq<MapId>) returns (m: MapId)
      requires forall k :: k in maps <==> k in order
      requires gId + 1 !in maps
      requires forall k :: k in maps ==> |maps[k].teams| == 4
      modifies this
      ensures CanHost(old(State()), m)
      ensures |MapAt(old(State()), m).teams| == 4
      ensures State() == LoginAt(old(State()), sid, m)
    {
      if sid !in players {
        players := players[sid := NEW_PLAYER];
      }
      assert players == old(players)[sid := PlayerAt(old(State()), sid)];
      m := AllocMap(order);
      TakeSeat(sid, m);
    }

    method OnSessionOffline(sid: Sid)
      modifies this`players, this`maps
      ensures State() == Offline(old(State()), sid)
    {
      if sid !in players {
        return;
      }
      var player := players[sid];
      players := players - {sid};
      if player.mapId in maps {
        var m := maps[player.mapId];
        if sid in m.members {
          var teams := m.teams;
          var i := 0;
          while i < |teams|
            invariant i <= |teams| == |m.teams|
            invariant forall j :: 0 <= j < i ==> teams[j] == m.teams[j] - {sid}
            invariant forall j :: i <= j < |teams| ==> teams[j] == m.teams[j]
          {
            teams := teams[i := teams[i] - {sid}];
            i := i + 1;
          }
          assert teams == Without(m.teams, sid);
          maps := maps[player.mapId := MapObj(m.members - {sid}, teams)];
        }
      }
    }

    method HandleMove(sid: Sid, dx: real, dy: real) returns (moved: bool)
      modifies this`players
      ensures State() == Move(old(State()), sid, dx, dy)
      ensures moved == (sid in old(players) && !TankMap.Blocked(old(players)[sid].x + dx, old(players)[sid].y + dy, 0.5))
      ensures moved ==> players == old(players)[sid := old(players)[sid].(x := old(players)[sid].x + dx, y := old(players)[sid].y + dy)]
      ensures !moved ==> players == old(players)
    {
      if sid !in players {
        return false;
      }
      var player := players[sid];
      var x := player.x + dx;
      var y := player.y + dy;
      var blocked := TankMap.IsBlock(x, y, 0.5);
      if blocked {
        return false;
      }
      players := players[sid := player.(x := x, y := y)];
      return true;
    }
  }
}
