/** The player service: creating players, looking them up, and turning
    accumulated experience into a level. */
module Players {
  import opened Wrappers

  /** A player row: `experience` is the total ever gained, `level` is
      derived from it. */
  datatype Player = Player(id: string, name: string, level: int, experience: int)

  /** The row `new PlayerEntity(id, name)` builds. */
  function NewPlayer(id: string, name: string): (p: Player)
    ensures p.level == 1 && p.experience == 0
  {
    Player(id, name, 1, 0)
  }

  /** The integer square root, searched upwards from a root candidate `r`. */
  function SqrtFrom(n: nat, r: nat): (s: nat)
    requires r * r <= n
    ensures s * s <= n < (s + 1) * (s + 1)
    decreases n - r
  {
    if (r + 1) * (r + 1) <= n then
      assert r + 1 <= (r + 1) * (r + 1);
      SqrtFrom(n, r + 1)
    else r
  }

  /** `floor(sqrt(n))`. */
  function ISqrt(n: nat): (s: nat)
    ensures s * s <= n < (s + 1) * (s + 1)
  {
    SqrtFrom(n, 0)
  }

  /** `calculateLevel`: one more than the square root of experience per
      hundred, capped at 100. A negative total makes the square root NaN,
      which the `(int)` cast turns into 0. */
  function CalculateLevel(experience: int): (level: int)
    ensures experience < 0 ==> level == 0
    ensures experience >= 0 ==> 1 <= level <= 100
  {
    if experience < 0 then 0
    else
      var l := ISqrt(experience / 100) + 1;
      if l < 100 then l else 100
  }

  /** Squares of non-negative numbers keep their order. */
  lemma SquareMonotone(a: nat, b: nat)
    requires a <= b
    ensures a * a <= b * b
  {
  }

  /** The level is the L with 100·(L-1)² ≤ xp < 100·L², the same as
      `floor(sqrt(xp / 100.0)) + 1` over the reals, until it reaches the
      cap of 100, which needs 100·99² experience. */
  lemma LevelCharacterisation(experience: int)
    requires experience >= 0
    ensures var l := CalculateLevel(experience);
            l < 100 ==> 100 * (l - 1) * (l - 1) <= experience < 100 * l * l
    ensures CalculateLevel(experience) == 100 <==> experience >= 100 * 99 * 99
  {
    var n := experience / 100;
    var s := ISqrt(n);
    assert 100 * n <= experience < 100 * (n + 1);
    if s < 99 {
      SquareMonotone(s + 1, 99);
      assert experience < 100 * ((s + 1) * (s + 1));
    } else {
      SquareMonotone(99, s);
      assert 99 * 99 <= n;
    }
  }

  /** More experience never means a lower level. */
  lemma LevelMonotone(a: int, b: int)
    requires a <= b
    ensures CalculateLevel(a) <= CalculateLevel(b)
  {
    if 0 <= a {
      var sa, sb := ISqrt(a / 100), ISqrt(b / 100);
      if sa > sb {
        SquareMonotone(sb + 1, sa);
        assert false;
      }
    }
  }

  /** The row after `addExperience`: the gain is added to the total and the
      level recomputed from it. */
  function ExperienceAdded(p: Player, gain: int): (q: Player)
    ensures q.id == p.id && q.name == p.name
    ensures q.experience - p.experience == gain
  {
    var experience := p.experience + gain;
    p.(experience := experience, level := CalculateLevel(experience))
  }

  /** A non-negative gain never lowers the level of a consistent row, and
      the level stays the one the total experience gives. */
  lemma GainNeverLowersLevel(p: Player, gain: int)
    requires p.level == CalculateLevel(p.experience) && gain >= 0
    ensures ExperienceAdded(p, gain).level >= p.level
    ensures ExperienceAdded(p, gain).level == CalculateLevel(ExperienceAdded(p, gain).experience)
  {
    LevelMonotone(p.experience, p.experience + gain);
  }

  /** The player table. */
  class PlayerStore {
    var players: map<string, Player>

    /** Every row sits under its own id and carries the level its
        experience gives. */
    ghost predicate Valid()
      reads this
    {
      forall id :: id in players ==> players[id].id == id && players[id].level == CalculateLevel(players[id].experience)
    }

    constructor ()
      ensures Valid() && players == map[]
    {
      players := map[];
    }

    /** `getPlayer`: the row, or None. */
    function GetPlayer(id: string): (p: Option<Player>)
      reads this
      ensures p.Some? <==> id in players
      ensures p.Some? ==> p.value == players[id]
    {
      if id in players then Some(players[id]) else None
    }

    /** `getOrCreatePlayer`: an existing row is returned unchanged;
        otherwise a level-1 row named "Player_<id>" is stored. */
    method GetOrCreatePlayer(id: string) returns (p: Player)
      requires Valid()
      modifies this
      ensures Valid()
      ensures id in old(players) ==> p == old(players)[id] && players == old(players)
      ensures id !in old(players) ==> p == NewPlayer(id, "Player_" + id) && players == old(players)[id := p]
      ensures players[id] == p
    {
      if id in players {
        return players[id];
      }
      p := NewPlayer(id, "Player_" + id);
      players := players[id := p];
    }

    /** `createPlayer`: stores a new level-1 row; the database refuses a
        second row with the same key. */
    method CreatePlayer(id: string, name: string) returns (r: Result<Player>)
      requires Valid()
      modifies this
      ensures Valid()
      ensures id in old(players) ==> r == Err(EntityExists(id)) && players == old(players)
      ensures id !in old(players) ==> r == Ok(NewPlayer(id, name)) && players == old(players)[id := r.value]
    {
      if id in players {
        return Err(EntityExists(id));
      }
      var p := NewPlayer(id, name);
      players := players[id := p];
      r := Ok(p);
    }

    /** `getPlayerByName`: some row with that name, or None when there is
        none. */
    method GetPlayerByName(name: string) returns (r: Option<Player>)
      ensures r.Some? ==> r.value.name == name && r.value in players.Values
      ensures r.None? <==> forall id :: id in players ==> players[id].name != name
    {
      if id :| id in players && players[id].name == name {
        r := Some(players[id]);
      } else {
        r := None;
      }
    }

    /** `addExperience`: adds the gain to the total and recomputes the
        level; the skill is not used. Fails, changing nothing, for an
        unknown player. */
    method AddExperience(playerId: string, skillId: string, gain: int) returns (r: Result<Player>)
      requires Valid()
      modifies this
      ensures Valid()
      ensures playerId !in old(players) ==>
                r == Err(IllegalArgument("Player not found: " + playerId)) && players == old(players)
      ensures playerId in old(players) ==>
                && r == Ok(ExperienceAdded(old(players)[playerId], gain))
                && players == old(players)[playerId := r.value]
    {
      if playerId !in players {
        return Err(IllegalArgument("Player not found: " + playerId));
      }
      var p := players[playerId];
      p := p.(experience := p.experience + gain);
      p := p.(level := CalculateLevel(p.experience));
      players := players[playerId := p];
      r := Ok(p);
    }
  }
}
