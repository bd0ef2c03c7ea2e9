/**
 * The economy of one player as a state machine: passive accrual, cairn growth, gacha pulls, vows and
 * logins (internal/player/player.go, internal/gacha/gacha.go, internal/vow/vow.go, internal/auth/handler.go).
 *
 * Every handler call is one transition at one clock reading; a handler that fails inside its
 * transaction leaves the player exactly as it was.  PlayerStore holds the same handlers as code that
 * updates a record in place.
 */
module Economy {
  import opened Prelude
  import opened Rarities
  import opened Inventory
  import Cairn
  import Vow

  /** The validated game configuration and the loaded skin pool. */
  datatype Rules = Rules(cairn: Cairn.Config, pullCost: real, cooldown: nat, required: nat,
                         tiers: map<Rarity, Vow.VowTier>, pool: map<string, Rarity>)
  {
    predicate Valid()
    {
      && cairn.Valid() && pullCost > 0.0 && cooldown > 0 && required > 0
      && forall r | r in tiers :: tiers[r].Valid()
    }
  }

  datatype Kind = GachaPull | VowPrayer

  /** One economy row of gacha_logs or vow_logs. */
  datatype LogRow = LogRow(kind: Kind, id: int, at: int, cost: real, accrued: real, before: real, after: real)

  /** The player's rows: player_states, wish_cairn_slots, inventories and the two logs. */
  datatype Player = Player(balance: real, rate: real, lastSync: Option<int>, nextGacha: Option<int>,
                           growth: Cairn.Growth, inventory: Inventory, log: seq<LogRow>)

  /**
   * A request, with every random outcome it would draw.  `delay` is how many seconds after the
   * handler's clock reading its log row is stamped.
   */
  datatype Request =
    | Sync(grew: bool)
    | GetState
    | Pull(slot: int, item: string, id: int, delay: nat)
    | Pray(materials: seq<Vow.Material>, nPower: real, roll: real, baseReward: string, targetReward: string,
           id: int, delay: nat)
    | Login

  datatype Reject =
    | InvalidSlot | CooldownActive | SlotNotFound | SlotIncomplete
    | InsufficientPoints | InvalidRequest | InsufficientMaterials

  datatype Outcome =
    | Synced(points: real)
    | Viewed(layers: map<nat, nat>)
    | Pulled(item: string, count: nat, next: int, points: real)
    | Prayed(success: bool, item: string, count: nat, points: real)
    | LoggedIn
    | Rejected(why: Reject)

  // ---- Balance ----

  /** MAX(0, COALESCE((now - last_sync_at) * rate, 0)) */
  function Accrual(p: Player, now: int): real
  {
    match p.lastSync
    case None => 0.0
    case Some(t) => MaxR(0.0, (now - t) as real * p.rate)
  }

  function Available(p: Player, now: int): real { p.balance + Accrual(p, now) }

  /** The accrue-and-deduct UPDATE with its balance guard, and the log row derived from it. */
  function Spend(p: Player, now: int, kind: Kind, id: int, delay: nat, cost: real): Option<Player>
  {
    if Available(p, now) < cost then None
    else
      var after := Available(p, now) - cost;
      var row := LogRow(kind, id, now + delay, cost, after - p.balance + cost, p.balance, after);
      Some(p.(balance := after, lastSync := Some(now), log := p.log + [row]))
  }

  // ---- Handlers ----

  function Grown(c: Rules, seed: Cairn.Seed, p: Player, now: int): Player
    requires c.Valid()
  {
    p.(growth := Cairn.Grow(c.cairn, seed, p.growth, now))
  }

  /** POST /player/sync: the accrual commits; growth is best effort and may be lost. */
  function SyncStep(c: Rules, seed: Cairn.Seed, p: Player, grew: bool, now: int): Player
    requires c.Valid()
  {
    var q := p.(balance := Available(p, now), lastSync := Some(now));
    if grew then Grown(c, seed, q, now) else q
  }

  /** InitializeSlots: missing rows are inserted with layer_count 0, existing ones kept. */
  function InitSlots(c: Rules, slots: map<nat, nat>): map<nat, nat>
  {
    (map i: nat | i < c.cairn.slotCount :: Cairn.At(slots, i)) + slots
  }

  /** GET /player/state: missing slots are repaired, then growth is applied. */
  function GetStateStep(c: Rules, seed: Cairn.Seed, p: Player, now: int): Player
    requires c.Valid()
  {
    var repaired := if Cairn.AllPresent(c.cairn, p.growth.slots) then p.growth.slots else InitSlots(c, p.growth.slots);
    Grown(c, seed, p.(growth := p.growth.(slots := repaired)), now)
  }

  predicate CoolingDown(p: Player, now: int) { p.nextGacha.Some? && now < p.nextGacha.value }

  /** POST /gacha/pull. */
  function PullStep(c: Rules, seed: Cairn.Seed, p: Player, slot: int, item: string, id: int, delay: nat, now: int)
    : (Player, Outcome)
    requires c.Valid()
  {
    if slot < 0 || slot >= c.cairn.slotCount then (p, Rejected(InvalidSlot))
    else if CoolingDown(p, now) then (p, Rejected(CooldownActive))
    else
      var g := Cairn.Grow(c.cairn, seed, p.growth, now);
      if slot !in g.slots then (p, Rejected(SlotNotFound))
      else if g.slots[slot] < c.cairn.maxLayers then (p, Rejected(SlotIncomplete))
      else
        match Spend(p, now, GachaPull, id, delay, c.pullCost)
        case None => (p, Rejected(InsufficientPoints))
        case Some(q) =>
          var inv := Grant(p.inventory, item);
          (q.(growth := g.(slots := g.slots[slot := 0]), nextGacha := Some(now + c.cooldown), inventory := inv),
           Pulled(item, inv[item], now + c.cooldown, q.balance))
  }

  /** The checks of POST /vow/pray that run before the transaction; on success the success rate. */
  function PrayCheck(c: Rules, ms: seq<Vow.Material>, nPower: real): Option<real>
  {
    if !Vow.Positive(ms) || Vow.Weight(ms) != c.required then None
    else
      match Vow.BaseOrder(c.pool, ms)
      case None => None
      case Some(o) =>
        if !(1 <= o < 5) then None
        else
          var target := Vow.OrderRarity(o + 1);
          if target !in c.tiers || nPower < c.tiers[target].minNPower || nPower > c.tiers[target].maxNPower then None
          else Some(Vow.CalcSuccessRate(c.tiers[target], nPower))
  }

  /** POST /vow/pray. */
  ghost function PrayStep(c: Rules, p: Player, r: Request, now: int): (Player, Outcome)
    requires c.Valid() && r.Pray?
  {
    match PrayCheck(c, r.materials, r.nPower)
    case None => (p, Rejected(InvalidRequest))
    case Some(rate) =>
      match Spend(p, now, VowPrayer, r.id, r.delay, r.nPower)
      case None => (p, Rejected(InsufficientPoints))
      case Some(q) =>
        if !Vow.Covered(p.inventory, r.materials) then (p, Rejected(InsufficientMaterials))
        else
          var success := r.roll <= rate;
          var item := if success then r.targetReward else r.baseReward;
          var inv := Grant(Vow.Remaining(p.inventory, r.materials), item);
          (q.(inventory := inv), Prayed(success, item, inv[item], q.balance))
  }

  /** resetAccrualAnchor: both clocks restart at now and nothing pending is credited. */
  function LoginStep(p: Player, now: int): Player
  {
    p.(lastSync := Some(now), growth := p.growth.(anchor := Some(now)))
  }

  ghost function Step(c: Rules, seed: Cairn.Seed, p: Player, r: Request, now: int): (Player, Outcome)
    requires c.Valid()
  {
    match r
    case Sync(grew) => (SyncStep(c, seed, p, grew, now), Synced(Available(p, now)))
    case GetState => var q := GetStateStep(c, seed, p, now); (q, Viewed(q.growth.slots))
    case Pull(slot, item, id, delay) => PullStep(c, seed, p, slot, item, id, delay, now)
    case Pray(_, _, _, _, _, _, _) => PrayStep(c, p, r, now)
    case Login => (LoginStep(p, now), LoggedIn)
  }

  // ---- Runs ----

  datatype Call = Call(req: Request, now: int)

  /** The player after a run of calls. */
  ghost function Final(c: Rules, seed: Cairn.Seed, p: Player, calls: seq<Call>): Player
    requires c.Valid()
  {
    if calls == [] then p
    else Step(c, seed, Final(c, seed, p, Front(calls)), Last(calls).req, Last(calls).now).0
  }

  /** What the last call of a non-empty run answered. */
  ghost function Answer(c: Rules, seed: Cairn.Seed, p: Player, calls: seq<Call>): Outcome
    requires c.Valid() && calls != []
  {
    Step(c, seed, Final(c, seed, p, Front(calls)), Last(calls).req, Last(calls).now).1
  }

  function Delay(r: Request): nat
  {
    match r
    case Pull(_, _, _, delay) => delay
    case Pray(_, _, _, _, _, _, delay) => delay
    case _ => 0
  }

  /** When the last call is over: its clock reading plus the time until its log row was stamped. */
  function Until(start: int, calls: seq<Call>): int
  {
    if calls == [] then start else Last(calls).now + Delay(Last(calls).req)
  }

  /** The clock never goes back, and a call starts only after the one before it is over. */
  predicate Monotone(start: int, calls: seq<Call>)
  {
    calls == [] || (Monotone(start, Front(calls)) && Until(start, Front(calls)) <= Last(calls).now)
  }

  lemma {:induction false} MonotoneStart(start: int, calls: seq<Call>)
    requires Monotone(start, calls)
    ensures start <= Until(start, calls)
  {
    if calls == [] {
    } else {
      MonotoneStart(start, Front(calls));
    }
  }

  /** A player with all slots initialised whose clocks are not ahead of now; the growth anchor may be unset. */
  predicate Started(c: Rules, p: Player, now: int)
  {
    && p.lastSync.Some? && p.lastSync.value <= now
    && (p.growth.anchor.Some? ==> p.growth.anchor.value <= now)
    && Cairn.AllPresent(c.cairn, p.growth.slots)
    && p.rate >= 0.0
  }

  /** A player both of whose clocks are set. */
  predicate Ready(c: Rules, p: Player, now: int) { Started(c, p, now) && p.growth.anchor.Some? }

  lemma GrowKeepsAnchor(c: Cairn.Config, seed: Cairn.Seed, g: Cairn.Growth, now: int)
    requires c.Valid() && (g.anchor.Some? ==> g.anchor.value <= now)
    ensures var r := Cairn.Grow(c, seed, g, now);
            r.anchor.Some? && r.anchor.value <= now && (g.anchor.Some? ==> g.anchor.value <= r.anchor.value)
  {
    if g.anchor.Some? { Cairn.StepsBounds(c, g.anchor.value, now); }
  }

  lemma StartedStep(c: Rules, seed: Cairn.Seed, p: Player, r: Request, now: int)
    requires c.Valid() && Started(c, p, now)
    ensures Started(c, Step(c, seed, p, r, now).0, now)
    ensures Ready(c, p, now) ==> Ready(c, Step(c, seed, p, r, now).0, now)
  {
    GrowKeepsAnchor(c.cairn, seed, p.growth, now);
  }

  lemma ReadyStep(c: Rules, seed: Cairn.Seed, p: Player, r: Request, now: int)
    requires c.Valid() && Ready(c, p, now)
    ensures Ready(c, Step(c, seed, p, r, now).0, now)
  {
    StartedStep(c, seed, p, r, now);
  }

  lemma {:induction false} StartedRun(c: Rules, seed: Cairn.Seed, p: Player, start: int, calls: seq<Call>)
    requires c.Valid() && Started(c, p, start) && Monotone(start, calls)
    ensures Started(c, Final(c, seed, p, calls), Until(start, calls))
    ensures Ready(c, p, start) ==> Ready(c, Final(c, seed, p, calls), Until(start, calls))
    ensures Final(c, seed, p, calls).rate == p.rate
  {
    if calls == [] {
    } else {
      StartedRun(c, seed, p, start, Front(calls));
      StartedStep(c, seed, Final(c, seed, p, Front(calls)), Last(calls).req, Last(calls).now);
    }
  }

  lemma ReadyRun(c: Rules, seed: Cairn.Seed, p: Player, start: int, calls: seq<Call>)
    requires c.Valid() && Ready(c, p, start) && Monotone(start, calls)
    ensures Ready(c, Final(c, seed, p, calls), Until(start, calls))
  {
    StartedRun(c, seed, p, start, calls);
  }

  /** initPlayerState: no points, empty slots, no items, and an accrual clock that starts now. */
  function NewPlayer(c: Rules, rate: real, now: int): Player
  {
    Player(0.0, rate, Some(now), None, Cairn.Growth(None, InitSlots(c, map[])), map[], [])
  }
}
