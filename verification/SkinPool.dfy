/**
 * The skin pool (internal/gacha/pool.go): rows of a table become three indexes that must agree, and the
 * draws that use them.  The table arrives as the records of a CSV reader.
 */
module SkinPool {
  import opened Prelude
  import opened Rarities

  datatype Part = Top | Bottom | Outfit | Accessory | Face | Effect

  /** knownPartTypes, in the order sort.Strings gives their names. */
  const ALPHABETICAL: seq<Part> := [Accessory, Bottom, Effect, Face, Outfit, Top]

  const RARITIES: seq<Rarity> := [Common, Uncommon, Rare, Unique, Legendary]

  datatype Skin = Skin(id: string, part: Part, rarity: Rarity)

  datatype Stats = Stats(total: nat, loaded: nat, badRarity: nat, badPart: nat, malformed: nat)

  type Buckets = map<Part, map<Rarity, seq<string>>>

  datatype SkinPool = SkinPool(partsByRarity: map<Rarity, seq<Part>>, byPartRarity: Buckets,
                               skinRarity: map<string, Rarity>, stats: Stats)

  datatype Error = BadHeader | Duplicate(id: string) | NoSkins(rarity: Rarity)

  datatype Result<T> = Ok(value: T) | Err(error: Error)

  // ---- Cells ----

  predicate Space(c: char) { c == ' ' || c == '\t' || c == '\n' || c == '\r' }

  function TrimLeft(s: string): string { if s != "" && Space(s[0]) then TrimLeft(s[1..]) else s }

  function TrimRight(s: string): string { if s != "" && Space(s[|s| - 1]) then TrimRight(s[..|s| - 1]) else s }

  function Trim(s: string): string { TrimRight(TrimLeft(s)) }

  function LowerChar(c: char): char { if 'A' <= c <= 'Z' then c - 'A' + 'a' else c }

  function Lower(s: string): string { if s == "" then "" else [LowerChar(s[0])] + Lower(s[1..]) }

  function RarityNamed(s: string): Option<Rarity>
  {
    if s == "common" then Some(Common)
    else if s == "uncommon" then Some(Uncommon)
    else if s == "rare" then Some(Rare)
    else if s == "unique" then Some(Unique)
    else if s == "legendary" then Some(Legendary)
    else None
  }

  function PartNamed(s: string): Option<Part>
  {
    if s == "top" then Some(Top)
    else if s == "bottom" then Some(Bottom)
    else if s == "outfit" then Some(Outfit)
    else if s == "accessory" then Some(Accessory)
    else if s == "face" then Some(Face)
    else if s == "effect" then Some(Effect)
    else None
  }

  /** The cell that names a rarity. */
  function RarityCell(r: Rarity): string
  {
    match r
    case Common => "common"
    case Uncommon => "uncommon"
    case Rare => "rare"
    case Unique => "unique"
    case Legendary => "legendary"
  }

  function PartCell(p: Part): string
  {
    match p
    case Top => "top"
    case Bottom => "bottom"
    case Outfit => "outfit"
    case Accessory => "accessory"
    case Face => "face"
    case Effect => "effect"
  }

  lemma CellsNameThemselves(cell: string)
    ensures RarityNamed(cell).Some? ==> RarityCell(RarityNamed(cell).value) == cell
    ensures PartNamed(cell).Some? ==> PartCell(PartNamed(cell).value) == cell
  {}

  lemma NamedByTheirCells(r: Rarity, p: Part)
    ensures RarityNamed(RarityCell(r)) == Some(r) && PartNamed(PartCell(p)) == Some(p)
  {}

  // ---- Rows ----

  datatype Row = Malformed | BadRarity | BadPart | Good(skin: Skin)

  /** What one record is, checked in the parser's order. */
  function Read(rec: seq<string>): Row
  {
    if |rec| != 3 then Malformed
    else
      var id, part, rarity := Trim(rec[0]), PartNamed(Lower(Trim(rec[1]))), RarityNamed(Lower(Trim(rec[2])));
      if id == "" || id != Lower(id) then Malformed
      else if rarity.None? then BadRarity
      else if part.None? then BadPart
      else Good(Skin(id, part.value, rarity.value))
  }

  /** The good rows, in order. */
  function Loaded(records: seq<seq<string>>): seq<Skin>
  {
    if records == [] then []
    else
      var front := Loaded(records[..|records| - 1]);
      var row := Read(records[|records| - 1]);
      if row.Good? then front + [row.skin] else front
  }

  function Tally(records: seq<seq<string>>): (s: Stats)
    ensures s.total == |records| == s.loaded + s.badRarity + s.badPart + s.malformed
    ensures s.loaded == |Loaded(records)|
  {
    if records == [] then Stats(0, 0, 0, 0, 0)
    else
      var s := Tally(records[..|records| - 1]);
      var row := Read(records[|records| - 1]);
      Stats(s.total + 1, s.loaded + Once(row.Good?), s.badRarity + Once(row.BadRarity?), s.badPart + Once(row.BadPart?),
            s.malformed + Once(row.Malformed?))
  }

  predicate HasId(skins: seq<Skin>, id: string) { exists i | 0 <= i < |skins| :: skins[i].id == id }

  /** The first id that a row repeats. */
  function FirstRepeat(skins: seq<Skin>): Option<string>
  {
    if skins == [] then None
    else
      var earlier := FirstRepeat(skins[..|skins| - 1]);
      if earlier.Some? then earlier
      else if HasId(skins[..|skins| - 1], skins[|skins| - 1].id) then Some(skins[|skins| - 1].id)
      else None
  }

  /** The ids of one part and rarity, in row order. */
  function Bucket(skins: seq<Skin>, part: Part, rarity: Rarity): seq<string>
  {
    if skins == [] then []
    else
      var front, last := Bucket(skins[..|skins| - 1], part, rarity), skins[|skins| - 1];
      if last.part == part && last.rarity == rarity then front + [last.id] else front
  }

  /** The parts that have skins of this rarity, among the given ones. */
  function PartsWith(skins: seq<Skin>, rarity: Rarity, among: seq<Part>): seq<Part>
  {
    if among == [] then []
    else
      var front := PartsWith(skins, rarity, among[..|among| - 1]);
      if Bucket(skins, among[|among| - 1], rarity) != [] then front + [among[|among| - 1]] else front
  }

  function At(buckets: Buckets, part: Part, rarity: Rarity): seq<string>
  {
    if part in buckets && rarity in buckets[part] then buckets[part][rarity] else []
  }

  /** The buckets hold the skins, and there are no empty ones. */
  ghost predicate BucketsOf(skins: seq<Skin>, buckets: Buckets)
  {
    forall part, rarity ::
      && At(buckets, part, rarity) == Bucket(skins, part, rarity)
      && (part in buckets && rarity in buckets[part] <==> Bucket(skins, part, rarity) != [])
  }

  ghost predicate RaritiesOf(skins: seq<Skin>, of: map<string, Rarity>)
  {
    && (forall i | 0 <= i < |skins| :: skins[i].id in of && of[skins[i].id] == skins[i].rarity)
    && (forall id | id in of :: HasId(skins, id))
  }

  function PartsAt(parts: map<Rarity, seq<Part>>, rarity: Rarity): seq<Part>
  {
    if rarity in parts then parts[rarity] else []
  }

  /** All three indexes of a pool. */
  ghost predicate Indexes(skins: seq<Skin>, pool: SkinPool)
  {
    && BucketsOf(skins, pool.byPartRarity)
    && RaritiesOf(skins, pool.skinRarity)
    && forall rarity :: PartsAt(pool.partsByRarity, rarity) == PartsWith(skins, rarity, ALPHABETICAL)
  }

  // ---- Parsing ----

  predicate GoodHeader(header: seq<string>)
  {
    && |header| == 3
    && Trim(if header[0] != "" && header[0][0] == '\U{FEFF}' then header[0][1..] else header[0]) == "skinId"
    && Trim(header[1]) == "partType" && Trim(header[2]) == "rarity"
  }

  function Append(buckets: Buckets, skin: Skin): Buckets
  {
    var inner := if skin.part in buckets then buckets[skin.part] else map[];
    buckets[skin.part := inner[skin.rarity := At(buckets, skin.part, skin.rarity) + [skin.id]]]
  }

  lemma BucketsOfAppend(skins: seq<Skin>, buckets: Buckets, skin: Skin)
    requires BucketsOf(skins, buckets)
    ensures BucketsOf(skins + [skin], Append(buckets, skin))
  {
    assert (skins + [skin])[..|skins|] == skins;
  }

  lemma RaritiesOfAppend(skins: seq<Skin>, of: map<string, Rarity>, skin: Skin)
    requires RaritiesOf(skins, of) && skin.id !in of
    ensures RaritiesOf(skins + [skin], of[skin.id := skin.rarity])
    ensures !HasId(skins, skin.id)
  {
    var t, m := skins + [skin], of[skin.id := skin.rarity];
    assert t[|skins|].id == skin.id;
    forall id | id in m ensures HasId(t, id) {
      if id != skin.id {
        var i :| 0 <= i < |skins| && skins[i].id == id;
        assert t[i].id == id;
      }
    }
  }

  /** What the index built from these rows knows. */
  ghost predicate Known(skins: seq<Skin>, pool: SkinPool)
  {
    BucketsOf(skins, pool.byPartRarity) && RaritiesOf(skins, pool.skinRarity) && FirstRepeat(skins).None?
  }

  function AddSkin(pool: SkinPool, skin: Skin): SkinPool
  {
    pool.(byPartRarity := Append(pool.byPartRarity, skin), skinRarity := pool.skinRarity[skin.id := skin.rarity])
  }

  lemma KnownAddSkin(skins: seq<Skin>, pool: SkinPool, skin: Skin)
    requires Known(skins, pool)
    ensures skin.id !in pool.skinRarity ==> Known(skins + [skin], AddSkin(pool, skin))
    ensures skin.id in pool.skinRarity ==> FirstRepeat(skins + [skin]) == Some(skin.id)
  {
    assert (skins + [skin])[..|skins|] == skins;
    if skin.id !in pool.skinRarity {
      BucketsOfAppend(skins, pool.byPartRarity, skin);
      RaritiesOfAppend(skins, pool.skinRarity, skin);
    }
  }

  /** Counts one row under what it is. */
  function CountRow(s: Stats, row: Row): Stats
  {
    var t := s.(total := s.total + 1);
    match row
    case Malformed => t.(malformed := t.malformed + 1)
    case BadRarity => t.(badRarity := t.badRarity + 1)
    case BadPart => t.(badPart := t.badPart + 1)
    case Good(_) => t.(loaded := t.loaded + 1)
  }

  lemma OneMoreRow(records: seq<seq<string>>, i: nat)
    requires i < |records|
    ensures Tally(records[..i + 1]) == CountRow(Tally(records[..i]), Read(records[i]))
    ensures Loaded(records[..i + 1]) == if Read(records[i]).Good? then Loaded(records[..i]) + [Read(records[i]).skin]
                                        else Loaded(records[..i])
  {
    assert records[..i + 1][..i] == records[..i];
  }

  /** The row loop: everything but partsByRarity, or the first duplicate. */
  method ReadRows(records: seq<seq<string>>) returns (r: Result<SkinPool>)
    ensures var skins := Loaded(records);
            if FirstRepeat(skins).Some? then r == Err(Duplicate(FirstRepeat(skins).value))
            else r.Ok? && Known(skins, r.value) && r.value.stats == Tally(records) && r.value.partsByRarity == map[]
  {
    var pool := SkinPool(map[], map[], map[], Stats(0, 0, 0, 0, 0));
    for i := 0 to |records|
      invariant pool.stats == Tally(records[..i]) && pool.partsByRarity == map[]
      invariant Known(Loaded(records[..i]), pool)
    {
      OneMoreRow(records, i);
      var row := Read(records[i]);
      pool := pool.(stats := CountRow(pool.stats, row));
      if row.Good? {
        KnownAddSkin(Loaded(records[..i]), pool, row.skin);
        if row.skin.id in pool.skinRarity {
          RepeatStays(records, i + 1);
          return Err(Duplicate(row.skin.id));
        }
        pool := AddSkin(pool, row.skin);
      }
    }
    assert records[..|records|] == records;
    return Ok(pool);
  }

  /** A repeat found early is the first one of the whole table. */
  lemma {:induction false} RepeatStays(records: seq<seq<string>>, i: nat)
    requires i <= |records| && FirstRepeat(Loaded(records[..i])).Some?
    ensures FirstRepeat(Loaded(records)) == FirstRepeat(Loaded(records[..i]))
  {
    if i == |records| {
      assert records[..i] == records;
    } else {
      var front := records[..|records| - 1];
      assert front[..i] == records[..i];
      RepeatStays(front, i);
      var row := Read(records[|records| - 1]);
      if row.Good? { assert (Loaded(front) + [row.skin])[..|Loaded(front)|] == Loaded(front); }
    }
  }

  // ---- Sorting parts ----

  function Rank(part: Part): nat
  {
    match part
    case Accessory => 0
    case Bottom => 1
    case Effect => 2
    case Face => 3
    case Outfit => 4
    case Top => 5
  }

  predicate Ascending(parts: seq<Part>) { forall i, j | 0 <= i < j < |parts| :: Rank(parts[i]) < Rank(parts[j]) }

  /** A set of parts has one ascending order. */
  lemma {:induction false} OneAscendingOrder(s: seq<Part>, t: seq<Part>)
    requires Ascending(s) && Ascending(t) && forall p :: p in s <==> p in t
    ensures s == t
  {
    assert s != [] ==> s[0] in t;
    assert t != [] ==> t[0] in s;
    if s == [] || t == [] {
    } else {
      var x, y := s[|s| - 1], t[|t| - 1];
      assert x in t && y in s;
      assert x == y;
      var s', t' := s[..|s| - 1], t[..|t| - 1];
      assert s == s' + [x] && t == t' + [x];
      forall p ensures p in s' <==> p in t' {
        assert p in s <==> p in t;
        assert x !in s' && x !in t';
      }
      OneAscendingOrder(s', t');
    }
  }

  function InsertPart(parts: seq<Part>, p: Part): seq<Part>
  {
    if parts == [] || Rank(parts[|parts| - 1]) < Rank(p) then parts + [p]
    else InsertPart(parts[..|parts| - 1], p) + [parts[|parts| - 1]]
  }

  /** sort.Strings on parts. */
  function Sort(parts: seq<Part>): seq<Part>
  {
    if parts == [] then [] else InsertPart(Sort(parts[..|parts| - 1]), parts[|parts| - 1])
  }

  lemma {:induction false} InsertPartMembers(parts: seq<Part>, p: Part, q: Part)
    ensures q in InsertPart(parts, p) <==> q in parts || q == p
  {
    if parts == [] || Rank(parts[|parts| - 1]) < Rank(p) {
    } else {
      InsertPartMembers(parts[..|parts| - 1], p, q);
      assert parts == parts[..|parts| - 1] + [parts[|parts| - 1]];
    }
  }

  predicate AllBelow(parts: seq<Part>, rank: int) { forall i | 0 <= i < |parts| :: Rank(parts[i]) < rank }

  lemma {:induction false} InsertPartAscending(parts: seq<Part>, p: Part, rank: int)
    requires Ascending(parts) && p !in parts && AllBelow(parts, rank) && Rank(p) < rank
    ensures Ascending(InsertPart(parts, p)) && AllBelow(InsertPart(parts, p), rank)
  {
    if parts == [] || Rank(parts[|parts| - 1]) < Rank(p) {
    } else {
      InsertPartAscending(parts[..|parts| - 1], p, Rank(parts[|parts| - 1]));
    }
  }

  predicate Distinct(parts: seq<Part>) { forall i, j | 0 <= i < j < |parts| :: parts[i] != parts[j] }

  lemma {:induction false} SortAscending(parts: seq<Part>)
    requires Distinct(parts)
    ensures Ascending(Sort(parts)) && forall q :: q in Sort(parts) <==> q in parts
  {
    if parts == [] {
    } else {
      var front, last := parts[..|parts| - 1], parts[|parts| - 1];
      assert parts == front + [last];
      SortAscending(front);
      InsertPartAscending(Sort(front), last, 6);
      forall q ensures q in Sort(parts) <==> q in parts { InsertPartMembers(Sort(front), last, q); }
    }
  }

  lemma {:induction false} PartsWithAscending(skins: seq<Skin>, rarity: Rarity, n: nat)
    requires n <= |ALPHABETICAL|
    ensures var parts := PartsWith(skins, rarity, ALPHABETICAL[..n]);
            && Ascending(parts)
            && forall q :: q in parts <==> Rank(q) < n && Bucket(skins, q, rarity) != []
  {
    if n == 0 {
    } else {
      PartsWithAscending(skins, rarity, n - 1);
      assert ALPHABETICAL[..n][..n - 1] == ALPHABETICAL[..n - 1];
      assert Rank(ALPHABETICAL[n - 1]) == n - 1;
      assert forall q :: Rank(q) == n - 1 ==> q == ALPHABETICAL[n - 1];
      var front := PartsWith(skins, rarity, ALPHABETICAL[..n - 1]);
      forall i | 0 <= i < |front| ensures Rank(front[i]) < n - 1 { assert front[i] in front; }
    }
  }

  /** However the map iteration ordered the parts, sorting them gives the one index. */
  lemma SortedIsIndex(skins: seq<Skin>, rarity: Rarity, parts: seq<Part>)
    requires Distinct(parts) && forall q :: q in parts <==> Bucket(skins, q, rarity) != []
    ensures Sort(parts) == PartsWith(skins, rarity, ALPHABETICAL)
  {
    SortAscending(parts);
    PartsWithAscending(skins, rarity, 6);
    assert ALPHABETICAL[..6] == ALPHABETICAL;
    assert forall q: Part :: Rank(q) < 6;
    OneAscendingOrder(Sort(parts), PartsWith(skins, rarity, ALPHABETICAL));
  }

  // ---- partsByRarity ----

  /** Parts noted so far for each rarity: those outside `todo`, and of p the rarities outside `left`. */
  ghost predicate Noted(buckets: Buckets, parts: map<Rarity, seq<Part>>, todo: set<Part>, p: Part, left: set<Rarity>)
  {
    forall r ::
      && Distinct(PartsAt(parts, r))
      && forall q :: q in PartsAt(parts, r)
          <==> q in buckets && r in buckets[q] && q !in todo && (q == p ==> r !in left)
  }

  function Note(parts: map<Rarity, seq<Part>>, r: Rarity, p: Part): map<Rarity, seq<Part>>
  {
    parts[r := PartsAt(parts, r) + [p]]
  }

  lemma NotedNote(buckets: Buckets, parts: map<Rarity, seq<Part>>, todo: set<Part>, p: Part, left: set<Rarity>,
                  r: Rarity)
    requires Noted(buckets, parts, todo, p, left) && p in buckets && p !in todo && r in left && r in buckets[p]
    ensures Noted(buckets, Note(parts, r, p), todo, p, left - {r})
  {
    var s, t := PartsAt(parts, r), PartsAt(Note(parts, r, p), r);
    assert p !in s && t == s + [p];
    forall q ensures q in t <==> q in s || q == p {}
    assert Distinct(t);
    forall x | x != r ensures PartsAt(Note(parts, r, p), x) == PartsAt(parts, x) {}
  }

  /** Visits the buckets in any order. */
  method NoteParts(buckets: Buckets) returns (parts: map<Rarity, seq<Part>>)
    ensures forall r ::
              && Distinct(PartsAt(parts, r))
              && forall q :: q in PartsAt(parts, r) <==> q in buckets && r in buckets[q]
  {
    parts := map[];
    var todo := buckets.Keys;
    while todo != {}
      invariant todo <= buckets.Keys
      invariant forall p :: Noted(buckets, parts, todo, p, {})
      decreases todo
    {
      var p :| p in todo;
      var left := buckets[p].Keys;
      assert Noted(buckets, parts, todo - {p}, p, left) by { assert Noted(buckets, parts, todo, p, {}); }
      todo := todo - {p};
      while left != {}
        invariant left <= buckets[p].Keys
        invariant Noted(buckets, parts, todo, p, left)
        decreases left
      {
        var r :| r in left;
        NotedNote(buckets, parts, todo, p, left, r);
        parts := Note(parts, r, p);
        left := left - {r};
      }
      forall q ensures Noted(buckets, parts, todo, q, {}) { assert Noted(buckets, parts, todo, p, {}); }
    }
    assert Noted(buckets, parts, {}, Top, {});
  }

  /** Sorts every entry, in any order. */
  method SortParts(parts: map<Rarity, seq<Part>>) returns (sorted: map<Rarity, seq<Part>>)
    ensures forall r :: PartsAt(sorted, r) == Sort(PartsAt(parts, r))
  {
    sorted := parts;
    var todo := parts.Keys;
    while todo != {}
      invariant todo <= parts.Keys == sorted.Keys
      invariant forall r | r in parts :: sorted[r] == if r in todo then parts[r] else Sort(parts[r])
      decreases todo
    {
      var r :| r in todo;
      todo := todo - {r};
      sorted := sorted[r := Sort(sorted[r])];
    }
  }

  predicate Filled(skins: seq<Skin>, rarity: Rarity) { exists i | 0 <= i < |skins| :: skins[i].rarity == rarity }

  /** The lowest rarity without skins, from the k-th on. */
  function FirstEmpty(skins: seq<Skin>, k: nat): Option<Rarity>
    requires k <= |RARITIES|
    decreases |RARITIES| - k
  {
    if k == |RARITIES| then None else if !Filled(skins, RARITIES[k]) then Some(RARITIES[k])
        else FirstEmpty(skins, k + 1)
  }

  method CheckFilled(parts: map<Rarity, seq<Part>>, ghost skins: seq<Skin>) returns (empty: Option<Rarity>)
    requires forall rarity :: PartsAt(parts, rarity) == PartsWith(skins, rarity, ALPHABETICAL)
    ensures empty == FirstEmpty(skins, 0)
  {
    for k := 0 to |RARITIES|
      invariant FirstEmpty(skins, 0) == FirstEmpty(skins, k)
    {
      FilledHasParts(skins, RARITIES[k]);
      if |PartsAt(parts, RARITIES[k])| == 0 {
        return Some(RARITIES[k]);
      }
    }
    return None;
  }

  /** What reading a table comes to. */
  function Verdict(header: seq<string>, skins: seq<Skin>): Option<Error>
  {
    if !GoodHeader(header) then Some(BadHeader)
    else if FirstRepeat(skins).Some? then Some(Duplicate(FirstRepeat(skins).value))
    else if FirstEmpty(skins, 0).Some? then Some(NoSkins(FirstEmpty(skins, 0).value))
    else None
  }

  /**
   * parseSkinPool: the first duplicate id or else the lowest rarity without skins is an error; otherwise
   * the indexes hold exactly the good rows and every row is counted once, whatever the order in which
   * the maps are visited.
   */
  method ParseSkinPool(header: seq<string>, records: seq<seq<string>>) returns (r: Result<SkinPool>)
    ensures match Verdict(header, Loaded(records))
            case Some(error) => r == Err(error)
            case None => r.Ok? && Indexes(Loaded(records), r.value) && r.value.stats == Tally(records)
  {
    if !GoodHeader(header) {
      return Err(BadHeader);
    }
    ghost var skins := Loaded(records);
    var rows := ReadRows(records);
    if rows.Err? {
      return rows;
    }
    var unsorted := NoteParts(rows.value.byPartRarity);
    var parts := SortParts(unsorted);
    forall rarity ensures PartsAt(parts, rarity) == PartsWith(skins, rarity, ALPHABETICAL) {
      SortedIsIndex(skins, rarity, PartsAt(unsorted, rarity));
    }
    var empty := CheckFilled(parts, skins);
    return if empty.Some? then Err(NoSkins(empty.value)) else Ok(rows.value.(partsByRarity := parts));
  }

  lemma {:induction false} BucketIs(skins: seq<Skin>, part: Part, rarity: Rarity, id: string)
    ensures id in Bucket(skins, part, rarity) <==> Skin(id, part, rarity) in skins
  {
    if skins == [] {
    } else {
      var front, last := skins[..|skins| - 1], skins[|skins| - 1];
      assert skins == front + [last];
      BucketIs(front, part, rarity, id);
    }
  }

  lemma FilledHasParts(skins: seq<Skin>, rarity: Rarity)
    ensures Filled(skins, rarity) <==> PartsWith(skins, rarity, ALPHABETICAL) != []
  {
    PartsWithAscending(skins, rarity, 6);
    assert ALPHABETICAL[..6] == ALPHABETICAL;
    var parts := PartsWith(skins, rarity, ALPHABETICAL);
    if Filled(skins, rarity) {
      var i :| 0 <= i < |skins| && skins[i].rarity == rarity;
      BucketIs(skins, skins[i].part, rarity, skins[i].id);
      assert Rank(skins[i].part) < 6 && skins[i].part in parts;
    } else if parts != [] {
      assert parts[0] in parts;
      var bucket := Bucket(skins, parts[0], rarity);
      BucketIs(skins, parts[0], rarity, bucket[0]);
    }
  }

  // ---- The indexes agree ----

  predicate DistinctIds(skins: seq<Skin>) { forall i, j | 0 <= i < j < |skins| :: skins[i].id != skins[j].id }

  lemma {:induction false} TrimRightEnds(s: string)
    ensures TrimRight(s) != "" ==> !Space(TrimRight(s)[|TrimRight(s)| - 1])
    ensures TrimRight(s) <= s
  {
    if s == "" || !Space(s[|s| - 1]) {
    } else {
      TrimRightEnds(s[..|s| - 1]);
    }
  }

  lemma {:induction false} TrimLeftStarts(s: string)
    ensures TrimLeft(s) != "" ==> !Space(TrimLeft(s)[0])
  {
    if s == "" || !Space(s[0]) {
    } else {
      TrimLeftStarts(s[1..]);
    }
  }

  lemma {:induction false} LowerAt(s: string, i: nat)
    requires i < |s|
    ensures |Lower(s)| == |s| && Lower(s)[i] == LowerChar(s[i])
  {
    if |s| == 1 {
    } else {
      LowerAt(s[1..], Max(i - 1, 0));
    }
  }

  /** Nothing to trim and nothing in upper case. */
  predicate NormalId(id: string)
  {
    id != "" && !Space(id[0]) && !Space(id[|id| - 1]) && forall i | 0 <= i < |id| :: !('A' <= id[i] <= 'Z')
  }

  /** Ids that load are normal, so two rows cannot name one skin in two spellings and escape as duplicates. */
  lemma {:induction false} LoadedIdsAreNormal(records: seq<seq<string>>, i: nat)
    requires i < |Loaded(records)|
    ensures NormalId(Loaded(records)[i].id)
  {
    var front, row := records[..|records| - 1], Read(records[|records| - 1]);
    if i < |Loaded(front)| {
      LoadedIdsAreNormal(front, i);
    } else {
      var cell := records[|records| - 1][0];
      TrimLeftStarts(cell);
      TrimRightEnds(TrimLeft(cell));
      var id := Trim(cell);
      forall k | 0 <= k < |id| ensures !('A' <= id[k] <= 'Z') { LowerAt(id, k); }
    }
  }

  /** What of a cell is read: nothing around it, nothing in upper case. */
  function Canonical(cell: string): string { Lower(Trim(cell)) }

  lemma TrimNothing(s: string)
    requires s == "" || (!Space(s[0]) && !Space(s[|s| - 1]))
    ensures Trim(s) == s
  {}

  lemma {:induction false} LowerNothing(s: string)
    requires forall i | 0 <= i < |s| :: !('A' <= s[i] <= 'Z')
    ensures Lower(s) == s
  {
    if s == "" {
    } else {
      LowerNothing(s[1..]);
    }
  }

  lemma NormalIsCanonical(id: string)
    requires NormalId(id)
    ensures Trim(id) == id == Lower(id)
  {
    TrimNothing(id);
    LowerNothing(id);
  }

  /** A skin as a record of the table. */
  function Written(skin: Skin): seq<string> { [skin.id, PartCell(skin.part), RarityCell(skin.rarity)] }

  lemma PartCellIsNormal(p: Part)
    ensures NormalId(PartCell(p))
  {
    match p
    case Top => assert PartCell(p) == ['t', 'o', 'p'];
    case Bottom => assert PartCell(p) == ['b', 'o', 't', 't', 'o', 'm'];
    case Outfit => assert PartCell(p) == ['o', 'u', 't', 'f', 'i', 't'];
    case Accessory => assert PartCell(p) == ['a', 'c', 'c', 'e', 's', 's', 'o', 'r', 'y'];
    case Face => assert PartCell(p) == ['f', 'a', 'c', 'e'];
    case Effect => assert PartCell(p) == ['e', 'f', 'f', 'e', 'c', 't'];
  }

  lemma RarityCellIsNormal(r: Rarity)
    ensures NormalId(RarityCell(r))
  {
    match r
    case Common => assert RarityCell(r) == ['c', 'o', 'm', 'm', 'o', 'n'];
    case Uncommon => assert RarityCell(r) == ['u', 'n', 'c', 'o', 'm', 'm', 'o', 'n'];
    case Rare => assert RarityCell(r) == ['r', 'a', 'r', 'e'];
    case Unique => assert RarityCell(r) == ['u', 'n', 'i', 'q', 'u', 'e'];
    case Legendary => assert RarityCell(r) == ['l', 'e', 'g', 'e', 'n', 'd', 'a', 'r', 'y'];
  }

  /** A row loads exactly when its cells write, up to case and surrounding space, a skin with a normal id. */
  lemma GoodRowsAreWritten(rec: seq<string>, skin: Skin)
    ensures Read(rec) == Good(skin)
       <==> |rec| == 3 && Trim(rec[0]) == skin.id && NormalId(skin.id)
            && Canonical(rec[1]) == PartCell(skin.part) && Canonical(rec[2]) == RarityCell(skin.rarity)
  {
    if |rec| == 3 {
      CellsNameThemselves(Canonical(rec[1]));
      CellsNameThemselves(Canonical(rec[2]));
      NamedByTheirCells(skin.rarity, skin.part);
      NormalTrim(rec[0]);
      if NormalId(Trim(rec[0])) { NormalIsCanonical(Trim(rec[0])); }
    }
  }

  predicate NamesRarity(cell: string) { exists r :: cell == RarityCell(r) }

  predicate NamesPart(cell: string) { exists p :: cell == PartCell(p) }

  lemma NamedCells(cell: string)
    ensures NamesRarity(cell) <==> RarityNamed(cell).Some?
    ensures NamesPart(cell) <==> PartNamed(cell).Some?
  {
    CellsNameThemselves(cell);
    if NamesRarity(cell) {
      var r :| cell == RarityCell(r);
      NamedByTheirCells(r, Top);
    }
    if NamesPart(cell) {
      var p :| cell == PartCell(p);
      NamedByTheirCells(Common, p);
    }
  }

  /** A row with a normal id fails by its rarity first, and by its part only if the rarity has a name. */
  lemma BadRowsSayWhy(rec: seq<string>)
    ensures Read(rec).Malformed? <==> |rec| != 3 || !NormalId(Trim(rec[0]))
    ensures Read(rec).BadRarity? <==> |rec| == 3 && NormalId(Trim(rec[0])) && !NamesRarity(Canonical(rec[2]))
    ensures Read(rec).BadPart?
       <==> |rec| == 3 && NormalId(Trim(rec[0])) && NamesRarity(Canonical(rec[2])) && !NamesPart(Canonical(rec[1]))
  {
    if |rec| == 3 {
      NormalTrim(rec[0]);
      NamedCells(Canonical(rec[1]));
      NamedCells(Canonical(rec[2]));
    }
  }

  /** What is left of a cell is normal exactly when it is something and has no upper case. */
  lemma NormalTrim(cell: string)
    ensures NormalId(Trim(cell)) <==> Trim(cell) != "" && Lower(Trim(cell)) == Trim(cell)
  {
    var id := Trim(cell);
    TrimLeftStarts(cell);
    TrimRightEnds(TrimLeft(cell));
    if id != "" && Lower(id) == id {
      forall k | 0 <= k < |id| ensures !('A' <= id[k] <= 'Z') { LowerAt(id, k); }
    }
    if NormalId(id) { LowerNothing(id); }
  }

  lemma WrittenIsRead(skin: Skin)
    requires NormalId(skin.id)
    ensures Read(Written(skin)) == Good(skin)
  {
    PartCellIsNormal(skin.part);
    RarityCellIsNormal(skin.rarity);
    NormalIsCanonical(skin.id);
    NormalIsCanonical(PartCell(skin.part));
    NormalIsCanonical(RarityCell(skin.rarity));
    GoodRowsAreWritten(Written(skin), skin);
  }

  function WrittenAll(skins: seq<Skin>): seq<seq<string>>
  {
    if skins == [] then [] else WrittenAll(skins[..|skins| - 1]) + [Written(skins[|skins| - 1])]
  }

  lemma LoadedOneMore(records: seq<seq<string>>, rec: seq<string>, skin: Skin)
    requires Read(rec) == Good(skin)
    ensures Loaded(records + [rec]) == Loaded(records) + [skin]
  {
    assert (records + [rec])[..|records|] == records;
  }

  lemma WrittenOneMore(front: seq<Skin>, last: Skin)
    ensures WrittenAll(front + [last]) == WrittenAll(front) + [Written(last)]
  {
    assert (front + [last])[..|front|] == front;
  }

  predicate NormalIds(skins: seq<Skin>) { forall i | 0 <= i < |skins| :: NormalId(skins[i].id) }

  /** Every table of skins with normal ids loads as it was written, in order and with nothing dropped. */
  lemma {:induction false} WrittenPoolLoads(skins: seq<Skin>)
    requires NormalIds(skins)
    ensures Loaded(WrittenAll(skins)) == skins
  {
    if skins == [] {
    } else {
      var front, last := skins[..|skins| - 1], skins[|skins| - 1];
      assert skins == front + [last] && NormalIds(front);
      WrittenPoolLoads(front);
      WrittenOneMore(front, last);
      assert Read(Written(last)) == Good(last) by { WrittenIsRead(last); }
      LoadedOneMore(WrittenAll(front), Written(last), last);
    }
  }

  /** The rolls of ten thousand that draw a skin, by what its row says in the rarity column. */
  function Share(cell: string): nat
  {
    if cell == "common" then 8000
    else if cell == "uncommon" then 1000
    else if cell == "rare" then 500
    else if cell == "unique" then 490
    else 10
  }

  lemma CellSetsTheOdds(rec: seq<string>)
    requires Read(rec).Good?
    ensures RollsOf(Read(rec).skin.rarity, 10000) == Share(Canonical(rec[2]))
  {
    DropOdds();
    GoodRowsAreWritten(rec, Read(rec).skin);
  }

  lemma {:induction false} NoRepeatIsDistinct(skins: seq<Skin>)
    ensures FirstRepeat(skins).None? <==> DistinctIds(skins)
  {
    if skins == [] {
    } else {
      var front, last := skins[..|skins| - 1], skins[|skins| - 1];
      NoRepeatIsDistinct(front);
      if HasId(front, last.id) {
        var i :| 0 <= i < |front| && front[i].id == last.id;
        assert skins[i].id == skins[|skins| - 1].id;
      }
    }
  }

  /** The repeat that is reported is the first one: nothing before it repeats. */
  lemma {:induction false} FirstRepeatIsFirst(skins: seq<Skin>) returns (j: nat)
    requires FirstRepeat(skins).Some?
    ensures j < |skins| && skins[j].id == FirstRepeat(skins).value && HasId(skins[..j], skins[j].id)
    ensures DistinctIds(skins[..j])
  {
    var front := skins[..|skins| - 1];
    if FirstRepeat(front).Some? {
      j := FirstRepeatIsFirst(front);
      assert front[..j] == skins[..j];
    } else {
      j := |skins| - 1;
      NoRepeatIsDistinct(front);
    }
  }

  /** The rarity that is reported empty is: it has no skin, and every one rolled more often has some. */
  lemma EmptyRarityIsMostCommon(skins: seq<Skin>)
    ensures FirstEmpty(skins, 0).Some? ==>
              var r := FirstEmpty(skins, 0).value;
              !Filled(skins, r) && forall q :: RollsOf(q, 10000) > RollsOf(r, 10000) ==> Filled(skins, q)
    ensures FirstEmpty(skins, 0).None? ==> forall q :: Filled(skins, q)
  {
    DropOdds();
    assert RARITIES[0] == Common && RARITIES[1] == Uncommon && RARITIES[2] == Rare && RARITIES[3] == Unique
        && RARITIES[4] == Legendary && |RARITIES| == 5;
    forall q ensures RollsOf(q, 10000) == match q case Common => 8000 case Uncommon => 1000 case Rare => 500
                                           case Unique => 490 case Legendary => 10 {}
    assert FirstEmpty(skins, 5).None?;
    assert FirstEmpty(skins, 4) == if !Filled(skins, Legendary) then Some(Legendary) else None;
    assert FirstEmpty(skins, 3) == if !Filled(skins, Unique) then Some(Unique) else FirstEmpty(skins, 4);
    assert FirstEmpty(skins, 2) == if !Filled(skins, Rare) then Some(Rare) else FirstEmpty(skins, 3);
    assert FirstEmpty(skins, 1) == if !Filled(skins, Uncommon) then Some(Uncommon) else FirstEmpty(skins, 2);
    assert FirstEmpty(skins, 0) == if !Filled(skins, Common) then Some(Common) else FirstEmpty(skins, 1);
  }

  predicate OnceEach(ids: seq<string>) { forall i, j | 0 <= i < j < |ids| :: ids[i] != ids[j] }

  lemma {:induction false} BucketIsDistinct(skins: seq<Skin>, part: Part, rarity: Rarity)
    requires DistinctIds(skins)
    ensures OnceEach(Bucket(skins, part, rarity))
  {
    if skins == [] {
    } else {
      var front, last := skins[..|skins| - 1], skins[|skins| - 1];
      BucketIsDistinct(front, part, rarity);
      var b := Bucket(front, part, rarity);
      forall i | 0 <= i < |b| ensures b[i] != last.id {
        BucketIs(front, part, rarity, b[i]);
        var k :| 0 <= k < |front| && front[k] == Skin(b[i], part, rarity);
        assert skins[k].id != skins[|skins| - 1].id;
      }
    }
  }

  /** A pool built from these skins without an error. */
  ghost predicate Accepted(skins: seq<Skin>, pool: SkinPool)
  {
    Indexes(skins, pool) && FirstRepeat(skins).None? && FirstEmpty(skins, 0).None?
  }

  lemma {:induction false} NoneEmpty(skins: seq<Skin>, k: nat, m: nat)
    requires k <= m < |RARITIES| && FirstEmpty(skins, k).None?
    ensures Filled(skins, RARITIES[m])
    decreases m - k
  {
    if k == m {
    } else {
      NoneEmpty(skins, k + 1, m);
    }
  }

  /** Every loaded skin is once in the bucket of its part and rarity, nowhere else, and RarityOf agrees. */
  lemma EachSkinInOneBucket(skins: seq<Skin>, pool: SkinPool, i: nat)
    requires Accepted(skins, pool) && i < |skins|
    ensures forall part, rarity ::
              skins[i].id in At(pool.byPartRarity, part, rarity) <==> part == skins[i].part && rarity == skins[i].rarity
    ensures OnceEach(At(pool.byPartRarity, skins[i].part, skins[i].rarity))
    ensures skins[i].id in pool.skinRarity && pool.skinRarity[skins[i].id] == skins[i].rarity
  {
    NoRepeatIsDistinct(skins);
    BucketIsDistinct(skins, skins[i].part, skins[i].rarity);
    forall part, rarity
      ensures skins[i].id in At(pool.byPartRarity, part, rarity) <==> part == skins[i].part && rarity == skins[i].rarity
    {
      BucketIs(skins, part, rarity, skins[i].id);
      if Skin(skins[i].id, part, rarity) in skins {
        var k :| 0 <= k < |skins| && skins[k] == Skin(skins[i].id, part, rarity);
        assert k == i;
      }
    }
  }

  // ---- Draws ----

  /** PickByRarity, from its two random numbers. */
  function PickByRarity(pool: SkinPool, rarity: Rarity, a: nat, b: nat): Option<string>
  {
    var parts := PartsAt(pool.partsByRarity, rarity);
    if |parts| == 0 then None
    else
      var skins := At(pool.byPartRarity, parts[Pick(a, |parts|)], rarity);
      if |skins| == 0 then None else Some(skins[Pick(b, |skins|)])
  }

  lemma PartsAreFilled(skins: seq<Skin>, pool: SkinPool, rarity: Rarity, part: Part)
    requires Indexes(skins, pool)
    ensures part in PartsAt(pool.partsByRarity, rarity) <==> At(pool.byPartRarity, part, rarity) != []
  {
    PartsWithAscending(skins, rarity, 6);
    assert ALPHABETICAL[..6] == ALPHABETICAL && Rank(part) < 6;
  }

  /** Whatever the random numbers, a pick answers a skin of the rarity asked for, if there is any. */
  lemma PickHasTheRarity(skins: seq<Skin>, pool: SkinPool, rarity: Rarity, a: nat, b: nat)
    requires Indexes(skins, pool) && FirstRepeat(skins).None?
    ensures var r := PickByRarity(pool, rarity, a, b);
            && (r.Some? <==> Filled(skins, rarity))
            && (r.Some? ==> r.value in pool.skinRarity && pool.skinRarity[r.value] == rarity)
  {
    FilledHasParts(skins, rarity);
    var parts := PartsAt(pool.partsByRarity, rarity);
    if |parts| > 0 {
      var part := parts[Pick(a, |parts|)];
      PartsAreFilled(skins, pool, rarity, part);
      var bucket := At(pool.byPartRarity, part, rarity);
      var id := bucket[Pick(b, |bucket|)];
      BucketIs(skins, part, rarity, id);
      var k :| 0 <= k < |skins| && skins[k] == Skin(id, part, rarity);
      assert skins[k].id in pool.skinRarity;
    }
  }

  /** Every loaded skin is drawn for some random numbers. */
  lemma EverySkinCanBePicked(skins: seq<Skin>, pool: SkinPool, i: nat) returns (a: nat, b: nat)
    requires Accepted(skins, pool) && i < |skins|
    ensures PickByRarity(pool, skins[i].rarity, a, b) == Some(skins[i].id)
  {
    EachSkinInOneBucket(skins, pool, i);
    var rarity := skins[i].rarity;
    var bucket := At(pool.byPartRarity, skins[i].part, rarity);
    assert skins[i].id in bucket;
    PartsAreFilled(skins, pool, rarity, skins[i].part);
    var parts := PartsAt(pool.partsByRarity, rarity);
    assert skins[i].part in parts;
    a :| 0 <= a < |parts| && parts[a] == skins[i].part;
    b :| 0 <= b < |bucket| && bucket[b] == skins[i].id;
  }

  /** Roll indexes without looking: an accepted pool has no empty list to trip over. */
  method Roll(pool: SkinPool, seed: nat, a: nat, b: nat, ghost skins: seq<Skin>) returns (id: string, rarity: Rarity)
    requires Accepted(skins, pool)
    ensures rarity == RarityOfRoll(seed % 10000)
    ensures id in pool.skinRarity && pool.skinRarity[id] == rarity
    ensures PickByRarity(pool, rarity, a, b) == Some(id)
  {
    rarity := DetermineRarity(seed % 10000);
    var k := match rarity case Common => 0 case Uncommon => 1 case Rare => 2 case Unique => 3 case Legendary => 4;
    NoneEmpty(skins, 0, k);
    PickHasTheRarity(skins, pool, rarity, a, b);
    var parts := PartsAt(pool.partsByRarity, rarity);
    PickIsMod(a, |parts|);
    var bucket := At(pool.byPartRarity, parts[a % |parts|], rarity);
    PickIsMod(b, |bucket|);
    id := bucket[b % |bucket|];
  }
}
