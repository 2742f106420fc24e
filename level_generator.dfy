/**
 * The deterministic parts of the dungeon generator. The BSP tree, random
 * rectangles, random points and L-shaped paths come from the geometry
 * library; here every random draw and every traced point list is a
 * parameter, and the generator's own choices, engraving and placement rules
 * are modelled on the tile map.
 */
module Generator {
  import opened Options
  import opened Geom
  import opened Const
  import opened Catalog
  import opened Rooms
  import opened TileMaps

  // ---------------------------------------------------------------------
  // Weighted choice

  /** The sum of the weights of `choices`. */
  function Total<T>(choices: seq<(T, nat)>): nat {
    if choices == [] then 0 else Total(choices[..|choices| - 1]) + choices[|choices| - 1].1
  }

  /**
   * Choice `i` is taken by a draw of `r` when its weight is positive and the
   * running total up to and including it reaches `r`.
   */
  predicate Reaches<T>(choices: seq<(T, nat)>, r: real, i: nat)
    requires i < |choices|
  {
    choices[i].1 > 0 && Total(choices[..i + 1]) as real >= r
  }

  /**
   * Picks from `(choice, weight)` pairs with the uniform draw `r` in
   * [0, total]: the first choice, skipping zero weights, whose running total
   * reaches `r`. None is the assertion failure when no choice does.
   */
  method WeightedChoice<T>(choices: seq<(T, nat)>, r: real) returns (c: Option<T>)
    ensures c.None? <==> forall i | 0 <= i < |choices| :: !Reaches(choices, r, i)
    ensures c.Some? ==> exists i | 0 <= i < |choices| ::
      && Reaches(choices, r, i) && c.value == choices[i].0
      && forall j | 0 <= j < i :: !Reaches(choices, r, j)
    ensures c == Choice(choices, r)
  {
    var upto: nat := 0;
    var i := 0;
    while i < |choices|
      invariant 0 <= i <= |choices| && upto == Total(choices[..i])
      invariant forall j | 0 <= j < i :: !Reaches(choices, r, j)
      invariant FirstReaching(choices, r, i) == Choice(choices, r)
    {
      var (choice, w) := choices[i];
      assert choices[..i + 1][..i] == choices[..i];
      if w != 0 {
        if (upto + w) as real >= r {
          assert Reaches(choices, r, i);
          return Some(choice);
        }
        upto := upto + w;
      }
      i := i + 1;
    }
    return None;
  }

  /** The first choice from index `i` on that the draw reaches; None when none does. */
  function FirstReaching<T>(choices: seq<(T, nat)>, r: real, i: nat): Option<T>
    requires i <= |choices|
    decreases |choices| - i
  {
    if i == |choices| then None
    else if Reaches(choices, r, i) then Some(choices[i].0)
    else FirstReaching(choices, r, i + 1)
  }

  /** What a weighted choice with the draw `r` takes, as a function of its inputs. */
  function Choice<T>(choices: seq<(T, nat)>, r: real): Option<T> {
    FirstReaching(choices, r, 0)
  }

  /**
   * The scan from `i` finds a choice exactly when some choice from `i` on is
   * reached, and then it is the first such one.
   */
  lemma {:induction false} FirstReachingIs<T>(choices: seq<(T, nat)>, r: real, i: nat)
    requires i <= |choices|
    ensures FirstReaching(choices, r, i).Some? <==> exists j | i <= j < |choices| :: Reaches(choices, r, j)
    ensures FirstReaching(choices, r, i).Some? ==> exists j | i <= j < |choices| ::
      && Reaches(choices, r, j) && FirstReaching(choices, r, i).value == choices[j].0
      && forall j' | i <= j' < j :: !Reaches(choices, r, j')
    decreases |choices| - i
  {
    if i < |choices| && !Reaches(choices, r, i) {
      FirstReachingIs(choices, r, i + 1);
      var c := FirstReaching(choices, r, i);
      if c.Some? {
        var j :| i + 1 <= j < |choices| && Reaches(choices, r, j) && c.value == choices[j].0
          && forall j' | i + 1 <= j' < j :: !Reaches(choices, r, j');
        assert forall j' | i <= j' < j :: !Reaches(choices, r, j');
      }
    }
  }

  /**
   * The choice function takes something exactly when some choice is reached,
   * and then the first reached one: it agrees with the characterisation
   * WeightedChoice promises.
   */
  lemma ChoiceIsFirstReached<T>(choices: seq<(T, nat)>, r: real)
    ensures Choice(choices, r).Some? <==> Chooses(choices, r)
    ensures Choice(choices, r).Some? ==> exists i | 0 <= i < |choices| ::
      && Reaches(choices, r, i) && Choice(choices, r).value == choices[i].0
      && forall j | 0 <= j < i :: !Reaches(choices, r, j)
  {
    FirstReachingIs(choices, r, 0);
  }

  /** Zero total weight means every weight is zero. */
  lemma {:induction false} ZeroTotal<T>(choices: seq<(T, nat)>, i: nat)
    requires Total(choices) == 0 && i < |choices|
    ensures choices[i].1 == 0
  {
    if i < |choices| - 1 {
      assert choices[..|choices| - 1][i] == choices[i];
      ZeroTotal(choices[..|choices| - 1], i);
    }
  }

  /**
   * With a draw in [0, total], some choice is taken exactly when the total
   * weight is positive: the choice fails its assertion only when every
   * weight is zero.
   */
  lemma {:induction false} WeightedChoiceSucceeds<T>(choices: seq<(T, nat)>, r: real)
    requires 0.0 <= r <= Total(choices) as real
    ensures (exists i | 0 <= i < |choices| :: Reaches(choices, r, i)) <==> Total(choices) > 0
  {
    if Total(choices) == 0 {
      forall i | 0 <= i < |choices|
        ensures !Reaches(choices, r, i)
      {
        ZeroTotal(choices, i);
      }
    } else {
      var i := LastReaches(choices, r);
    }
  }

  /** A positive total is reached by the last choice with a positive weight. */
  lemma {:induction false} LastReaches<T>(choices: seq<(T, nat)>, r: real) returns (i: nat)
    requires Total(choices) > 0 && r <= Total(choices) as real
    ensures i < |choices| && Reaches(choices, r, i)
  {
    var n := |choices|;
    var init := choices[..n - 1];
    assert choices[..n] == choices;
    if choices[n - 1].1 > 0 {
      i := n - 1;
    } else {
      i := LastReaches(init, r);
      assert init[..i + 1] == choices[..i + 1];
    }
  }

  // ---------------------------------------------------------------------
  // Difficulty and room types

  /** The first key in `dm` (in insertion order) whose value is `v`; None if there is none. */
  method KeyOf<N(==)>(dm: seq<(int, N)>, v: N) returns (k: Option<int>)
    ensures k.None? <==> forall j | 0 <= j < |dm| :: dm[j].1 != v
    ensures k.Some? ==> exists j | 0 <= j < |dm| ::
      dm[j].1 == v && k.value == dm[j].0 && forall j' | 0 <= j' < j :: dm[j'].1 != v
  {
    var j := 0;
    while j < |dm|
      invariant 0 <= j <= |dm| && forall j' | 0 <= j' < j :: dm[j'].1 != v
    {
      if dm[j].1 == v {
        return Some(dm[j].0);
      }
      j := j + 1;
    }
    return None;
  }

  /**
   * A leaf's difficulty: for the first of its ancestors (in the tree's
   * ancestor order) that is a value of the difficulty map, the first key
   * mapping to it. None is the ValueError raised when no ancestor is.
   */
  method GetDifficulty<N(==)>(ancestors: seq<N>, dm: seq<(int, N)>) returns (d: Option<int>)
    ensures d.None? <==> forall i, j | 0 <= i < |ancestors| && 0 <= j < |dm| :: dm[j].1 != ancestors[i]
    ensures d.Some? ==> exists i | 0 <= i < |ancestors| ::
      && (forall i', j | 0 <= i' < i && 0 <= j < |dm| :: dm[j].1 != ancestors[i'])
      && exists j | 0 <= j < |dm| ::
           dm[j].1 == ancestors[i] && d.value == dm[j].0 && forall j' | 0 <= j' < j :: dm[j'].1 != ancestors[i]
  {
    var i := 0;
    while i < |ancestors|
      invariant 0 <= i <= |ancestors|
      invariant forall i', j | 0 <= i' < i && 0 <= j < |dm| :: dm[j].1 != ancestors[i']
    {
      var k := KeyOf(dm, ancestors[i]);
      if k.Some? {
        return k;
      }
      i := i + 1;
    }
    return None;
  }

  /** A room type (or monster type) with no difficulty fits every difficulty. */
  predicate FitsDifficulty(rt: RoomType, difficulty: int) {
    rt.difficulty.None? || rt.difficulty == Some(difficulty)
  }

  /** The room types that fit the difficulty, in catalog order. */
  function RoomTypeOptions(roomTypes: seq<RoomType>, difficulty: int): (r: seq<RoomType>)
    ensures |r| <= |roomTypes|
    ensures forall rt :: rt in r <==> rt in roomTypes && FitsDifficulty(rt, difficulty)
  {
    if roomTypes == [] then []
    else (if FitsDifficulty(roomTypes[0], difficulty) then [roomTypes[0]] else []) + RoomTypeOptions(roomTypes[1..], difficulty)
  }

  /** Each element paired with its weight. */
  function Weighted<T>(xs: seq<T>, w: T -> nat): (r: seq<(T, nat)>)
    ensures |r| == |xs| && forall i | 0 <= i < |r| :: r[i] == (xs[i], w(xs[i]))
  {
    seq(|xs|, i requires 0 <= i < |xs| => (xs[i], w(xs[i])))
  }

  function RoomChance(rt: RoomType): nat { rt.chance }

  /**
   * Makes the room of a BSP leaf: the leaf's difficulty, then a weighted
   * choice (draw `r`) among the room types fitting it. `roomId` is the fresh
   * uuid and `randomRect` the random sub-rectangle a BOX_RANDOM room takes.
   * Null when the difficulty is not found or the choice fails. The room's
   * own difficulty stays unset until the difficulty pass.
   */
  method GenerateRoom<N(==)>(ancestors: seq<N>, dm: seq<(int, N)>, roomTypes: seq<RoomType>, r: real,
                             roomId: RoomId, leafRect: Rect, randomRect: Rect) returns (room: Room?)
    ensures room != null ==> fresh(room) && room.roomId == roomId && room.difficulty == None
    ensures room != null ==> room.roomType in roomTypes && room.roomType.chance > 0
    ensures room != null ==> exists d :: FitsDifficulty(room.roomType, d) && GetDifficultyOf(ancestors, dm) == Some(d)
    ensures room != null ==> room.rect == (if room.roomType.shape == BoxRandom then randomRect else leafRect)
    ensures GetDifficultyOf(ancestors, dm).None? ==> room == null
    ensures room != null <==> RoomChoice(ancestors, dm, roomTypes, r).Some?
    ensures room != null ==> room.roomType == RoomChoice(ancestors, dm, roomTypes, r).value
  {
    var d := GetDifficulty(ancestors, dm);
    DifficultyAgrees(ancestors, dm, d);
    if d.None? {
      return null;
    }
    var options := RoomTypeOptions(roomTypes, d.value);
    var choice := WeightedChoice(Weighted(options, RoomChance), r);
    if choice.None? {
      return null;
    }
    var i :| 0 <= i < |Weighted(options, RoomChance)| && Reaches(Weighted(options, RoomChance), r, i) && choice.value == Weighted(options, RoomChance)[i].0;
    assert choice.value == options[i];
    room := new Room(roomId, choice.value, leafRect, randomRect);
  }

  /**
   * The room type a leaf gets: the weighted choice, with the draw `r`, among
   * the room types fitting the leaf's difficulty; None when the difficulty is
   * not found or the choice fails.
   */
  function RoomChoice<N(==)>(ancestors: seq<N>, dm: seq<(int, N)>, roomTypes: seq<RoomType>, r: real): Option<RoomType> {
    var d := GetDifficultyOf(ancestors, dm);
    if d.None? then None else Choice(Weighted(RoomTypeOptions(roomTypes, d.value), RoomChance), r)
  }

  /**
   * A chosen room type is a catalog entry with a positive chance that fits
   * the leaf's difficulty, and one is chosen whenever the difficulty is found
   * and some fitting type has a positive chance reached by the draw.
   */
  lemma RoomChoiceFits<N>(ancestors: seq<N>, dm: seq<(int, N)>, roomTypes: seq<RoomType>, r: real)
    ensures RoomChoice(ancestors, dm, roomTypes, r).Some? <==>
      GetDifficultyOf(ancestors, dm).Some? &&
      Chooses(Weighted(RoomTypeOptions(roomTypes, GetDifficultyOf(ancestors, dm).value), RoomChance), r)
    ensures RoomChoice(ancestors, dm, roomTypes, r).Some? ==>
      var rt := RoomChoice(ancestors, dm, roomTypes, r).value;
      rt in roomTypes && rt.chance > 0 && FitsDifficulty(rt, GetDifficultyOf(ancestors, dm).value)
  {
    var d := GetDifficultyOf(ancestors, dm);
    if d.Some? {
      var choices := Weighted(RoomTypeOptions(roomTypes, d.value), RoomChance);
      ChoiceIsFirstReached(choices, r);
      if Choice(choices, r).Some? {
        var i :| 0 <= i < |choices| && Reaches(choices, r, i) && Choice(choices, r).value == choices[i].0;
        assert choices[i].0 in RoomTypeOptions(roomTypes, d.value);
      }
    }
  }

  /** The difficulty lookup as a function of its inputs (used to state what a room is made from). */
  function GetDifficultyOf<N(==)>(ancestors: seq<N>, dm: seq<(int, N)>): Option<int> {
    if ancestors == [] then None
    else match FirstKey(dm, ancestors[0])
      case Some(k) => Some(k)
      case None => GetDifficultyOf(ancestors[1..], dm)
  }

  function FirstKey<N(==)>(dm: seq<(int, N)>, v: N): Option<int> {
    if dm == [] then None else if dm[0].1 == v then Some(dm[0].0) else FirstKey(dm[1..], v)
  }

  /** The first key for a value is the one the ordered search finds. */
  lemma {:induction false} FirstKeyIs<N>(dm: seq<(int, N)>, v: N, j: nat)
    requires j < |dm| && dm[j].1 == v && forall j' | 0 <= j' < j :: dm[j'].1 != v
    ensures FirstKey(dm, v) == Some(dm[j].0)
  {
    if j > 0 {
      FirstKeyIs(dm[1..], v, j - 1);
    }
  }

  /** No key maps to the value exactly when the ordered search finds none. */
  lemma {:induction false} FirstKeyNone<N>(dm: seq<(int, N)>, v: N)
    requires forall j | 0 <= j < |dm| :: dm[j].1 != v
    ensures FirstKey(dm, v) == None
  {
    if dm != [] {
      FirstKeyNone(dm[1..], v);
    }
  }

  /** The loop computes the lookup function. */
  lemma {:induction false} DifficultyAgrees<N>(ancestors: seq<N>, dm: seq<(int, N)>, d: Option<int>)
    requires d.None? <==> forall i, j | 0 <= i < |ancestors| && 0 <= j < |dm| :: dm[j].1 != ancestors[i]
    requires d.Some? ==> exists i | 0 <= i < |ancestors| ::
      && (forall i', j | 0 <= i' < i && 0 <= j < |dm| :: dm[j].1 != ancestors[i'])
      && exists j | 0 <= j < |dm| ::
           dm[j].1 == ancestors[i] && d.value == dm[j].0 && forall j' | 0 <= j' < j :: dm[j'].1 != ancestors[i]
    ensures GetDifficultyOf(ancestors, dm) == d
    decreases |ancestors|
  {
    if ancestors != [] {
      var rest := ancestors[1..];
      if d.Some? {
        var i :| 0 <= i < |ancestors| &&
          (forall i', j | 0 <= i' < i && 0 <= j < |dm| :: dm[j].1 != ancestors[i']) &&
          exists j | 0 <= j < |dm| ::
            dm[j].1 == ancestors[i] && d.value == dm[j].0 && forall j' | 0 <= j' < j :: dm[j'].1 != ancestors[i];
        if i == 0 {
          var j :| 0 <= j < |dm| && dm[j].1 == ancestors[0] && d.value == dm[j].0 && forall j' | 0 <= j' < j :: dm[j'].1 != ancestors[0];
          FirstKeyIs(dm, ancestors[0], j);
        } else {
          FirstKeyNone(dm, ancestors[0]);
          assert rest[i - 1] == ancestors[i];
          forall i', j | 0 <= i' < i - 1 && 0 <= j < |dm|
            ensures dm[j].1 != rest[i']
          {
            assert rest[i'] == ancestors[i' + 1];
          }
          DifficultyAgrees(rest, dm, d);
        }
      } else {
        FirstKeyNone(dm, ancestors[0]);
        forall i, j | 0 <= i < |rest| && 0 <= j < |dm|
          ensures dm[j].1 != rest[i]
        {
          assert rest[i] == ancestors[i + 1];
        }
        DifficultyAgrees(rest, dm, d);
      }
    }
  }

  // ---------------------------------------------------------------------
  // Nearest room and the BSP split

  /**
   * A point given in doubled coordinates, so that half-cell points stay
   * whole: a room's centre, origin plus half the size, is
   * `Pos(2 * x + width, 2 * y + height)`, and a map point such as
   * (0, height / 2) is `Pos(0, height)`.
   */
  function CentreDoubled(r: Rect): Pos {
    Pos(2 * r.x + r.width, 2 * r.y + r.height)
  }

  /**
   * Twice the Manhattan distance from a room's centre to a target given in
   * doubled coordinates (`target2`). Both points may be half-cell points;
   * doubling keeps the distance whole and orders rooms exactly as the
   * distance itself does.
   */
  function DistanceTo(room: Room, target2: Pos): (d: nat)
    ensures room.rect.width % 2 == 0 && room.rect.height % 2 == 0 && target2.x % 2 == 0 && target2.y % 2 == 0 ==>
      d == 2 * Manhattan(Pos(room.rect.x + room.rect.width / 2, room.rect.y + room.rect.height / 2), Pos(target2.x / 2, target2.y / 2))
    ensures d == 0 <==> target2 == CentreDoubled(room.rect)
  {
    Abs(2 * room.rect.x + room.rect.width - target2.x) + Abs(2 * room.rect.y + room.rect.height - target2.y)
  }

  /** The distance between two rooms' centres is the same measured from either one. */
  lemma DistanceSymmetric(a: Room, b: Room)
    ensures DistanceTo(a, CentreDoubled(b.rect)) == DistanceTo(b, CentreDoubled(a.rect))
  {
  }

  /**
   * Neither the room's centre nor the target is rounded to a cell. Of a 2x2
   * room centred on (26, 10) and a 5x5 room centred on (2.5, 2.5), the
   * second is nearer to (10, 10), by 15 against 16, although rounding its
   * centre down would tie them. And of two rooms centred on (2, 1) and
   * (3, 1), a target at (2.5, 1) is equally near to both, so the first one
   * is kept, whereas rounding the target up to (3, 1) would favour the
   * second.
   */
  lemma HalfCellCentreCounts(small: Room, large: Room, left: Room, right: Room)
    requires small.rect == Rect(25, 9, 2, 2) && large.rect == Rect(0, 0, 5, 5)
    requires left.rect == Rect(1, 0, 2, 2) && right.rect == Rect(2, 0, 2, 2)
    ensures DistanceTo(large, Pos(20, 20)) < DistanceTo(small, Pos(20, 20))
    ensures Manhattan(Pos(0 + 5 / 2, 0 + 5 / 2), Pos(10, 10)) == Manhattan(Pos(25 + 2 / 2, 9 + 2 / 2), Pos(10, 10))
    ensures DistanceTo(left, Pos(5, 2)) == DistanceTo(right, Pos(5, 2))
    ensures DistanceTo(right, Pos(6, 2)) < DistanceTo(left, Pos(6, 2))
  {
  }

  /**
   * The room whose centre is nearest to `target2` (doubled coordinates, as
   * `CentreDoubled` says); on ties the earliest one wins, since only a
   * strictly smaller distance replaces the current pick. The list of leaves
   * must not be empty (the first one is read unguarded).
   */
  method GetRoomNearest(rooms: seq<Room>, target2: Pos) returns (room: Room)
    requires |rooms| > 0
    ensures exists k | 0 <= k < |rooms| :: rooms[k] == room && forall j | 0 <= j < k :: DistanceTo(rooms[j], target2) > DistanceTo(room, target2)
    ensures forall j | 0 <= j < |rooms| :: DistanceTo(room, target2) <= DistanceTo(rooms[j], target2)
  {
    room := rooms[0];
    var distance := DistanceTo(room, target2);
    ghost var k := 0;
    var i := 0;
    while i < |rooms|
      invariant 0 <= i <= |rooms| && 0 <= k < |rooms| && rooms[k] == room && distance == DistanceTo(room, target2)
      invariant forall j | 0 <= j < k :: DistanceTo(rooms[j], target2) > distance
      invariant forall j | 0 <= j < i :: distance <= DistanceTo(rooms[j], target2)
      invariant k <= i || k == 0
    {
      var inner := rooms[i];
      var innerDistance := DistanceTo(inner, target2);
      if innerDistance < distance {
        room, distance, k := inner, innerDistance, i;
      }
      i := i + 1;
    }
  }

  /**
   * Where the BSP tree splits a span [a, b): exactly halfway (rounded down)
   * at the first two levels, which makes four equal quadrants; elsewhere the
   * random draw, which must lie in [a, b).
   */
  function BspRandrange(level: int, a: int, b: int, draw: int): (r: int)
    requires level != 0 && level != 1 ==> a <= draw < b
    ensures level == 0 || level == 1 ==> 2 * r <= a + b < 2 * r + 2
    ensures level != 0 && level != 1 ==> a <= r < b
  {
    if level == 0 || level == 1 then (a + b) / 2 else draw
  }

  /** At the first two levels the split lies inside the span and halves it, up to one cell. */
  lemma {:induction false} EvenSplit(level: int, a: int, b: int, draw: int)
    requires level == 0 || level == 1
    requires a <= b
    ensures var r := BspRandrange(level, a, b, draw);
      a <= r <= b && 0 <= (b - r) - (r - a) <= 1
  {
    var r := BspRandrange(level, a, b, draw);
    assert 2 * r <= a + b < 2 * r + 2;
  }

  // ---------------------------------------------------------------------
  // Engraving rooms

  /** Every point of the rectangle is on the map. */
  predicate RectInBounds(tm: TileMap, r: Rect) {
    r.width == 0 || r.height == 0 ||
    (0 <= r.x && r.x + r.width <= tm.cells.Length0 && 0 <= r.y && r.y + r.height <= tm.cells.Length1)
  }

  /** The cells of the map as a map from positions. */
  ghost function Snap(tm: TileMap): imap<Pos, Cell>
    reads tm.cells
  {
    imap p | tm.InBounds(p) :: tm.At(p)
  }

  /** The cells `m` with every cell of the rectangle rewritten by `f`. */
  ghost function StampMap(r: Rect, f: (Pos, Cell) -> Cell, m: imap<Pos, Cell>): imap<Pos, Cell> {
    imap p | p in m :: if r.Contains(p) then f(p, m[p]) else m[p]
  }

  /** The cells `m` with every cell of the rectangle tagged with `id`. */
  ghost function TagMap(r: Rect, id: RoomId, m: imap<Pos, Cell>): imap<Pos, Cell> {
    imap p | p in m :: if r.Contains(p) then m[p].(roomId := Some(id)) else m[p]
  }

  /** Every cell of the rectangle is on the map and untagged in `m`. */
  ghost predicate RectUntagged(m: imap<Pos, Cell>, r: Rect) {
    forall p | r.Contains(p) :: p in m && m[p].roomId.None?
  }

  /** Rewrites column `x` of the rectangle, rows top to bottom, with `f`. */
  method StampColumn(tm: TileMap, r: Rect, x: int, f: (Pos, Cell) -> Cell)
    requires RectInBounds(tm, r) && r.x <= x < r.x + r.width
    modifies tm.cells
    ensures forall i, j | 0 <= i < tm.cells.Length0 && 0 <= j < tm.cells.Length1 ::
      tm.cells[i, j] == if i == x && r.y <= j < r.y + r.height then f(Pos(i, j), old(tm.cells[i, j])) else old(tm.cells[i, j])
  {
    var y := r.y;
    while y < r.y + r.height
      invariant r.y <= y <= r.y + r.height
      invariant forall i, j | 0 <= i < tm.cells.Length0 && 0 <= j < tm.cells.Length1 ::
        tm.cells[i, j] == if i == x && r.y <= j < y then f(Pos(i, j), old(tm.cells[i, j])) else old(tm.cells[i, j])
    {
      tm.cells[x, y] := f(Pos(x, y), tm.cells[x, y]);
      y := y + 1;
    }
  }

  /** Rewrites every cell of the rectangle with `f`; cells outside it keep their value. */
  method Stamp(tm: TileMap, r: Rect, f: (Pos, Cell) -> Cell)
    requires RectInBounds(tm, r)
    modifies tm.cells
    ensures forall i, j | 0 <= i < tm.cells.Length0 && 0 <= j < tm.cells.Length1 ::
      tm.cells[i, j] == if r.Contains(Pos(i, j)) then f(Pos(i, j), old(tm.cells[i, j])) else old(tm.cells[i, j])
    ensures Snap(tm) == StampMap(r, f, old(Snap(tm)))
  {
    var x := r.x;
    while x < r.x + r.width
      invariant r.x <= x <= r.x + r.width
      invariant forall i, j | 0 <= i < tm.cells.Length0 && 0 <= j < tm.cells.Length1 ::
        tm.cells[i, j] == if r.x <= i < x && r.y <= j < r.y + r.height then f(Pos(i, j), old(tm.cells[i, j])) else old(tm.cells[i, j])
    {
      StampColumn(tm, r, x, f);
      x := x + 1;
    }
    forall p | p in Snap(tm)
      ensures Snap(tm)[p] == StampMap(r, f, old(Snap(tm)))[p]
    {
      assert p == Pos(p.x, p.y);
    }
  }

  /**
   * The wall annotations of a border point, which tell the renderer how to
   * draw it: its corner names, "horz" on the top and bottom rows, "vert" on
   * the left and right columns.
   */
  function EdgeMarks(r: Rect, p: Pos): (marks: set<string>)
    ensures p.y == r.y || p.y == r.y + r.height - 1 <==> "horz" in marks
    ensures p.x == r.x || p.x == r.x + r.width - 1 <==> "vert" in marks
  {
    var top, bottom := p.y == r.y, p.y == r.y + r.height - 1;
    var left, right := p.x == r.x, p.x == r.x + r.width - 1;
    (if top && left then {"corner_top_left"} else {}) +
    (if top && right then {"corner_top_right"} else {}) +
    (if bottom && left then {"corner_bottom_left"} else {}) +
    (if bottom && right then {"corner_bottom_right"} else {}) +
    (if top || bottom then {"horz"} else {}) +
    (if left || right then {"vert"} else {})
  }

  /** A room's cell after engraving: a wall with its marks on the border, floor inside. */
  function EngravedCell(r: Rect, p: Pos, c: Cell): Cell {
    if r.OnEdge(p) then c.(terrain := Wall, annotations := c.annotations + EdgeMarks(r, p))
    else c.(terrain := Floor)
  }

  /** Inside a rectangle, the points off the border are exactly those of its one-cell inset. */
  lemma {:induction false} InteriorIsInset(r: Rect, p: Pos)
    requires r.Contains(p)
    ensures !r.OnEdge(p) <==> r.Inset().Contains(p)
  {
  }

  /**
   * Tags column `x` of the rectangle with `id`, top to bottom. The first
   * cell that already has a room fails the assertion; `ok` is then false.
   */
  method TagColumn(tm: TileMap, r: Rect, x: int, id: RoomId) returns (ok: bool)
    requires RectInBounds(tm, r) && r.x <= x < r.x + r.width && tm.RoomsTagged()
    modifies tm`cellsByRoomId, tm.cells
    ensures ok <==> forall j | r.y <= j < r.y + r.height :: old(tm.cells[x, j]).roomId.None?
    ensures ok ==> forall i, j | 0 <= i < tm.cells.Length0 && 0 <= j < tm.cells.Length1 ::
      tm.cells[i, j] == if i == x && r.y <= j < r.y + r.height then old(tm.cells[i, j]).(roomId := Some(id)) else old(tm.cells[i, j])
    ensures tm.RoomsTagged()
    ensures ok ==> tm.cellsByRoomId - {id} == old(tm.cellsByRoomId) - {id}
  {
    var y := r.y;
    while y < r.y + r.height
      invariant r.y <= y <= r.y + r.height
      invariant forall j | r.y <= j < y :: old(tm.cells[x, j]).roomId.None?
      invariant forall i, j | 0 <= i < tm.cells.Length0 && 0 <= j < tm.cells.Length1 ::
        tm.cells[i, j] == if i == x && r.y <= j < y then old(tm.cells[i, j]).(roomId := Some(id)) else old(tm.cells[i, j])
      invariant tm.RoomsTagged()
      invariant tm.cellsByRoomId - {id} == old(tm.cellsByRoomId) - {id}
    {
      ok := tm.AssignRoom(Pos(x, y), id);
      if !ok {
        return;
      }
      y := y + 1;
    }
    ok := true;
  }

  /** Tags every cell of the rectangle with `id`, column by column; fails on the first tagged cell. */
  method TagColumns(tm: TileMap, r: Rect, id: RoomId) returns (ok: bool)
    requires RectInBounds(tm, r) && tm.RoomsTagged()
    modifies tm`cellsByRoomId, tm.cells
    ensures ok <==> forall i, j | r.Contains(Pos(i, j)) :: old(tm.cells[i, j]).roomId.None?
    ensures ok ==> forall i, j | 0 <= i < tm.cells.Length0 && 0 <= j < tm.cells.Length1 ::
      tm.cells[i, j] == if r.Contains(Pos(i, j)) then old(tm.cells[i, j]).(roomId := Some(id)) else old(tm.cells[i, j])
    ensures tm.RoomsTagged()
    ensures ok ==> tm.cellsByRoomId - {id} == old(tm.cellsByRoomId) - {id}
  {
    var x := r.x;
    while x < r.x + r.width
      invariant r.x <= x <= r.x + r.width
      invariant forall i, j | r.x <= i < x && r.y <= j < r.y + r.height :: old(tm.cells[i, j]).roomId.None?
      invariant forall i, j | 0 <= i < tm.cells.Length0 && 0 <= j < tm.cells.Length1 ::
        tm.cells[i, j] == if r.x <= i < x && r.y <= j < r.y + r.height then old(tm.cells[i, j]).(roomId := Some(id)) else old(tm.cells[i, j])
      invariant tm.RoomsTagged()
      invariant tm.cellsByRoomId - {id} == old(tm.cellsByRoomId) - {id}
    {
      ok := TagColumn(tm, r, x, id);
      if !ok {
        return;
      }
      x := x + 1;
    }
    ok := true;
  }

  /**
   * The tagging of a rectangle on the map as a whole: it succeeds exactly
   * when no cell of the rectangle was tagged, and then tags them all.
   */
  method TagRect(tm: TileMap, r: Rect, id: RoomId) returns (ok: bool)
    requires RectInBounds(tm, r) && tm.RoomsTagged()
    modifies tm`cellsByRoomId, tm.cells
    ensures ok <==> RectUntagged(old(Snap(tm)), r)
    ensures ok ==> Snap(tm) == TagMap(r, id, old(Snap(tm)))
    ensures tm.RoomsTagged()
    ensures ok ==> tm.cellsByRoomId - {id} == old(tm.cellsByRoomId) - {id}
  {
    ghost var before := Snap(tm);
    ok := TagColumns(tm, r, id);
    if !ok {
      ghost var i, j :| r.Contains(Pos(i, j)) && before[Pos(i, j)].roomId.Some?;
      return;
    }
    forall p | r.Contains(p)
      ensures p in before && before[p].roomId.None?
    {
      assert p == Pos(p.x, p.y);
    }
    forall p | p in Snap(tm)
      ensures Snap(tm)[p] == TagMap(r, id, before)[p]
    {
      assert p == Pos(p.x, p.y);
    }
  }

  /** The cells after engraving `room` over `m`. */
  ghost function EngraveMap(room: Room, m: imap<Pos, Cell>): imap<Pos, Cell> {
    imap p | p in m :: EngraveOne(room, p, m[p])
  }

  /**
   * Registers the room and engraves it: walls with their marks on the
   * border, floor inside, and every cell tagged with the room's id. `ok` is
   * false when a cell of the rectangle already belongs to a room.
   */
  method EngraveRoom(tm: TileMap, room: Room) returns (ok: bool)
    requires RectInBounds(tm, room.rect) && tm.RoomsTagged()
    modifies tm`roomsById, tm`cellsByRoomId, tm.cells
    ensures tm.roomsById == old(tm.roomsById)[room.roomId := room]
    ensures ok <==> RectUntagged(old(Snap(tm)), room.rect)
    ensures ok ==> Snap(tm) == EngraveMap(room, old(Snap(tm)))
    ensures tm.RoomsTagged()
    ensures ok ==> tm.cellsByRoomId - {room.roomId} == old(tm.cellsByRoomId) - {room.roomId}
  {
    ghost var before := Snap(tm);
    tm.roomsById := tm.roomsById[room.roomId := room];
    Stamp(tm, room.rect, Engraver(room.rect));
    ok := TagRect(tm, room.rect, room.roomId);
    EngraveSteps(room, before);
  }

  /** The engraving of a rectangle, as a cell rewriter. */
  function Engraver(r: Rect): (Pos, Cell) -> Cell {
    (p, c) => EngravedCell(r, p, c)
  }

  /**
   * Engraving a room is stamping its walls and floor, which leaves the tags
   * alone, then tagging its cells.
   */
  lemma {:induction false} EngraveSteps(room: Room, m: imap<Pos, Cell>)
    ensures RectUntagged(StampMap(room.rect, Engraver(room.rect), m), room.rect) <==> RectUntagged(m, room.rect)
    ensures TagMap(room.rect, room.roomId, StampMap(room.rect, Engraver(room.rect), m)) == EngraveMap(room, m)
  {
  }

  /** What engraving `room` does to the cell at `p`. */
  function EngraveOne(room: Room, p: Pos, c: Cell): Cell {
    if room.rect.Contains(p) then EngravedCell(room.rect, p, c).(roomId := Some(room.roomId)) else c
  }

  /** What engraving the rooms one after another does to the cell at `p`. */
  function Engraved(rooms: seq<Room>, p: Pos, c: Cell): Cell {
    if rooms == [] then c else EngraveOne(rooms[|rooms| - 1], p, Engraved(rooms[..|rooms| - 1], p, c))
  }

  /** The rooms' rectangles share no point. */
  ghost predicate Disjoint(rooms: seq<Room>) {
    forall k, l, p | 0 <= k < l < |rooms| && rooms[k].rect.Contains(p) :: !rooms[l].rect.Contains(p)
  }

  /** The rooms by id after registering `rooms` in order (a later room with the same id wins). */
  function Register(m: map<RoomId, Room>, rooms: seq<Room>): (r: map<RoomId, Room>)
  {
    if rooms == [] then m else Register(m, rooms[..|rooms| - 1])[rooms[|rooms| - 1].roomId := rooms[|rooms| - 1]]
  }

  /** Each room is stored under its own id. */
  predicate KeyedById(m: map<RoomId, Room>) {
    forall id | id in m :: m[id].roomId == id
  }

  /** Registering keeps every room under its own id, and every registered room is found under its id. */
  lemma {:induction false} RegisterKeyed(m: map<RoomId, Room>, rooms: seq<Room>)
    requires KeyedById(m)
    ensures KeyedById(Register(m, rooms))
    ensures forall k | 0 <= k < |rooms| :: rooms[k].roomId in Register(m, rooms)
    ensures forall id | id in m :: id in Register(m, rooms)
  {
    if rooms != [] {
      var init := rooms[..|rooms| - 1];
      RegisterKeyed(m, init);
      assert forall k | 0 <= k < |init| :: init[k] == rooms[k];
    }
  }

  /** A cell outside every rectangle is left as it is. */
  lemma {:induction false} EngravedOutside(rooms: seq<Room>, p: Pos, c: Cell)
    requires forall k | 0 <= k < |rooms| :: !rooms[k].rect.Contains(p)
    ensures Engraved(rooms, p, c) == c
  {
    if rooms != [] {
      var init := rooms[..|rooms| - 1];
      assert forall k | 0 <= k < |init| :: init[k] == rooms[k];
      EngravedOutside(init, p, c);
    }
  }

  /**
   * With disjoint rooms, a cell inside room `k` ends up as that room's
   * engraving made of the cell as it was: no other room touches it.
   */
  lemma {:induction false} EngravedInside(rooms: seq<Room>, k: nat, p: Pos, c: Cell)
    requires Disjoint(rooms) && k < |rooms| && rooms[k].rect.Contains(p)
    ensures Engraved(rooms, p, c) == EngraveOne(rooms[k], p, c)
  {
    var n := |rooms|;
    var init := rooms[..n - 1];
    assert forall l | 0 <= l < |init| :: init[l] == rooms[l];
    if k == n - 1 {
      EngravedOutside(init, p, c);
    } else {
      assert Disjoint(init);
      EngravedInside(init, k, p, c);
    }
  }

  /** A cell inside some rectangle ends up tagged. */
  lemma {:induction false} EngravedTagged(rooms: seq<Room>, k: nat, p: Pos, c: Cell)
    requires k < |rooms| && rooms[k].rect.Contains(p)
    ensures Engraved(rooms, p, c).roomId.Some?
  {
    var n := |rooms|;
    if k < n - 1 && !rooms[n - 1].rect.Contains(p) {
      var init := rooms[..n - 1];
      assert init[k] == rooms[k];
      EngravedTagged(init, k, p, c);
    }
  }

  /** No cell of the rooms' rectangles is tagged in `m`. */
  ghost predicate Untagged(m: imap<Pos, Cell>, rooms: seq<Room>) {
    forall k | 0 <= k < |rooms| :: RectUntagged(m, rooms[k].rect)
  }

  /** The cells after engraving the rooms in order over `m`. */
  ghost function EngravedAll(rooms: seq<Room>, m: imap<Pos, Cell>): imap<Pos, Cell> {
    imap p | p in m :: Engraved(rooms, p, m[p])
  }

  /** Engraving one more room is engraving it over the cells the earlier rooms left. */
  lemma {:induction false} EngravedAllStep(rooms: seq<Room>, n: nat, m: imap<Pos, Cell>)
    requires n < |rooms|
    ensures EngravedAll(rooms[..n + 1], m) == EngraveMap(rooms[n], EngravedAll(rooms[..n], m))
  {
    assert rooms[..n + 1][..n] == rooms[..n];
  }

  /**
   * After the first `n` rooms are engraved without overlap over untagged
   * cells, room `n` finds its cells untagged exactly when it overlaps no
   * earlier room and its own cells were untagged to begin with.
   */
  lemma {:induction false} NextUntagged(rooms: seq<Room>, n: nat, m: imap<Pos, Cell>)
    requires n < |rooms| && Disjoint(rooms[..n]) && Untagged(m, rooms[..n])
    ensures RectUntagged(EngravedAll(rooms[..n], m), rooms[n].rect) <==> Disjoint(rooms[..n + 1]) && Untagged(m, rooms[..n + 1])
  {
    var front, next := rooms[..n], rooms[..n + 1];
    assert forall k | 0 <= k < n :: front[k] == rooms[k] && next[k] == rooms[k];
    assert next[n] == rooms[n];
    if RectUntagged(EngravedAll(front, m), rooms[n].rect) {
      forall k, l, p | 0 <= k < l < |next| && next[k].rect.Contains(p)
        ensures !next[l].rect.Contains(p)
      {
        if l == n && rooms[n].rect.Contains(p) {
          assert RectUntagged(m, front[k].rect);
          EngravedTagged(front, k, p, m[p]);
        }
      }
      forall k | 0 <= k < |next|
        ensures RectUntagged(m, next[k].rect)
      {
        if k == n {
          forall p | rooms[n].rect.Contains(p)
            ensures p in m && m[p].roomId.None?
          {
            assert p in EngravedAll(front, m);
            EngravedOutside(front, p, m[p]);
          }
        }
      }
    } else {
      var p :| rooms[n].rect.Contains(p) && !(p in EngravedAll(front, m) && EngravedAll(front, m)[p].roomId.None?);
      if Disjoint(next) && Untagged(m, next) {
        assert RectUntagged(m, next[n].rect);
        EngravedOutside(front, p, m[p]);
        assert false;
      }
    }
  }

  /**
   * Engraves the rooms in order. `ok` is false when a room overlaps an
   * earlier one or a cell that was already tagged (the one-shot tagging
   * assertion); otherwise every room is registered under its id and every
   * cell ends up as the rooms' engraving made of it.
   */
  method EngraveRooms(tm: TileMap, rooms: seq<Room>) returns (ok: bool)
    requires tm.RoomsTagged()
    requires forall k | 0 <= k < |rooms| :: RectInBounds(tm, rooms[k].rect)
    modifies tm`roomsById, tm`cellsByRoomId, tm.cells
    ensures tm.RoomsTagged()
    ensures ok <==> Disjoint(rooms) && Untagged(old(Snap(tm)), rooms)
    ensures ok ==> tm.roomsById == Register(old(tm.roomsById), rooms)
    ensures ok ==> Snap(tm) == EngravedAll(rooms, old(Snap(tm)))
  {
    ghost var orig := Snap(tm);
    var n := 0;
    while n < |rooms|
      invariant 0 <= n <= |rooms|
      invariant tm.RoomsTagged()
      invariant Disjoint(rooms[..n]) && Untagged(orig, rooms[..n])
      invariant tm.roomsById == Register(old(tm.roomsById), rooms[..n])
      invariant Snap(tm) == EngravedAll(rooms[..n], orig)
    {
      ok := EngraveNext(tm, rooms, n, orig);
      if !ok {
        return;
      }
      assert rooms[..n + 1][..n] == rooms[..n];
      n := n + 1;
    }
    assert rooms[..n] == rooms;
    ok := true;
  }

  /** Engraves room `n` over the engraving of the rooms before it. */
  method EngraveNext(tm: TileMap, rooms: seq<Room>, n: nat, ghost orig: imap<Pos, Cell>) returns (ok: bool)
    requires n < |rooms| && RectInBounds(tm, rooms[n].rect) && tm.RoomsTagged()
    requires Disjoint(rooms[..n]) && Untagged(orig, rooms[..n])
    requires Snap(tm) == EngravedAll(rooms[..n], orig)
    modifies tm`roomsById, tm`cellsByRoomId, tm.cells
    ensures tm.RoomsTagged()
    ensures tm.roomsById == old(tm.roomsById)[rooms[n].roomId := rooms[n]]
    ensures ok <==> Disjoint(rooms[..n + 1]) && Untagged(orig, rooms[..n + 1])
    ensures ok ==> Snap(tm) == EngravedAll(rooms[..n + 1], orig)
  {
    ok := EngraveRoom(tm, rooms[n]);
    NextUntagged(rooms, n, orig);
    if ok {
      EngravedAllStep(rooms, n, orig);
    }
  }

  // ---------------------------------------------------------------------
  // Corridors

  /** A path cell that becomes a door: it is currently a wall. */
  predicate IsDoorSpot(tm: TileMap, p: Pos)
    reads tm.cells
  {
    tm.InBounds(p) && tm.At(p).terrain == Wall
  }

  /** A path cell that becomes corridor: it is currently empty. */
  predicate IsCorridorSpot(tm: TileMap, p: Pos)
    reads tm.cells
  {
    tm.InBounds(p) && tm.At(p).terrain == Empty
  }

  function DoorsOn(tm: TileMap, path: seq<Pos>): set<Pos>
    reads tm.cells
  {
    set p | p in path && IsDoorSpot(tm, p)
  }

  function CorridorsOn(tm: TileMap, path: seq<Pos>): set<Pos>
    reads tm.cells
  {
    set p | p in path && IsCorridorSpot(tm, p)
  }

  /**
   * Sorts the cells of a traced L-shaped path: wall cells are doors, empty
   * cells are corridor, cells of any other terrain are neither. Cells are
   * identified by their positions.
   */
  method GenerateRandomPath(tm: TileMap, path: seq<Pos>) returns (doors: set<Pos>, corridors: set<Pos>)
    requires forall p | p in path :: tm.InBounds(p)
    ensures doors == DoorsOn(tm, path) && corridors == CorridorsOn(tm, path)
    ensures forall p | p in path :: (p in doors <==> tm.At(p).terrain == Wall) && (p in corridors <==> tm.At(p).terrain == Empty)
    ensures doors <= set p | p in path && corridors <= set p | p in path
    ensures doors !! corridors
  {
    doors, corridors := {}, {};
    for i := 0 to |path|
      invariant doors == DoorsOn(tm, path[..i]) && corridors == CorridorsOn(tm, path[..i])
    {
      assert path[..i + 1] == path[..i] + [path[i]];
      assert path[i] in path;
      var cell := tm.cells[path[i].x, path[i].y];
      if cell.terrain == Wall {
        doors := doors + {path[i]};
      } else if cell.terrain == Empty {
        corridors := corridors + {path[i]};
      }
    }
    assert path[..|path|] == path;
  }

  /** Rewrites each cell of `ps` with `f`, in any order; other cells keep their value. */
  method StampSet(tm: TileMap, ps: set<Pos>, f: Cell -> Cell)
    requires forall p | p in ps :: tm.InBounds(p)
    modifies tm.cells
    ensures forall i, j | 0 <= i < tm.cells.Length0 && 0 <= j < tm.cells.Length1 ::
      tm.cells[i, j] == if Pos(i, j) in ps then f(old(tm.cells[i, j])) else old(tm.cells[i, j])
  {
    var rest := ps;
    while rest != {}
      invariant rest <= ps
      invariant forall i, j | 0 <= i < tm.cells.Length0 && 0 <= j < tm.cells.Length1 ::
        tm.cells[i, j] == if Pos(i, j) in ps - rest then f(old(tm.cells[i, j])) else old(tm.cells[i, j])
      decreases |rest|
    {
      var p :| p in rest;
      tm.cells[p.x, p.y] := f(tm.cells[p.x, p.y]);
      rest := rest - {p};
    }
  }

  /** A corridor cell, carrying the annotation when one is given. */
  function CorridorCell(c: Cell, annotation: Option<string>): Cell {
    c.(terrain := Corridor, annotations := if Truthy(annotation) then c.annotations + {annotation.value} else c.annotations)
  }

  /**
   * Digs a corridor between two rooms. `attempts` are the L-shaped paths the
   * random endpoints would trace, in order: the first path is kept unless it
   * crosses more than four walls, in which case the next is tried, up to ten
   * retries. The walls on the kept path become closed doors and its empty
   * cells become corridor, marked with the annotation if one is given.
   */
  method EngraveCorridorBetweenRooms(tm: TileMap, attempts: seq<seq<Pos>>, annotation: Option<string>) returns (tries: nat)
    requires |attempts| == 11
    requires forall k, p | 0 <= k < |attempts| && p in attempts[k] :: tm.InBounds(p)
    modifies tm.cells
    ensures 1 <= tries <= 11
    ensures forall k | 0 <= k < tries - 1 :: |old(DoorsOn(tm, attempts[k]))| > 4
    ensures tries < 11 ==> |old(DoorsOn(tm, attempts[tries - 1]))| <= 4
    ensures forall i, j | 0 <= i < tm.cells.Length0 && 0 <= j < tm.cells.Length1 ::
      tm.cells[i, j] ==
        if Pos(i, j) in old(DoorsOn(tm, attempts[tries - 1])) then old(tm.cells[i, j]).(terrain := DoorClosed)
        else if Pos(i, j) in old(CorridorsOn(tm, attempts[tries - 1])) then CorridorCell(old(tm.cells[i, j]), annotation)
        else old(tm.cells[i, j])
  {
    var doors, corridors := GenerateRandomPath(tm, attempts[0]);
    var iterCount := 0;
    while |doors| > 4 && iterCount < 10
      invariant 0 <= iterCount <= 10
      invariant doors == DoorsOn(tm, attempts[iterCount]) && corridors == CorridorsOn(tm, attempts[iterCount])
      invariant forall k | 0 <= k < iterCount :: |DoorsOn(tm, attempts[k])| > 4
      invariant unchanged(tm.cells)
      decreases 10 - iterCount
    {
      iterCount := iterCount + 1;
      doors, corridors := GenerateRandomPath(tm, attempts[iterCount]);
    }
    tries := iterCount + 1;
    StampSet(tm, doors, (c: Cell) => c.(terrain := DoorClosed));
    StampSet(tm, corridors, c => CorridorCell(c, annotation));
  }

  // ---------------------------------------------------------------------
  // Difficulty quadrants

  /** Sets the difficulty of every room in `rooms`. */
  method SetDifficulty(rooms: seq<Room>, d: int)
    modifies set r | r in rooms
    ensures forall r | r in rooms :: r.difficulty == Some(d)
  {
    for j := 0 to |rooms|
      invariant forall r | r in rooms[..j] :: r.difficulty == Some(d)
    {
      rooms[j].difficulty := Some(d);
    }
  }

  /**
   * Gives every room of quadrant `i` (the leaves under "aa", "ab", "bb",
   * "ba" in that order) difficulty `i`. A room listed under several
   * quadrants keeps the last one's index.
   */
  method EngraveDifficulty(quadrants: seq<seq<Room>>)
    modifies set i, j | 0 <= i < |quadrants| && 0 <= j < |quadrants[i]| :: quadrants[i][j]
    ensures forall i, j | 0 <= i < |quadrants| && 0 <= j < |quadrants[i]| ::
      var d := quadrants[i][j].difficulty;
      d.Some? && i <= d.value < |quadrants| && quadrants[i][j] in quadrants[d.value] &&
      forall k | d.value < k < |quadrants| :: quadrants[i][j] !in quadrants[k]
    ensures forall i, j | 0 <= i < |quadrants| && 0 <= j < |quadrants[i]| && (forall k | i < k < |quadrants| :: quadrants[i][j] !in quadrants[k]) ::
      quadrants[i][j].difficulty == Some(i)
  {
    for i := 0 to |quadrants|
      invariant forall i', j | 0 <= i' < i && 0 <= j < |quadrants[i']| ::
        var d := quadrants[i'][j].difficulty;
        d.Some? && i' <= d.value < i && quadrants[i'][j] in quadrants[d.value] &&
        forall k | d.value < k < i :: quadrants[i'][j] !in quadrants[k]
    {
      SetDifficulty(quadrants[i], i);
    }
  }

  // ---------------------------------------------------------------------
  // Spawn points

  /** A spawn point is free when no spawn uses it yet and it holds no feature (the stairs). */
  predicate CanAddAt(tm: TileMap, p: Pos)
    reads tm`occupiedCells, tm.cells
    requires p !in tm.occupiedCells ==> tm.InBounds(p)
  {
    p !in tm.occupiedCells && tm.At(p).feature.None?
  }

  /** Eleven draws: the first random point of a spawn and its ten retries, all on the map. */
  predicate Draws(tm: TileMap, draws: seq<Pos>)
    reads tm.cells
  {
    |draws| == 11 && forall k | 0 <= k < 11 :: tm.InBounds(draws[k])
  }

  /**
   * The spawn-point search shared by monsters and items. The first free
   * point among the first ten draws is taken. The eleventh draw, the tenth
   * retry, is still tested by the loop condition, but the counter has then
   * reached its limit and the spawn is skipped whatever that test said.
   */
  method FindSpawnPoint(tm: TileMap, draws: seq<Pos>) returns (p: Option<Pos>)
    requires Draws(tm, draws)
    ensures p.None? <==> forall k | 0 <= k < 10 :: !CanAddAt(tm, draws[k])
    ensures p.Some? ==> exists k | 0 <= k < 10 ::
      p.value == draws[k] && CanAddAt(tm, draws[k]) && forall k' | 0 <= k' < k :: !CanAddAt(tm, draws[k'])
    ensures p == SpawnPoint(Blocked(tm), tm.occupiedCells, draws, 0)
  {
    var point := draws[0];
    var i := 0;
    while !CanAddAt(tm, point) && i < 10
      invariant 0 <= i <= 10 && point == draws[i]
      invariant forall k | 0 <= k < i :: !CanAddAt(tm, draws[k])
      invariant SpawnPoint(Blocked(tm), tm.occupiedCells, draws, i) == SpawnPoint(Blocked(tm), tm.occupiedCells, draws, 0)
    {
      BlockedAt(tm, point);
      point := draws[i + 1];
      i := i + 1;
    }
    if i >= 10 {
      return None;
    }
    BlockedAt(tm, point);
    return Some(point);
  }

  /** A point on the map, outside `occupied`, holding no feature. */
  predicate FreeIn(tm: TileMap, occupied: set<Pos>, p: Pos)
    reads tm.cells
  {
    tm.InBounds(p) && p !in occupied && tm.At(p).feature.None?
  }

  /**
   * The point a spawn search takes, given the cells already used: the first
   * of the ten checked draws, from the `k`-th on, that is free; None when
   * none is.
   */
  function SpawnPoint(blocked: set<Pos>, occupied: set<Pos>, draws: seq<Pos>, k: nat): Option<Pos>
    decreases 10 - k
  {
    if k >= 10 || k >= |draws| then None
    else if draws[k] !in occupied && draws[k] !in blocked then Some(draws[k])
    else SpawnPoint(blocked, occupied, draws, k + 1)
  }

  /** The cells of the map holding a feature (the stairs); no spawn takes them. */
  function Blocked(tm: TileMap): set<Pos>
    reads tm.cells
  {
    set x, y | 0 <= x < tm.cells.Length0 && 0 <= y < tm.cells.Length1 && tm.cells[x, y].feature.Some? :: Pos(x, y)
  }

  /** A cell on the map is blocked exactly when it holds a feature. */
  lemma BlockedAt(tm: TileMap, p: Pos)
    requires tm.InBounds(p)
    ensures p in Blocked(tm) <==> tm.At(p).feature.Some?
  {
    assert p == Pos(p.x, p.y);
  }

  /** Finds a spawn point and marks it as used. */
  method Occupy(tm: TileMap, draws: seq<Pos>) returns (p: Option<Pos>)
    requires Draws(tm, draws)
    modifies tm`occupiedCells
    ensures p.None? <==> forall k | 0 <= k < 10 :: old(!CanAddAt(tm, draws[k]))
    ensures p.Some? ==> (exists k | 0 <= k < 10 :: p.value == draws[k]) && FreeIn(tm, old(tm.occupiedCells), p.value)
    ensures p.Some? ==> tm.occupiedCells == old(tm.occupiedCells) + {p.value}
    ensures p.None? ==> tm.occupiedCells == old(tm.occupiedCells)
    ensures p == SpawnPoint(Blocked(tm), old(tm.occupiedCells), draws, 0)
  {
    p := FindSpawnPoint(tm, draws);
    if p.Some? {
      tm.occupiedCells := tm.occupiedCells + {p.value};
    }
  }

  /** One spawn of a room: the uniform draw for the weighted choice and the eleven point draws. */
  datatype Spawn = Spawn(r: real, draws: seq<Pos>)

  /** Every spawn draws its points on the room's floor (the room rectangle inset by its walls). */
  predicate SpawnsIn(tm: TileMap, inner: Rect, spawns: seq<Spawn>)
    reads tm.cells
  {
    forall s | 0 <= s < |spawns| :: SpawnIn(tm, inner, spawns[s])
  }

  predicate SpawnIn(tm: TileMap, inner: Rect, spawn: Spawn)
    reads tm.cells
  {
    Draws(tm, spawn.draws) && forall k | 0 <= k < 11 :: inner.Contains(spawn.draws[k])
  }

  /** Some choice is taken by the draw. */
  predicate Chooses<T>(choices: seq<(T, nat)>, r: real) {
    exists i | 0 <= i < |choices| :: Reaches(choices, r, i)
  }

  /** Every spawn's draw takes a choice. */
  predicate AllChoose<T>(choices: seq<(T, nat)>, spawns: seq<Spawn>) {
    forall s | 0 <= s < |spawns| :: Chooses(choices, spawns[s].r)
  }

  /** One more spawn whose draw chooses extends the chosen prefix. */
  lemma ChoosesUpTo<T>(choices: seq<(T, nat)>, spawns: seq<Spawn>, s: nat)
    requires s < |spawns| && Chooses(choices, spawns[s].r)
    requires forall k | 0 <= k < s :: Chooses(choices, spawns[k].r)
    ensures forall k | 0 <= k < s + 1 :: Chooses(choices, spawns[k].r)
  {
  }

  /** The points a list of placed things stand on. */
  function Positions<T>(xs: seq<T>, at: T -> Pos): set<Pos> {
    if xs == [] then {} else Positions(xs[..|xs| - 1], at) + {at(xs[|xs| - 1])}
  }

  /** The positions of a concatenation are the positions of both parts. */
  lemma {:induction false} PositionsAppend<T>(a: seq<T>, b: seq<T>, at: T -> Pos)
    ensures Positions(a + b, at) == Positions(a, at) + Positions(b, at)
    decreases |b|
  {
    if b == [] {
      assert a + b == a;
    } else {
      var n := |b| - 1;
      assert (a + b)[..|a + b| - 1] == a + b[..n] && (a + b)[|a + b| - 1] == b[n];
      PositionsAppend(a, b[..n], at);
    }
  }

  /** Each placed thing's point is among the positions. */
  lemma {:induction false} PositionsHas<T>(xs: seq<T>, at: T -> Pos, i: nat)
    requires i < |xs|
    ensures at(xs[i]) in Positions(xs, at)
    decreases |xs|
  {
    if i < |xs| - 1 {
      PositionsHas(xs[..|xs| - 1], at, i);
    }
  }

  /** No two placed things share a point. */
  predicate Distinct<T>(xs: seq<T>, at: T -> Pos) {
    forall i, j | 0 <= i < j < |xs| :: at(xs[i]) != at(xs[j])
  }

  /** Things placed apart from each other and from `occupied` stay apart when joined. */
  lemma {:induction false} DistinctAppend<T>(a: seq<T>, b: seq<T>, at: T -> Pos, occupied: set<Pos>)
    requires Distinct(a, at) && Distinct(b, at)
    requires Positions(a, at) <= occupied
    requires forall j | 0 <= j < |b| :: at(b[j]) !in occupied
    ensures Distinct(a + b, at)
  {
    forall i, j | 0 <= i < j < |a + b|
      ensures at((a + b)[i]) != at((a + b)[j])
    {
      if j >= |a| && i < |a| {
        PositionsHas(a, at, i);
      }
    }
  }

  /** `n` copies of `k`. */
  function Copies(k: nat, n: nat): (r: seq<nat>)
    ensures |r| == n && forall i | 0 <= i < n :: r[i] == k
  {
    if n == 0 then [] else Copies(k, n - 1) + [k]
  }

  // ---------------------------------------------------------------------
  // Monsters

  /** The first catalog entry with the id; None is the KeyError of a missing id. */
  function Lookup(types: seq<MonsterType>, id: string): (r: Option<MonsterType>)
    ensures r.None? <==> forall i | 0 <= i < |types| :: types[i].id != id
    ensures r.Some? ==> r.value in types && r.value.id == id
  {
    if types == [] then None else if types[0].id == id then Some(types[0]) else Lookup(types[1..], id)
  }

  /** The catalog entries for all the ids, in order; None if any id is missing. */
  function LookupAll(types: seq<MonsterType>, ids: seq<string>): (r: Option<seq<MonsterType>>)
    ensures r.Some? <==> forall k | 0 <= k < |ids| :: Lookup(types, ids[k]).Some?
    ensures r.Some? ==> |r.value| == |ids| && forall k | 0 <= k < |ids| :: Some(r.value[k]) == Lookup(types, ids[k])
  {
    if ids == [] then Some([])
    else match (Lookup(types, ids[0]), LookupAll(types, ids[1..]))
      case (Some(mt), Some(rest)) => Some([mt] + rest)
      case _ => None
  }

  /** The monster types a room type admits: every type, or the ones it lists. */
  function PossibleMonsters(rt: RoomType, types: seq<MonsterType>): Option<seq<MonsterType>> {
    if rt.monsters.None? then Some(types) else LookupAll(types, rt.monsters.value)
  }

  /** The possible monster types that fit the room's difficulty, in order. */
  function AllowedMonsters(possible: seq<MonsterType>, difficulty: Option<int>): (r: seq<MonsterType>)
    ensures forall mt :: mt in r <==> mt in possible && (mt.difficulty.None? || mt.difficulty == difficulty)
  {
    if possible == [] then []
    else
      (if possible[0].difficulty.None? || possible[0].difficulty == difficulty then [possible[0]] else [])
      + AllowedMonsters(possible[1..], difficulty)
  }

  function MonsterChance(mt: MonsterType): nat { mt.chance }

  function MonsterAt(m: MonsterData): Pos { m.position }

  /**
   * A monster placed in a room: an allowed type with a positive chance, at
   * the room's difficulty, on the room's floor, at a point that was free.
   */
  predicate MonsterPlaced(tm: TileMap, m: MonsterData, allowed: seq<MonsterType>, difficulty: Option<int>, inner: Rect, occupied: set<Pos>)
    reads tm.cells
  {
    && m.monsterType in allowed && m.monsterType.chance > 0
    && m.difficulty == difficulty && inner.Contains(m.position)
    && FreeIn(tm, occupied, m.position)
  }

  /**
   * What one monster spawn places, given the cells already used: the type
   * the weighted choice takes, at the difficulty, on the first free draw;
   * nothing when the choice fails or no draw is free.
   */
  function MonsterSpawned(blocked: set<Pos>, allowed: seq<MonsterType>, difficulty: Option<int>, occupied: set<Pos>, spawn: Spawn)
    : Option<MonsterData>
  {
    var mt := Choice(Weighted(allowed, MonsterChance), spawn.r);
    var p := SpawnPoint(blocked, occupied, spawn.draws, 0);
    if mt.Some? && p.Some? then Some(MonsterData(mt.value, p.value, difficulty)) else None
  }

  /**
   * The monsters a room's spawns place, in order: each spawn that finds a
   * point adds its monster, and later spawns see that point as used.
   */
  function MonsterRun(blocked: set<Pos>, allowed: seq<MonsterType>, difficulty: Option<int>, occupied: set<Pos>, spawns: seq<Spawn>)
    : seq<MonsterData>
    decreases |spawns|
  {
    if spawns == [] then []
    else match MonsterSpawned(blocked, allowed, difficulty, occupied, spawns[0])
      case None => MonsterRun(blocked, allowed, difficulty, occupied, spawns[1..])
      case Some(m) => [m] + MonsterRun(blocked, allowed, difficulty, occupied + {m.position}, spawns[1..])
  }

  /** Running the spawns from `s` on is running spawn `s`, then the rest with its point used. */
  lemma {:induction false} MonsterRunStep(blocked: set<Pos>, allowed: seq<MonsterType>, difficulty: Option<int>, placed: seq<MonsterData>,
                                          occupied: set<Pos>, spawns: seq<Spawn>, s: nat)
    requires s < |spawns|
    ensures var m := MonsterSpawned(blocked, allowed, difficulty, occupied, spawns[s]);
      placed + MonsterRun(blocked, allowed, difficulty, occupied, spawns[s..]) ==
      if m.Some? then (placed + [m.value]) + MonsterRun(blocked, allowed, difficulty, occupied + {m.value.position}, spawns[s + 1..])
      else placed + MonsterRun(blocked, allowed, difficulty, occupied, spawns[s + 1..])
  {
    assert spawns[s..][0] == spawns[s] && spawns[s..][1..] == spawns[s + 1..];
  }

  /** A spawn search that finds a point finds one of the checked draws, outside `occupied` and `blocked`. */
  lemma {:induction false} SpawnPointFree(blocked: set<Pos>, occupied: set<Pos>, draws: seq<Pos>, k: nat) returns (j: nat)
    requires SpawnPoint(blocked, occupied, draws, k).Some?
    ensures var p := SpawnPoint(blocked, occupied, draws, k).value;
      k <= j < 10 && j < |draws| && p == draws[j] && p !in occupied && p !in blocked
    decreases 10 - k
  {
    if draws[k] !in occupied && draws[k] !in blocked {
      j := k;
    } else {
      j := SpawnPointFree(blocked, occupied, draws, k + 1);
    }
  }

  /** What one spawn places is an allowed type with a positive chance, at the difficulty, on a free floor point. */
  lemma MonsterSpawnedPlaced(tm: TileMap, allowed: seq<MonsterType>, difficulty: Option<int>, inner: Rect,
                             occupied: set<Pos>, spawn: Spawn)
    requires SpawnIn(tm, inner, spawn)
    requires MonsterSpawned(Blocked(tm), allowed, difficulty, occupied, spawn).Some?
    ensures MonsterPlaced(tm, MonsterSpawned(Blocked(tm), allowed, difficulty, occupied, spawn).value, allowed, difficulty, inner, occupied)
  {
    var choices := Weighted(allowed, MonsterChance);
    ChoiceIsFirstReached(choices, spawn.r);
    var i :| 0 <= i < |choices| && Reaches(choices, spawn.r, i) && Choice(choices, spawn.r).value == choices[i].0;
    assert choices[i].0 == allowed[i];
    var j := SpawnPointFree(Blocked(tm), occupied, spawn.draws, 0);
    BlockedAt(tm, spawn.draws[j]);
  }

  /** Each spawn's first draw is free, and no two spawns share their first draw. */
  predicate FirstDrawsFree(blocked: set<Pos>, occupied: set<Pos>, spawns: seq<Spawn>) {
    && (forall s | 0 <= s < |spawns| :: |spawns[s].draws| > 0 && spawns[s].draws[0] !in blocked && spawns[s].draws[0] !in occupied)
    && (forall s, t | 0 <= s < t < |spawns| :: spawns[s].draws[0] != spawns[t].draws[0])
  }

  /** Dropping the first spawn and marking its first draw used keeps the first draws free. */
  lemma FirstDrawsFreeTail(blocked: set<Pos>, occupied: set<Pos>, spawns: seq<Spawn>)
    requires spawns != [] && FirstDrawsFree(blocked, occupied, spawns)
    ensures FirstDrawsFree(blocked, occupied + {spawns[0].draws[0]}, spawns[1..])
  {
    forall s | 0 <= s < |spawns| - 1
      ensures spawns[1..][s].draws[0] != spawns[0].draws[0]
    {
      assert spawns[1..][s] == spawns[s + 1];
    }
  }

  /**
   * Nothing is skipped when there is room: if every spawn's draw chooses
   * and each spawn's first draw is free, every spawn places a monster, in
   * order, on its first draw, of the type its draw chooses.
   */
  lemma {:induction false} MonsterRunFillsFreeDraws(blocked: set<Pos>, allowed: seq<MonsterType>, difficulty: Option<int>,
                                                    occupied: set<Pos>, spawns: seq<Spawn>)
    requires AllChoose(Weighted(allowed, MonsterChance), spawns)
    requires FirstDrawsFree(blocked, occupied, spawns)
    ensures var run := MonsterRun(blocked, allowed, difficulty, occupied, spawns);
      && |run| == |spawns|
      && forall s | 0 <= s < |spawns| ::
           Some(run[s].monsterType) == Choice(Weighted(allowed, MonsterChance), spawns[s].r)
           && run[s].position == spawns[s].draws[0] && run[s].difficulty == difficulty
    decreases |spawns|
  {
    if spawns != [] {
      var d := spawns[0].draws[0];
      ChoiceIsFirstReached(Weighted(allowed, MonsterChance), spawns[0].r);
      assert SpawnPoint(blocked, occupied, spawns[0].draws, 0) == Some(d);
      FirstDrawsFreeTail(blocked, occupied, spawns);
      MonsterRunFillsFreeDraws(blocked, allowed, difficulty, occupied + {d}, spawns[1..]);
      assert forall s | 1 <= s < |spawns| :: spawns[1..][s - 1] == spawns[s];
    }
  }

  /**
   * The monsters a room's spawns place: at most one per spawn, each an
   * allowed type at the difficulty on the room's floor, at a point that was
   * free before the room's spawns began, and no two on the same point.
   */
  lemma {:induction false} MonsterRunPlaced(tm: TileMap, allowed: seq<MonsterType>, difficulty: Option<int>, inner: Rect,
                                            occupied: set<Pos>, spawns: seq<Spawn>)
    requires SpawnsIn(tm, inner, spawns)
    ensures var run := MonsterRun(Blocked(tm), allowed, difficulty, occupied, spawns);
      && |run| <= |spawns| && Distinct(run, MonsterAt)
      && forall i | 0 <= i < |run| :: MonsterPlaced(tm, run[i], allowed, difficulty, inner, occupied)
    decreases |spawns|
  {
    if spawns != [] {
      var rest := spawns[1..];
      assert SpawnsIn(tm, inner, rest) by {
        forall s | 0 <= s < |rest|
          ensures SpawnIn(tm, inner, rest[s])
        {
          assert rest[s] == spawns[s + 1];
        }
      }
      var m := MonsterSpawned(Blocked(tm), allowed, difficulty, occupied, spawns[0]);
      if m.None? {
        MonsterRunPlaced(tm, allowed, difficulty, inner, occupied, rest);
      } else {
        var later := occupied + {m.value.position};
        MonsterRunPlaced(tm, allowed, difficulty, inner, later, rest);
        MonsterSpawnedPlaced(tm, allowed, difficulty, inner, occupied, spawns[0]);
        var after := MonsterRun(Blocked(tm), allowed, difficulty, later, rest);
        var run := [m.value] + after;
        forall i | 0 <= i < |run|
          ensures MonsterPlaced(tm, run[i], allowed, difficulty, inner, occupied)
        {
          if i > 0 {
            assert run[i] == after[i - 1];
          }
        }
        forall i, j | 0 <= i < j < |run|
          ensures MonsterAt(run[i]) != MonsterAt(run[j])
        {
          assert run[j] == after[j - 1];
          if i > 0 {
            assert run[i] == after[i - 1];
          }
        }
      }
    }
  }

  /**
   * One spawn: a weighted choice among the allowed types (`chosen` false
   * when it fails), then a free point, whose cell is marked as used; no
   * monster when no point is free.
   */
  method SpawnMonster(tm: TileMap, allowed: seq<MonsterType>, difficulty: Option<int>, inner: Rect, spawn: Spawn)
    returns (chosen: bool, m: Option<MonsterData>)
    requires SpawnIn(tm, inner, spawn)
    modifies tm`occupiedCells
    ensures chosen <==> Chooses(Weighted(allowed, MonsterChance), spawn.r)
    ensures m.Some? ==> chosen && MonsterPlaced(tm, m.value, allowed, difficulty, inner, old(tm.occupiedCells))
    ensures m.Some? ==> tm.occupiedCells == old(tm.occupiedCells) + {m.value.position}
    ensures m.None? ==> tm.occupiedCells == old(tm.occupiedCells)
    ensures chosen ==> m == MonsterSpawned(Blocked(tm), allowed, difficulty, old(tm.occupiedCells), spawn)
  {
    var mt := WeightedChoice(Weighted(allowed, MonsterChance), spawn.r);
    if mt.None? {
      return false, None;
    }
    chosen := true;
    var p := Occupy(tm, spawn.draws);
    if p.None? {
      return true, None;
    }
    m := Some(MonsterData(mt.value, p.value, difficulty));
  }

  /**
   * The spawns of one room, in order. A spawn with no free point is
   * skipped; a failing choice stops the generation (`ok` false).
   */
  method SpawnMonsters(tm: TileMap, allowed: seq<MonsterType>, difficulty: Option<int>, inner: Rect, spawns: seq<Spawn>)
    returns (ok: bool, placed: seq<MonsterData>)
    requires SpawnsIn(tm, inner, spawns)
    modifies tm`occupiedCells
    ensures ok <==> AllChoose(Weighted(allowed, MonsterChance), spawns)
    ensures ok ==> |placed| <= |spawns| && tm.occupiedCells == old(tm.occupiedCells) + Positions(placed, MonsterAt)
    ensures ok ==> forall i | 0 <= i < |placed| :: MonsterPlaced(tm, placed[i], allowed, difficulty, inner, old(tm.occupiedCells))
    ensures ok ==> Distinct(placed, MonsterAt)
    ensures ok ==> placed == MonsterRun(Blocked(tm), allowed, difficulty, old(tm.occupiedCells), spawns)
  {
    ghost var blocked := Blocked(tm);
    placed := [];
    var s := 0;
    while s < |spawns|
      invariant s <= |spawns|
      invariant blocked == Blocked(tm)
      invariant forall k | 0 <= k < s :: Chooses(Weighted(allowed, MonsterChance), spawns[k].r)
      invariant tm.occupiedCells == old(tm.occupiedCells) + Positions(placed, MonsterAt)
      invariant placed + MonsterRun(blocked, allowed, difficulty, tm.occupiedCells, spawns[s..])
                == MonsterRun(blocked, allowed, difficulty, old(tm.occupiedCells), spawns)
    {
      ghost var occ := tm.occupiedCells;
      var chosen, m := SpawnMonster(tm, allowed, difficulty, inner, spawns[s]);
      if !chosen {
        return false, placed;
      }
      MonsterRunStep(blocked, allowed, difficulty, placed, occ, spawns, s);
      ChoosesUpTo(Weighted(allowed, MonsterChance), spawns, s);
      if m.Some? {
        ghost var before := placed;
        placed := placed + [m.value];
        assert placed[..|before|] == before;
      }
      s := s + 1;
    }
    assert spawns[|spawns|..] == [];
    assert placed == MonsterRun(blocked, allowed, difficulty, old(tm.occupiedCells), spawns);
    MonsterRunPlaced(tm, allowed, difficulty, inner, old(tm.occupiedCells), spawns);
    ok := true;
  }

  /** The room's monster types can be looked up, and every spawn's draw takes one of the allowed types. */
  predicate MonstersChoosable(rt: RoomType, difficulty: Option<int>, types: seq<MonsterType>, spawns: seq<Spawn>) {
    var possible := PossibleMonsters(rt, types);
    possible.Some? && AllChoose(Weighted(AllowedMonsters(possible.value, difficulty), MonsterChance), spawns)
  }

  /** A monster placed in `room`: see MonsterPlaced, with the room's allowed types, difficulty and floor. */
  predicate MonsterInRoom(tm: TileMap, m: MonsterData, room: Room, types: seq<MonsterType>, occupied: set<Pos>)
    reads tm.cells, room
  {
    var possible := PossibleMonsters(room.roomType, types);
    possible.Some? && MonsterPlaced(tm, m, AllowedMonsters(possible.value, room.difficulty), room.difficulty, room.rect.Inset(), occupied)
  }

  /** The monsters a room's spawns place: see MonsterRun, with the types allowed in a room of that type and difficulty. */
  function RoomMonsters(blocked: set<Pos>, rt: RoomType, difficulty: Option<int>, types: seq<MonsterType>,
                        occupied: set<Pos>, spawns: seq<Spawn>): seq<MonsterData>
  {
    var possible := PossibleMonsters(rt, types);
    if possible.None? then []
    else MonsterRun(blocked, AllowedMonsters(possible.value, difficulty), difficulty, occupied, spawns)
  }

  /** What the generator reads of each room when it places things: its type and its difficulty. */
  function Kinds(rooms: seq<Room>): (r: seq<(RoomType, Option<int>)>)
    reads rooms
    ensures |r| == |rooms|
  {
    seq(|rooms|, k requires 0 <= k < |rooms| reads rooms => (rooms[k].roomType, rooms[k].difficulty))
  }

  /** Entry k of Kinds is room k's type and difficulty. */
  lemma KindsAt(rooms: seq<Room>, k: nat)
    requires k < |rooms|
    ensures Kinds(rooms)[k] == (rooms[k].roomType, rooms[k].difficulty)
  {
  }

  /**
   * The points taken once the first n rooms have placed their monsters:
   * each room's spawns see the points taken by the rooms before it.
   */
  function LevelCells(blocked: set<Pos>, kinds: seq<(RoomType, Option<int>)>, types: seq<MonsterType>, plans: seq<seq<Spawn>>,
                      occupied: set<Pos>, n: nat): set<Pos>
    requires n <= |kinds| && n <= |plans|
  {
    if n == 0 then occupied
    else
      var before := LevelCells(blocked, kinds, types, plans, occupied, n - 1);
      before + Positions(RoomMonsters(blocked, kinds[n - 1].0, kinds[n - 1].1, types, before, plans[n - 1]), MonsterAt)
  }

  /** The monsters of the first n rooms, in room order. */
  function LevelMonsters(blocked: set<Pos>, kinds: seq<(RoomType, Option<int>)>, types: seq<MonsterType>, plans: seq<seq<Spawn>>,
                         occupied: set<Pos>, n: nat): seq<MonsterData>
    requires n <= |kinds| && n <= |plans|
  {
    if n == 0 then []
    else
      LevelMonsters(blocked, kinds, types, plans, occupied, n - 1)
      + RoomMonsters(blocked, kinds[n - 1].0, kinds[n - 1].1, types, LevelCells(blocked, kinds, types, plans, occupied, n - 1), plans[n - 1])
  }

  /** The points taken after n rooms are the points taken before and those of the rooms' monsters. */
  lemma {:induction false} LevelCellsAre(blocked: set<Pos>, kinds: seq<(RoomType, Option<int>)>, types: seq<MonsterType>,
                                         plans: seq<seq<Spawn>>, occupied: set<Pos>, n: nat)
    requires n <= |kinds| && n <= |plans|
    ensures LevelCells(blocked, kinds, types, plans, occupied, n)
            == occupied + Positions(LevelMonsters(blocked, kinds, types, plans, occupied, n), MonsterAt)
  {
    if n > 0 {
      var k := n - 1;
      LevelCellsAre(blocked, kinds, types, plans, occupied, k);
      var before := LevelMonsters(blocked, kinds, types, plans, occupied, k);
      var placed := RoomMonsters(blocked, kinds[k].0, kinds[k].1, types, LevelCells(blocked, kinds, types, plans, occupied, k), plans[k]);
      LevelMonstersStep(blocked, kinds, types, plans, occupied, k);
      PositionsAppend(before, placed, MonsterAt);
    }
  }

  /** The monsters a room's spawns place stand in the room, on distinct points: see MonsterRunPlaced. */
  lemma RoomMonstersPlaced(tm: TileMap, room: Room, types: seq<MonsterType>, occupied: set<Pos>, spawns: seq<Spawn>)
    requires SpawnsIn(tm, room.rect.Inset(), spawns)
    ensures var placed := RoomMonsters(Blocked(tm), room.roomType, room.difficulty, types, occupied, spawns);
      Distinct(placed, MonsterAt) && forall i | 0 <= i < |placed| :: MonsterInRoom(tm, placed[i], room, types, occupied)
  {
    var possible := PossibleMonsters(room.roomType, types);
    if possible.Some? {
      MonsterRunPlaced(tm, AllowedMonsters(possible.value, room.difficulty), room.difficulty, room.rect.Inset(), occupied, spawns);
    }
  }

  /**
   * The monsters of the first n rooms, when each room's could be chosen,
   * stand each in its room (`from` gives the room), on distinct points that
   * were free.
   */
  lemma {:induction false} LevelMonstersPlaced(tm: TileMap, rooms: seq<Room>, types: seq<MonsterType>, plans: seq<seq<Spawn>>,
                                               occupied: set<Pos>, n: nat) returns (from: seq<nat>)
    requires PlansIn(tm, rooms, plans) && n <= |rooms|
    requires RoomsChoosable(Kinds(rooms), types, plans, n)
    ensures Placed(tm, LevelMonsters(Blocked(tm), Kinds(rooms), types, plans, occupied, n), from, rooms, types, plans, occupied, n)
  {
    if n == 0 {
      from := [];
    } else {
      var k := n - 1;
      var before := LevelMonsters(Blocked(tm), Kinds(rooms), types, plans, occupied, k);
      var earlier := LevelMonstersPlaced(tm, rooms, types, plans, occupied, k);
      var later := LevelCells(Blocked(tm), Kinds(rooms), types, plans, occupied, k);
      LevelCellsAre(Blocked(tm), Kinds(rooms), types, plans, occupied, k);
      RoomMonstersPlaced(tm, rooms[k], types, later, plans[k]);
      var placed := RoomMonsters(Blocked(tm), rooms[k].roomType, rooms[k].difficulty, types, later, plans[k]);
      PlacedAppend(tm, before, earlier, placed, rooms, types, plans, occupied, k);
      from := earlier + Copies(k, |placed|);
      LevelMonstersStep(Blocked(tm), Kinds(rooms), types, plans, occupied, k);
    }
  }

  /** Room k's monsters can be chosen after those of the rooms before it. */
  lemma RoomsChoosableStep(kinds: seq<(RoomType, Option<int>)>, types: seq<MonsterType>, plans: seq<seq<Spawn>>, k: nat)
    requires k < |kinds| && k < |plans|
    requires RoomsChoosable(kinds, types, plans, k)
    requires MonstersChoosable(kinds[k].0, kinds[k].1, types, plans[k])
    ensures RoomsChoosable(kinds, types, plans, k + 1)
  {
  }

  /** When room k's monsters cannot be chosen, the monsters of the first n > k rooms cannot be. */
  lemma RoomNotChoosable(kinds: seq<(RoomType, Option<int>)>, types: seq<MonsterType>, plans: seq<seq<Spawn>>, k: nat, n: nat)
    requires k < n <= |kinds| && n <= |plans|
    requires !MonstersChoosable(kinds[k].0, kinds[k].1, types, plans[k])
    ensures !RoomsChoosable(kinds, types, plans, n)
  {
  }

  /** The first k + 1 rooms' monsters are the first k rooms' and then room k's. */
  lemma LevelMonstersStep(blocked: set<Pos>, kinds: seq<(RoomType, Option<int>)>, types: seq<MonsterType>, plans: seq<seq<Spawn>>,
                          occupied: set<Pos>, k: nat)
    requires k < |kinds| && k < |plans|
    ensures var cells := LevelCells(blocked, kinds, types, plans, occupied, k);
      var placed := RoomMonsters(blocked, kinds[k].0, kinds[k].1, types, cells, plans[k]);
      && LevelMonsters(blocked, kinds, types, plans, occupied, k + 1) == LevelMonsters(blocked, kinds, types, plans, occupied, k) + placed
      && LevelCells(blocked, kinds, types, plans, occupied, k + 1) == cells + Positions(placed, MonsterAt)
  {
  }

  /**
   * A room's monsters: the possible types (a listed id missing from the
   * catalog fails), the ones allowed at the room's difficulty, then one
   * spawn after another on the room's floor.
   */
  method PlaceRoomMonsters(tm: TileMap, room: Room, types: seq<MonsterType>, spawns: seq<Spawn>)
    returns (ok: bool, placed: seq<MonsterData>)
    requires SpawnsIn(tm, room.rect.Inset(), spawns)
    modifies tm`occupiedCells
    ensures ok <==> MonstersChoosable(room.roomType, room.difficulty, types, spawns)
    ensures ok ==> |placed| <= |spawns| && tm.occupiedCells == old(tm.occupiedCells) + Positions(placed, MonsterAt)
    ensures ok ==> forall i | 0 <= i < |placed| :: MonsterInRoom(tm, placed[i], room, types, old(tm.occupiedCells))
    ensures ok ==> Distinct(placed, MonsterAt)
    ensures ok ==> placed == RoomMonsters(Blocked(tm), room.roomType, room.difficulty, types, old(tm.occupiedCells), spawns)
  {
    var possible := PossibleMonsters(room.roomType, types);
    if possible.None? {
      return false, [];
    }
    var allowed := AllowedMonsters(possible.value, room.difficulty);
    ok, placed := SpawnMonsters(tm, allowed, room.difficulty, room.rect.Inset(), spawns);
  }

  /** Monster i was placed in room `from[i]`. */
  predicate InRooms(tm: TileMap, ms: seq<MonsterData>, from: seq<nat>, rooms: seq<Room>, types: seq<MonsterType>, occupied: set<Pos>)
    reads tm.cells, rooms
  {
    |from| == |ms| && forall i | 0 <= i < |ms| :: from[i] < |rooms| && MonsterInRoom(tm, ms[i], rooms[from[i]], types, occupied)
  }

  /** Appending the monsters of room k keeps the record of rooms. */
  lemma {:induction false} InRoomsAppend(tm: TileMap, ms: seq<MonsterData>, from: seq<nat>, placed: seq<MonsterData>,
                                         k: nat, rooms: seq<Room>, types: seq<MonsterType>, occupied: set<Pos>)
    requires InRooms(tm, ms, from, rooms, types, occupied) && k < |rooms|
    requires forall i | 0 <= i < |placed| :: MonsterInRoom(tm, placed[i], rooms[k], types, occupied)
    ensures InRooms(tm, ms + placed, from + Copies(k, |placed|), rooms, types, occupied)
  {
    var ms', from' := ms + placed, from + Copies(k, |placed|);
    forall i | 0 <= i < |ms'|
      ensures from'[i] < |rooms| && MonsterInRoom(tm, ms'[i], rooms[from'[i]], types, occupied)
    {
      if i >= |ms| {
        assert ms'[i] == placed[i - |ms|] && from'[i] == k;
      }
    }
  }

  /** Monsters placed in a room from a point that was free of `occupied` at the time. */
  lemma {:induction false} FreeShrinks(tm: TileMap, placed: seq<MonsterData>, room: Room, types: seq<MonsterType>,
                                       occupied: set<Pos>, later: set<Pos>)
    requires occupied <= later
    requires forall i | 0 <= i < |placed| :: MonsterInRoom(tm, placed[i], room, types, later)
    ensures forall i | 0 <= i < |placed| :: MonsterInRoom(tm, placed[i], room, types, occupied) && placed[i].position !in later
  {
  }

  /** The monsters of each of the first n rooms can be chosen. */
  predicate RoomsChoosable(kinds: seq<(RoomType, Option<int>)>, types: seq<MonsterType>, plans: seq<seq<Spawn>>, n: nat)
    requires n <= |kinds| && n <= |plans|
  {
    forall k | 0 <= k < n :: MonstersChoosable(kinds[k].0, kinds[k].1, types, plans[k])
  }

  /**
   * The monsters of the first n rooms: each room's could be chosen, monster
   * i stands in room `from[i]` at a point free of `occupied`, and no two
   * share a point.
   */
  predicate Placed(tm: TileMap, ms: seq<MonsterData>, from: seq<nat>, rooms: seq<Room>, types: seq<MonsterType>,
                   plans: seq<seq<Spawn>>, occupied: set<Pos>, n: nat)
    reads tm.cells, rooms
  {
    && n <= |rooms| && n <= |plans|
    && RoomsChoosable(Kinds(rooms), types, plans, n)
    && InRooms(tm, ms, from, rooms, types, occupied)
    && Distinct(ms, MonsterAt)
  }

  /** Adding the monsters of room k, placed clear of the monsters before them, extends the record to k + 1 rooms. */
  lemma {:induction false} PlacedAppend(tm: TileMap, ms: seq<MonsterData>, from: seq<nat>, placed: seq<MonsterData>, rooms: seq<Room>,
                                        types: seq<MonsterType>, plans: seq<seq<Spawn>>, occupied: set<Pos>, k: nat)
    requires Placed(tm, ms, from, rooms, types, plans, occupied, k) && k < |rooms| && k < |plans|
    requires MonstersChoosable(rooms[k].roomType, rooms[k].difficulty, types, plans[k])
    requires Distinct(placed, MonsterAt)
    requires forall i | 0 <= i < |placed| :: MonsterInRoom(tm, placed[i], rooms[k], types, occupied + Positions(ms, MonsterAt))
    ensures Placed(tm, ms + placed, from + Copies(k, |placed|), rooms, types, plans, occupied, k + 1)
    ensures Positions(ms + placed, MonsterAt) == Positions(ms, MonsterAt) + Positions(placed, MonsterAt)
  {
    FreeShrinks(tm, placed, rooms[k], types, occupied, occupied + Positions(ms, MonsterAt));
    DistinctAppend(ms, placed, MonsterAt, occupied + Positions(ms, MonsterAt));
    PositionsAppend(ms, placed, MonsterAt);
    InRoomsAppend(tm, ms, from, placed, k, rooms, types, occupied);
  }

  /** Each room's spawns draw their points on that room's floor. */
  predicate PlansIn(tm: TileMap, rooms: seq<Room>, plans: seq<seq<Spawn>>)
    reads tm.cells
  {
    |plans| == |rooms| && forall k | 0 <= k < |rooms| :: SpawnsIn(tm, rooms[k].rect.Inset(), plans[k])
  }

  /**
   * The monsters of every room in turn; see PlaceMonsters. `blocked` and
   * `kinds` are the map's blocked points and the rooms' types and
   * difficulties, which the loop does not change.
   */
  method PlaceAllMonsters(tm: TileMap, rooms: seq<Room>, types: seq<MonsterType>, plans: seq<seq<Spawn>>,
                          ghost blocked: set<Pos>, ghost kinds: seq<(RoomType, Option<int>)>)
    returns (ok: bool, ms: seq<MonsterData>)
    requires PlansIn(tm, rooms, plans)
    requires blocked == Blocked(tm) && kinds == Kinds(rooms)
    modifies tm`occupiedCells
    ensures ok <==> RoomsChoosable(kinds, types, plans, |rooms|)
    ensures ok ==> tm.occupiedCells == LevelCells(blocked, kinds, types, plans, old(tm.occupiedCells), |rooms|)
    ensures ok ==> ms == LevelMonsters(blocked, kinds, types, plans, old(tm.occupiedCells), |rooms|)
  {
    ms := [];
    var k := 0;
    while k < |rooms|
      invariant k <= |rooms|
      invariant blocked == Blocked(tm)
      invariant LevelProgress(blocked, kinds, types, plans, old(tm.occupiedCells), tm.occupiedCells, ms, k)
    {
      var roomOk;
      roomOk, ms := PlaceNextRoomMonsters(tm, rooms, types, plans, blocked, kinds, old(tm.occupiedCells), ms, k);
      if !roomOk {
        return false, ms;
      }
      k := k + 1;
    }
    ok := true;
  }

  /** After k rooms: each could choose its monsters, and the taken points and the monsters are those of the first k rooms. */
  predicate LevelProgress(blocked: set<Pos>, kinds: seq<(RoomType, Option<int>)>, types: seq<MonsterType>, plans: seq<seq<Spawn>>,
                          occupied: set<Pos>, cells: set<Pos>, ms: seq<MonsterData>, k: nat)
  {
    && k <= |kinds| && k <= |plans|
    && RoomsChoosable(kinds, types, plans, k)
    && cells == LevelCells(blocked, kinds, types, plans, occupied, k)
    && ms == LevelMonsters(blocked, kinds, types, plans, occupied, k)
  }

  /** One step of PlaceAllMonsters: room k's monsters appended to those of the rooms before it. */
  method PlaceNextRoomMonsters(tm: TileMap, rooms: seq<Room>, types: seq<MonsterType>, plans: seq<seq<Spawn>>,
                               ghost blocked: set<Pos>, ghost kinds: seq<(RoomType, Option<int>)>, ghost occupied: set<Pos>,
                               ms: seq<MonsterData>, k: nat)
    returns (roomOk: bool, ms': seq<MonsterData>)
    requires PlansIn(tm, rooms, plans) && k < |rooms|
    requires blocked == Blocked(tm) && kinds == Kinds(rooms)
    requires LevelProgress(blocked, kinds, types, plans, occupied, tm.occupiedCells, ms, k)
    modifies tm`occupiedCells
    ensures roomOk <==> MonstersChoosable(kinds[k].0, kinds[k].1, types, plans[k])
    ensures !roomOk ==> !RoomsChoosable(kinds, types, plans, |rooms|)
    ensures roomOk ==> LevelProgress(blocked, kinds, types, plans, occupied, tm.occupiedCells, ms', k + 1)
  {
    var placed;
    ms' := ms;
    roomOk, placed := PlaceRoomMonsters(tm, rooms[k], types, plans[k]);
    if roomOk {
      assert blocked == Blocked(tm);
      LevelMonstersStep(blocked, kinds, types, plans, occupied, k);
      RoomsChoosableStep(kinds, types, plans, k);
      ms' := ms + placed;
    } else {
      RoomNotChoosable(kinds, types, plans, k, |rooms|);
    }
  }

  /**
   * Places the monsters of every room, in the order of `rooms` (the
   * registered rooms in the order they were engraved), and records them as
   * the map's monster points of interest. `plans[k]` holds the spawns of
   * room k. `ok` is false when a lookup or a weighted choice fails, which
   * stops the generation. `from[i]` is the room of monster i.
   */
  method PlaceMonsters(tm: TileMap, rooms: seq<Room>, types: seq<MonsterType>, plans: seq<seq<Spawn>>)
    returns (ok: bool, ghost from: seq<nat>)
    requires PlansIn(tm, rooms, plans)
    modifies tm`occupiedCells, tm`pointsOfInterest
    ensures ok <==> RoomsChoosable(Kinds(rooms), types, plans, |rooms|)
    ensures ok ==> tm.pointsOfInterest == old(tm.pointsOfInterest).(monsters := tm.pointsOfInterest.monsters)
    ensures ok ==> tm.occupiedCells == old(tm.occupiedCells) + Positions(tm.pointsOfInterest.monsters, MonsterAt)
    ensures ok ==> Placed(tm, tm.pointsOfInterest.monsters, from, rooms, types, plans, old(tm.occupiedCells), |rooms|)
    ensures ok ==> tm.pointsOfInterest.monsters == LevelMonsters(Blocked(tm), Kinds(rooms), types, plans, old(tm.occupiedCells), |rooms|)
  {
    var ms;
    ok, ms := PlaceAllMonsters(tm, rooms, types, plans, Blocked(tm), Kinds(rooms));
    from := [];
    if ok {
      LevelCellsAre(Blocked(tm), Kinds(rooms), types, plans, old(tm.occupiedCells), |rooms|);
      from := LevelMonstersPlaced(tm, rooms, types, plans, old(tm.occupiedCells), |rooms|);
      tm.pointsOfInterest := tm.pointsOfInterest.(monsters := ms);
    }
  }

  // ---------------------------------------------------------------------
  // Items

  /** Python list indexing: a negative index counts from the end; None is the IndexError. */
  function PyIndex<T>(s: seq<T>, i: int): (r: Option<T>)
    ensures r.Some? <==> -|s| <= i < |s|
    ensures r.Some? ==> r.value == s[i % |s|]
  {
    if 0 <= i < |s| then Some(s[i]) else if -|s| <= i < 0 then Some(s[|s| + i]) else None
  }

  /**
   * An item type's chance in a room: its chance list indexed by the room's
   * difficulty. None is the error of a room with no difficulty or of an
   * index out of range.
   */
  function ItemWeight(it: ItemType, difficulty: Option<int>): Option<nat> {
    if difficulty.None? then None else PyIndex(it.chanceByDifficulty, difficulty.value)
  }

  /** Every item type with its chance at the difficulty; None if any chance cannot be read. */
  function ItemWeights(items: seq<ItemType>, difficulty: Option<int>): (r: Option<seq<(ItemType, nat)>>)
    ensures r.Some? <==> forall i | 0 <= i < |items| :: ItemWeight(items[i], difficulty).Some?
    ensures r.Some? ==> |r.value| == |items|
    ensures r.Some? ==> forall i | 0 <= i < |items| :: r.value[i] == (items[i], ItemWeight(items[i], difficulty).value)
  {
    if items == [] then Some([])
    else match (ItemWeight(items[0], difficulty), ItemWeights(items[1..], difficulty))
      case (Some(w), Some(rest)) => Some([(items[0], w)] + rest)
      case _ => None
  }

  /** The choices a weighted choice can take: those with a positive weight. */
  function Offered<T>(choices: seq<(T, nat)>): set<T> {
    set c | 0 <= c < |choices| && choices[c].1 > 0 :: choices[c].0
  }

  /** An item type is offered in a room exactly when it is in the catalog with a positive chance at the room's difficulty. */
  lemma {:induction false} ItemOffered(items: seq<ItemType>, difficulty: Option<int>, t: ItemType)
    requires ItemWeights(items, difficulty).Some?
    ensures t in Offered(ItemWeights(items, difficulty).value) <==> t in items && ItemWeight(t, difficulty).value > 0
  {
    var choices := ItemWeights(items, difficulty).value;
    if t in items && ItemWeight(t, difficulty).value > 0 {
      var c :| 0 <= c < |items| && items[c] == t;
      assert choices[c] == (t, ItemWeight(t, difficulty).value);
    }
  }

  function ItemAt(d: ItemData): Pos { d.position }

  /**
   * An item placed in a room: the gold when it comes from the room's first
   * spawn, otherwise one of the offered types; on the room's floor, at a
   * point that was free.
   */
  predicate ItemPlaced(tm: TileMap, d: ItemData, choices: seq<(ItemType, nat)>, gold: ItemType,
                       isGold: bool, inner: Rect, occupied: set<Pos>)
    reads tm.cells
  {
    && (if isGold then d.itemType == gold else d.itemType in Offered(choices))
    && inner.Contains(d.position)
    && FreeIn(tm, occupied, d.position)
  }

  /**
   * What one item spawn places, given the cells already used: the gold for
   * the room's first spawn, otherwise the type the weighted choice takes, on
   * the first free draw. The choice is drawn for the gold spawn too, and
   * nothing is placed when it fails or no draw is free.
   */
  function ItemSpawned(blocked: set<Pos>, choices: seq<(ItemType, nat)>, gold: ItemType, isGold: bool,
                       occupied: set<Pos>, spawn: Spawn): Option<ItemData>
  {
    var it := Choice(choices, spawn.r);
    var p := SpawnPoint(blocked, occupied, spawn.draws, 0);
    if it.Some? && p.Some? then Some(ItemData(if isGold then gold else it.value, p.value)) else None
  }

  /**
   * The items a room's spawns place, in order; only the first spawn can be
   * the gold spawn (`isGold`), and later spawns see the points taken before
   * them as used.
   */
  function ItemRun(blocked: set<Pos>, choices: seq<(ItemType, nat)>, gold: ItemType, isGold: bool,
                   occupied: set<Pos>, spawns: seq<Spawn>): seq<ItemData>
    decreases |spawns|
  {
    if spawns == [] then []
    else match ItemSpawned(blocked, choices, gold, isGold, occupied, spawns[0])
      case None => ItemRun(blocked, choices, gold, false, occupied, spawns[1..])
      case Some(d) => [d] + ItemRun(blocked, choices, gold, false, occupied + {d.position}, spawns[1..])
  }

  /** Whether a run's first item is the gold: the run starts with the gold spawn and that spawn found a point. */
  function GoldFirst(blocked: set<Pos>, choices: seq<(ItemType, nat)>, gold: ItemType, isGold: bool,
                     occupied: set<Pos>, spawns: seq<Spawn>): bool
  {
    isGold && spawns != [] && ItemSpawned(blocked, choices, gold, true, occupied, spawns[0]).Some?
  }

  /** Running the non-gold spawns from `s` on is running spawn `s`, then the rest with its point used. */
  lemma {:induction false} ItemRunStep(blocked: set<Pos>, choices: seq<(ItemType, nat)>, gold: ItemType, placed: seq<ItemData>,
                                       occupied: set<Pos>, spawns: seq<Spawn>, s: nat)
    requires s < |spawns|
    ensures var d := ItemSpawned(blocked, choices, gold, false, occupied, spawns[s]);
      placed + ItemRun(blocked, choices, gold, false, occupied, spawns[s..]) ==
      if d.Some? then (placed + [d.value]) + ItemRun(blocked, choices, gold, false, occupied + {d.value.position}, spawns[s + 1..])
      else placed + ItemRun(blocked, choices, gold, false, occupied, spawns[s + 1..])
  {
    assert spawns[s..][0] == spawns[s] && spawns[s..][1..] == spawns[s + 1..];
  }

  /** What one item spawn places is the gold or an offered type, on a free floor point. */
  lemma ItemSpawnedPlaced(tm: TileMap, choices: seq<(ItemType, nat)>, gold: ItemType, isGold: bool, inner: Rect,
                          occupied: set<Pos>, spawn: Spawn)
    requires SpawnIn(tm, inner, spawn)
    requires ItemSpawned(Blocked(tm), choices, gold, isGold, occupied, spawn).Some?
    ensures ItemPlaced(tm, ItemSpawned(Blocked(tm), choices, gold, isGold, occupied, spawn).value, choices, gold, isGold, inner, occupied)
  {
    ChoiceIsFirstReached(choices, spawn.r);
    var i :| 0 <= i < |choices| && Reaches(choices, spawn.r, i) && Choice(choices, spawn.r).value == choices[i].0;
    assert choices[i].0 in Offered(choices);
    var j := SpawnPointFree(Blocked(tm), occupied, spawn.draws, 0);
    BlockedAt(tm, spawn.draws[j]);
  }

  /**
   * Nothing is skipped when there is room: if every spawn's draw chooses
   * and each spawn's first draw is free, every spawn places an item, in
   * order, on its first draw: the gold for a gold spawn, otherwise the type
   * its draw chooses.
   */
  lemma {:induction false} ItemRunFillsFreeDraws(blocked: set<Pos>, choices: seq<(ItemType, nat)>, gold: ItemType, isGold: bool,
                                                 occupied: set<Pos>, spawns: seq<Spawn>)
    requires AllChoose(choices, spawns)
    requires FirstDrawsFree(blocked, occupied, spawns)
    ensures var run := ItemRun(blocked, choices, gold, isGold, occupied, spawns);
      && |run| == |spawns|
      && forall s | 0 <= s < |spawns| ::
           (if isGold && s == 0 then run[s].itemType == gold else Some(run[s].itemType) == Choice(choices, spawns[s].r))
           && run[s].position == spawns[s].draws[0]
    decreases |spawns|
  {
    if spawns != [] {
      var d := spawns[0].draws[0];
      ChoiceIsFirstReached(choices, spawns[0].r);
      assert SpawnPoint(blocked, occupied, spawns[0].draws, 0) == Some(d);
      FirstDrawsFreeTail(blocked, occupied, spawns);
      ItemRunFillsFreeDraws(blocked, choices, gold, false, occupied + {d}, spawns[1..]);
      assert forall s | 1 <= s < |spawns| :: spawns[1..][s - 1] == spawns[s];
    }
  }

  /**
   * The items a room's spawns place: at most one per spawn, the first the
   * gold exactly when GoldFirst holds and every other an offered type, each
   * on the room's floor at a point that was free before the spawns began,
   * and no two on the same point.
   */
  lemma {:induction false} ItemRunPlaced(tm: TileMap, choices: seq<(ItemType, nat)>, gold: ItemType, isGold: bool, inner: Rect,
                                         occupied: set<Pos>, spawns: seq<Spawn>)
    requires SpawnsIn(tm, inner, spawns)
    ensures var run := ItemRun(Blocked(tm), choices, gold, isGold, occupied, spawns);
      var withGold := GoldFirst(Blocked(tm), choices, gold, isGold, occupied, spawns);
      && |run| <= |spawns| && Distinct(run, ItemAt) && (withGold ==> |run| > 0)
      && forall i | 0 <= i < |run| :: ItemPlaced(tm, run[i], choices, gold, withGold && i == 0, inner, occupied)
    decreases |spawns|
  {
    if spawns != [] {
      var rest := spawns[1..];
      assert SpawnsIn(tm, inner, rest) by {
        forall s | 0 <= s < |rest|
          ensures SpawnIn(tm, inner, rest[s])
        {
          assert rest[s] == spawns[s + 1];
        }
      }
      var d := ItemSpawned(Blocked(tm), choices, gold, isGold, occupied, spawns[0]);
      if d.None? {
        ItemRunPlaced(tm, choices, gold, false, inner, occupied, rest);
        if isGold {
          assert ItemSpawned(Blocked(tm), choices, gold, true, occupied, spawns[0]).None?;
        }
      } else {
        var later := occupied + {d.value.position};
        ItemRunPlaced(tm, choices, gold, false, inner, later, rest);
        ItemSpawnedPlaced(tm, choices, gold, isGold, inner, occupied, spawns[0]);
        var after := ItemRun(Blocked(tm), choices, gold, false, later, rest);
        var run := [d.value] + after;
        var withGold := GoldFirst(Blocked(tm), choices, gold, isGold, occupied, spawns);
        assert withGold == isGold;
        forall i | 0 <= i < |run|
          ensures ItemPlaced(tm, run[i], choices, gold, withGold && i == 0, inner, occupied)
        {
          if i > 0 {
            assert run[i] == after[i - 1];
          }
        }
        forall i, j | 0 <= i < j < |run|
          ensures ItemAt(run[i]) != ItemAt(run[j])
        {
          assert run[j] == after[j - 1];
          if i > 0 {
            assert run[i] == after[i - 1];
          }
        }
      }
    }
  }

  /**
   * One item spawn: the weighted choice is drawn even for the gold spawn
   * (`chosen` false when it fails), then the gold replaces it on the first
   * spawn, then a free point is searched for.
   */
  method SpawnItem(tm: TileMap, choices: seq<(ItemType, nat)>, gold: ItemType, isGold: bool, inner: Rect, spawn: Spawn)
    returns (chosen: bool, d: Option<ItemData>)
    requires SpawnIn(tm, inner, spawn)
    modifies tm`occupiedCells
    ensures chosen <==> Chooses(choices, spawn.r)
    ensures d.Some? ==> chosen && ItemPlaced(tm, d.value, choices, gold, isGold, inner, old(tm.occupiedCells))
    ensures d.Some? ==> tm.occupiedCells == old(tm.occupiedCells) + {d.value.position}
    ensures d.None? ==> tm.occupiedCells == old(tm.occupiedCells)
    ensures chosen ==> d == ItemSpawned(Blocked(tm), choices, gold, isGold, old(tm.occupiedCells), spawn)
  {
    var it := WeightedChoice(choices, spawn.r);
    if it.None? {
      return false, None;
    }
    chosen := true;
    var itemType := if isGold then gold else it.value;
    var p := Occupy(tm, spawn.draws);
    if p.None? {
      return true, None;
    }
    d := Some(ItemData(itemType, p.value));
  }

  /** Spawns after the first: each places an offered item or nothing. */
  method SpawnChosenItems(tm: TileMap, choices: seq<(ItemType, nat)>, gold: ItemType, inner: Rect, spawns: seq<Spawn>)
    returns (ok: bool, placed: seq<ItemData>)
    requires SpawnsIn(tm, inner, spawns)
    modifies tm`occupiedCells
    ensures ok <==> AllChoose(choices, spawns)
    ensures ok ==> |placed| <= |spawns| && tm.occupiedCells == old(tm.occupiedCells) + Positions(placed, ItemAt)
    ensures ok ==> forall i | 0 <= i < |placed| :: ItemPlaced(tm, placed[i], choices, gold, false, inner, old(tm.occupiedCells))
    ensures ok ==> Distinct(placed, ItemAt)
    ensures ok ==> placed == ItemRun(Blocked(tm), choices, gold, false, old(tm.occupiedCells), spawns)
  {
    ghost var blocked := Blocked(tm);
    placed := [];
    var s := 0;
    while s < |spawns|
      invariant s <= |spawns|
      invariant blocked == Blocked(tm)
      invariant forall k | 0 <= k < s :: Chooses(choices, spawns[k].r)
      invariant tm.occupiedCells == old(tm.occupiedCells) + Positions(placed, ItemAt)
      invariant placed + ItemRun(blocked, choices, gold, false, tm.occupiedCells, spawns[s..])
                == ItemRun(blocked, choices, gold, false, old(tm.occupiedCells), spawns)
    {
      ghost var occ := tm.occupiedCells;
      var chosen, d := SpawnItem(tm, choices, gold, false, inner, spawns[s]);
      if !chosen {
        return false, placed;
      }
      ItemRunStep(blocked, choices, gold, placed, occ, spawns, s);
      ChoosesUpTo(choices, spawns, s);
      if d.Some? {
        ghost var before := placed;
        placed := placed + [d.value];
        assert placed[..|before|] == before;
      }
      s := s + 1;
    }
    assert spawns[|spawns|..] == [];
    assert placed == ItemRun(blocked, choices, gold, false, old(tm.occupiedCells), spawns);
    ItemRunPlaced(tm, choices, gold, false, inner, old(tm.occupiedCells), spawns);
    ok := true;
  }

  /**
   * The item spawns of one room, in order. The first spawn's choice is
   * replaced by the gold; spawns with no free point place nothing, so the
   * gold, when it found a point (`withGold`), is the first item and every
   * other item is an offered one.
   */
  method SpawnItems(tm: TileMap, choices: seq<(ItemType, nat)>, gold: ItemType, inner: Rect, spawns: seq<Spawn>)
    returns (ok: bool, placed: seq<ItemData>, ghost withGold: bool)
    requires SpawnsIn(tm, inner, spawns)
    modifies tm`occupiedCells
    ensures ok <==> AllChoose(choices, spawns)
    ensures ok ==> |placed| <= |spawns| && tm.occupiedCells == old(tm.occupiedCells) + Positions(placed, ItemAt)
    ensures ok ==> withGold == GoldFirst(Blocked(tm), choices, gold, true, old(tm.occupiedCells), spawns)
    ensures ok ==> forall i | 0 <= i < |placed| ::
      ItemPlaced(tm, placed[i], choices, gold, withGold && i == 0, inner, old(tm.occupiedCells))
    ensures ok ==> Distinct(placed, ItemAt)
    ensures ok ==> placed == ItemRun(Blocked(tm), choices, gold, true, old(tm.occupiedCells), spawns)
  {
    if spawns == [] {
      return true, [], false;
    }
    ghost var blocked, occ0 := Blocked(tm), tm.occupiedCells;
    var chosen, first := SpawnItem(tm, choices, gold, true, inner, spawns[0]);
    if !chosen {
      return false, [], false;
    }
    ghost var occ := tm.occupiedCells;
    var rest;
    ok, rest := SpawnChosenItems(tm, choices, gold, inner, spawns[1..]);
    assert AllChoose(choices, spawns) <==> ok by {
      assert forall k | 1 <= k < |spawns| :: spawns[1..][k - 1] == spawns[k];
    }
    if !ok {
      return false, [], false;
    }
    placed := (if first.Some? then [first.value] else []) + rest;
    withGold := first.Some?;
    PositionsAppend(if first.Some? then [first.value] else [], rest, ItemAt);
    assert placed == ItemRun(blocked, choices, gold, true, occ0, spawns);
    ItemRunPlaced(tm, choices, gold, true, inner, occ0, spawns);
  }

  /**
   * The room's items can all be chosen: with at least one spawn, every item
   * type's chance at the room's difficulty can be read and every spawn's
   * draw takes a choice.
   */
  predicate ItemsChoosable(items: seq<ItemType>, difficulty: Option<int>, spawns: seq<Spawn>) {
    spawns == [] || (ItemWeights(items, difficulty).Some? && AllChoose(ItemWeights(items, difficulty).value, spawns))
  }

  /** An item placed in `room`: see ItemPlaced, with the room's chances and floor. */
  predicate ItemInRoom(tm: TileMap, d: ItemData, room: Room, items: seq<ItemType>, gold: ItemType, isGold: bool, occupied: set<Pos>)
    reads tm.cells, room
  {
    var weights := ItemWeights(items, room.difficulty);
    weights.Some? && ItemPlaced(tm, d, weights.value, gold, isGold, room.rect.Inset(), occupied)
  }

  /** The items a room's spawns place: see ItemRun, with the chances at the room's difficulty and the first spawn the gold. */
  function RoomItems(blocked: set<Pos>, items: seq<ItemType>, gold: ItemType, difficulty: Option<int>,
                     occupied: set<Pos>, spawns: seq<Spawn>): seq<ItemData>
  {
    var weights := ItemWeights(items, difficulty);
    if spawns == [] || weights.None? then []
    else ItemRun(blocked, weights.value, gold, true, occupied, spawns)
  }

  /** Whether a room's first item is its gold. */
  function RoomGold(blocked: set<Pos>, items: seq<ItemType>, gold: ItemType, difficulty: Option<int>,
                    occupied: set<Pos>, spawns: seq<Spawn>): bool
  {
    var weights := ItemWeights(items, difficulty);
    spawns != [] && weights.Some? && GoldFirst(blocked, weights.value, gold, true, occupied, spawns)
  }

  /** The items a room's spawns place stand in the room, on distinct points, the gold first when RoomGold holds. */
  lemma RoomItemsPlaced(tm: TileMap, room: Room, items: seq<ItemType>, gold: ItemType, occupied: set<Pos>, spawns: seq<Spawn>)
    requires SpawnsIn(tm, room.rect.Inset(), spawns)
    ensures var placed := RoomItems(Blocked(tm), items, gold, room.difficulty, occupied, spawns);
      var withGold := RoomGold(Blocked(tm), items, gold, room.difficulty, occupied, spawns);
      && Distinct(placed, ItemAt)
      && forall i | 0 <= i < |placed| :: ItemInRoom(tm, placed[i], room, items, gold, withGold && i == 0, occupied)
  {
    var weights := ItemWeights(items, room.difficulty);
    if spawns != [] && weights.Some? {
      ItemRunPlaced(tm, weights.value, gold, true, room.rect.Inset(), occupied, spawns);
    }
  }

  /**
   * A room's items: one spawn more than the room's item count, the first of
   * them the room's gold (`gold` is the catalog's gold entry).
   */
  method PlaceRoomItems(tm: TileMap, room: Room, items: seq<ItemType>, gold: ItemType, spawns: seq<Spawn>)
    returns (ok: bool, placed: seq<ItemData>, ghost withGold: bool)
    requires SpawnsIn(tm, room.rect.Inset(), spawns)
    modifies tm`occupiedCells
    ensures ok <==> ItemsChoosable(items, room.difficulty, spawns)
    ensures ok ==> |placed| <= |spawns| && tm.occupiedCells == old(tm.occupiedCells) + Positions(placed, ItemAt)
    ensures ok ==> forall i | 0 <= i < |placed| :: ItemInRoom(tm, placed[i], room, items, gold, withGold && i == 0, old(tm.occupiedCells))
    ensures ok ==> Distinct(placed, ItemAt)
    ensures ok ==> placed == RoomItems(Blocked(tm), items, gold, room.difficulty, old(tm.occupiedCells), spawns)
    ensures ok ==> withGold == RoomGold(Blocked(tm), items, gold, room.difficulty, old(tm.occupiedCells), spawns)
  {
    if spawns == [] {
      return true, [], false;
    }
    var weights := ItemWeights(items, room.difficulty);
    if weights.None? {
      return false, [], false;
    }
    ok, placed, withGold := SpawnItems(tm, weights.value, gold, room.rect.Inset(), spawns);
  }

  /** The points taken once the first n rooms have placed their items. */
  function LevelItemCells(blocked: set<Pos>, kinds: seq<(RoomType, Option<int>)>, items: seq<ItemType>, gold: ItemType,
                          plans: seq<seq<Spawn>>, occupied: set<Pos>, n: nat): set<Pos>
    requires n <= |kinds| && n <= |plans|
  {
    if n == 0 then occupied
    else
      var before := LevelItemCells(blocked, kinds, items, gold, plans, occupied, n - 1);
      before + Positions(RoomItems(blocked, items, gold, kinds[n - 1].1, before, plans[n - 1]), ItemAt)
  }

  /** The items of the first n rooms, in room order; each room's spawns see the points taken by the rooms before it. */
  function LevelItems(blocked: set<Pos>, kinds: seq<(RoomType, Option<int>)>, items: seq<ItemType>, gold: ItemType,
                      plans: seq<seq<Spawn>>, occupied: set<Pos>, n: nat): seq<ItemData>
    requires n <= |kinds| && n <= |plans|
  {
    if n == 0 then []
    else
      LevelItems(blocked, kinds, items, gold, plans, occupied, n - 1)
      + RoomItems(blocked, items, gold, kinds[n - 1].1, LevelItemCells(blocked, kinds, items, gold, plans, occupied, n - 1), plans[n - 1])
  }

  /** The points taken after n rooms are the points taken before and those of the rooms' items. */
  lemma {:induction false} LevelItemCellsAre(blocked: set<Pos>, kinds: seq<(RoomType, Option<int>)>, items: seq<ItemType>,
                                             gold: ItemType, plans: seq<seq<Spawn>>, occupied: set<Pos>, n: nat)
    requires n <= |kinds| && n <= |plans|
    ensures LevelItemCells(blocked, kinds, items, gold, plans, occupied, n)
            == occupied + Positions(LevelItems(blocked, kinds, items, gold, plans, occupied, n), ItemAt)
  {
    if n > 0 {
      var k := n - 1;
      LevelItemCellsAre(blocked, kinds, items, gold, plans, occupied, k);
      var before := LevelItems(blocked, kinds, items, gold, plans, occupied, k);
      var placed := RoomItems(blocked, items, gold, kinds[k].1, LevelItemCells(blocked, kinds, items, gold, plans, occupied, k), plans[k]);
      LevelItemsStep(blocked, kinds, items, gold, plans, occupied, k);
      PositionsAppend(before, placed, ItemAt);
    }
  }

  /** The first k + 1 rooms' items are the first k rooms' and then room k's. */
  lemma LevelItemsStep(blocked: set<Pos>, kinds: seq<(RoomType, Option<int>)>, items: seq<ItemType>, gold: ItemType,
                       plans: seq<seq<Spawn>>, occupied: set<Pos>, k: nat)
    requires k < |kinds| && k < |plans|
    ensures var cells := LevelItemCells(blocked, kinds, items, gold, plans, occupied, k);
      var placed := RoomItems(blocked, items, gold, kinds[k].1, cells, plans[k]);
      && LevelItems(blocked, kinds, items, gold, plans, occupied, k + 1) == LevelItems(blocked, kinds, items, gold, plans, occupied, k) + placed
      && LevelItemCells(blocked, kinds, items, gold, plans, occupied, k + 1) == cells + Positions(placed, ItemAt)
  {
  }

  /** Item i was placed in room `from[i]`, as that room's gold when `golds[i]`. */
  predicate ItemsInRooms(tm: TileMap, ds: seq<ItemData>, from: seq<nat>, golds: seq<bool>, rooms: seq<Room>,
                         items: seq<ItemType>, gold: ItemType, occupied: set<Pos>)
    reads tm.cells, rooms
  {
    |from| == |ds| && |golds| == |ds| &&
    forall i | 0 <= i < |ds| :: from[i] < |rooms| && ItemInRoom(tm, ds[i], rooms[from[i]], items, gold, golds[i], occupied)
  }

  /** The items of each of the first n rooms can be chosen. */
  predicate RoomsItemsChoosable(kinds: seq<(RoomType, Option<int>)>, items: seq<ItemType>, plans: seq<seq<Spawn>>, n: nat)
    requires n <= |kinds| && n <= |plans|
  {
    forall k | 0 <= k < n :: ItemsChoosable(items, kinds[k].1, plans[k])
  }

  /** Room k's items can be chosen after those of the rooms before it. */
  lemma RoomsItemsChoosableStep(kinds: seq<(RoomType, Option<int>)>, items: seq<ItemType>, plans: seq<seq<Spawn>>, k: nat)
    requires k < |kinds| && k < |plans|
    requires RoomsItemsChoosable(kinds, items, plans, k)
    requires ItemsChoosable(items, kinds[k].1, plans[k])
    ensures RoomsItemsChoosable(kinds, items, plans, k + 1)
  {
  }

  /** When room k's items cannot be chosen, the items of the first n > k rooms cannot be. */
  lemma RoomItemsNotChoosable(kinds: seq<(RoomType, Option<int>)>, items: seq<ItemType>, plans: seq<seq<Spawn>>, k: nat, n: nat)
    requires k < n <= |kinds| && n <= |plans|
    requires !ItemsChoosable(items, kinds[k].1, plans[k])
    ensures !RoomsItemsChoosable(kinds, items, plans, n)
  {
  }

  /** The items of the first n rooms: each room's could be chosen, each item stands in its room, and no two share a point. */
  predicate ItemsPlaced(tm: TileMap, ds: seq<ItemData>, from: seq<nat>, golds: seq<bool>, rooms: seq<Room>, items: seq<ItemType>,
                        gold: ItemType, plans: seq<seq<Spawn>>, occupied: set<Pos>, n: nat)
    reads tm.cells, rooms
  {
    && n <= |rooms| && n <= |plans|
    && RoomsItemsChoosable(Kinds(rooms), items, plans, n)
    && ItemsInRooms(tm, ds, from, golds, rooms, items, gold, occupied)
    && Distinct(ds, ItemAt)
  }

  /** Adding the items of room k, placed clear of the items before them, extends the record to k + 1 rooms. */
  lemma {:induction false} ItemsPlacedAppend(tm: TileMap, ds: seq<ItemData>, from: seq<nat>, golds: seq<bool>, placed: seq<ItemData>,
                                             withGold: bool, rooms: seq<Room>, items: seq<ItemType>, gold: ItemType,
                                             plans: seq<seq<Spawn>>, occupied: set<Pos>, k: nat)
    requires ItemsPlaced(tm, ds, from, golds, rooms, items, gold, plans, occupied, k) && k < |rooms| && k < |plans|
    requires ItemsChoosable(items, rooms[k].difficulty, plans[k])
    requires Distinct(placed, ItemAt)
    requires forall i | 0 <= i < |placed| ::
      ItemInRoom(tm, placed[i], rooms[k], items, gold, withGold && i == 0, occupied + Positions(ds, ItemAt))
    ensures ItemsPlaced(tm, ds + placed, from + Copies(k, |placed|), golds + GoldFlags(withGold, |placed|),
                        rooms, items, gold, plans, occupied, k + 1)
  {
    var later := occupied + Positions(ds, ItemAt);
    DistinctAppend(ds, placed, ItemAt, later);
    var ds', from', golds' := ds + placed, from + Copies(k, |placed|), golds + GoldFlags(withGold, |placed|);
    forall i | 0 <= i < |ds'|
      ensures from'[i] < |rooms| && ItemInRoom(tm, ds'[i], rooms[from'[i]], items, gold, golds'[i], occupied)
    {
      if i >= |ds| {
        assert ds'[i] == placed[i - |ds|] && from'[i] == k && golds'[i] == (withGold && i - |ds| == 0);
      }
    }
    KindsAt(rooms, k);
  }

  /** The gold flags of a room's items: only the first item can be the gold. */
  function GoldFlags(withGold: bool, n: nat): (r: seq<bool>)
    ensures |r| == n && forall i | 0 <= i < n :: r[i] == (withGold && i == 0)
  {
    if n == 0 then [] else GoldFlags(withGold, n - 1) + [withGold && n - 1 == 0]
  }

  /**
   * The items of the first n rooms, when each room's could be chosen, stand
   * each in its room (`from` gives the room, `golds` whether it is the
   * room's gold), on distinct points that were free.
   */
  lemma {:induction false} LevelItemsPlaced(tm: TileMap, rooms: seq<Room>, items: seq<ItemType>, gold: ItemType,
                                            plans: seq<seq<Spawn>>, occupied: set<Pos>, n: nat)
    returns (from: seq<nat>, golds: seq<bool>)
    requires PlansIn(tm, rooms, plans) && n <= |rooms|
    requires RoomsItemsChoosable(Kinds(rooms), items, plans, n)
    ensures ItemsPlaced(tm, LevelItems(Blocked(tm), Kinds(rooms), items, gold, plans, occupied, n), from, golds,
                        rooms, items, gold, plans, occupied, n)
  {
    if n == 0 {
      from, golds := [], [];
    } else {
      var k := n - 1;
      var blocked, kinds := Blocked(tm), Kinds(rooms);
      var before := LevelItems(blocked, kinds, items, gold, plans, occupied, k);
      var earlier, earlierGolds := LevelItemsPlaced(tm, rooms, items, gold, plans, occupied, k);
      var later := LevelItemCells(blocked, kinds, items, gold, plans, occupied, k);
      LevelItemCellsAre(blocked, kinds, items, gold, plans, occupied, k);
      KindsAt(rooms, k);
      RoomItemsPlaced(tm, rooms[k], items, gold, later, plans[k]);
      var placed := RoomItems(blocked, items, gold, rooms[k].difficulty, later, plans[k]);
      var withGold := RoomGold(blocked, items, gold, rooms[k].difficulty, later, plans[k]);
      ItemsPlacedAppend(tm, before, earlier, earlierGolds, placed, withGold, rooms, items, gold, plans, occupied, k);
      from, golds := earlier + Copies(k, |placed|), earlierGolds + GoldFlags(withGold, |placed|);
      LevelItemsStep(blocked, kinds, items, gold, plans, occupied, k);
    }
  }

  /**
   * The items of every room in turn; see PlaceItems. `blocked` and `kinds`
   * are the map's blocked points and the rooms' types and difficulties,
   * which the loop does not change.
   */
  method PlaceAllItems(tm: TileMap, rooms: seq<Room>, items: seq<ItemType>, gold: ItemType, plans: seq<seq<Spawn>>,
                       ghost blocked: set<Pos>, ghost kinds: seq<(RoomType, Option<int>)>)
    returns (ok: bool, ds: seq<ItemData>)
    requires PlansIn(tm, rooms, plans)
    requires blocked == Blocked(tm) && kinds == Kinds(rooms)
    modifies tm`occupiedCells
    ensures ok <==> RoomsItemsChoosable(kinds, items, plans, |rooms|)
    ensures ok ==> tm.occupiedCells == LevelItemCells(blocked, kinds, items, gold, plans, old(tm.occupiedCells), |rooms|)
    ensures ok ==> ds == LevelItems(blocked, kinds, items, gold, plans, old(tm.occupiedCells), |rooms|)
  {
    ds := [];
    var k := 0;
    while k < |rooms|
      invariant k <= |rooms|
      invariant blocked == Blocked(tm)
      invariant ItemsProgress(blocked, kinds, items, gold, plans, old(tm.occupiedCells), tm.occupiedCells, ds, k)
    {
      var roomOk;
      roomOk, ds := PlaceNextRoomItems(tm, rooms, items, gold, plans, blocked, kinds, old(tm.occupiedCells), ds, k);
      if !roomOk {
        return false, ds;
      }
      k := k + 1;
    }
    ok := true;
  }

  /** After k rooms: each could choose its items, and the taken points and the items are those of the first k rooms. */
  predicate ItemsProgress(blocked: set<Pos>, kinds: seq<(RoomType, Option<int>)>, items: seq<ItemType>, gold: ItemType,
                          plans: seq<seq<Spawn>>, occupied: set<Pos>, cells: set<Pos>, ds: seq<ItemData>, k: nat)
  {
    && k <= |kinds| && k <= |plans|
    && RoomsItemsChoosable(kinds, items, plans, k)
    && cells == LevelItemCells(blocked, kinds, items, gold, plans, occupied, k)
    && ds == LevelItems(blocked, kinds, items, gold, plans, occupied, k)
  }

  /** One step of PlaceAllItems: room k's items appended to those of the rooms before it. */
  method PlaceNextRoomItems(tm: TileMap, rooms: seq<Room>, items: seq<ItemType>, gold: ItemType, plans: seq<seq<Spawn>>,
                            ghost blocked: set<Pos>, ghost kinds: seq<(RoomType, Option<int>)>, ghost occupied: set<Pos>,
                            ds: seq<ItemData>, k: nat)
    returns (roomOk: bool, ds': seq<ItemData>)
    requires PlansIn(tm, rooms, plans) && k < |rooms|
    requires blocked == Blocked(tm) && kinds == Kinds(rooms)
    requires ItemsProgress(blocked, kinds, items, gold, plans, occupied, tm.occupiedCells, ds, k)
    modifies tm`occupiedCells
    ensures roomOk <==> ItemsChoosable(items, kinds[k].1, plans[k])
    ensures !roomOk ==> !RoomsItemsChoosable(kinds, items, plans, |rooms|)
    ensures roomOk ==> ItemsProgress(blocked, kinds, items, gold, plans, occupied, tm.occupiedCells, ds', k + 1)
  {
    var placed;
    ghost var withGold;
    ds' := ds;
    roomOk, placed, withGold := PlaceRoomItems(tm, rooms[k], items, gold, plans[k]);
    if roomOk {
      assert blocked == Blocked(tm);
      LevelItemsStep(blocked, kinds, items, gold, plans, occupied, k);
      RoomsItemsChoosableStep(kinds, items, plans, k);
      ds' := ds + placed;
    } else {
      RoomItemsNotChoosable(kinds, items, plans, k, |rooms|);
    }
  }

  /**
   * Places the items of every room, in the order of `rooms`, and records
   * them as the map's item points of interest. `ok` is false when a chance
   * cannot be read or a weighted choice fails, which stops the generation.
   * `from[i]` is the room of item i and `golds[i]` whether it is that room's
   * gold.
   */
  method PlaceItems(tm: TileMap, rooms: seq<Room>, items: seq<ItemType>, gold: ItemType, plans: seq<seq<Spawn>>)
    returns (ok: bool, ghost from: seq<nat>, ghost golds: seq<bool>)
    requires PlansIn(tm, rooms, plans)
    modifies tm`occupiedCells, tm`pointsOfInterest
    ensures ok <==> RoomsItemsChoosable(Kinds(rooms), items, plans, |rooms|)
    ensures ok ==> tm.pointsOfInterest == old(tm.pointsOfInterest).(items := tm.pointsOfInterest.items)
    ensures ok ==> tm.occupiedCells == old(tm.occupiedCells) + Positions(tm.pointsOfInterest.items, ItemAt)
    ensures ok ==> ItemsPlaced(tm, tm.pointsOfInterest.items, from, golds, rooms, items, gold, plans, old(tm.occupiedCells), |rooms|)
    ensures ok ==> tm.pointsOfInterest.items == LevelItems(Blocked(tm), Kinds(rooms), items, gold, plans, old(tm.occupiedCells), |rooms|)
  {
    var ds;
    ok, ds := PlaceAllItems(tm, rooms, items, gold, plans, Blocked(tm), Kinds(rooms));
    from, golds := [], [];
    if ok {
      LevelItemCellsAre(Blocked(tm), Kinds(rooms), items, gold, plans, old(tm.occupiedCells), |rooms|);
      from, golds := LevelItemsPlaced(tm, rooms, items, gold, plans, old(tm.occupiedCells), |rooms|);
      tm.pointsOfInterest := tm.pointsOfInterest.(items := ds);
    }
  }
}
