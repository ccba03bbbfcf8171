/** The area map: a flood fill that draws a 5 by 5 lattice of rooms, with arrows between
    them, into a buffer of 12 rows of 11 cells, over an arbitrary graph of exits. */
module AreaMap {
  import opened Text

  datatype Direction =
    | East | West | South | North | NorthEast | NorthWest | SouthEast | SouthWest
    | Up | Down | Below | Other(name: string)

  /** From a room's cell to the cell of its arrow; twice that leads to the next room's cell. */
  function Offset(d: Direction): int {
    match d
    case East => 1
    case West => -1
    case South => 11
    case North => -11
    case NorthEast => -10
    case NorthWest => -12
    case SouthEast => 12
    case SouthWest => 10
    case _ => 0
  }

  predicate Planar(d: Direction) { Offset(d) != 0 }

  type RoomId = nat

  /** The exits of a room in their dictionary's order; a closed exit leads nowhere. */
  datatype Exit = Exit(dir: Direction, target: Option<RoomId>)

  /** Rooms that have an exit dictionary. */
  type Area = map<RoomId, seq<Exit>>

  /** The cells that can hold a room. */
  const ROOM_NUM: set<int> := {
    12, 14, 16, 18, 20, 34, 36, 38, 40, 42, 56, 58, 60, 62, 64,
    78, 80, 82, 84, 86, 100, 102, 104, 106, 108 }

  const SIZE := 132
  const CENTER := 60

  datatype Mark = Plain | UpMark | DownMark | BothMark
  datatype Stroke = Horizontal | Vertical | Slash | Backslash
  datatype Cell = Blank | Place(mark: Mark) | Pointer(dir: Direction) | Bar(stroke: Stroke)

  function StrokeOf(d: Direction): Stroke {
    match d
    case East => Horizontal
    case West => Horizontal
    case South => Vertical
    case North => Vertical
    case NorthEast => Slash
    case SouthWest => Slash
    case _ => Backslash
  }

  /** The mark of a room after its exits up and down were seen. */
  function MarkOf(exits: seq<Exit>): Mark {
    if exits == [] then Plain
    else
      var m := MarkOf(exits[..|exits| - 1]);
      match exits[|exits| - 1].dir
      case Up => if m == Plain then UpMark else BothMark
      case Down => if m == Plain then DownMark else BothMark
      case Below => if m == Plain then DownMark else BothMark
      case _ => m
  }

  /** What is drawn: the cells that can hold rooms, the exits, and the room in the centre. */
  datatype Chart = Chart(rooms: set<int>, area: Area, root: RoomId)

  /** Room cells keep their distance from the edge, and arrow cells are never room cells. */
  ghost predicate Spaced(rooms: set<int>) {
    forall c, d :: c in rooms && Planar(d) ==>
      12 <= c <= 108 && 0 <= c + Offset(d) < SIZE && c + Offset(d) !in rooms
  }

  lemma RoomCell(c: int, d: Direction)
    requires c in ROOM_NUM
    ensures 12 <= c <= 108
    ensures Planar(d) ==> 0 <= c + Offset(d) < SIZE && c + Offset(d) !in ROOM_NUM
  {
  }

  lemma RoomNumIsSpaced()
    ensures Spaced(ROOM_NUM) && CENTER in ROOM_NUM
  {
    forall c, d | c in ROOM_NUM && Planar(d)
      ensures 12 <= c <= 108 && 0 <= c + Offset(d) < SIZE && c + Offset(d) !in ROOM_NUM
    {
      RoomCell(c, d);
    }
  }

  /** The room and the cell to which a list of directions leads from the centre, through
      room cells only and along exits that are open. */
  function Walk(ch: Chart, path: seq<Direction>): Option<(RoomId, int)> {
    if path == [] then Some((ch.root, CENTER))
    else
      var d := path[|path| - 1];
      match Walk(ch, path[..|path| - 1])
      case None => None
      case Some((room, cell)) =>
        if cell in ch.rooms && room in ch.area && Planar(d) && Lookup(ch.area[room], d).Some?
        then Some((Lookup(ch.area[room], d).value, cell + 2 * Offset(d)))
        else None
  }

  function Lookup(exits: seq<Exit>, d: Direction): Option<RoomId> {
    if exits == [] then None
    else if exits[0].dir == d then exits[0].target
    else Lookup(exits[1..], d)
  }

  /** Exit names are dictionary keys. */
  predicate Distinct(exits: seq<Exit>) {
    forall i, j :: 0 <= i < j < |exits| ==> exits[i].dir != exits[j].dir
  }

  predicate AllDistinct(area: Area) {
    forall r :: r in area ==> Distinct(area[r])
  }

  lemma {:induction false} LookupAt(exits: seq<Exit>, i: nat)
    requires i < |exits| && Distinct(exits)
    ensures Lookup(exits, exits[i].dir) == exits[i].target
    decreases |exits|
  {
    if i > 0 { LookupAt(exits[1..], i - 1); }
  }

  /** The rooms found so far, by cell, the directions that led there, and the exits for which
      an arrow was drawn, each by the cell of its room and its direction. */
  datatype Survey = Survey(placed: map<int, RoomId>, via: map<int, seq<Direction>>, drawn: set<(int, Direction)>)

  /** Where an exit would put the next room: nowhere if it is closed or leads off the lattice. */
  predicate Reaches(ch: Chart, cell: int, e: Exit) {
    Planar(e.dir) && e.target.Some? && e.target.value in ch.area && cell + 2 * Offset(e.dir) in ch.rooms
  }

  /** The first `n` exits of the room at `cell` were followed and drawn. */
  predicate Followed(ch: Chart, cells: seq<Cell>, s: Survey, cell: int, n: nat) {
    cell in s.placed && s.placed[cell] in ch.area && n <= |ch.area[s.placed[cell]]| &&
    forall i :: 0 <= i < n ==>
      var e := ch.area[s.placed[cell]][i];
      && (Reaches(ch, cell, e) ==> cell + 2 * Offset(e.dir) in s.placed)
      && (Planar(e.dir) ==> 0 <= cell + Offset(e.dir) < |cells| && !cells[cell + Offset(e.dir)].Blank?)
  }

  /** All exits of the room at `cell` were followed, and its mark shows its vertical ones. */
  predicate Finished(ch: Chart, cells: seq<Cell>, s: Survey, cell: int) {
    && Followed(ch, cells, s, cell, if cell in s.placed && s.placed[cell] in ch.area then |ch.area[s.placed[cell]]| else 0)
    && 0 <= cell < |cells| && cells[cell] == Place(MarkOf(ch.area[s.placed[cell]]))
  }

  /** Cells and survey tell the same story. */
  predicate Sketch(ch: Chart, cells: seq<Cell>, s: Survey) {
    && |cells| == SIZE
    && s.placed.Keys <= ch.rooms
    && (forall c :: 0 <= c < SIZE ==> (cells[c].Place? <==> c in s.placed))
    && (forall c :: 0 <= c < SIZE && c in ch.rooms && c !in s.placed ==> cells[c].Blank?)
    && (forall c :: c in s.placed ==>
          s.placed[c] in ch.area && c in s.via && Walk(ch, s.via[c]) == Some((s.placed[c], c)))
  }

  const PLANAR: set<Direction> := { East, West, South, North, NorthEast, NorthWest, SouthEast, SouthWest }

  /** The directions of the arrows drawn into a cell. The room is where they come from. */
  function DrawnAt(drawn: set<(int, Direction)>, k: int): set<Direction> {
    set d | d in PLANAR && (k - Offset(d), d) in drawn
  }

  /** What an arrow cell shows of the arrows drawn into it: one alone as an arrow, several as
      the stroke of one of them. */
  predicate Shows(cell: Cell, ds: set<Direction>) {
    match cell
    case Blank => ds == {}
    case Pointer(d) => ds == {d}
    case Bar(stroke) => |ds| >= 2 && exists d :: d in ds && stroke == StrokeOf(d)
    case Place(_) => false
  }

  predicate HasExit(ch: Chart, s: Survey, c: int, d: Direction) {
    c in s.placed && s.placed[c] in ch.area &&
    exists i :: 0 <= i < |ch.area[s.placed[c]]| && ch.area[s.placed[c]][i].dir == d
  }

  /** The arrow cells show the arrows drawn, which belong to exits of rooms found. */
  ghost predicate Inked(ch: Chart, cells: seq<Cell>, s: Survey) {
    && |cells| == SIZE
    && (forall c, d :: (c, d) in s.drawn ==> HasExit(ch, s, c, d))
    && (forall k :: 0 <= k < SIZE && k !in ch.rooms ==> Shows(cells[k], DrawnAt(s.drawn, k)))
  }

  /** Of the exits of the room at `c` exactly those among the first `n` were drawn. */
  predicate ExitsDrawn(ch: Chart, s: Survey, c: int, n: nat) {
    c in s.placed && s.placed[c] in ch.area &&
    forall i :: 0 <= i < |ch.area[s.placed[c]]| && Planar(ch.area[s.placed[c]][i].dir) ==>
      ((c, ch.area[s.placed[c]][i].dir) in s.drawn <==> i < n)
  }

  /** All exits of all rooms found are drawn, except those of the rooms being marked. */
  predicate AllDrawn(ch: Chart, s: Survey, open: set<int>) {
    forall c :: c in s.placed && c !in open ==>
      s.placed[c] in ch.area && ExitsDrawn(ch, s, c, |ch.area[s.placed[c]]|)
  }

  /** Of the rooms known before, no arrow was added. */
  ghost predicate SameArrows(s: Survey, t: Survey) {
    forall c, d :: c in s.placed ==> ((c, d) in t.drawn <==> (c, d) in s.drawn)
  }

  predicate SameRooms(s: Survey, t: Survey) {
    forall c :: c in s.placed ==> c in t.placed && t.placed[c] == s.placed[c]
  }

  lemma SameTwice(s: Survey, t: Survey, u: Survey)
    requires SameArrows(s, t) && SameArrows(t, u) && SameRooms(s, t)
    ensures SameArrows(s, u)
  {
  }

  lemma ExtendsSame(a: seq<Cell>, s: Survey, b: seq<Cell>, t: Survey)
    requires Extends(a, s, b, t)
    ensures SameRooms(s, t)
  {
  }

  lemma StillDrawn(ch: Chart, s: Survey, t: Survey, c: int, n: nat)
    requires ExitsDrawn(ch, s, c, n) && SameArrows(s, t) && SameRooms(s, t)
    ensures ExitsDrawn(ch, t, c, n)
  {
  }

  /** An exit that is not drawn counts as done. */
  lemma NotPlanar(ch: Chart, s: Survey, c: int, i: nat)
    requires ExitsDrawn(ch, s, c, i) && i < |ch.area[s.placed[c]]| && !Planar(ch.area[s.placed[c]][i].dir)
    ensures ExitsDrawn(ch, s, c, i + 1)
  {
  }

  lemma NowDrawn(ch: Chart, s: Survey, n: int, open: set<int>)
    requires AllDrawn(ch, s, open + {n}) && n in s.placed && s.placed[n] in ch.area
    requires ExitsDrawn(ch, s, n, |ch.area[s.placed[n]]|)
    ensures AllDrawn(ch, s, open)
  {
    hide ExitsDrawn;
  }

  /** A new room has no arrows yet. */
  lemma EnterInks(ch: Chart, cells: seq<Cell>, s: Survey, n: int, room: RoomId, path: seq<Direction>, open: set<int>)
    requires Inked(ch, cells, s) && n in ch.rooms && 0 <= n < SIZE && n !in s.placed && room in ch.area
    requires AllDrawn(ch, s, open)
    ensures var s' := s.(placed := s.placed[n := room], via := s.via[n := path]);
      && Inked(ch, cells[n := Place(Plain)], s') && AllDrawn(ch, s', open + {n})
      && ExitsDrawn(ch, s', n, 0) && SameArrows(s, s')
  {
    hide Shows;
    var s' := s.(placed := s.placed[n := room], via := s.via[n := path]);
    assert forall d :: (n, d) !in s.drawn;
    forall c, d | (c, d) in s.drawn ensures HasExit(ch, s', c, d) {
      assert HasExit(ch, s, c, d);
    }
    forall c | c in s'.placed && c !in open + {n}
      ensures s'.placed[c] in ch.area && ExitsDrawn(ch, s', c, |ch.area[s'.placed[c]]|)
    {
      assert ExitsDrawn(ch, s, c, |ch.area[s.placed[c]]|);
    }
  }

  lemma RemarkInks(ch: Chart, cells: seq<Cell>, s: Survey, n: int, m: Mark)
    requires Inked(ch, cells, s) && 0 <= n < SIZE && n in ch.rooms
    ensures Inked(ch, cells[n := Place(m)], s)
  {
    hide Shows;
    hide HasExit;
  }

  /** One more arrow in a cell. */
  lemma ShowsMore(cell: Cell, ds: set<Direction>, d: Direction)
    requires Shows(cell, ds) && d !in ds
    ensures Shows(if cell == Blank then Pointer(d) else Bar(StrokeOf(d)), ds + {d})
  {
    assert |ds + {d}| == |ds| + 1;
    assert cell.Blank? ==> ds + {d} == {d};
    assert cell.Pointer? ==> |ds| == 1;
    assert d in ds + {d};
  }

  lemma DrawnMore(drawn: set<(int, Direction)>, n: int, d: Direction, k: int)
    requires Planar(d) && (n, d) !in drawn
    ensures DrawnAt(drawn + {(n, d)}, k) == if k == n + Offset(d) then DrawnAt(drawn, k) + {d} else DrawnAt(drawn, k)
    ensures k == n + Offset(d) ==> d !in DrawnAt(drawn, k)
  {
    hide Offset;
    assert d in PLANAR by { PlanarIs(d); }
  }

  lemma PlanarIs(d: Direction)
    ensures Planar(d) <==> d in PLANAR
  {
  }

  /** The arrow of the next exit is drawn. */
  lemma DrawInks(ch: Chart, cells: seq<Cell>, s: Survey, n: int, i: nat, ink: Cell)
    requires Inked(ch, cells, s) && ExitsDrawn(ch, s, n, i)
    requires i < |ch.area[s.placed[n]]| && Planar(ch.area[s.placed[n]][i].dir) && Distinct(ch.area[s.placed[n]])
    requires var d := ch.area[s.placed[n]][i].dir;
      var k := n + Offset(d);
      0 <= k < SIZE && k !in ch.rooms && ink == if cells[k] == Blank then Pointer(d) else Bar(StrokeOf(d))
    ensures var d := ch.area[s.placed[n]][i].dir;
      Inked(ch, cells[n + Offset(d) := ink], s.(drawn := s.drawn + {(n, d)}))
  {
    hide Offset;
    hide Planar;
    hide Shows;
    hide DrawnAt;
    var d := ch.area[s.placed[n]][i].dir;
    var s' := s.(drawn := s.drawn + {(n, d)});
    var k := n + Offset(d);
    ShowsMore(cells[k], DrawnAt(s.drawn, k), d) by { DrawnMore(s.drawn, n, d, k); }
    forall c, e | (c, e) in s'.drawn ensures HasExit(ch, s', c, e) {
      if (c, e) in s.drawn { assert HasExit(ch, s, c, e); }
    }
    forall j | 0 <= j < SIZE && j !in ch.rooms
      ensures Shows(cells[k := ink][j], DrawnAt(s'.drawn, j))
    {
      DrawnMore(s.drawn, n, d, j);
    }
  }

  lemma DrawCounts(ch: Chart, s: Survey, n: int, i: nat, open: set<int>)
    requires ExitsDrawn(ch, s, n, i) && AllDrawn(ch, s, open) && n in open
    requires i < |ch.area[s.placed[n]]| && Distinct(ch.area[s.placed[n]])
    ensures var s' := s.(drawn := s.drawn + {(n, ch.area[s.placed[n]][i].dir)});
      ExitsDrawn(ch, s', n, i + 1) && AllDrawn(ch, s', open)
  {
    var s' := s.(drawn := s.drawn + {(n, ch.area[s.placed[n]][i].dir)});
    forall c | c in s'.placed && c !in open
      ensures s'.placed[c] in ch.area && ExitsDrawn(ch, s', c, |ch.area[s'.placed[c]]|)
    {
      assert ExitsDrawn(ch, s, c, |ch.area[s.placed[c]]|);
    }
  }

  /** Nothing surveyed is given up: rooms and paths stay, arrow cells stay drawn, and the
      marks of the rooms found before stay as they are. */
  predicate Extends(cells: seq<Cell>, s: Survey, cells': seq<Cell>, s': Survey) {
    && |cells'| == |cells|
    && (forall c :: c in s.placed ==> c in s'.placed && s'.placed[c] == s.placed[c])
    && (forall c :: 0 <= c < |cells| && !cells[c].Blank? ==> !cells'[c].Blank?)
    && (forall c :: c in s.placed && 0 <= c < |cells| ==> cells'[c] == cells[c])
  }

  lemma ExtendsTwice(a: seq<Cell>, s: Survey, b: seq<Cell>, t: Survey, c: seq<Cell>, u: Survey)
    requires Extends(a, s, b, t) && Extends(b, t, c, u)
    ensures Extends(a, s, c, u)
  {
  }

  lemma FollowedStays(ch: Chart, a: seq<Cell>, s: Survey, b: seq<Cell>, t: Survey, cell: int, n: nat)
    requires Extends(a, s, b, t) && Followed(ch, a, s, cell, n)
    ensures Followed(ch, b, t, cell, n)
  {
  }

  lemma FinishedStays(ch: Chart, a: seq<Cell>, s: Survey, b: seq<Cell>, t: Survey, cell: int)
    requires Extends(a, s, b, t) && Finished(ch, a, s, cell)
    ensures Finished(ch, b, t, cell)
  {
  }

  /** A newly found room is entered. */
  lemma Enter(ch: Chart, cells: seq<Cell>, s: Survey, n: int, room: RoomId, path: seq<Direction>)
    requires Sketch(ch, cells, s) && 0 <= n < SIZE
    requires n in ch.rooms && n !in s.placed && room in ch.area
    requires Walk(ch, path) == Some((room, n))
    ensures var s' := s.(placed := s.placed[n := room], via := s.via[n := path]);
      var cells' := cells[n := Place(Plain)];
      Sketch(ch, cells', s') && Extends(cells, s, cells', s')
  {
  }

  /** An arrow is drawn, or a stroke over an arrow. */
  lemma Draw(ch: Chart, cells: seq<Cell>, s: Survey, k: int, ink: Cell, drawn: set<(int, Direction)>)
    requires Sketch(ch, cells, s) && 0 <= k < SIZE && k !in ch.rooms && (ink.Pointer? || ink.Bar?)
    ensures Sketch(ch, cells[k := ink], s.(drawn := drawn))
    ensures Extends(cells, s, cells[k := ink], s.(drawn := drawn))
  {
    hide Walk;
  }

  /** The mark of the room itself changes. */
  lemma Remark(ch: Chart, cells: seq<Cell>, s: Survey, n: int, m: Mark)
    requires Sketch(ch, cells, s) && n in s.placed && 0 <= n < SIZE
    ensures Sketch(ch, cells[n := Place(m)], s)
  {
  }

  lemma PlacedInRooms(ch: Chart, cells: seq<Cell>, s: Survey, n: int)
    requires Sketch(ch, cells, s) && n in s.placed
    ensures n in ch.rooms
  {
  }

  /** Every room found since `was`, except the one at `but`, is finished. */
  predicate NewFinished(ch: Chart, cells: seq<Cell>, s: Survey, was: Survey, but: set<int>) {
    forall c :: c in s.placed && c !in was.placed && c !in but ==> Finished(ch, cells, s, c)
  }

  /** Going on from a finished state keeps everything finished. */
  lemma NewFinishedStays(ch: Chart, was: Survey, a: seq<Cell>, s: Survey, b: seq<Cell>, t: Survey, but: set<int>)
    requires NewFinished(ch, a, s, was, but) && Extends(a, s, b, t)
    requires NewFinished(ch, b, t, s, {})
    ensures NewFinished(ch, b, t, was, but)
  {
    forall c | c in t.placed && c !in was.placed && c !in but
      ensures Finished(ch, b, t, c)
    {
      if c in s.placed { FinishedStays(ch, a, s, b, t, c); }
    }
  }

  lemma NothingNew(ch: Chart, cells: seq<Cell>, s: Survey)
    ensures NewFinished(ch, cells, s, s, {}) && Extends(cells, s, cells, s)
  {
  }

  /** After an exit was drawn and followed, one more exit of the room is done. */
  lemma FollowedNext(ch: Chart, cells: seq<Cell>, s: Survey, n: int, i: nat)
    requires Followed(ch, cells, s, n, i) && i < |ch.area[s.placed[n]]|
    requires var e := ch.area[s.placed[n]][i];
      && (Reaches(ch, n, e) ==> n + 2 * Offset(e.dir) in s.placed)
      && (Planar(e.dir) ==> 0 <= n + Offset(e.dir) < |cells| && !cells[n + Offset(e.dir)].Blank?)
    ensures Followed(ch, cells, s, n, i + 1)
  {
  }

  lemma AllDistinctAt(area: Area, room: RoomId)
    requires AllDistinct(area) && room in area
    ensures Distinct(area[room])
  {
  }

  /** An arrow's cell is in the picture, and is no room's cell. */
  lemma ArrowCell(rooms: set<int>, n: int, d: Direction)
    requires Spaced(rooms) && n in rooms && Planar(d)
    ensures 0 <= n + Offset(d) < SIZE && n + Offset(d) !in rooms
  {
  }

  lemma WalkOn(ch: Chart, path: seq<Direction>, room: RoomId, n: int, i: nat)
    requires Walk(ch, path) == Some((room, n)) && n in ch.rooms && room in ch.area
    requires Distinct(ch.area[room]) && i < |ch.area[room]| && Planar(ch.area[room][i].dir)
    ensures var e := ch.area[room][i];
      e.target.Some? ==> Walk(ch, path + [e.dir]) == Some((e.target.value, n + 2 * Offset(e.dir)))
  {
    var e := ch.area[room][i];
    LookupAt(ch.area[room], i);
    assert (path + [e.dir])[..|path|] == path;
  }

  lemma MarkOn(exits: seq<Exit>, i: nat)
    requires i < |exits|
    ensures MarkOf(exits[..i + 1]) ==
      var m := MarkOf(exits[..i]);
      match exits[i].dir
      case Up => if m == Plain then UpMark else BothMark
      case Down => if m == Plain then DownMark else BothMark
      case Below => if m == Plain then DownMark else BothMark
      case _ => m
  {
    assert exits[..i + 1][..i] == exits[..i];
  }

  /** Drawing finds no room, so what was finished stays so. */
  lemma StillFinished(ch: Chart, was: Survey, a: seq<Cell>, s: Survey, b: seq<Cell>, t: Survey, but: set<int>)
    requires NewFinished(ch, a, s, was, but) && Extends(a, s, b, t) && t.placed == s.placed
    ensures NewFinished(ch, b, t, was, but)
  {
    NewFinishedStays(ch, was, a, s, b, t, but);
  }

  /** Every call takes a free cell, so the recursion ends. */
  lemma FewerFree(ch: Chart, a: seq<Cell>, s: Survey, b: seq<Cell>, t: Survey, n: int)
    requires Extends(a, s, b, t) && n in ch.rooms && n in t.placed && n !in s.placed
    ensures ch.rooms - t.placed.Keys < ch.rooms - s.placed.Keys
  {
    assert n in ch.rooms - s.placed.Keys && n !in ch.rooms - t.placed.Keys;
    assert forall c :: c in s.placed.Keys ==> c in t.placed.Keys;
    assert ch.rooms - t.placed.Keys <= ch.rooms - s.placed.Keys;
  }

  lemma ArrowStays(a: seq<Cell>, s: Survey, b: seq<Cell>, t: Survey, n: int, k: int)
    requires Extends(a, s, b, t) && n in s.placed
    ensures 0 <= n < |a| ==> b[n] == a[n]
    ensures n in t.placed && t.placed[n] == s.placed[n]
    ensures 0 <= k < |a| && !a[k].Blank? ==> k < |b| && !b[k].Blank?
  {
  }

  lemma FewerOrSame(ch: Chart, s: Survey, t: Survey)
    requires t.placed == s.placed
    ensures ch.rooms - t.placed.Keys == ch.rooms - s.placed.Keys
  {
  }

  /** What an exit leaves behind: from `a` the arrow was drawn to `b`, from `b` the room
      behind the exit was marked to `c`. */
  lemma AfterExit(ch: Chart, was: Survey, a: seq<Cell>, s: Survey, b: seq<Cell>, t: Survey, c: seq<Cell>, u: Survey, n: int, e: Exit, i: nat)
    requires Extends(a, s, b, t) && t.placed == s.placed && Extends(b, t, c, u)
    requires n in s.placed && s.placed[n] in ch.area && 0 <= n < |a|
    requires i < |ch.area[s.placed[n]]| && e == ch.area[s.placed[n]][i]
    requires Followed(ch, a, s, n, i) && NewFinished(ch, a, s, was, {n}) && NewFinished(ch, c, u, t, {})
    requires e.target.Some? && e.target.value in ch.area && n + 2 * Offset(e.dir) in ch.rooms ==>
      n + 2 * Offset(e.dir) in u.placed
    requires 0 <= n + Offset(e.dir) < |b| && !b[n + Offset(e.dir)].Blank?
    ensures Extends(a, s, c, u) && c[n] == a[n]
    ensures n in u.placed && u.placed[n] == s.placed[n]
    ensures Followed(ch, c, u, n, i + 1) && NewFinished(ch, c, u, was, {n})
  {
    hide Extends;
    hide Followed;
    hide NewFinished;
    var k := n + Offset(e.dir);
    StillFinished(ch, was, a, s, b, t, {n});
    NewFinishedStays(ch, was, b, t, c, u, {n});
    FollowedStays(ch, a, s, b, t, n, i);
    FollowedStays(ch, b, t, c, u, n, i);
    ArrowStays(a, s, b, t, n, k);
    ArrowStays(b, t, c, u, n, k);
    ExtendsTwice(a, s, b, t, c, u);
    FollowedNext(ch, c, u, n, i);
  }

  lemma RemarkExtends(a: seq<Cell>, s: Survey, b: seq<Cell>, c: seq<Cell>, t: Survey, n: int)
    requires Extends(a, s, b, t) && n !in s.placed && 0 <= n < |b| == |c| && !c[n].Blank?
    requires forall k :: 0 <= k < |b| && k != n ==> c[k] == b[k]
    ensures Extends(a, s, c, t)
  {
  }

  /** Since `was` only the room at `n`, found later, and rooms found still later got arrows. */
  lemma ArrowsSince(was: Survey, before: Survey, now: Survey, n: int, d: Direction)
    requires SameArrows(before.(drawn := before.drawn + {(n, d)}), now)
    ensures n !in was.placed && SameArrows(was, before) && SameRooms(was, before) ==> SameArrows(was, now)
  {
  }

  lemma NowFinished(ch: Chart, cells: seq<Cell>, s: Survey, was: Survey, n: int)
    requires n in s.placed && s.placed[n] in ch.area && 0 <= n < |cells|
    requires Followed(ch, cells, s, n, |ch.area[s.placed[n]]|)
    requires cells[n] == Place(MarkOf(ch.area[s.placed[n]]))
    requires NewFinished(ch, cells, s, was, {n})
    ensures NewFinished(ch, cells, s, was, {})
  {
  }

  /** The command object: its buffer is drawn in place, the survey is kept beside it. */
  class MapCommand {
    var res: seq<Cell>
    const chart: Chart
    ghost var survey: Survey

    ghost predicate Valid()
      reads this
    {
      |res| == SIZE && Spaced(chart.rooms) && Sketch(chart, res, survey) && Inked(chart, res, survey)
    }

    constructor (area: Area, root: RoomId)
      ensures Valid()
      ensures chart == Chart(ROOM_NUM, area, root) && survey == Survey(map[], map[], {})
      ensures res == seq(SIZE, k => Blank)
    {
      res := seq(SIZE, k => Blank);
      chart := Chart(ROOM_NUM, area, root);
      survey := Survey(map[], map[], {});
      new;
      RoomNumIsSpaced();
      hide Spaced;
    }

    /** One arrow: a pointer on a blank cell, a stroke on one that is in use. */
    method DrawArrow(n: int, ghost i: nat, d: Direction)
      requires Valid()
      requires n in survey.placed && survey.placed[n] in chart.area
      requires i < |chart.area[survey.placed[n]]| && d == chart.area[survey.placed[n]][i].dir && Planar(d)
      requires 0 <= n + Offset(d) < SIZE && n + Offset(d) !in chart.rooms
      requires ExitsDrawn(chart, survey, n, i) && Distinct(chart.area[survey.placed[n]])
      modifies this
      ensures Valid() && survey == old(survey).(drawn := old(survey).drawn + {(n, d)})
      ensures var k := n + Offset(d);
        |old(res)| == SIZE && res == old(res)[k := if old(res)[k] == Blank then Pointer(d) else Bar(StrokeOf(d))]
      ensures Extends(old(res), old(survey), res, survey)
    {
      hide Sketch;
      hide Extends;
      hide Inked;
      hide ExitsDrawn;
      var k := n + Offset(d);
      ghost var cells := res;
      if res[k] == Blank {
        res := res[k := Pointer(d)];
      } else {
        res := res[k := Bar(StrokeOf(d))];
      }
      Draw(chart, cells, survey, k, res[k], survey.drawn + {(n, d)});
      DrawInks(chart, cells, survey, n, i, res[k]);
      survey := survey.(drawn := survey.drawn + {(n, d)});
    }

    /** A free room cell is taken. */
    method EnterRoom(room: RoomId, n: int, ghost path: seq<Direction>, ghost open: set<int>)
      requires Valid() && AllDrawn(chart, survey, open)
      requires n in chart.rooms && 0 <= n < |res| && res[n] == Blank && room in chart.area
      requires Walk(chart, path) == Some((room, n))
      modifies this
      ensures Valid() && Extends(old(res), old(survey), res, survey)
      ensures survey.placed == old(survey.placed)[n := room] && n !in old(survey.placed)
      ensures n in survey.via && survey.via[n] == path
      ensures n < |res| && res[n] == Place(Plain)
      ensures Followed(chart, res, survey, n, 0)
      ensures NewFinished(chart, res, survey, old(survey), {n})
      ensures AllDrawn(chart, survey, open + {n}) && ExitsDrawn(chart, survey, n, 0)
      ensures SameArrows(old(survey), survey)
    {
      ghost var cells := res;
      assert n !in survey.placed;
      hide Inked;
      hide AllDrawn;
      hide ExitsDrawn;
      hide SameArrows;
      Enter(chart, cells, survey, n, room, path);
      EnterInks(chart, cells, survey, n, room, path, open);
      hide Sketch;
      hide Extends;
      res := res[n := Place(Plain)];
      survey := survey.(placed := survey.placed[n := room], via := survey.via[n := path]);
    }

    /** An exit up or down changes the room's own mark. */
    method SetMark(n: int, m: Mark, ghost was: Survey, ghost i: nat)
      requires Valid() && n in survey.placed && 0 <= n < SIZE && n !in was.placed
      requires Followed(chart, res, survey, n, i)
      requires NewFinished(chart, res, survey, was, {n})
      modifies this
      ensures Valid() && survey == old(survey)
      ensures |old(res)| == SIZE && res == old(res)[n := Place(m)]
      ensures Followed(chart, res, survey, n, i)
      ensures NewFinished(chart, res, survey, was, {n})
    {
      hide Inked;
      ghost var cells := res;
      PlacedInRooms(chart, cells, survey, n);
      RemarkInks(chart, cells, survey, n, m);
      Remark(chart, cells, survey, n, m);
      res := res[n := Place(m)];
      RemarkFollowed(chart, cells, survey, n, n, m, i);
      RemarkFinished(chart, cells, survey, was, n, m);
    }

    lemma ValidIs()
      requires Valid()
      ensures |res| == SIZE == 132 && Spaced(chart.rooms) && Sketch(chart, res, survey) && Inked(chart, res, survey)
    {
    }

    /** One planar exit: its arrow is drawn and the room behind it is marked. */
    method FollowExit(n: int, e: Exit, ghost i: nat, ghost was: Survey, ghost path: seq<Direction>, ghost open: set<int>)
      requires Valid() && AllDrawn(chart, survey, open) && n in open && ExitsDrawn(chart, survey, n, i)
      requires n in survey.placed && survey.placed[n] in chart.area && n in chart.rooms && 0 <= n < SIZE
      requires Walk(chart, path) == Some((survey.placed[n], n))
      requires AllDistinct(chart.area)
      requires i < |chart.area[survey.placed[n]]| && e == chart.area[survey.placed[n]][i] && Planar(e.dir)
      requires Followed(chart, res, survey, n, i)
      requires NewFinished(chart, res, survey, was, {n})
      modifies this
      ensures Valid() && Extends(old(res), old(survey), res, survey)
      ensures n < |res| == |old(res)| && res[n] == old(res)[n]
      ensures n in survey.placed && survey.placed[n] == old(survey.placed[n])
      ensures Followed(chart, res, survey, n, i + 1)
      ensures NewFinished(chart, res, survey, was, {n})
      ensures AllDrawn(chart, survey, open) && ExitsDrawn(chart, survey, n, i + 1)
      ensures n !in was.placed && SameArrows(was, old(survey)) && SameRooms(was, old(survey)) ==> SameArrows(was, survey)
      decreases chart.rooms - survey.placed.Keys, 1
    {
      hide *;
      ghost var cells, before := res, survey;
      AllDistinctAt(chart.area, survey.placed[n]);
      WalkOn(chart, path, survey.placed[n], n, i);
      ValidIs();
      ArrowCell(chart.rooms, n, e.dir);
      DrawCounts(chart, survey, n, i, open);
      DrawArrow(n, i, e.dir);
      ghost var drawn, passed := res, survey;
      FewerOrSame(chart, before, passed);
      ExitMark(e.target, n + 2 * Offset(e.dir), path + [e.dir], open);
      ValidIs();
      ExtendsSame(drawn, passed, res, survey);
      StillDrawn(chart, passed, survey, n, i + 1);
      ArrowsSince(was, before, survey, n, e.dir);
      AfterExit(chart, was, cells, before, drawn, passed, res, survey, n, e, i);
    }

    /** `exit_mark`: marks the room's cell if it is free, then draws and follows its exits. */
    method ExitMark(room: Option<RoomId>, n: int, ghost path: seq<Direction>, ghost open: set<int>)
      requires Valid() && AllDrawn(chart, survey, open)
      requires room.Some? ==> Walk(chart, path) == Some((room.value, n))
      requires AllDistinct(chart.area)
      modifies this
      ensures Valid() && Extends(old(res), old(survey), res, survey)
      ensures room.Some? && room.value in chart.area && n in chart.rooms ==> n in survey.placed
      ensures NewFinished(chart, res, survey, old(survey), {})
      ensures AllDrawn(chart, survey, open) && SameArrows(old(survey), survey)
      decreases chart.rooms - survey.placed.Keys, 0
    {
      NothingNew(chart, res, survey);
      if room.None? { return; }
      if room.value !in chart.area { return; }
      if n !in chart.rooms { return; }
      assert Planar(East) && 12 <= n <= 108;
      if n >= |res| { return; }
      if n < 0 { return; }
      if res[n] == Blank {
        EnterRoom(room.value, n, path, open);
      } else {
        return;
      }
      hide Sketch;
      hide Extends;
      hide Followed;
      hide NewFinished;
      hide Inked;
      hide ExitsDrawn;
      hide AllDrawn;
      hide SameArrows;
      hide SameRooms;
      var exits := chart.area[room.value];
      for i := 0 to |exits|
        invariant Valid() && Extends(old(res), old(survey), res, survey)
        invariant n in survey.placed && survey.placed[n] == room.value
        invariant n < |res| == SIZE && res[n] == Place(MarkOf(exits[..i]))
        invariant Followed(chart, res, survey, n, i)
        invariant NewFinished(chart, res, survey, old(survey), {n})
        invariant AllDrawn(chart, survey, open + {n}) && ExitsDrawn(chart, survey, n, i)
        invariant SameArrows(old(survey), survey)
      {
        var e := exits[i];
        MarkOn(exits, i);
        ghost var cells, before := res, survey;
        if Planar(e.dir) {
          FewerFree(chart, old(res), old(survey), cells, before, n);
          ExtendsSame(old(res), old(survey), cells, before);
          FollowExit(n, e, i, old(survey), path, open + {n});
          ExtendsTwice(old(res), old(survey), cells, before, res, survey);
        } else {
          if e.dir == Up {
            SetMark(n, if res[n] == Place(Plain) then UpMark else BothMark, old(survey), i);
          } else if e.dir == Down || e.dir == Below {
            SetMark(n, if res[n] == Place(Plain) then DownMark else BothMark, old(survey), i);
          }
          RemarkExtends(old(res), old(survey), cells, res, survey, n);
          NotPlanar(chart, survey, n, i);
          FollowedNext(chart, res, survey, n, i);
        }
      }
      assert exits[..|exits|] == exits;
      NowFinished(chart, res, survey, old(survey), n);
      NowDrawn(chart, survey, n, open);
    }

    /** `cmd`: the room of the player is drawn in the centre. */
    method DrawMap()
      requires Valid() && survey.placed == map[] && chart.rooms == ROOM_NUM
      requires AllDistinct(chart.area)
      modifies this
      ensures IsMap(chart, res, survey)
      ensures chart.root in chart.area ==> CENTER in survey.placed
    {
      RoomNumIsSpaced();
      RootWalk(chart);
      hide Sketch;
      hide NewFinished;
      hide Extends;
      hide Walk;
      hide Inked;
      ghost var before := survey;
      ExitMark(Some(chart.root), CENTER, [], {});
      AllFinished(chart, res, before, survey);
    }
  }

  lemma RemarkFollowed(ch: Chart, cells: seq<Cell>, s: Survey, c: int, n: int, m: Mark, i: nat)
    requires 0 <= n < |cells| && Followed(ch, cells, s, c, i)
    ensures Followed(ch, cells[n := Place(m)], s, c, i)
  {
  }

  lemma RemarkFinished(ch: Chart, cells: seq<Cell>, s: Survey, was: Survey, n: int, m: Mark)
    requires 0 <= n < |cells| && NewFinished(ch, cells, s, was, {n})
    ensures NewFinished(ch, cells[n := Place(m)], s, was, {n})
  {
    forall c | c in s.placed && c !in was.placed && c !in {n}
      ensures Finished(ch, cells[n := Place(m)], s, c)
    {
      assert Finished(ch, cells, s, c);
      RemarkFollowed(ch, cells, s, c, n, m, |ch.area[s.placed[c]]|);
    }
  }

  // ---- what the finished map shows ---------------------------------------------------

  /** The buffer is a faithful sketch, every room in it was followed to the end, and the
      arrow cells show exactly the arrows of these rooms' exits. */
  ghost predicate IsMap(ch: Chart, cells: seq<Cell>, s: Survey) {
    && Sketch(ch, cells, s) && (forall c :: c in s.placed ==> Finished(ch, cells, s, c))
    && Inked(ch, cells, s) && AllDrawn(ch, s, {})
  }

  lemma RootWalk(ch: Chart)
    ensures Walk(ch, []) == Some((ch.root, CENTER))
  {
  }

  lemma AllFinished(ch: Chart, cells: seq<Cell>, before: Survey, s: Survey)
    requires before.placed == map[] && Sketch(ch, cells, s) && NewFinished(ch, cells, s, before, {})
    requires Inked(ch, cells, s) && AllDrawn(ch, s, {})
    ensures IsMap(ch, cells, s)
  {
    hide Sketch;
    hide Inked;
    hide AllDrawn;
    hide Finished;
  }

  // ---- rows and columns ---------------------------------------------------------------

  /** How many rows down and columns to the right a direction leads. */
  function Compass(d: Direction): (int, int) {
    match d
    case North => (-1, 0)
    case NorthEast => (-1, 1)
    case East => (0, 1)
    case SouthEast => (1, 1)
    case South => (1, 0)
    case SouthWest => (1, -1)
    case West => (0, -1)
    case NorthWest => (-1, -1)
    case _ => (0, 0)
  }

  /** The cell in a row and a column of the picture. */
  function CellAt(row: int, column: int): int { 11 * row + column }

  function Row(c: int): int { c / 11 }

  function Column(c: int): int { c % 11 }

  /** Rooms stand in the odd rows and columns from 1 to 9. */
  predicate OnLattice(row: int, column: int) {
    row in {1, 3, 5, 7, 9} && column in {1, 3, 5, 7, 9}
  }

  lemma CellIsAt(row: int, column: int)
    requires 0 <= column < 11
    ensures Row(CellAt(row, column)) == row && Column(CellAt(row, column)) == column
  {
  }

  lemma RowsAndColumns(c: int)
    ensures c == CellAt(Row(c), Column(c)) && 0 <= Column(c) < 11
  {
  }

  /** The cells of rooms, by row and column; a column off the picture leads to no room. */
  lemma LatticeOnly(row: int, column: int)
    requires -1 <= column <= 11
    ensures CellAt(row, column) in ROOM_NUM <==> OnLattice(row, column)
    ensures OnLattice(row, column) ==> 0 <= CellAt(row, column) < 132
  {
  }

  lemma RoomIsOnLattice(c: int)
    requires c in ROOM_NUM
    ensures OnLattice(Row(c), Column(c)) && c == CellAt(Row(c), Column(c))
  {
    RowsAndColumns(c);
    hide Row;
    hide Column;
    LatticeOnly(Row(c), Column(c));
  }

  lemma OffsetIs(d: Direction)
    ensures Offset(d) == CellAt(Compass(d).0, Compass(d).1)
    ensures Planar(d) <==> Compass(d) != (0, 0)
    ensures -1 <= Compass(d).0 <= 1 && -1 <= Compass(d).1 <= 1
  {
  }

  lemma CellsAdd(row: int, column: int, down: int, right: int)
    ensures CellAt(row, column) + CellAt(down, right) == CellAt(row + down, column + right)
    ensures CellAt(row, column) + 2 * CellAt(down, right) == CellAt(row + 2 * down, column + 2 * right)
    ensures CellAt(row, column) - CellAt(down, right) == CellAt(row - down, column - right)
  {
  }

  lemma InPicture(row: int, column: int)
    requires OnLattice(row, column)
    ensures 1 <= row <= 9 && 1 <= column <= 9 && 12 <= CellAt(row, column) <= 108
  {
  }

  /** Where a step from a room of the lattice leads: by two rows and columns, or off the lattice. */
  lemma StepIs(row: int, column: int, d: Direction)
    requires OnLattice(row, column)
    ensures var (down, right) := Compass(d);
      && CellAt(row, column) + 2 * Offset(d) == CellAt(row + 2 * down, column + 2 * right)
      && (CellAt(row, column) + 2 * Offset(d) in ROOM_NUM <==> OnLattice(row + 2 * down, column + 2 * right))
  {
    hide *;
    var (down, right) := Compass(d);
    OffsetIs(d);
    InPicture(row, column);
    CellsAdd(row, column, down, right);
    LatticeOnly(row + 2 * down, column + 2 * right);
  }

  function RowsDown(path: seq<Direction>): int {
    if path == [] then 0 else RowsDown(path[..|path| - 1]) + Compass(path[|path| - 1]).0
  }

  function ColumnsRight(path: seq<Direction>): int {
    if path == [] then 0 else ColumnsRight(path[..|path| - 1]) + Compass(path[|path| - 1]).1
  }

  /** A walk ends two rows and columns a step from the middle, on the lattice or beside it. */
  lemma {:induction false} WalkAddsUp(ch: Chart, path: seq<Direction>)
    requires ch.rooms == ROOM_NUM && Walk(ch, path).Some?
    ensures var (row, column) := (5 + 2 * RowsDown(path), 5 + 2 * ColumnsRight(path));
      && Walk(ch, path).value.1 == CellAt(row, column)
      && (Walk(ch, path).value.1 in ROOM_NUM <==> OnLattice(row, column))
    decreases |path|
  {
    hide *;
    if path == [] {
      WalkStarts(ch);
      MiddleIs();
    } else {
      var front, d := path[..|path| - 1], path[|path| - 1];
      WalkStep(ch, path);
      WalkAddsUp(ch, front);
      StepsOn(path);
      StepIs(5 + 2 * RowsDown(front), 5 + 2 * ColumnsRight(front), d);
    }
  }

  lemma MiddleIs()
    ensures RowsDown([]) == 0 && ColumnsRight([]) == 0
    ensures CENTER == CellAt(5, 5) && CENTER in ROOM_NUM && OnLattice(5, 5)
  {
  }

  lemma StepsOn(path: seq<Direction>)
    requires path != []
    ensures var front, (down, right) := path[..|path| - 1], Compass(path[|path| - 1]);
      RowsDown(path) == RowsDown(front) + down && ColumnsRight(path) == ColumnsRight(front) + right
  {
    hide Compass;
  }

  /** Every room drawn is reached from the middle by a walk, and stands as many rows and
      columns from it as the steps of the walk say. */
  lemma DrawnIsReached(ch: Chart, cells: seq<Cell>, s: Survey, c: int) returns (path: seq<Direction>)
    requires IsMap(ch, cells, s) && ch.rooms == ROOM_NUM && 0 <= c < SIZE && cells[c].Place?
    ensures c in s.placed && s.placed[c] in ch.area
    ensures Walk(ch, path) == Some((s.placed[c], c))
    ensures Row(c) == 5 + 2 * RowsDown(path) && Column(c) == 5 + 2 * ColumnsRight(path)
    ensures OnLattice(Row(c), Column(c))
  {
    hide *;
    path := DrawnIsWalked(ch, cells, s, c);
    WalkAddsUp(ch, path);
    RoomIsOnLattice(c);
    var row, column := 5 + 2 * RowsDown(path), 5 + 2 * ColumnsRight(path);
    InPicture(row, column);
    CellIsAt(row, column);
  }

  lemma DrawnIsWalked(ch: Chart, cells: seq<Cell>, s: Survey, c: int) returns (path: seq<Direction>)
    requires IsMap(ch, cells, s) && 0 <= c < SIZE && cells[c].Place?
    ensures c in s.placed && s.placed[c] in ch.area && c in ch.rooms
    ensures Walk(ch, path) == Some((s.placed[c], c))
  {
    hide Inked;
    hide AllDrawn;
    hide Finished;
    hide Walk;
    path := s.via[c];
  }

  /** An open exit of a drawn room leads to a drawn room two rows and columns on, if that is
      still on the lattice. */
  lemma ExitsAreFollowed(ch: Chart, cells: seq<Cell>, s: Survey, c: int, i: nat)
    requires IsMap(ch, cells, s) && ch.rooms == ROOM_NUM
    requires c in s.placed && s.placed[c] in ch.area && i < |ch.area[s.placed[c]]|
    requires var e := ch.area[s.placed[c]][i];
      e.target.Some? && e.target.value in ch.area && Compass(e.dir) != (0, 0)
    ensures var (down, right) := Compass(ch.area[s.placed[c]][i].dir);
      var (row, column) := (Row(c) + 2 * down, Column(c) + 2 * right);
      OnLattice(row, column) ==> 0 <= CellAt(row, column) < |cells| && cells[CellAt(row, column)].Place?
  {
    hide *;
    var e := ch.area[s.placed[c]][i];
    FollowedIsPlaced(ch, cells, s, c, i);
    RoomIsOnLattice(c);
    OffsetIs(e.dir);
    StepIs(Row(c), Column(c), e.dir);
    var (down, right) := Compass(e.dir);
    var row, column := Row(c) + 2 * down, Column(c) + 2 * right;
    if OnLattice(row, column) { InPicture(row, column); }
  }

  lemma FollowedIsPlaced(ch: Chart, cells: seq<Cell>, s: Survey, c: int, i: nat)
    requires IsMap(ch, cells, s) && c in s.placed && s.placed[c] in ch.area && i < |ch.area[s.placed[c]]|
    requires ch.area[s.placed[c]][i].target.Some? && ch.area[s.placed[c]][i].target.value in ch.area
    ensures |cells| == 132 && c in ch.rooms
    ensures var next := c + 2 * Offset(ch.area[s.placed[c]][i].dir);
      Planar(ch.area[s.placed[c]][i].dir) && next in ch.rooms && 0 <= next < 132 ==> cells[next].Place?
  {
    hide Inked;
    hide AllDrawn;
    hide Walk;
    hide Offset;
    var e := ch.area[s.placed[c]][i];
    assert Finished(ch, cells, s, c);
    if Planar(e.dir) && c + 2 * Offset(e.dir) in ch.rooms { assert Reaches(ch, c, e); }
  }

  /** The directions in which exits of drawn rooms, open or not, point at a cell. */
  function PointsAt(ch: Chart, s: Survey, k: int): set<Direction> {
    set d | d in PLANAR && HasExit(ch, s, k - Offset(d), d)
  }

  /** The same by rows and columns. */
  function PointsInto(ch: Chart, s: Survey, row: int, column: int): set<Direction> {
    set d | d in PLANAR && OnLattice(row - Compass(d).0, column - Compass(d).1)
      && HasExit(ch, s, CellAt(row - Compass(d).0, column - Compass(d).1), d)
  }

  /** Does a stroke run along this way over the picture? */
  predicate Along(stroke: Stroke, down: int, right: int) {
    match stroke
    case Horizontal => down == 0
    case Vertical => right == 0
    case Backslash => down == right
    case Slash => down == -right
  }

  lemma StrokeRuns(d: Direction)
    requires Planar(d)
    ensures forall stroke :: stroke == StrokeOf(d) <==> Along(stroke, Compass(d).0, Compass(d).1)
  {
  }

  /** A cell between the rooms is blank where no exit of a drawn room points, shows an arrow
      where one alone does, in its direction, and where several do the stroke of one of them. */
  lemma ArrowsAreExits(ch: Chart, cells: seq<Cell>, s: Survey, row: int, column: int)
    requires IsMap(ch, cells, s) && ch.rooms == ROOM_NUM
    requires 0 <= row < 12 && 0 <= column < 11 && !OnLattice(row, column)
    ensures |cells| == 132
    ensures var cell, ds := cells[CellAt(row, column)], PointsInto(ch, s, row, column);
      && (cell.Blank? <==> ds == {})
      && (forall d :: cell == Pointer(d) <==> ds == {d})
      && (cell.Bar? <==> |ds| >= 2)
      && (cell.Bar? ==> exists d :: d in ds && Along(cell.stroke, Compass(d).0, Compass(d).1))
  {
    var k := CellAt(row, column);
    LatticeOnly(row, column);
    AllPoint(ch, cells, s, k);
    SamePoints(ch, cells, s, row, column);
    assert Shows(cells[k], PointsAt(ch, s, k));
    hide *;
    ShowsOne(cells[k], PointsAt(ch, s, k));
    if cells[k].Bar? {
      var d :| d in PointsAt(ch, s, k) && cells[k].stroke == StrokeOf(d);
      PointsArePlanar(ch, s, k, d);
      StrokeRuns(d);
    }
  }

  lemma PointsArePlanar(ch: Chart, s: Survey, k: int, d: Direction)
    requires d in PointsAt(ch, s, k)
    ensures Planar(d)
  {
    PlanarIs(d);
  }

  lemma SamePoints(ch: Chart, cells: seq<Cell>, s: Survey, row: int, column: int)
    requires Sketch(ch, cells, s) && ch.rooms == ROOM_NUM && 0 <= column < 11
    ensures PointsAt(ch, s, CellAt(row, column)) == PointsInto(ch, s, row, column)
  {
    hide Sketch;
    hide Offset;
    hide Compass;
    hide OnLattice;
    hide CellAt;
    hide HasExit;
    forall d | d in PLANAR
      ensures HasExit(ch, s, CellAt(row, column) - Offset(d), d) <==>
        OnLattice(row - Compass(d).0, column - Compass(d).1)
        && HasExit(ch, s, CellAt(row - Compass(d).0, column - Compass(d).1), d)
    {
      FromCell(row, column, d);
      if HasExit(ch, s, CellAt(row, column) - Offset(d), d) {
        ExitIsPlaced(ch, cells, s, CellAt(row, column) - Offset(d), d);
      }
    }
  }

  lemma ExitIsPlaced(ch: Chart, cells: seq<Cell>, s: Survey, c: int, d: Direction)
    requires Sketch(ch, cells, s) && HasExit(ch, s, c, d)
    ensures c in ch.rooms
  {
  }

  /** The cell from which an arrow comes, by rows and columns. */
  lemma FromCell(row: int, column: int, d: Direction)
    requires 0 <= column < 11
    ensures var (down, right) := Compass(d);
      && CellAt(row, column) - Offset(d) == CellAt(row - down, column - right)
      && (CellAt(row - down, column - right) in ROOM_NUM <==> OnLattice(row - down, column - right))
  {
    hide *;
    var (down, right) := Compass(d);
    OffsetIs(d);
    CellsAdd(row, column, down, right);
    LatticeOnly(row - down, column - right);
  }

  lemma ShowsOne(cell: Cell, ds: set<Direction>)
    requires Shows(cell, ds)
    ensures cell.Blank? <==> ds == {}
    ensures forall d :: cell == Pointer(d) <==> ds == {d}
    ensures cell.Bar? <==> |ds| >= 2
    ensures cell.Bar? ==> exists d :: d in ds && cell.stroke == StrokeOf(d)
  {
    if cell.Pointer? { assert cell.dir in ds; }
  }

  lemma AllPoint(ch: Chart, cells: seq<Cell>, s: Survey, k: int)
    requires IsMap(ch, cells, s)
    ensures DrawnAt(s.drawn, k) == PointsAt(ch, s, k)
  {
    hide Sketch;
    hide Finished;
    hide Shows;
    forall d | d in PLANAR ensures (k - Offset(d), d) in s.drawn <==> HasExit(ch, s, k - Offset(d), d) {
      PlanarIs(d);
      var c := k - Offset(d);
      if HasExit(ch, s, c, d) {
        assert ExitsDrawn(ch, s, c, |ch.area[s.placed[c]]|);
      }
    }
  }

  /** How many exits lead up or down. */
  function Verticals(exits: seq<Exit>): nat {
    if exits == [] then 0
    else Verticals(exits[..|exits| - 1]) + (if exits[|exits| - 1].dir in {Up, Down, Below} then 1 else 0)
  }

  /** A room without exits up or down has no mark, one such exit shows as its mark, and two
      or more as the mark for both. */
  lemma {:induction false} MarkShows(exits: seq<Exit>)
    ensures MarkOf(exits) == Plain <==> Verticals(exits) == 0
    ensures MarkOf(exits) == UpMark <==> Verticals(exits) == 1 && exists e :: e in exits && e.dir == Up
    ensures MarkOf(exits) == DownMark <==> Verticals(exits) == 1 && exists e :: e in exits && e.dir in {Down, Below}
    decreases |exits|
  {
    if exits != [] {
      var front, last := exits[..|exits| - 1], exits[|exits| - 1];
      MarkShows(front);
      assert exits == front + [last];
      NoVerticals(front);
      assert last in exits && forall e :: e in exits <==> e in front || e == last;
    }
  }

  lemma {:induction false} NoVerticals(exits: seq<Exit>)
    ensures Verticals(exits) == 0 <==> forall e :: e in exits ==> e.dir !in {Up, Down, Below}
    decreases |exits|
  {
    if exits != [] {
      var front, last := exits[..|exits| - 1], exits[|exits| - 1];
      assert exits == front + [last];
      NoVerticals(front);
    }
  }

  /** The area has one geometry: walks through the lattice to one place end in one room. */
  ghost predicate Flat(ch: Chart) {
    forall p, q :: Walk(ch, p).Some? && Walk(ch, q).Some? && Walk(ch, p).value.1 == Walk(ch, q).value.1 ==>
      Walk(ch, p).value.0 == Walk(ch, q).value.0
  }

  /** On such an area the fill is complete: a room is drawn at a place iff some walk leads
      there to a room with an exit list. */
  lemma {:induction false} WalkedIsDrawn(ch: Chart, cells: seq<Cell>, s: Survey, path: seq<Direction>)
    requires IsMap(ch, cells, s) && Flat(ch) && (ch.root in ch.area ==> CENTER in s.placed)
    requires Walk(ch, path).Some?
    requires var (room, c) := Walk(ch, path).value; room in ch.area && c in ch.rooms
    ensures Walk(ch, path).value.1 in s.placed
    decreases |path|
  {
    hide *;
    if path == [] {
      WalkStarts(ch);
    } else {
      WalkStep(ch, path);
      var shorter := path[..|path| - 1];
      var (room, c) := Walk(ch, shorter).value;
      WalkedIsDrawn(ch, cells, s, shorter);
      SameRoom(ch, cells, s, shorter);
      NextIsDrawn(ch, cells, s, c, path[|path| - 1]);
    }
  }

  lemma WalkStarts(ch: Chart)
    ensures Walk(ch, []) == Some((ch.root, CENTER))
  {
  }

  lemma WalkStep(ch: Chart, path: seq<Direction>)
    requires path != [] && Walk(ch, path).Some?
    ensures var d := path[|path| - 1];
      && Walk(ch, path[..|path| - 1]).Some?
      && var (room, cell) := Walk(ch, path[..|path| - 1]).value;
         && cell in ch.rooms && room in ch.area && Planar(d) && Lookup(ch.area[room], d).Some?
         && Walk(ch, path) == Some((Lookup(ch.area[room], d).value, cell + 2 * Offset(d)))
  {
    hide Lookup;
    hide Planar;
    hide Offset;
  }

  lemma SameRoom(ch: Chart, cells: seq<Cell>, s: Survey, path: seq<Direction>)
    requires IsMap(ch, cells, s) && Flat(ch) && Walk(ch, path).Some?
    requires Walk(ch, path).value.1 in s.placed
    ensures s.placed[Walk(ch, path).value.1] == Walk(ch, path).value.0
  {
    hide Walk;
    var c := Walk(ch, path).value.1;
    assert Walk(ch, s.via[c]) == Some((s.placed[c], c));
  }

  lemma NextIsDrawn(ch: Chart, cells: seq<Cell>, s: Survey, c: int, d: Direction)
    requires IsMap(ch, cells, s) && c in s.placed && s.placed[c] in ch.area
    requires Planar(d) && Lookup(ch.area[s.placed[c]], d).Some?
    requires Lookup(ch.area[s.placed[c]], d).value in ch.area && c + 2 * Offset(d) in ch.rooms
    ensures c + 2 * Offset(d) in s.placed
  {
    hide Sketch;
    hide Inked;
    hide AllDrawn;
    hide Offset;
    var exits := ch.area[s.placed[c]];
    LookupFinds(exits, d);
    var i :| 0 <= i < |exits| && exits[i] == Exit(d, Lookup(exits, d));
    assert Finished(ch, cells, s, c);
    assert Reaches(ch, c, exits[i]);
  }

  lemma {:induction false} LookupFinds(exits: seq<Exit>, d: Direction)
    requires Lookup(exits, d).Some?
    ensures exists i :: 0 <= i < |exits| && exits[i] == Exit(d, Lookup(exits, d))
    decreases |exits|
  {
    if exits[0].dir != d {
      LookupFinds(exits[1..], d);
      var i :| 0 <= i < |exits[1..]| && exits[1..][i] == Exit(d, Lookup(exits, d));
      assert exits[i + 1] == Exit(d, Lookup(exits, d));
    } else {
      assert exits[0] == Exit(d, Lookup(exits, d));
    }
  }

  lemma DrawnIffWalked(ch: Chart, cells: seq<Cell>, s: Survey, c: int)
    requires IsMap(ch, cells, s) && Flat(ch) && (ch.root in ch.area ==> CENTER in s.placed)
    requires 0 <= c < SIZE && c in ch.rooms
    ensures cells[c].Place? <==>
      exists path :: Walk(ch, path).Some? && Walk(ch, path).value.0 in ch.area && Walk(ch, path).value.1 == c
  {
    if cells[c].Place? {
      var path := DrawnIsWalked(ch, cells, s, c);
    }
    forall path | Walk(ch, path).Some? && Walk(ch, path).value.0 in ch.area && Walk(ch, path).value.1 == c
      ensures cells[c].Place?
    {
      WalkedIsDrawn(ch, cells, s, path);
    }
  }
}
