/** What edge detection and the client list promise. */
module ScreenLayoutLaws {
  import opened Octets
  import opened ScreenLayouts

  // ---------- Edge detection ----------

  /** At most one edge claims any one point. */
  ghost predicate Unambiguous(s: ScreenRect) {
    forall e: Edge, f: Edge, x: int, y: int :: InZone(s, e, x, y) && InZone(s, f, x, y) ==> e == f
  }

  /**
    The dead zones keep every corner from belonging to two edges.  Opposite edges are told apart
    exactly unless the screen is at most one pixel thick and at least two dead zones long.
  */
  lemma DeadZonesDisambiguate(s: ScreenRect)
    ensures var w, h := ToI32(s.width), ToI32(s.height);
            Unambiguous(s) <==> !(w <= 1 && h >= 2 * DEAD_ZONE) && !(h <= 1 && w >= 2 * DEAD_ZONE)
  {
    var w, h := ToI32(s.width), ToI32(s.height);
    if w <= 1 && h >= 2 * DEAD_ZONE {
      assert InZone(s, Left, s.right() - 1, s.top() + DEAD_ZONE) && InZone(s, Right, s.right() - 1, s.top() + DEAD_ZONE);
    }
    if h <= 1 && w >= 2 * DEAD_ZONE {
      assert InZone(s, Top, s.left() + DEAD_ZONE, s.bottom() - 1) && InZone(s, Bottom, s.left() + DEAD_ZONE, s.bottom() - 1);
    }
  }

  /** One step out of the screen over edge `e`; y grows downwards. */
  function Outward(e: Edge): (int, int) {
    match e case Left => (-1, 0) case Right => (1, 0) case Top => (0, -1) case Bottom => (0, 1)
  }

  /** At least five pixels from either end of the edge, as the code counts them. */
  predicate ClearOfCorners(s: ScreenRect, e: Edge, x: int, y: int) {
    if Outward(e).0 != 0 then s.y + 5 <= y <= s.y + ToI32(s.height) - 5 else s.x + 5 <= x <= s.x + ToI32(s.width) - 5
  }

  /** Inside, a point is in the zone of an edge exactly if the next step over that edge leaves the screen. */
  lemma ZoneInsideExactly(s: ScreenRect, e: Edge, x: int, y: int)
    requires s.contains(x, y)
    ensures InZone(s, e, x, y)
       <==> !s.contains(x + Outward(e).0, y + Outward(e).1) && ClearOfCorners(s, e, x, y)
  {
  }

  /** The point `n` steps back towards the screen is its last one before edge `e`. */
  predicate LastInside(s: ScreenRect, e: Edge, x: int, y: int, n: nat) {
    var (dx, dy) := Outward(e);
    s.contains(x - n * dx, y - n * dy) && !s.contains(x - n * dx + dx, y - n * dy + dy)
  }

  /** The zone of an edge is exactly what lies straight out from its points that are clear of the corners. */
  lemma ZoneExactly(s: ScreenRect, e: Edge, x: int, y: int)
    requires 0 < ToI32(s.width) && 0 < ToI32(s.height)
    ensures InZone(s, e, x, y) <==> ClearOfCorners(s, e, x, y) && exists n: nat :: LastInside(s, e, x, y, n)
  {
    if InZone(s, e, x, y) {
      var n := match e case Left => s.x - x case Right => x - (s.right() - 1)
                       case Top => s.y - y case Bottom => y - (s.bottom() - 1);
      assert LastInside(s, e, x, y, n);
    }
  }

  /** Moving on outwards stays in the zone. */
  lemma ZoneOutward(s: ScreenRect, e: Edge, x: int, y: int, n: nat)
    requires InZone(s, e, x, y)
    ensures InZone(s, e, x + n * Outward(e).0, y + n * Outward(e).1)
  {
  }

  /** Exactly the first listed client whose zone holds the point, or none. */
  lemma {:induction false} FirstHitIsFirst(s: ScreenRect, list: seq<ScreenInfo>, x: int, y: int) returns (i: nat)
    ensures i <= |list| && forall j: nat :: j < i ==> !Hit(s, list[j], x, y)
    ensures if i < |list| then Hit(s, list[i], x, y) && FirstHit(s, list, x, y) == Some(list[i].clientId)
            else FirstHit(s, list, x, y) == None
  {
    if list == [] || Hit(s, list[0], x, y) {
      i := 0;
    } else {
      var k := FirstHitIsFirst(s, list[1..], x, y);
      i := k + 1;
    }
  }

  predicate DistinctEdges(list: seq<ScreenInfo>) {
    forall i, j :: 0 <= i < j < |list| ==> list[i].adjacentEdge != list[j].adjacentEdge
  }

  /** With one client per edge, the order of the list does not matter. */
  lemma HitIgnoresOrder(s: ScreenRect, a: seq<ScreenInfo>, b: seq<ScreenInfo>, x: int, y: int)
    requires Unambiguous(s) && DistinctEdges(a) && multiset(a) == multiset(b)
    ensures FirstHit(s, a, x, y) == FirstHit(s, b, x, y)
  {
    var i := FirstHitIsFirst(s, a, x, y);
    var j := FirstHitIsFirst(s, b, x, y);
    if i < |a| {
      assert a[i] in multiset(b);
      var k :| 0 <= k < |b| && b[k] == a[i];
    }
    if j < |b| {
      assert b[j] in multiset(a);
      var k :| 0 <= k < |a| && a[k] == b[j];
      assert a[k].adjacentEdge == a[i].adjacentEdge;
    }
  }

  // ---------- The list as an insertion-ordered map ----------

  datatype Op = Add(info: ScreenInfo) | Remove(id: string) | Clear | SetEdge(id: string, edge: Edge)

  function ApplyOp(list: seq<ScreenInfo>, op: Op): seq<ScreenInfo> {
    match op
    case Add(info) => Added(list, info)
    case Remove(id) => Without(list, id)
    case Clear => []
    case SetEdge(id, e) => WithEdge(list, id, e)
  }

  function Run(ops: seq<Op>): seq<ScreenInfo> {
    if ops == [] then [] else ApplyOp(Run(ops[..|ops| - 1]), ops[|ops| - 1])
  }

  /** What a map from ids to entries would hold for `id`: the last add as amended since. */
  function Latest(ops: seq<Op>, id: string): Option<ScreenInfo> {
    if ops == [] then None
    else
      var before := Latest(ops[..|ops| - 1], id);
      match ops[|ops| - 1]
      case Add(info) => if info.clientId == id then Some(Placed(info)) else before
      case Remove(gone) => if gone == id then None else before
      case Clear => None
      case SetEdge(moved, e) =>
        if moved == id && before.Some? then Some(before.value.(adjacentEdge := e)) else before
  }

  /** When `id` was last added, counting from one; zero if never. */
  function LastAdd(ops: seq<Op>, id: string): (n: nat)
    ensures n <= |ops|
  {
    if ops == [] then 0
    else if ops[|ops| - 1].Add? && ops[|ops| - 1].info.clientId == id then |ops|
    else LastAdd(ops[..|ops| - 1], id)
  }

  /** The ids of the list, measured by `rank`, strictly increase; so no id occurs twice. */
  predicate Increasing(list: seq<ScreenInfo>, rank: string -> int) {
    forall p, q :: 0 <= p < q < |list| ==> rank(list[p].clientId) < rank(list[q].clientId)
  }

  lemma {:induction false} WithoutKeeps(list: seq<ScreenInfo>, id: string, rank: string -> int)
    requires Increasing(list, rank)
    ensures Increasing(Without(list, id), rank)
    ensures forall c :: c in Without(list, id) <==> c in list && c.clientId != id
  {
    if list != [] {
      WithoutKeeps(list[..|list| - 1], id, rank);
      assert list == list[..|list| - 1] + [list[|list| - 1]];
    }
  }

  lemma {:induction false} WithEdgeKeeps(list: seq<ScreenInfo>, id: string, e: Edge)
    ensures |WithEdge(list, id, e)| == |list|
    ensures forall i :: 0 <= i < |list| ==> WithEdge(list, id, e)[i].clientId == list[i].clientId
    ensures forall other | other != id :: Find(WithEdge(list, id, e), other) == Find(list, other)
    ensures Find(WithEdge(list, id, e), id)
         == match Find(list, id)
            case Some(c) => Some(c.(adjacentEdge := e))
            case None => None
  {
    if list != [] && list[0].clientId != id {
      WithEdgeKeeps(list[1..], id, e);
    }
  }

  /** In a list without repeated ids, finding is membership. */
  lemma {:induction false} FindIsMembership(list: seq<ScreenInfo>, rank: string -> int, id: string)
    requires Increasing(list, rank)
    ensures match Find(list, id)
            case Some(c) => c in list && c.clientId == id
            case None => forall c <- list :: c.clientId != id
    ensures forall c <- list :: c.clientId == id ==> Find(list, id) == Some(c)
  {
    if list != [] {
      FindIsMembership(list[1..], rank, id);
    }
  }

  /** Two lists with the same entries for `id` find the same. */
  lemma FindAgrees(a: seq<ScreenInfo>, f: string -> int, b: seq<ScreenInfo>, g: string -> int, id: string)
    requires Increasing(a, f) && Increasing(b, g)
    requires forall c: ScreenInfo :: c.clientId == id ==> (c in a <==> c in b)
    ensures Find(a, id) == Find(b, id)
  {
    FindIsMembership(a, f, id);
    FindIsMembership(b, g, id);
  }

  function Rank(ops: seq<Op>): string -> int {
    id => LastAdd(ops, id)
  }

  /**
    After any history the list holds, in order of last addition, exactly the entries an id-keyed map
    would hold: one per id, re-adding moves an id to the back, the others keep their places.
  */
  lemma {:induction false} ListRefinesMap(ops: seq<Op>)
    ensures Increasing(Run(ops), Rank(ops))
    ensures forall id :: Find(Run(ops), id) == Latest(ops, id)
  {
    if ops != [] {
      var front, op := ops[..|ops| - 1], ops[|ops| - 1];
      ListRefinesMap(front);
      hide Without, WithEdge, Find;
      assert ops == front + [op];
      match op
      case Add(info) => AddRefines(front, ops, info);
      case Remove(id) => RemoveRefines(front, ops, id);
      case Clear =>
      case SetEdge(id, e) => WithEdgeKeeps(Run(front), id, e);
    }
  }

  lemma AddRefines(front: seq<Op>, ops: seq<Op>, info: ScreenInfo)
    requires ops == front + [Add(info)] && Increasing(Run(front), Rank(front))
    requires forall id :: Find(Run(front), id) == Latest(front, id)
    ensures Increasing(Run(ops), Rank(ops))
    ensures forall id :: Find(Run(ops), id) == Latest(ops, id)
  {
    assert ops[..|ops| - 1] == front;
    hide Without, Find;
    var list := Run(front);
    WithoutKeeps(list, info.clientId, Rank(front));
    assert Run(ops) == Without(list, info.clientId) + [Placed(info)];
    forall id ensures Find(Run(ops), id) == Latest(ops, id) {
      if id == info.clientId {
        FindIsMembership(Run(ops), Rank(ops), id);
      } else {
        FindAgrees(Run(ops), Rank(ops), list, Rank(front), id);
      }
    }
  }

  lemma RemoveRefines(front: seq<Op>, ops: seq<Op>, gone: string)
    requires ops == front + [Remove(gone)] && Increasing(Run(front), Rank(front))
    requires forall id :: Find(Run(front), id) == Latest(front, id)
    ensures Increasing(Run(ops), Rank(ops))
    ensures forall id :: Find(Run(ops), id) == Latest(ops, id)
  {
    assert ops[..|ops| - 1] == front;
    var list := Run(front);
    WithoutKeeps(list, gone, Rank(front));
    forall id ensures Find(Run(ops), id) == Latest(ops, id) {
      if id == gone {
        FindIsMembership(Run(ops), Rank(ops), id);
      } else {
        FindAgrees(Run(ops), Rank(ops), list, Rank(front), id);
      }
    }
  }

  /** The edge asked for in `add_client` is the edge stored, except LEFT for a screen at the origin. */
  lemma EdgeHonouredExactly(ops: seq<Op>, info: ScreenInfo)
    ensures var found := Find(Run(ops + [Add(info)]), info.clientId);
            && found.Some?
            && (found.value.adjacentEdge == info.adjacentEdge
                <==> !(info.adjacentEdge == Left && info.rect.x == 0 && info.rect.y == 0))
  {
    ListRefinesMap(ops + [Add(info)]);
    assert Latest(ops + [Add(info)], info.clientId) == Some(Placed(info));
  }

  /** So the client a caller puts on the left of a 1920x1080 server is reached from the right. */
  lemma LeftAtOriginExample()
    ensures var s := ScreenRect(0, 0, 1920, 1080);
            var list := Added([], ScreenInfo([], "client1", ScreenRect(0, 0, 1440, 900), Left));
            FirstHit(s, list, 0, 540) == None && FirstHit(s, list, 1919, 540) == Some("client1")
  {
  }
}
