/** Which client sits beyond which edge of the server's screen (src/core/screen_layout.h, .cpp). */
module ScreenLayouts {
  import opened Octets

  datatype Edge = Left | Right | Top | Bottom

  /** `right` and `bottom` are unbounded sums; C++ computes the same as long as they fit 32 bits. */
  datatype ScreenRect = ScreenRect(x: int32, y: int32, width: uint32, height: uint32) {
    function left(): int { x }
    function right(): int { x + ToI32(width) }
    function top(): int { y }
    function bottom(): int { y + ToI32(height) }
    predicate contains(px: int, py: int) { left() <= px < right() && top() <= py < bottom() }
  }

  datatype ScreenInfo = ScreenInfo(name: octets, clientId: string, rect: ScreenRect, adjacentEdge: Edge)

  datatype Layout = Layout(screen: ScreenRect, clients: seq<ScreenInfo>)

  const DEAD_ZONE := 5

  // ---------- The client list ----------

  /** What `add_client` stores: LEFT means "not chosen" for a screen at the origin. */
  function Placed(info: ScreenInfo): ScreenInfo {
    if info.adjacentEdge == Left && info.rect.x == 0 && info.rect.y == 0 then info.(adjacentEdge := Right)
    else info
  }

  function Without(list: seq<ScreenInfo>, id: string): seq<ScreenInfo> {
    if list == [] then []
    else
      var last := list[|list| - 1];
      Without(list[..|list| - 1], id) + if last.clientId == id then [] else [last]
  }

  function Added(list: seq<ScreenInfo>, info: ScreenInfo): seq<ScreenInfo> {
    Without(list, info.clientId) + [Placed(info)]
  }

  /** Only the first entry of that id is changed. */
  function WithEdge(list: seq<ScreenInfo>, id: string, e: Edge): seq<ScreenInfo> {
    if list == [] then []
    else if list[0].clientId == id then [list[0].(adjacentEdge := e)] + list[1..]
    else [list[0]] + WithEdge(list[1..], id, e)
  }

  function Find(list: seq<ScreenInfo>, id: string): Option<ScreenInfo> {
    if list == [] then None
    else if list[0].clientId == id then Some(list[0])
    else Find(list[1..], id)
  }

  // ---------- Edges ----------

  /** The point is at or beyond edge `e`, and clear of that edge's corners. */
  predicate InZone(s: ScreenRect, e: Edge, x: int, y: int) {
    match e
    case Left => x <= s.left() && s.top() + DEAD_ZONE <= y <= s.bottom() - DEAD_ZONE
    case Right => s.right() - 1 <= x && s.top() + DEAD_ZONE <= y <= s.bottom() - DEAD_ZONE
    case Top => y <= s.top() && s.left() + DEAD_ZONE <= x <= s.right() - DEAD_ZONE
    case Bottom => s.bottom() - 1 <= y && s.left() + DEAD_ZONE <= x <= s.right() - DEAD_ZONE
  }

  predicate Hit(s: ScreenRect, c: ScreenInfo, x: int, y: int) {
    InZone(s, c.adjacentEdge, x, y)
  }

  /** The first listed client whose zone contains the point. */
  function FirstHit(s: ScreenRect, list: seq<ScreenInfo>, x: int, y: int): Option<string> {
    if list == [] then None
    else if Hit(s, list[0], x, y) then Some(list[0].clientId)
    else FirstHit(s, list[1..], x, y)
  }

  /** The first entry of `id`, at `i`, is the one that changes. */
  lemma {:induction false} WithEdgeAt(list: seq<ScreenInfo>, i: nat, id: string, e: Edge)
    requires i <= |list| && forall k :: 0 <= k < i ==> list[k].clientId != id
    requires i < |list| ==> list[i].clientId == id
    ensures WithEdge(list, id, e) == if i < |list| then list[i := list[i].(adjacentEdge := e)] else list
  {
    if 0 < i {
      WithEdgeAt(list[1..], i - 1, id, e);
    }
  }

  class ScreenLayout {
    var screen: ScreenRect
    var clients: seq<ScreenInfo>

    constructor ()
      ensures View() == Layout(ScreenRect(0, 0, 0, 0), [])
    {
      screen := ScreenRect(0, 0, 0, 0);
      clients := [];
    }

    function View(): Layout
      reads this
    {
      Layout(screen, clients)
    }

    method SetServerScreen(rect: ScreenRect)
      modifies this`screen
      ensures screen == rect
    {
      screen := rect;
    }

    method AddClient(info: ScreenInfo)
      modifies this`clients
      ensures clients == Added(old(clients), info)
    {
      RemoveClient(info.clientId);
      var stored := info;
      if stored.adjacentEdge == Left && stored.rect.x == 0 && stored.rect.y == 0 {
        stored := stored.(adjacentEdge := Right);
      }
      clients := clients + [stored];
    }

    method RemoveClient(id: string)
      modifies this`clients
      ensures clients == Without(old(clients), id)
    {
      var kept := [];
      for i := 0 to |clients|
        invariant kept == Without(clients[..i], id)
      {
        assert clients[..i + 1][..i] == clients[..i];
        if clients[i].clientId != id {
          kept := kept + [clients[i]];
        }
      }
      assert clients[..|clients|] == clients;
      clients := kept;
    }

    method ClearClients()
      modifies this`clients
      ensures clients == []
    {
      clients := [];
    }

    method SetClientEdge(id: string, e: Edge)
      modifies this`clients
      ensures clients == WithEdge(old(clients), id, e)
    {
      for i := 0 to |clients|
        invariant clients == old(clients)
        invariant forall k :: 0 <= k < i ==> clients[k].clientId != id
      {
        if clients[i].clientId == id {
          WithEdgeAt(clients, i, id, e);
          clients := clients[i := clients[i].(adjacentEdge := e)];
          return;
        }
      }
      WithEdgeAt(clients, |clients|, id, e);
    }

    method CheckEdge(x: int32, y: int32) returns (r: Option<string>)
      ensures r == FirstHit(screen, clients, x, y)
    {
      for i := 0 to |clients|
        invariant FirstHit(screen, clients, x, y) == FirstHit(screen, clients[i..], x, y)
      {
        match clients[i].adjacentEdge {
          case Left =>
            if x <= screen.left() {
              if y < screen.top() + DEAD_ZONE || y > screen.bottom() - DEAD_ZONE {
                continue;
              }
              return Some(clients[i].clientId);
            }
          case Right =>
            if x >= screen.right() - 1 {
              if y < screen.top() + DEAD_ZONE || y > screen.bottom() - DEAD_ZONE {
                continue;
              }
              return Some(clients[i].clientId);
            }
          case Top =>
            if y <= screen.top() {
              if x < screen.left() + DEAD_ZONE || x > screen.right() - DEAD_ZONE {
                continue;
              }
              return Some(clients[i].clientId);
            }
          case Bottom =>
            if y >= screen.bottom() - 1 {
              if x < screen.left() + DEAD_ZONE || x > screen.right() - DEAD_ZONE {
                continue;
              }
              return Some(clients[i].clientId);
            }
        }
      }
      return None;
    }

    method GetClient(id: string) returns (r: Option<ScreenInfo>)
      ensures r == Find(clients, id)
    {
      for i := 0 to |clients|
        invariant Find(clients, id) == Find(clients[i..], id)
      {
        if clients[i].clientId == id {
          return Some(clients[i]);
        }
      }
      return None;
    }
  }
}
