/**
 * The drag-and-drop canvas: a position store (widget id to pixel position) seeded
 * once from the canvas's direct children, the drag-end commit that moves a widget
 * by the drag delta and clamps it at 0, the bounding modifier that keeps a dragged
 * node inside the page body, and the width policy of a draggable item.
 * Pixel values are integers.
 */
module DndKit {
  import opened Wrappers

  datatype Position = Position(x: int, y: int)

  const Origin := Position(0, 0)

  /**
   * A direct child of the canvas as `React.Children.toArray` shows it: whether it is
   * a React element, whether its type is a host tag (a string such as "div"), and its
   * `id` and `initialPosition` props.
   */
  datatype Child = Child(isElement: bool, isHostTag: bool, id: Option<string>,
                         initialPosition: Option<Position>)

  datatype DraggableElement = DraggableElement(id: string, position: Position)

  type Store = map<string, Position>

  /** The filter of the seeding: a component element that carries an `id` prop. */
  predicate CarriesId(c: Child) {
    c.isElement && !c.isHostTag && c.id.Some?
  }

  /** Filter and map: one element per id-carrying child, in order, defaulting the position to the origin. */
  function InitialElements(children: seq<Child>): (r: seq<DraggableElement>)
    ensures |r| <= |children|
  {
    if children == [] then []
    else
      var c := children[0];
      var rest := InitialElements(children[1..]);
      if CarriesId(c) then [DraggableElement(c.id.value, c.initialPosition.GetOr(Origin))] + rest
      else rest
  }

  /** The reduce: assign each element's position to its id, in order. */
  function Seed(elements: seq<DraggableElement>): Store {
    if elements == [] then map[]
    else
      var last := elements[|elements| - 1];
      Seed(elements[..|elements| - 1])[last.id := last.position]
  }

  /** Seeding stores exactly the ids of the elements. */
  lemma {:induction false} SeedKeys(elements: seq<DraggableElement>)
    ensures forall id :: id in Seed(elements) <==> exists e :: e in elements && e.id == id
  {
    if elements != [] {
      var front := elements[..|elements| - 1];
      var last := elements[|elements| - 1];
      SeedKeys(front);
      assert elements == front + [last];
      forall id | id in Seed(elements)
        ensures exists e :: e in elements && e.id == id
      {
        if id != last.id {
          assert id in Seed(front);
          var e :| e in front && e.id == id;
          assert e in elements;
        }
      }
    }
  }

  /** For an element that no later element shares its id with, the stored value is its position: the last one wins. */
  lemma {:induction false} SeedLastWins(elements: seq<DraggableElement>, k: nat)
    requires k < |elements|
    requires forall j :: k < j < |elements| ==> elements[j].id != elements[k].id
    ensures elements[k].id in Seed(elements) && Seed(elements)[elements[k].id] == elements[k].position
  {
    if k < |elements| - 1 {
      var front := elements[..|elements| - 1];
      SeedLastWins(front, k);
    }
  }

  /** The elements are exactly the id-carrying children, each with its id and its (defaulted) position. */
  lemma {:induction false} InitialElementsMembers(children: seq<Child>)
    ensures forall e :: e in InitialElements(children) <==>
      exists c :: c in children && CarriesId(c) && e == DraggableElement(c.id.value, c.initialPosition.GetOr(Origin))
  {
    if children != [] {
      InitialElementsMembers(children[1..]);
      assert children == [children[0]] + children[1..];
    }
  }

  /** The store a canvas starts with. */
  function SeedFromChildren(children: seq<Child>): Store {
    Seed(InitialElements(children))
  }

  /** An element put in front of the others is overridden by every later element with its id. */
  lemma {:induction false} SeedPrepend(e: DraggableElement, rest: seq<DraggableElement>, id: string)
    requires id in Seed(rest)
    ensures id in Seed([e] + rest) && Seed([e] + rest)[id] == Seed(rest)[id]
  {
    var all := [e] + rest;
    var front := rest[..|rest| - 1];
    assert all[..|all| - 1] == [e] + front;
    assert all[|all| - 1] == rest[|rest| - 1];
    if id != rest[|rest| - 1].id {
      SeedPrepend(e, front, id);
    }
  }

  /**
   * Seeding in the children's terms: an id-carrying child that no later id-carrying child
   * shares its id with seeds its `initialPosition`, or the origin when it has none.
   */
  lemma {:induction false} SeededLastChildWins(children: seq<Child>, k: nat)
    requires k < |children| && CarriesId(children[k])
    requires forall j :: k < j < |children| && CarriesId(children[j]) ==> children[j].id != children[k].id
    ensures children[k].id.value in SeedFromChildren(children)
    ensures SeedFromChildren(children)[children[k].id.value] == children[k].initialPosition.GetOr(Origin)
  {
    var id := children[k].id.value;
    var es := InitialElements(children);
    var rest := InitialElements(children[1..]);
    if k == 0 {
      var first := DraggableElement(id, children[0].initialPosition.GetOr(Origin));
      assert es == [first] + rest;
      InitialElementsMembers(children[1..]);
      forall j | 0 < j < |es|
        ensures es[j].id != id
      {
        assert es[j] == rest[j - 1] && rest[j - 1] in rest;
        var c :| c in children[1..] && CarriesId(c) && es[j] == DraggableElement(c.id.value, c.initialPosition.GetOr(Origin));
        var m :| 0 <= m < |children[1..]| && children[1..][m] == c;
        assert children[m + 1] == c;
      }
      SeedLastWins(es, 0);
    } else {
      SeededLastChildWins(children[1..], k - 1);
      if CarriesId(children[0]) {
        var first := DraggableElement(children[0].id.value, children[0].initialPosition.GetOr(Origin));
        assert es == [first] + rest;
        SeedPrepend(first, rest, id);
      }
    }
  }

  /** The seeded store's keys are exactly the ids of the children that carry one. */
  lemma SeededKeys(children: seq<Child>)
    ensures forall id :: id in SeedFromChildren(children) <==>
      exists c :: c in children && CarriesId(c) && c.id == Some(id)
  {
    var es := InitialElements(children);
    SeedKeys(es);
    InitialElementsMembers(children);
    forall id | id in SeedFromChildren(children)
      ensures exists c :: c in children && CarriesId(c) && c.id == Some(id)
    {
      var e :| e in es && e.id == id;
      var c :| c in children && CarriesId(c) && e == DraggableElement(c.id.value, c.initialPosition.GetOr(Origin));
    }
    forall id | exists c :: c in children && CarriesId(c) && c.id == Some(id)
      ensures id in SeedFromChildren(children)
    {
      var c :| c in children && CarriesId(c) && c.id == Some(id);
      var e := DraggableElement(c.id.value, c.initialPosition.GetOr(Origin));
      assert e in es;
    }
  }

  /** `getPosition`: the stored position, or the origin for an id never stored. It never fails. */
  function StoredPosition(store: Store, id: string): (p: Position)
    ensures id in store ==> p == store[id]
    ensures id !in store ==> p == Origin
  {
    if id in store then store[id] else Origin
  }

  /** `updatePosition` as a map update: `id` gets `p`, every other key keeps its value. */
  function Upsert(store: Store, id: string, p: Position): (r: Store)
    ensures r.Keys == store.Keys + {id}
    ensures StoredPosition(r, id) == p
    ensures forall other :: other in store && other != id ==> r[other] == store[other]
  {
    store[id := p]
  }

  /** The position the drag-end handler commits: current stored position (origin if none) plus delta, clamped at 0. */
  function CommittedPosition(store: Store, id: string, dx: int, dy: int): (p: Position)
    ensures p.x >= 0 && p.y >= 0
    ensures p.x == if StoredPosition(store, id).x + dx > 0 then StoredPosition(store, id).x + dx else 0
    ensures p.y == if StoredPosition(store, id).y + dy > 0 then StoredPosition(store, id).y + dy else 0
  {
    var current := StoredPosition(store, id);
    Position(Max(0, current.x + dx), Max(0, current.y + dy))
  }

  function Max(a: int, b: int): int { if a >= b then a else b }

  /** The store after a drag end. */
  function DragCommit(store: Store, id: string, dx: int, dy: int): Store {
    Upsert(store, id, CommittedPosition(store, id, dx, dy))
  }

  /** After a drag end the dragged widget sits at the clamped sum and no other widget moved. */
  lemma DragCommitEffect(store: Store, id: string, dx: int, dy: int)
    ensures var r := DragCommit(store, id, dx, dy);
      && id in r && r[id].x >= 0 && r[id].y >= 0
      && r[id] == Position(Max(0, StoredPosition(store, id).x + dx), Max(0, StoredPosition(store, id).y + dy))
      && forall other :: other != id ==> (other in r <==> other in store) && (other in store ==> r[other] == store[other])
  {
  }

  /** A drag that keeps the widget on the non-negative quadrant moves it by exactly the delta. */
  lemma DragCommitExact(store: Store, id: string, dx: int, dy: int)
    requires id in store
    requires store[id].x + dx >= 0 && store[id].y + dy >= 0
    ensures DragCommit(store, id, dx, dy)[id] == Position(store[id].x + dx, store[id].y + dy)
  {
  }

  /**
   * The position a draggable renders at: its entry in the context's store, or its
   * own `initialPosition` when the store lacks it (or there is no provider).
   */
  function RenderedPosition(context: Option<Store>, id: string, initialPosition: Position): (p: Position)
    ensures context.Some? && id in context.value ==> p == context.value[id]
    ensures (context.None? || id !in context.value) ==> p == initialPosition
  {
    if context.Some? && id in context.value then context.value[id] else initialPosition
  }

  /** A widget whose wrapper is never seeded is rendered from its own initial position,
      but a drag commits from the origin: the first drag makes it jump. */
  lemma {:induction false} UnseededFirstDragJumps(store: Store, id: string, initialPosition: Position, dx: int, dy: int)
    requires id !in store
    requires initialPosition.x + dx > 0 && initialPosition.y + dy > 0
    requires initialPosition != Origin
    ensures RenderedPosition(Some(store), id, initialPosition) == initialPosition
    ensures RenderedPosition(Some(DragCommit(store, id, dx, dy)), id, initialPosition)
         != Position(initialPosition.x + dx, initialPosition.y + dy)
  {
    var after := RenderedPosition(Some(DragCommit(store, id, dx, dy)), id, initialPosition);
    assert after == Position(Max(0, dx), Max(0, dy));
  }

  /** The direct children of the application's canvas: three titled items and the image and video widgets. */
  const AppChildren: seq<Child> := [
    Child(true, false, Some("item-2"), Some(Position(400, 200))),
    Child(true, false, None, None),
    Child(true, false, None, None),
    Child(true, false, Some("item-1"), Some(Position(800, 400))),
    Child(true, false, Some("item-3"), Some(Position(400, 200)))
  ]

  /** The image and video widgets keep their ids inside, so only the three titled items are seeded. */
  lemma {:induction false} AppSeed()
    ensures SeedFromChildren(AppChildren) == map["item-2" := Position(400, 200), "item-1" := Position(800, 400),
                                                 "item-3" := Position(400, 200)]
    ensures "picture-item" !in SeedFromChildren(AppChildren) && "video-item" !in SeedFromChildren(AppChildren)
  {
    var e2 := DraggableElement("item-2", Position(400, 200));
    var e1 := DraggableElement("item-1", Position(800, 400));
    var e3 := DraggableElement("item-3", Position(400, 200));
    assert AppChildren[4..][1..] == [];
    assert InitialElements(AppChildren[4..]) == [e3];
    assert AppChildren[3..][1..] == AppChildren[4..];
    assert InitialElements(AppChildren[3..]) == [e1, e3];
    assert AppChildren[2..][1..] == AppChildren[3..];
    assert AppChildren[1..][1..] == AppChildren[2..];
    assert InitialElements(AppChildren[1..]) == [e1, e3];
    assert InitialElements(AppChildren) == [e2, e1, e3];
    assert [e2, e1, e3][..2] == [e2, e1];
    assert [e2, e1][..1] == [e2];
    assert [e2][..0] == [];
    assert Seed([e2]) == map["item-2" := Position(400, 200)];
    assert Seed([e2, e1]) == map["item-2" := Position(400, 200), "item-1" := Position(800, 400)];
    assert Seed([e2, e1, e3]) == map["item-2" := Position(400, 200), "item-1" := Position(800, 400),
                                     "item-3" := Position(400, 200)];
  }

  /** The image widget renders at (700, 200) but its first drag by (50, -20) lands at (50, 0). */
  lemma PictureFirstDrag()
    ensures RenderedPosition(Some(SeedFromChildren(AppChildren)), "picture-item", Position(700, 200)) == Position(700, 200)
    ensures DragCommit(SeedFromChildren(AppChildren), "picture-item", 50, -20)["picture-item"] == Position(50, 0)
  {
    AppSeed();
  }

  /** A seeded widget dragged from (300, 100) by (50, -20) lands at (350, 80); by (-400, -200) at the origin. */
  lemma DragScenario(store: Store)
    requires "timer-0" in store && store["timer-0"] == Position(300, 100)
    ensures DragCommit(store, "timer-0", 50, -20)["timer-0"] == Position(350, 80)
    ensures DragCommit(store, "timer-0", -400, -200)["timer-0"] == Origin
  {
  }

  // ---------------------------------------------------------------------------------
  // The bounding modifier

  /** A client rectangle. */
  datatype Rect = Rect(left: int, top: int, right: int, bottom: int)

  /** The proposed drag transform: a translation plus the scale factors the library carries along. */
  datatype Transform = Transform(x: int, y: int, scaleX: int, scaleY: int)

  function Min(a: int, b: int): int { if a <= b then a else b }

  /** `Math.min(Math.max(v, lo), hi)`: `hi` wins when the interval is empty. */
  function Clamp(v: int, lo: int, hi: int): (r: int)
    ensures lo <= hi ==> lo <= r <= hi
    ensures lo <= v <= hi ==> r == v
    ensures lo > hi ==> r == hi
    ensures v < lo && lo <= hi ==> r == lo
    ensures v > hi ==> r == hi
  {
    Min(Max(v, lo), hi)
  }

  /**
   * `restrictToBodyBounds`: without both a node rectangle and a window rectangle the
   * transform passes through; otherwise each axis is clamped so that the moved node
   * stays inside `body` (the page body's rectangle, read by the source from the DOM).
   */
  function RestrictToBodyBounds(t: Transform, node: Option<Rect>, window: Option<Rect>, body: Rect): (r: Transform)
    ensures node.None? || window.None? ==> r == t
    ensures r.scaleX == t.scaleX && r.scaleY == t.scaleY
  {
    if node.None? || window.None? then t
    else
      var n := node.value;
      t.(x := Clamp(t.x, body.left - n.left, body.right - n.right),
         y := Clamp(t.y, body.top - n.top, body.bottom - n.bottom))
  }

  /** The node's rectangle fits inside the body on both axes. */
  predicate Fits(n: Rect, body: Rect) {
    n.right - n.left <= body.right - body.left && n.bottom - n.top <= body.bottom - body.top
  }

  /** When the node fits, the clamped translation keeps the moved node inside the body. */
  lemma ClampedNodeInsideBody(t: Transform, n: Rect, window: Rect, body: Rect)
    requires Fits(n, body)
    ensures var r := RestrictToBodyBounds(t, Some(n), Some(window), body);
      && body.left - n.left <= r.x <= body.right - n.right
      && body.top - n.top <= r.y <= body.bottom - n.bottom
      && body.left <= n.left + r.x && n.right + r.x <= body.right
      && body.top <= n.top + r.y && n.bottom + r.y <= body.bottom
  {
  }

  /** A translation that already keeps the node inside the body is left unchanged. */
  lemma InRangeUnchanged(t: Transform, n: Rect, window: Rect, body: Rect)
    requires body.left <= n.left + t.x && n.right + t.x <= body.right
    requires body.top <= n.top + t.y && n.bottom + t.y <= body.bottom
    ensures RestrictToBodyBounds(t, Some(n), Some(window), body) == t
  {
  }

  /** Clamping twice against the same rectangles is clamping once, whether or not the node fits. */
  lemma RestrictIdempotent(t: Transform, node: Option<Rect>, window: Option<Rect>, body: Rect)
    ensures var once := RestrictToBodyBounds(t, node, window, body);
      RestrictToBodyBounds(once, node, window, body) == once
  {
  }

  // ---------------------------------------------------------------------------------
  // The width policy of a draggable item

  datatype WidthStyle =
    | FitContent(minWidth: string, maxWidth: string)
    | FixedWidth(width: string)
    | Bounded(minWidth: string, maxWidth: string)

  const DefaultMinWidth := "300px"
  const DefaultMaxWidth := "500px"

  /** Auto-resize fits the content between the bounds; else a non-empty `width` is used; else only the bounds. */
  function WidthPolicy(autoResize: bool, width: Option<string>, minWidth: string, maxWidth: string): (w: WidthStyle)
    ensures autoResize ==> w == FitContent(minWidth, maxWidth)
    ensures !autoResize && width.Some? && width.value != "" ==> w == FixedWidth(width.value)
    ensures !autoResize && (width.None? || width.value == "") ==> w == Bounded(minWidth, maxWidth)
  {
    if autoResize then FitContent(minWidth, maxWidth)
    else if width.Some? && width.value != "" then FixedWidth(width.value)
    else Bounded(minWidth, maxWidth)
  }

  // ---------------------------------------------------------------------------------
  // The canvas controller

  class Canvas {
    const children: seq<Child>
    var elements: Store
    var activeId: Option<string>
    var draggedElement: Option<Child>

    /** Mounting: the store is seeded once from the children; nothing is being dragged. */
    constructor (children: seq<Child>)
      ensures this.children == children
      ensures elements == SeedFromChildren(children)
      ensures activeId.None? && draggedElement.None?
    {
      this.children := children;
      elements := SeedFromChildren(children);
      activeId := None;
      draggedElement := None;
    }

    /** The position store's `getPosition`. */
    function GetPosition(id: string): Position
      reads this
    {
      StoredPosition(elements, id)
    }

    /** The position store's `updatePosition`. */
    method UpdatePosition(id: string, p: Position)
      modifies this
      ensures elements == Upsert(old(elements), id, p)
      ensures GetPosition(id) == p
      ensures activeId == old(activeId) && draggedElement == old(draggedElement)
    {
      elements := elements[id := p];
    }

    /** Drag start: remember the active id and the first id-carrying child with that id. */
    method HandleDragStart(id: string)
      modifies this
      ensures activeId == Some(id)
      ensures draggedElement == FindChild(children, id)
      ensures elements == old(elements)
    {
      activeId := Some(id);
      draggedElement := FindChild(children, id);
    }

    /** Drag end: when the event carries the active id and a delta, commit the clamped position; then return to idle. */
    method HandleDragEnd(active: Option<string>, delta: Option<Position>)
      modifies this
      ensures active.Some? && delta.Some? ==> elements == DragCommit(old(elements), active.value, delta.value.x, delta.value.y)
      ensures active.None? || delta.None? ==> elements == old(elements)
      ensures activeId.None? && draggedElement.None?
    {
      if active.Some? && delta.Some? {
        var id := active.value;
        var current := if id in elements then elements[id] else Origin;
        var newPosition := Position(Max(0, current.x + delta.value.x), Max(0, current.y + delta.value.y));
        UpdatePosition(id, newPosition);
      }
      activeId := None;
      draggedElement := None;
    }
  }

  /** The first id-carrying child whose id is `id`. */
  function FindChild(children: seq<Child>, id: string): (r: Option<Child>)
    ensures r.Some? ==> r.value in children && CarriesId(r.value) && r.value.id == Some(id)
    ensures r.Some? ==> exists k :: 0 <= k < |children| && children[k] == r.value &&
                          forall j :: 0 <= j < k ==> !(CarriesId(children[j]) && children[j].id == Some(id))
    ensures r.None? ==> forall c :: c in children && CarriesId(c) ==> c.id != Some(id)
  {
    if children == [] then None
    else if CarriesId(children[0]) && children[0].id == Some(id) then Some(children[0])
    else FindChild(children[1..], id)
  }
}
