/// The interaction state machine (`EventStateHandler` and its five states).
/// The handler owns the states, forwards every DOM event to the current
/// state, and switches states by running the old state's `exit` and then
/// the new state's `enter`. The project and selection stores are the plain
/// record fields of a `Stores` object; the viewport and the culling cache
/// are the objects of their own modules.
///
/// Every handler method is proved against a pure step function on a
/// `Machine`, a snapshot of all the state the machine reads and writes
/// apart from the viewport, whose changes each method states on its own.
module Interaction {
  import opened Types
  import opened Stage
  import opened Selection
  import B = Behaviors
  import C = Collision
  import V = Viewport
  import Cull = Culling
  import ZS = ZoomScale
  import HT = HitTest
  import HS = HitStrategies
  import Bounds
  import opened Transforms

  /** A mouse event: button, client position, and whether its target is a DOM card's `data-button`. */
  datatype MouseEvent = MouseEvent(button: int, clientX: real, clientY: real, onDataButton: bool)

  /** The DOM events the handler listens to. */
  datatype Event =
    | MouseDown(mouse: MouseEvent)
    | MouseMove(mouse: MouseEvent)
    | MouseUp(mouse: MouseEvent)
    | MouseLeave(mouse: MouseEvent)
    | Wheel(wheel: B.WheelEvent)
    | KeyDown(key: string)
    | Resize

  datatype StateName = Idle | Panning | Selecting | Moving | Overlayer

  /** The event type of a registered listener. */
  datatype ListenerKind = OnWheel | OnResize | OnMouseDown | OnMouseMove | OnMouseUp | OnMouseLeave | OnKeyDown

  /** The canvas's `style.cursor`. */
  datatype Cursor = Default | Grabbing

  /**
   * What the machine reads from its surroundings: the canvas's client
   * rectangle, whether the main modifier (ctrl or cmd) is held, and the
   * host's `Math.sqrt` and `Math.pow`.
   */
  datatype Host = Host(rect: B.Rect, isMainPressed: bool, sqrt: HT.Sqrt, pow: V.Pow)

  /** The listeners the constructor registers, in order. */
  const AllListeners: seq<ListenerKind> := [OnWheel, OnResize, OnMouseDown, OnMouseMove, OnMouseUp, OnMouseLeave, OnKeyDown]

  function ListenerOf(e: Event): ListenerKind
  {
    match e
    case MouseDown(_) => OnMouseDown
    case MouseMove(_) => OnMouseMove
    case MouseUp(_) => OnMouseUp
    case MouseLeave(_) => OnMouseLeave
    case Wheel(_) => OnWheel
    case KeyDown(_) => OnKeyDown
    case Resize => OnResize
  }

  // ---------------------------------------------------------------------
  // The machine as a value

  /** What `enter` is given: nothing, or the event together with what it reads at that moment. */
  datatype EnterArg = NoArg | WithEvent(ev: MouseEvent, world: Vec2, rect: B.Rect, storeScale: real)

  /**
   * A snapshot of the handler, its states and the stores: the current state
   * and cursor, the listeners, the panning state's last client point, the
   * selecting state's start point, flag, event and the rectangle and scale
   * its frames use, the moving state's last world point and trigger flag,
   * the root's children and the selection store.
   */
  datatype Machine = Machine(
    current: StateName,
    cursor: Cursor,
    listeners: seq<ListenerKind>,
    lastMouse: Vec2,
    start: Vec2,
    selecting: bool,
    event: Option<MouseEvent>,
    frameRect: B.Rect,
    frameScale: real,
    lastWorld: Vec2,
    isMoveTriggered: bool,
    scene: seq<DesignElement>,
    selection: SelectionState)

  /** The states whose `enter` reads its event. */
  predicate NeedsEvent(s: StateName)
  {
    s.Panning? || s.Selecting? || s.Moving?
  }

  /**
   * The machine is coherent while its listeners are registered: the
   * selecting flag is up exactly in the Selecting state, the selecting
   * state holds an event exactly while the flag is up, and the cursor
   * grabs exactly in the Panning state.
   */
  predicate Coherent(m: Machine)
  {
    m.listeners != [] ==>
      (m.selecting <==> m.current == Selecting)
      && (m.event.Some? <==> m.selecting)
      && (m.cursor == Grabbing <==> m.current == Panning)
  }

  /** The current state's `exit`. */
  function ExitOf(m: Machine): (r: Machine)
    ensures r.current == m.current && r.listeners == m.listeners && r.scene == m.scene
  {
    match m.current
    case Panning => m.(cursor := Default)
    case Moving => m.(cursor := Default)
    case Selecting =>
      m.(selecting := false, event := None,
         selection := SetSelectionState(m.selection, NoFields.(ghostBox := Some(Box(0.0, 0.0, 0.0, 0.0))), NodeMap(m.scene)))
    case Idle => m
    case Overlayer => m
  }

  /**
   * The current state's `enter`. Panning records the client point and grabs;
   * Selecting records the start point on the canvas, puts the ghost box at
   * its world point with no size, raises its flag and keeps the event, the
   * rectangle and the store's scale for its frames; Moving records the world
   * point and lowers the trigger, unless there is nothing to move, in which
   * case it only runs its `exit` and stays. Idle and Overlayer do nothing.
   */
  function EnterOf(m: Machine, arg: EnterArg): Machine
    requires NeedsEvent(m.current) ==> arg.WithEvent?
  {
    match m.current
    case Panning => m.(lastMouse := Vec2(arg.ev.clientX, arg.ev.clientY), cursor := Grabbing)
    case Selecting =>
      m.(start := Vec2(arg.ev.clientX - arg.rect.left, arg.ev.clientY - arg.rect.top),
         selection := SetSelectionState(m.selection, NoFields.(ghostBox := Some(Box(arg.world.x, arg.world.y, 0.0, 0.0))), NodeMap(m.scene)),
         selecting := true, event := Some(arg.ev), frameRect := arg.rect, frameScale := arg.storeScale)
    case Moving =>
      if m.selection.moveInfo.None? then m.(cursor := Default)
      else m.(lastWorld := arg.world, isMoveTriggered := false)
    case Idle => m
    case Overlayer => m
  }

  /** `transitionTo`: exit, switch, enter, even when the new state is the old one. */
  function Transitioned(m: Machine, next: StateName, arg: EnterArg): (r: Machine)
    requires NeedsEvent(next) ==> arg.WithEvent?
    ensures r.current == next && r.listeners == m.listeners
  {
    EnterOf(ExitOf(m).(current := next), arg)
  }

  /** `Idle.onMouseDown` and `Overlayer.onMouseDown`. */
  function PointerDownStep(m: Machine, ev: MouseEvent, world: Vec2, rect: B.Rect, storeScale: real, sqrt: HT.Sqrt): Machine
  {
    if m.current == Overlayer && ev.onDataButton then m
    else if ev.button == 0 then
      var click := B.ClickOutcome(m.selection, world, TopShown(m.scene), NodeMap(m.scene), sqrt);
      Transitioned(m.(selection := click.1), if click.0 then Moving else Selecting, WithEvent(ev, world, rect, storeScale))
    else if ev.button == 1 then Transitioned(m, Panning, WithEvent(ev, world, rect, storeScale))
    else m
  }

  /** `Idle.onMouseMove`: hover over the root's children; a `DOM_CARD` hit opens the overlay. */
  function IdleMoveStep(m: Machine, world: Vec2): Machine
  {
    var hover := B.HoverOutcome(m.selection, C.Topmost(world, TopShown(m.scene), BoxOf, HitsPoint), NodeMap(m.scene));
    var m1 := m.(selection := hover.1);
    if hover.0.Some? && hover.0.value.kind == DomCard then Transitioned(m1, Overlayer, NoArg) else m1
  }

  /** `Overlayer.onMouseMove`: hover over the `DOM_CARD` root children only; anything else closes the overlay. */
  function OverlayerMoveStep(m: Machine, world: Vec2): Machine
  {
    var hover := B.HoverOutcome(m.selection, C.Topmost(world, B.DomCards(TopShown(m.scene)), BoxOf, HitsPoint), NodeMap(m.scene));
    var m1 := m.(selection := hover.1);
    if hover.0.Some? && hover.0.value.kind == DomCard then m1 else Transitioned(m1, Idle, NoArg)
  }

  /** `SceneNode.translate` on an element: the translation part of its local matrix moves by (dx, dy). */
  function TranslateElement(el: DesignElement, dx: real, dy: real): (r: DesignElement)
    ensures r.matrix.e == el.matrix.e + dx && r.matrix.f == el.matrix.f + dy
    ensures r.(matrix := el.matrix) == el && r.matrix.(e := el.matrix.e, f := el.matrix.f) == el.matrix
  {
    el.(matrix := el.matrix.(e := el.matrix.e + dx, f := el.matrix.f + dy))
  }

  /**
   * `findById(id)?.translate(dx, dy)` on the scene: every node carrying the
   * id is translated; with unique ids that is the node the index holds.
   */
  function TranslateId(els: seq<DesignElement>, id: string, dx: real, dy: real): (r: seq<DesignElement>)
    ensures |r| == |els|
    ensures forall i :: 0 <= i < |els| ==> r[i].id == els[i].id && r[i].kind == els[i].kind
    ensures forall i :: 0 <= i < |els| && els[i].id != id ==> r[i].matrix == els[i].matrix
    ensures forall i :: 0 <= i < |els| && els[i].id == id ==> r[i].matrix == TranslateElement(els[i], dx, dy).matrix
    decreases els
  {
    if |els| == 0 then []
    else
      var el := els[0];
      var moved := if el.id == id then TranslateElement(el, dx, dy) else el;
      var rest := TranslateId(els[1..], id, dx, dy);
      assert forall i :: 1 <= i < |els| ==> els[i] == els[1..][i - 1];
      [moved.(children := TranslateId(el.children, id, dx, dy))] + rest
  }

  /** Every root child whose id is selected, translated; the others as they were. */
  function MovedSelected(scene: seq<DesignElement>, ids: seq<string>, dx: real, dy: real): (r: seq<DesignElement>)
    ensures |r| == |scene|
  {
    seq(|scene|, i requires 0 <= i < |scene| => if scene[i].id in ids then TranslateElement(scene[i], dx, dy) else scene[i])
  }

  /**
   * `updatePosition`: a drag of one node translates that node; a drag of
   * the frame translates every selected root child and drops the frames.
   */
  function UpdatePositionOf(scene: seq<DesignElement>, s: SelectionState, dx: real, dy: real): (seq<DesignElement>, SelectionState)
  {
    match s.moveInfo
    case None => (scene, s)
    case Some(MoveById(id)) => (TranslateId(scene, id, dx, dy), s)
    case Some(MoveSelectionBox(_)) =>
      (MovedSelected(scene, s.ids, dx, dy), SetSelectionState(s, NoFields.(selectionBoxs := Some([])), NodeMap(scene)))
  }

  /**
   * `Moving.onMouseMove`: the move triggers once either coordinate has
   * moved by 2 or more from the last recorded world point; from then on
   * every move translates by its increment and records the new point.
   */
  function MovingMoveStep(m: Machine, world: Vec2): Machine
  {
    var dx := world.x - m.lastWorld.x;
    var dy := world.y - m.lastWorld.y;
    if !(m.isMoveTriggered || Abs(dx) >= 2.0 || Abs(dy) >= 2.0) then m
    else
      var moved := UpdatePositionOf(m.scene, m.selection, dx, dy);
      m.(isMoveTriggered := true, scene := moved.0, selection := moved.1, lastWorld := world)
  }

  /**
   * `Moving.onMouseUp`: a press that never moved selects the topmost root
   * child under the mouse (or nothing); a drag recomputes the frames of
   * the selection. Either way the machine goes back to Idle.
   */
  function MovingUpStep(m: Machine, world: Vec2): Machine
  {
    var index := NodeMap(m.scene);
    if !m.isMoveTriggered then
      var node := C.Topmost(world, TopShown(m.scene), BoxOf, HitsPoint);
      var ids := if B.HasId(node) then [node.value.id] else [];
      Transitioned(m.(selection := SetSelectionState(m.selection, NoFields.(ids := Some(ids)), index)), Idle, NoArg)
    else
      Transitioned(m.(selection := UpdateSelectionBoxs(m.selection, m.selection.ids, index)), Idle, NoArg)
  }

  /**
   * What one event does to the machine, the current state handling it.
   * `world` is the event's world point and `storeScale` the viewport
   * store's scale when it arrives.
   */
  function Step(m: Machine, e: Event, world: Vec2, rect: B.Rect, storeScale: real, sqrt: HT.Sqrt): Machine
  {
    match e
    case MouseDown(ev) =>
      if m.current == Idle || m.current == Overlayer then PointerDownStep(m, ev, world, rect, storeScale, sqrt) else m
    case MouseMove(ev) =>
      (match m.current
       case Idle => IdleMoveStep(m, world)
       case Overlayer => OverlayerMoveStep(m, world)
       case Panning => m.(lastMouse := Vec2(ev.clientX, ev.clientY))
       case Selecting => m.(event := Some(ev))
       case Moving => MovingMoveStep(m, world))
    case MouseUp(ev) =>
      (match m.current
       case Panning => Transitioned(m, Idle, NoArg)
       case Selecting => Transitioned(m.(event := Some(ev)), Idle, NoArg)
       case Moving => MovingUpStep(m, world)
       case Idle => m
       case Overlayer => m)
    case MouseLeave(_) => if m.current == Panning then Transitioned(m, Idle, NoArg) else m
    case Wheel(_) => m
    case KeyDown(_) => m
    case Resize => m
  }

  /**
   * `Step` as the state files are written: the mouse-move handlers of Idle
   * and Overlayer call `hoverBehavior.hitTest`, a method `HoverBehavior`
   * does not have (it has `hoverHitTest`). The call throws before anything
   * is written, so such a move leaves the machine as it was; every other
   * event is handled as in `Step`.
   */
  function StepAsWritten(m: Machine, e: Event, world: Vec2, rect: B.Rect, storeScale: real, sqrt: HT.Sqrt): Machine
  {
    if e.MouseMove? && (m.current == Idle || m.current == Overlayer) then m
    else Step(m, e, world, rect, storeScale, sqrt)
  }

  // ---------------------------------------------------------------------
  // The marquee

  /** The marquee on the canvas: its top-left corner and its size. */
  datatype Marquee = Marquee(left: real, top: real, width: real, height: real)

  /** The rectangle spanned by the start point and the event's point on the canvas. */
  function MarqueeOf(start: Vec2, ev: MouseEvent, rect: B.Rect): (r: Marquee)
    ensures r.width >= 0.0 && r.height >= 0.0
    ensures r.left == Min(start.x, ev.clientX - rect.left) && r.top == Min(start.y, ev.clientY - rect.top)
    ensures r.left + r.width == Max(start.x, ev.clientX - rect.left)
    ensures r.top + r.height == Max(start.y, ev.clientY - rect.top)
  {
    var x := ev.clientX - rect.left;
    var y := ev.clientY - rect.top;
    Marquee(Min(x, start.x), Min(y, start.y), Abs(x - start.x), Abs(y - start.y))
  }

  /** The edge scroll along one axis: -5 past the far margin, +5 inside the near one, else 0. */
  function EdgeScroll(start: real, extent: real, size: real): (r: real)
    ensures r == -5.0 || r == 0.0 || r == 5.0
    ensures r == -5.0 <==> start + extent > size - 10.0
    ensures r == 5.0 <==> start + extent <= size - 10.0 && start < 10.0
  {
    if start + extent > size - 10.0 then -5.0
    else if start < 10.0 then 5.0
    else 0.0
  }

  /** The ids of the nodes, in order. */
  function IdsSeq(ns: seq<Shown>): (r: seq<string>)
    ensures |r| == |ns| && forall i :: 0 <= i < |ns| ==> r[i] == ns[i].id
  {
    seq(|ns|, i requires 0 <= i < |ns| => ns[i].id)
  }

  /**
   * The cached visible nodes as they are now: the cache keeps node objects,
   * so their geometry is the scene's current one, found by id.
   */
  function Live(visible: seq<Shown>, index: map<string, Shown>): seq<Shown>
  {
    FindByIds(index, IdsSeq(visible))
  }

  /** The marquee hit test: the ghost box is stored, then the ids become those of the visible nodes it touches. */
  function MarqueeSelection(s: SelectionState, gbox: Box, visible: seq<Shown>, index: map<string, Shown>, sqrt: HT.Sqrt): SelectionState
  {
    var boxed := SetSelectionState(s, NoFields.(ghostBox := Some(gbox)), index);
    var hits := C.FindIntersecting(gbox, Live(visible, index), (n: Shown, b: Box) => HitsBox(n, b, sqrt));
    SetSelectionState(boxed, NoFields.(ids := Some(SetOf(IdsSeq(hits)))), index)
  }

  // ---------------------------------------------------------------------
  // Viewport effects of the key bindings

  /** `zoom(wanted, cx, cy)` ran: a no-op when the clamped target is the scale, otherwise a zoom about the anchor. */
  twostate predicate Rezoomed(vm: V.ViewportManager, wanted: real, cx: real, cy: real)
    requires old(vm.Valid()) && vm.Valid()
    reads vm, vm.canvas
  {
    vm.minScale == old(vm.minScale) && vm.maxScale == old(vm.maxScale) && vm.listeners == old(vm.listeners)
    && if V.Clamp(vm.minScale, vm.maxScale, wanted) == old(vm.scale) then
         vm.scale == old(vm.scale) && vm.offsetX == old(vm.offsetX) && vm.offsetY == old(vm.offsetY)
         && vm.store == old(vm.store) && vm.delivered == old(vm.delivered)
       else
         vm.scale == V.Clamp(vm.minScale, vm.maxScale, wanted)
         && vm.ScreenToWorld(cx, cy) == old(vm.ScreenToWorld(cx, cy)) && vm.Notified(old(vm.delivered))
  }

  /** The view commands `Idle.onKeyDown` binds to keys. */
  datatype KeyBinding = ResetView | ZoomInKey | ZoomOutKey | Unbound

  /**
   * The binding a key press selects: with the main modifier, '0' resets the
   * view, '=' zooms in and '-' zooms out. The three keys differ, so a press
   * selects at most one binding.
   */
  function BindingOf(key: string, isMainPressed: bool): (b: KeyBinding)
    ensures b == ResetView <==> isMainPressed && key == "0"
    ensures b == ZoomInKey <==> isMainPressed && key == "="
    ensures b == ZoomOutKey <==> isMainPressed && key == "-"
  {
    assert "0"[0] != "="[0] && "0"[0] != "-"[0] && "="[0] != "-"[0];
    if isMainPressed && key == "0" then ResetView
    else if isMainPressed && key == "=" then ZoomInKey
    else if isMainPressed && key == "-" then ZoomOutKey
    else Unbound
  }

  /**
   * `Idle.onKeyDown` ran: the reset binding resets the view, the zoom
   * bindings zoom to the next and previous zoom level about the canvas
   * centre, and any other key leaves the view alone.
   */
  twostate predicate KeyHandled(vm: V.ViewportManager, binding: KeyBinding, rect: B.Rect)
    requires old(vm.Valid()) && vm.Valid()
    reads vm, vm.canvas
  {
    match binding
    case ResetView =>
      vm.scale == 1.0 && vm.offsetX == 0.0 && vm.offsetY == 0.0
      && vm.minScale == old(vm.minScale) && vm.maxScale == old(vm.maxScale) && vm.listeners == old(vm.listeners)
      && vm.Notified(old(vm.delivered))
    case ZoomInKey =>
      Rezoomed(vm, ZS.MatchZoomScale(old(vm.store.state.scale), true), rect.width / 2.0, rect.height / 2.0)
    case ZoomOutKey =>
      Rezoomed(vm, ZS.MatchZoomScale(old(vm.store.state.scale), false), rect.width / 2.0, rect.height / 2.0)
    case Unbound =>
      vm.scale == old(vm.scale) && vm.offsetX == old(vm.offsetX) && vm.offsetY == old(vm.offsetY)
      && vm.minScale == old(vm.minScale) && vm.maxScale == old(vm.maxScale) && vm.listeners == old(vm.listeners)
      && vm.store == old(vm.store) && vm.delivered == old(vm.delivered)
  }

  // ---------------------------------------------------------------------
  // The objects

  /** The project store's scene (the root's children) and the selection store. */
  class Stores {
    var scene: seq<DesignElement>
    var selection: SelectionState

    constructor (scene: seq<DesignElement>)
      ensures this.scene == scene && selection == Initial
    {
      this.scene := scene;
      selection := Initial;
    }

    /** The loop over `rootNode.children.filter(ids.has)` that translates each selected child in place. */
    method TranslateSelected(ids: seq<string>, dx: real, dy: real)
      modifies this
      ensures scene == MovedSelected(old(scene), ids, dx, dy) && selection == old(selection)
    {
      for i := 0 to |scene|
        invariant |scene| == |old(scene)| && selection == old(selection)
        invariant forall j :: 0 <= j < i ==> scene[j] == MovedSelected(old(scene), ids, dx, dy)[j]
        invariant forall j :: i <= j < |scene| ==> scene[j] == old(scene)[j]
      {
        if scene[i].id in ids {
          scene := scene[i := TranslateElement(scene[i], dx, dy)];
        }
      }
    }
  }

  class PanningState {
    var lastMouseX: real
    var lastMouseY: real

    constructor ()
      ensures lastMouseX == 0.0 && lastMouseY == 0.0
    {
      lastMouseX := 0.0;
      lastMouseY := 0.0;
    }
  }

  /**
   * The selecting state. `frameRect` and `frameScale` are the client
   * rectangle and the store's scale that `enter` captures for its frames.
   */
  class SelectingState {
    var startX: real
    var startY: real
    var selecting: bool
    var event: Option<MouseEvent>
    var frameRect: B.Rect
    var frameScale: real

    constructor ()
      ensures startX == 0.0 && startY == 0.0 && !selecting && event.None?
      ensures frameRect == B.Rect(0.0, 0.0, 0.0, 0.0) && frameScale == 1.0
    {
      startX := 0.0;
      startY := 0.0;
      selecting := false;
      event := None;
      frameRect := B.Rect(0.0, 0.0, 0.0, 0.0);
      frameScale := 1.0;
    }
  }

  class MovingState {
    var lastWorldX: real
    var lastWorldY: real
    var isMoveTriggered: bool

    constructor ()
      ensures lastWorldX == 0.0 && lastWorldY == 0.0 && !isMoveTriggered
    {
      lastWorldX := 0.0;
      lastWorldY := 0.0;
      isMoveTriggered := false;
    }

    /** `updatePosition`: move what the selection store says a drag moves. */
    method UpdatePosition(stores: Stores, dx: real, dy: real)
      modifies stores
      ensures (stores.scene, stores.selection) == UpdatePositionOf(old(stores.scene), old(stores.selection), dx, dy)
    {
      var moveInfo := stores.selection.moveInfo;
      if moveInfo.Some? && moveInfo.value.MoveById? {
        stores.scene := TranslateId(stores.scene, moveInfo.value.id, dx, dy);
      }
      if moveInfo.Some? && moveInfo.value.MoveSelectionBox? {
        stores.TranslateSelected(stores.selection.ids, dx, dy);
        stores.selection := SetSelectionState(stores.selection, NoFields.(selectionBoxs := Some([])), NodeMap(stores.scene));
      }
    }
  }

  class EventStateHandler {
    const viewportManager: V.ViewportManager
    const culling: Cull.ViewportCulling
    const stores: Stores
    const panning: PanningState
    const selectingState: SelectingState
    const moving: MovingState
    var current: StateName
    var eventListeners: seq<ListenerKind>
    var cursor: Cursor

    ghost function M(): Machine
      reads this, panning, selectingState, moving, stores
    {
      Machine(current, cursor, eventListeners,
              Vec2(panning.lastMouseX, panning.lastMouseY),
              Vec2(selectingState.startX, selectingState.startY), selectingState.selecting, selectingState.event,
              selectingState.frameRect, selectingState.frameScale,
              Vec2(moving.lastWorldX, moving.lastWorldY), moving.isMoveTriggered,
              stores.scene, stores.selection)
    }

    ghost predicate Valid()
      reads this, viewportManager, culling, selectingState
    {
      viewportManager.Valid() && culling.Valid() && selectingState.frameScale > 0.0
    }

    /** The constructor: every state created, Idle current and entered, the seven listeners registered. */
    constructor (viewportManager: V.ViewportManager, culling: Cull.ViewportCulling, stores: Stores)
      requires viewportManager.Valid() && culling.Valid()
      ensures Valid()
      ensures this.viewportManager == viewportManager && this.culling == culling && this.stores == stores
      ensures current == Idle && eventListeners == AllListeners && cursor == Default
      ensures !selectingState.selecting && selectingState.event.None? && !moving.isMoveTriggered
      ensures fresh(panning) && fresh(selectingState) && fresh(moving) && Coherent(M())
    {
      this.viewportManager := viewportManager;
      this.culling := culling;
      this.stores := stores;
      panning := new PanningState();
      selectingState := new SelectingState();
      moving := new MovingState();
      current := Idle;
      cursor := Default;
      eventListeners := AllListeners;
    }

    /** `getWorldCoordinates`: the world point under a client point. */
    function GetWorldCoordinates(clientX: real, clientY: real, rect: B.Rect): (r: Vec2)
      requires viewportManager.Valid()
      reads viewportManager
      ensures r.x * viewportManager.scale + viewportManager.offsetX == clientX - rect.left
      ensures r.y * viewportManager.scale + viewportManager.offsetY == clientY - rect.top
    {
      viewportManager.ScreenToWorld(clientX - rect.left, clientY - rect.top)
    }

    /** The world point of a mouse event; other events have none. */
    function WorldOf(e: Event, rect: B.Rect): Vec2
      requires viewportManager.Valid()
      reads viewportManager
    {
      if e.MouseDown? || e.MouseMove? || e.MouseUp? || e.MouseLeave? then
        GetWorldCoordinates(e.mouse.clientX, e.mouse.clientY, rect)
      else Vec2(0.0, 0.0)
    }

    /** The current state's `exit`. */
    method Exit()
      requires Valid()
      modifies this, selectingState, stores
      ensures Valid() && M() == ExitOf(old(M()))
    {
      match current
      case Panning => cursor := Default;
      case Moving => cursor := Default;
      case Selecting =>
        selectingState.selecting := false;
        selectingState.event := None;
        stores.selection := SetSelectionState(stores.selection, NoFields.(ghostBox := Some(Box(0.0, 0.0, 0.0, 0.0))), NodeMap(stores.scene));
      case Idle =>
      case Overlayer =>
    }

    /** The current state's `enter`. */
    method Enter(arg: EnterArg)
      requires Valid() && (NeedsEvent(current) ==> arg.WithEvent?) && (arg.WithEvent? ==> arg.storeScale > 0.0)
      modifies this, panning, selectingState, moving, stores
      ensures Valid() && M() == EnterOf(old(M()), arg)
    {
      match current
      case Panning =>
        panning.lastMouseX := arg.ev.clientX;
        panning.lastMouseY := arg.ev.clientY;
        cursor := Grabbing;
      case Selecting => EnterSelecting(arg);
      case Moving =>
        if stores.selection.moveInfo.None? {
          cursor := Default;
          return;
        }
        moving.lastWorldX := arg.world.x;
        moving.lastWorldY := arg.world.y;
        moving.isMoveTriggered := false;
      case Idle =>
      case Overlayer =>
    }

    /** `Selecting.enter`. */
    method EnterSelecting(arg: EnterArg)
      requires Valid() && current == Selecting && arg.WithEvent? && arg.storeScale > 0.0
      modifies selectingState, stores
      ensures Valid() && M() == EnterOf(old(M()), arg)
    {
      selectingState.startX := arg.ev.clientX - arg.rect.left;
      selectingState.startY := arg.ev.clientY - arg.rect.top;
      stores.selection := SetSelectionState(stores.selection, NoFields.(ghostBox := Some(Box(arg.world.x, arg.world.y, 0.0, 0.0))), NodeMap(stores.scene));
      selectingState.selecting := true;
      selectingState.event := Some(arg.ev);
      selectingState.frameRect := arg.rect;
      selectingState.frameScale := arg.storeScale;
    }

    /** `transitionTo`. */
    method TransitionTo(next: StateName, arg: EnterArg)
      requires Valid() && (NeedsEvent(next) ==> arg.WithEvent?) && (arg.WithEvent? ==> arg.storeScale > 0.0)
      modifies this, panning, selectingState, moving, stores
      ensures Valid() && M() == Transitioned(old(M()), next, arg)
    {
      Exit();
      current := next;
      Enter(arg);
    }

    /** The event and what `enter` reads with it, now. */
    function ArgOf(ev: MouseEvent, rect: B.Rect): (r: EnterArg)
      requires viewportManager.Valid()
      reads viewportManager
      ensures r.WithEvent? && r.storeScale > 0.0
    {
      WithEvent(ev, GetWorldCoordinates(ev.clientX, ev.clientY, rect), rect, viewportManager.store.state.scale)
    }

    /** `Idle.onMouseDown` and `Overlayer.onMouseDown`, which also ignores presses on a card's buttons. */
    method PointerDown(ev: MouseEvent, host: Host)
      requires Valid() && (current == Idle || current == Overlayer)
      modifies this, panning, selectingState, moving, stores
      ensures Valid()
      ensures M() == PointerDownStep(old(M()), ev, old(GetWorldCoordinates(ev.clientX, ev.clientY, host.rect)), host.rect,
                                     old(viewportManager.store.state.scale), host.sqrt)
    {
      if current == Overlayer && ev.onDataButton {
        return;
      }
      var arg := ArgOf(ev, host.rect);
      if ev.button == 0 {
        var isHit, s := B.DownHitTest(stores.selection, arg.world, TopShown(stores.scene), NodeMap(stores.scene), host.sqrt);
        stores.selection := s;
        if isHit {
          TransitionTo(Moving, arg);
        } else {
          TransitionTo(Selecting, arg);
        }
      } else if ev.button == 1 {
        TransitionTo(Panning, arg);
      }
    }

    /** `Idle.onMouseMove`. */
    method IdleOnMouseMove(ev: MouseEvent, host: Host)
      requires Valid() && current == Idle
      modifies this, panning, selectingState, moving, stores
      ensures Valid() && M() == IdleMoveStep(old(M()), old(GetWorldCoordinates(ev.clientX, ev.clientY, host.rect)))
    {
      var world := GetWorldCoordinates(ev.clientX, ev.clientY, host.rect);
      ghost var m0 := M();
      var node, s := B.HoverHitTest(stores.selection, world, TopShown(stores.scene), NodeMap(stores.scene));
      stores.selection := s;
      assert M() == m0.(selection := s);
      if node.Some? && node.value.kind == DomCard {
        TransitionTo(Overlayer, NoArg);
      }
    }

    /** `Overlayer.onMouseMove`. */
    method OverlayerOnMouseMove(ev: MouseEvent, host: Host)
      requires Valid() && current == Overlayer
      modifies this, panning, selectingState, moving, stores
      ensures Valid() && M() == OverlayerMoveStep(old(M()), old(GetWorldCoordinates(ev.clientX, ev.clientY, host.rect)))
    {
      var world := GetWorldCoordinates(ev.clientX, ev.clientY, host.rect);
      ghost var m0 := M();
      var node, s := B.HoverHitTest(stores.selection, world, B.DomCards(TopShown(stores.scene)), NodeMap(stores.scene));
      stores.selection := s;
      assert M() == m0.(selection := s);
      var onCard := node.Some? && node.value.kind == DomCard;
      if !onCard {
        TransitionTo(Idle, NoArg);
      }
    }

    /**
     * `Idle.onKeyDown`. The three bindings test different keys, so at most
     * one of them runs.
     */
    method IdleOnKeyDown(key: string, host: Host)
      requires Valid()
      modifies viewportManager
      ensures Valid() && KeyHandled(viewportManager, BindingOf(key, host.isMainPressed), host.rect)
    {
      RunBinding(BindingOf(key, host.isMainPressed), host.rect);
    }

    /** The command a key binding selects, run against the viewport. */
    method RunBinding(binding: KeyBinding, rect: B.Rect)
      requires Valid()
      modifies viewportManager
      ensures Valid() && KeyHandled(viewportManager, binding, rect)
    {
      match binding
      case ResetView => viewportManager.Reset();
      case ZoomInKey => ZoomToLevel(true, rect);
      case ZoomOutKey => ZoomToLevel(false, rect);
      case Unbound =>
    }

    /** The zoom bindings: zoom to the next or previous level after the store's scale, about the canvas centre. */
    method ZoomToLevel(isZoomIn: bool, rect: B.Rect)
      requires Valid()
      modifies viewportManager
      ensures Valid() && Rezoomed(viewportManager, ZS.MatchZoomScale(old(viewportManager.store.state.scale), isZoomIn),
                                  rect.width / 2.0, rect.height / 2.0)
    {
      var centerX := rect.width / 2.0;
      var centerY := rect.height / 2.0;
      var scale := viewportManager.store.state.scale;
      viewportManager.Zoom(ZS.MatchZoomScale(scale, isZoomIn), centerX, centerY);
    }

    /** `Panning.onMouseMove`: pan by the client delta and record the point. */
    method PanningOnMouseMove(ev: MouseEvent)
      requires Valid()
      modifies panning, viewportManager
      ensures Valid() && M() == old(M()).(lastMouse := Vec2(ev.clientX, ev.clientY))
      ensures B.Panned(viewportManager, ev.clientX - old(panning.lastMouseX), ev.clientY - old(panning.lastMouseY))
    {
      var deltaX := ev.clientX - panning.lastMouseX;
      var deltaY := ev.clientY - panning.lastMouseY;
      viewportManager.Pan(deltaX, deltaY);
      panning.lastMouseX := ev.clientX;
      panning.lastMouseY := ev.clientY;
    }

    /** `Moving.onMouseMove`. */
    method MovingOnMouseMove(ev: MouseEvent, host: Host)
      requires Valid()
      modifies moving, stores
      ensures Valid() && M() == MovingMoveStep(old(M()), old(GetWorldCoordinates(ev.clientX, ev.clientY, host.rect)))
    {
      var world := GetWorldCoordinates(ev.clientX, ev.clientY, host.rect);
      var deltaX := world.x - moving.lastWorldX;
      var deltaY := world.y - moving.lastWorldY;
      if Abs(deltaX) >= 2.0 || Abs(deltaY) >= 2.0 {
        moving.isMoveTriggered := true;
      }
      if !moving.isMoveTriggered {
        return;
      }
      moving.UpdatePosition(stores, deltaX, deltaY);
      moving.lastWorldX := world.x;
      moving.lastWorldY := world.y;
    }

    /** `Moving.onMouseUp`. */
    method MovingOnMouseUp(ev: MouseEvent, host: Host)
      requires Valid() && current == Moving
      modifies this, panning, selectingState, moving, stores
      ensures Valid() && M() == MovingUpStep(old(M()), old(GetWorldCoordinates(ev.clientX, ev.clientY, host.rect)))
    {
      var index := NodeMap(stores.scene);
      if !moving.isMoveTriggered {
        var point := GetWorldCoordinates(ev.clientX, ev.clientY, host.rect);
        var ids := HitIds(point);
        StoreSelection(SetSelectionState(stores.selection, NoFields.(ids := Some(ids)), index));
      } else {
        StoreSelection(UpdateSelectionBoxs(stores.selection, stores.selection.ids, index));
      }
      TransitionTo(Idle, NoArg);
    }

    /** The id of the topmost shown node under `point`, if it has one, as the new selection. */
    method HitIds(point: Vec2) returns (ids: seq<string>)
      ensures var node := C.Topmost(point, TopShown(stores.scene), BoxOf, HitsPoint);
              ids == if B.HasId(node) then [node.value.id] else []
    {
      var node := C.FindHit(point, TopShown(stores.scene), BoxOf, HitsPoint);
      ids := if B.HasId(node) then [node.value.id] else [];
    }

    /** A write to the selection store: the machine changes in its selection only. */
    method StoreSelection(selection: SelectionState)
      requires Valid()
      modifies stores
      ensures Valid() && M() == old(M()).(selection := selection)
    {
      stores.selection := selection;
    }

    /**
     * One animation frame of the selecting state's `run`: once the flag is
     * down or the event gone it stops; otherwise it draws the frame.
     */
    method RunSelectingFrame(host: Host) returns (live: bool)
      requires Valid()
      modifies stores, viewportManager, culling
      ensures Valid()
      ensures live <==> old(selectingState.selecting && selectingState.event.Some?)
      ensures !live ==> M() == old(M()) && unchanged(viewportManager, culling)
      ensures live ==> MarqueeDrawn(host)
    {
      if !selectingState.selecting || selectingState.event.None? {
        return false;
      }
      DrawMarquee(host);
      return true;
    }

    /**
     * What a live frame did: the ghost box is the marquee's world rectangle,
     * its top-left corner taken before the scroll and its size divided by
     * the captured scale; the view scrolled when the marquee neared an edge;
     * the culling cache is for the scrolled view; and the selection is the
     * ghost box with the ids of the visible nodes it touches.
     */
    twostate predicate MarqueeDrawn(host: Host)
      requires old(Valid()) && Valid() && old(selectingState.event).Some?
      reads this, panning, selectingState, moving, stores, viewportManager, viewportManager.canvas, culling
    {
      var q := MarqueeOf(M().start, old(selectingState.event.value), M().frameRect);
      var pos := old(viewportManager.ScreenToWorld(q.left, q.top));
      var gbox := Box(pos.x, pos.y, q.width / M().frameScale, q.height / M().frameScale);
      && B.Panned(viewportManager, EdgeScroll(q.left, q.width, M().frameRect.width),
                  EdgeScroll(q.top, q.height, M().frameRect.height))
      && culling.cache.Some? && culling.cache.value.viewport == viewportManager.store.state
      && M() == old(M()).(selection := MarqueeSelection(old(stores.selection), gbox, culling.cache.value.visibleNodes,
                                                        NodeMap(stores.scene), host.sqrt))
    }

    /** The body of a live frame of `run`. */
    method DrawMarquee(host: Host)
      requires Valid() && selectingState.event.Some?
      modifies stores, viewportManager, culling
      ensures Valid() && MarqueeDrawn(host)
    {
      ghost var m0 := M();
      var rect := selectingState.frameRect;
      var scale := selectingState.frameScale;
      var q := MarqueeOf(Vec2(selectingState.startX, selectingState.startY), selectingState.event.value, rect);
      var pos := viewportManager.ScreenToWorld(q.left, q.top);
      var gbox := Box(pos.x, pos.y, q.width / scale, q.height / scale);
      var index := NodeMap(stores.scene);
      var s0 := stores.selection;
      stores.selection := SetSelectionState(s0, NoFields.(ghostBox := Some(gbox)), index);
      ghost var m1 := M();
      assert m1 == m0.(selection := stores.selection);

      viewportManager.Pan(EdgeScroll(q.left, q.width, rect.width), EdgeScroll(q.top, q.height, rect.height));
      var visible := culling.GetVisibleNodes(stores.scene, viewportManager.store.state, host.sqrt);
      assert M() == m1;

      var nodes := C.FindIntersecting(gbox, Live(visible, index), (n: Shown, b: Box) => HitsBox(n, b, host.sqrt));
      stores.selection := SetSelectionState(stores.selection, NoFields.(ids := Some(SetOf(IdsSeq(nodes)))), index);
      assert stores.selection == MarqueeSelection(s0, gbox, visible, index, host.sqrt);
    }

    /** The wheel listener: Idle and Overlayer pan or zoom, the other states ignore it. */
    method OnWheel(ev: B.WheelEvent, host: Host)
      requires Valid() && V.PowAtLeastOne(host.pow)
      modifies viewportManager
      ensures Valid()
      ensures current == Idle || current == Overlayer ==>
                B.WheelHandled(viewportManager, host.rect, ev, host.isMainPressed, host.pow)
      ensures !(current == Idle || current == Overlayer) ==> unchanged(viewportManager)
    {
      if current == Idle || current == Overlayer {
        B.PanZoom(viewportManager, host.rect, ev, host.isMainPressed, host.pow);
      }
    }

    /** The mouse-down listener: Idle and Overlayer handle the press, the other states ignore it. */
    method OnMouseDown(ev: MouseEvent, host: Host)
      requires Valid()
      modifies this, panning, selectingState, moving, stores
      ensures Valid()
      ensures M() == Step(old(M()), MouseDown(ev), old(GetWorldCoordinates(ev.clientX, ev.clientY, host.rect)), host.rect,
                          old(viewportManager.store.state.scale), host.sqrt)
    {
      if current == Idle || current == Overlayer {
        PointerDown(ev, host);
      }
    }

    /** The mouse-move listener. Only Panning moves the view. */
    method OnMouseMove(ev: MouseEvent, host: Host)
      requires Valid()
      modifies this, panning, selectingState, moving, stores, viewportManager
      ensures Valid()
      ensures M() == Step(old(M()), MouseMove(ev), old(GetWorldCoordinates(ev.clientX, ev.clientY, host.rect)), host.rect,
                          old(viewportManager.store.state.scale), host.sqrt)
      ensures old(current) == Panning ==>
                B.Panned(viewportManager, ev.clientX - old(panning.lastMouseX), ev.clientY - old(panning.lastMouseY))
      ensures old(current) != Panning ==> unchanged(viewportManager)
    {
      match current
      case Idle => IdleOnMouseMove(ev, host);
      case Overlayer => OverlayerOnMouseMove(ev, host);
      case Panning => PanningOnMouseMove(ev);
      case Selecting => selectingState.event := Some(ev);
      case Moving => MovingOnMouseMove(ev, host);
    }

    /** The mouse-up listener. */
    method OnMouseUp(ev: MouseEvent, host: Host)
      requires Valid()
      modifies this, panning, selectingState, moving, stores
      ensures Valid()
      ensures M() == Step(old(M()), MouseUp(ev), old(GetWorldCoordinates(ev.clientX, ev.clientY, host.rect)), host.rect,
                          old(viewportManager.store.state.scale), host.sqrt)
    {
      match current
      case Panning => TransitionTo(Idle, NoArg);
      case Selecting =>
        selectingState.event := Some(ev);
        TransitionTo(Idle, NoArg);
      case Moving => MovingOnMouseUp(ev, host);
      case Idle =>
      case Overlayer =>
    }

    /** The mouse-leave listener: only Panning reacts, by going back to Idle. */
    method OnMouseLeave(ev: MouseEvent, host: Host)
      requires Valid()
      modifies this, panning, selectingState, moving, stores
      ensures Valid()
      ensures M() == Step(old(M()), MouseLeave(ev), old(GetWorldCoordinates(ev.clientX, ev.clientY, host.rect)), host.rect,
                          old(viewportManager.store.state.scale), host.sqrt)
    {
      if current == Panning {
        TransitionTo(Idle, NoArg);
      }
    }

    /** The key-down listener: only Idle has key bindings. */
    method OnKeyDown(key: string, host: Host)
      requires Valid()
      modifies viewportManager
      ensures Valid()
      ensures current == Idle ==> KeyHandled(viewportManager, BindingOf(key, host.isMainPressed), host.rect)
      ensures current != Idle ==> unchanged(viewportManager)
    {
      if current == Idle {
        IdleOnKeyDown(key, host);
      }
    }

    /**
     * Every listener: the event goes to the current state only. The
     * machine moves as `Step` says; the view changes only on a wheel in
     * Idle or Overlayer, a key in Idle, or a move in Panning.
     */
    method Dispatch(e: Event, host: Host)
      requires Valid() && V.PowAtLeastOne(host.pow) && ListenerOf(e) in eventListeners
      modifies this, panning, selectingState, moving, stores, viewportManager
      ensures Valid()
      ensures M() == Step(old(M()), e, old(WorldOf(e, host.rect)), host.rect, old(viewportManager.store.state.scale), host.sqrt)
      ensures e.Wheel? && (old(current) == Idle || old(current) == Overlayer) ==>
                B.WheelHandled(viewportManager, host.rect, e.wheel, host.isMainPressed, host.pow)
      ensures e.KeyDown? && old(current) == Idle ==> KeyHandled(viewportManager, BindingOf(e.key, host.isMainPressed), host.rect)
      ensures e.MouseMove? && old(current) == Panning ==>
                B.Panned(viewportManager, e.mouse.clientX - old(panning.lastMouseX), e.mouse.clientY - old(panning.lastMouseY))
      ensures (!(e.Wheel? && (old(current) == Idle || old(current) == Overlayer)) && !(e.KeyDown? && old(current) == Idle)
               && !(e.MouseMove? && old(current) == Panning)) ==> unchanged(viewportManager)
    {
      match e
      case MouseDown(ev) => OnMouseDown(ev, host);
      case MouseMove(ev) => OnMouseMove(ev, host);
      case MouseUp(ev) => OnMouseUp(ev, host);
      case MouseLeave(ev) => OnMouseLeave(ev, host);
      case Wheel(ev) => OnWheel(ev, host);
      case KeyDown(key) => OnKeyDown(key, host);
      case Resize =>
    }

    /** `destroy`: exit the current state, drop every listener, restore the cursor. */
    method Destroy()
      requires Valid()
      modifies this, selectingState, stores
      ensures Valid() && M() == ExitOf(old(M())).(listeners := [], cursor := Default)
    {
      Exit();
      eventListeners := [];
      cursor := Default;
    }
  }

  // ---------------------------------------------------------------------
  // Properties

  /** `transitionTo` keeps the machine coherent, whatever the state it leaves and the one it enters. */
  lemma TransitionKeepsCoherent(m: Machine, next: StateName, arg: EnterArg)
    requires Coherent(m) && (NeedsEvent(next) ==> arg.WithEvent?)
    ensures Coherent(Transitioned(m, next, arg))
  {
  }

  /** Every event keeps the machine coherent. */
  lemma StepKeepsCoherent(m: Machine, e: Event, world: Vec2, rect: B.Rect, storeScale: real, sqrt: HT.Sqrt)
    requires Coherent(m) && ListenerOf(e) in m.listeners
    ensures Coherent(Step(m, e, world, rect, storeScale, sqrt))
  {
    match e
    case MouseDown(ev) =>
      if (m.current == Idle || m.current == Overlayer) && !(m.current == Overlayer && ev.onDataButton) && ev.button == 0 {
        var click := B.ClickOutcome(m.selection, world, TopShown(m.scene), NodeMap(m.scene), sqrt);
        TransitionKeepsCoherent(m.(selection := click.1), if click.0 then Moving else Selecting, WithEvent(ev, world, rect, storeScale));
      }
    case MouseMove(ev) =>
      if m.current == Idle {
        var hover := B.HoverOutcome(m.selection, C.Topmost(world, TopShown(m.scene), BoxOf, HitsPoint), NodeMap(m.scene));
        TransitionKeepsCoherent(m.(selection := hover.1), Overlayer, NoArg);
      } else if m.current == Overlayer {
        var hover := B.HoverOutcome(m.selection, C.Topmost(world, B.DomCards(TopShown(m.scene)), BoxOf, HitsPoint), NodeMap(m.scene));
        TransitionKeepsCoherent(m.(selection := hover.1), Idle, NoArg);
      }
    case MouseUp(ev) =>
      if m.current == Selecting {
        TransitionKeepsCoherent(m.(event := Some(ev)), Idle, NoArg);
      }
    case MouseLeave(_) =>
    case Wheel(_) =>
    case KeyDown(_) =>
    case Resize =>
  }

  /**
   * The events a state does not override leave the machine as it was: the
   * wheel, keys and resizes everywhere, presses outside Idle and Overlayer,
   * releases in Idle and Overlayer, and leaving the canvas outside Panning.
   */
  lemma DefaultsChangeNothing(m: Machine, e: Event, world: Vec2, rect: B.Rect, storeScale: real, sqrt: HT.Sqrt)
    requires e.Wheel? || e.KeyDown? || e.Resize?
             || (e.MouseDown? && !(m.current == Idle || m.current == Overlayer))
             || (e.MouseUp? && (m.current == Idle || m.current == Overlayer))
             || (e.MouseLeave? && m.current != Panning)
    ensures Step(m, e, world, rect, storeScale, sqrt) == m
  {
  }

  /** Releasing or leaving while panning goes back to Idle and restores the cursor. */
  lemma PanningEndsInIdle(m: Machine, ev: MouseEvent, world: Vec2, rect: B.Rect, storeScale: real, sqrt: HT.Sqrt)
    requires m.current == Panning
    ensures var r := Step(m, MouseUp(ev), world, rect, storeScale, sqrt);
            r.current == Idle && r.cursor == Default && r.selection == m.selection && r.scene == m.scene
    ensures var r := Step(m, MouseLeave(ev), world, rect, storeScale, sqrt);
            r.current == Idle && r.cursor == Default && r.selection == m.selection && r.scene == m.scene
  {
  }

  /**
   * A left press in Idle that hits something starts a drag: Moving is
   * entered with something to move, the press's world point recorded and
   * the trigger down, so the exception path of Moving's `enter` is never
   * taken from a press.
   */
  lemma PressOnHitStartsDrag(m: Machine, ev: MouseEvent, world: Vec2, rect: B.Rect, storeScale: real, sqrt: HT.Sqrt)
    requires m.current == Idle && ev.button == 0
    requires B.ClickOutcome(m.selection, world, TopShown(m.scene), NodeMap(m.scene), sqrt).0
    ensures var r := Step(m, MouseDown(ev), world, rect, storeScale, sqrt);
            r.current == Moving && r.selection.moveInfo.Some? && r.lastWorld == world && !r.isMoveTriggered
  {
    var s := m.selection;
    var i := B.FirstProbeHit(s.selectionBoxs, world, sqrt);
    if i < 0 {
      var hover := B.HoverOutcome(s, C.Topmost(world, TopShown(m.scene), BoxOf, HitsPoint), NodeMap(m.scene));
      assert B.HasId(hover.0);
    }
  }

  /**
   * A left press in Idle that hits nothing starts a marquee: Selecting is
   * entered with its flag up, the press kept, the start point on the canvas
   * and a zero-size ghost box at the press's world point.
   */
  lemma PressOnNothingStartsMarquee(m: Machine, ev: MouseEvent, world: Vec2, rect: B.Rect, storeScale: real, sqrt: HT.Sqrt)
    requires m.current == Idle && ev.button == 0
    requires !B.ClickOutcome(m.selection, world, TopShown(m.scene), NodeMap(m.scene), sqrt).0
    ensures var r := Step(m, MouseDown(ev), world, rect, storeScale, sqrt);
            r.current == Selecting && r.selecting && r.event == Some(ev)
            && r.start == Vec2(ev.clientX - rect.left, ev.clientY - rect.top)
            && r.selection.ghostBox == Box(world.x, world.y, 0.0, 0.0) && r.frameScale == storeScale
  {
  }

  /** A middle press in Idle or Overlayer starts panning from the press's client point; other buttons do nothing. */
  lemma OtherButtons(m: Machine, ev: MouseEvent, world: Vec2, rect: B.Rect, storeScale: real, sqrt: HT.Sqrt)
    requires (m.current == Idle || m.current == Overlayer) && !(m.current == Overlayer && ev.onDataButton)
    ensures ev.button == 1 ==>
              var r := Step(m, MouseDown(ev), world, rect, storeScale, sqrt);
              r.current == Panning && r.cursor == Grabbing && r.lastMouse == Vec2(ev.clientX, ev.clientY)
              && r.selection == m.selection
    ensures ev.button != 0 && ev.button != 1 ==> Step(m, MouseDown(ev), world, rect, storeScale, sqrt) == m
  {
  }

  /** A press on a card's button in the overlay is ignored. */
  lemma CardButtonsIgnored(m: Machine, ev: MouseEvent, world: Vec2, rect: B.Rect, storeScale: real, sqrt: HT.Sqrt)
    requires m.current == Overlayer && ev.onDataButton
    ensures Step(m, MouseDown(ev), world, rect, storeScale, sqrt) == m
  {
  }

  /** The overlay stays open exactly while the hover finds a `DOM_CARD`; Idle opens it on the same condition. */
  lemma OverlayFollowsCards(m: Machine, world: Vec2)
    ensures var hover := B.HoverOutcome(m.selection, C.Topmost(world, TopShown(m.scene), BoxOf, HitsPoint), NodeMap(m.scene));
            m.current == Idle ==>
              (IdleMoveStep(m, world).current == Overlayer <==> hover.0.Some? && hover.0.value.kind == DomCard)
    ensures var hover := B.HoverOutcome(m.selection, C.Topmost(world, B.DomCards(TopShown(m.scene)), BoxOf, HitsPoint), NodeMap(m.scene));
            m.current == Overlayer ==>
              (OverlayerMoveStep(m, world).current == Overlayer <==> hover.0.Some? && hover.0.value.kind == DomCard)
  {
  }

  /**
   * As written, no event opens the overlay: only a hover in Idle switches to
   * Overlayer, and that hover throws before it can.
   */
  lemma OverlayUnreachableAsWritten(m: Machine, e: Event, world: Vec2, rect: B.Rect, storeScale: real, sqrt: HT.Sqrt)
    requires m.current != Overlayer
    ensures StepAsWritten(m, e, world, rect, storeScale, sqrt).current != Overlayer
  {
    match e
    case MouseDown(ev) =>
      if m.current == Idle && ev.button == 0 {
        var click := B.ClickOutcome(m.selection, world, TopShown(m.scene), NodeMap(m.scene), sqrt);
        assert PointerDownStep(m, ev, world, rect, storeScale, sqrt)
            == Transitioned(m.(selection := click.1), if click.0 then Moving else Selecting, WithEvent(ev, world, rect, storeScale));
      }
    case MouseMove(_) =>
    case MouseUp(_) =>
    case MouseLeave(_) =>
    case Wheel(_) =>
    case KeyDown(_) =>
    case Resize =>
  }

  /** A single `DOM_CARD` child of the root covering [0, 10] x [0, 10]. */
  const CardScene: seq<DesignElement> := [DesignElement("card", DomCard, Identity, 10.0, 10.0, None, true, [])]

  /** The machine just constructed over `CardScene`. */
  const IdleOverCard: Machine :=
    Machine(Idle, Default, AllListeners, Vec2(0.0, 0.0), Vec2(0.0, 0.0), false, None,
            B.Rect(0.0, 0.0, 0.0, 0.0), 1.0, Vec2(0.0, 0.0), false, CardScene, Initial)

  /**
   * The input that shows the difference: a move to the card's centre opens
   * the overlay in the intended `Step`, and leaves the machine in Idle as
   * written.
   */
  lemma HoverOnCardAsWritten(ev: MouseEvent, rect: B.Rect, storeScale: real, sqrt: HT.Sqrt)
    ensures Step(IdleOverCard, MouseMove(ev), Vec2(5.0, 5.0), rect, storeScale, sqrt).current == Overlayer
    ensures StepAsWritten(IdleOverCard, MouseMove(ev), Vec2(5.0, 5.0), rect, storeScale, sqrt).current == Idle
  {
    var card := CardHovered();
    var hover := B.HoverOutcome(Initial, Some(card), NodeMap(CardScene));
    assert hover.0 == Some(card);
  }

  /** The card is the topmost node under (5, 5). */
  lemma CardHovered() returns (card: Shown)
    ensures card.kind == DomCard && C.Topmost(Vec2(5.0, 5.0), TopShown(CardScene), BoxOf, HitsPoint) == Some(card)
  {
    card := CardShown();
    CardHit(card);
  }

  /** The card accepts (5, 5): its box holds the point and its hit test succeeds. */
  lemma CardHit(card: Shown)
    requires card.kind == DomCard && card.visible && card.abs == Identity && card.width == 10.0 && card.height == 10.0
    ensures C.Accepts(card, Vec2(5.0, 5.0), BoxOf, HitsPoint)
  {
    CardHitsPoint(card);
    CardBox(card);
  }

  /** The card's hit test accepts (5, 5). */
  lemma CardHitsPoint(card: Shown)
    requires card.kind == DomCard && card.visible && card.abs == Identity && card.width == 10.0 && card.height == 10.0
    ensures HitsPoint(card, Vec2(5.0, 5.0))
  {
    assert card.abs == TranslationMatrix(0.0, 0.0);
    HS.TranslatedRectangleHit(0.0, 0.0, 10.0, 10.0, Vec2(5.0, 5.0));
    HS.DomCardHitsLikeRectangle(card.abs, 10.0, 10.0, Vec2(5.0, 5.0));
  }

  /** The card's box is [0, 10] x [0, 10]. */
  lemma CardBox(card: Shown)
    requires card.abs == Identity && card.width == 10.0 && card.height == 10.0
    ensures BoxOf(card) == Box(0.0, 0.0, 10.0, 10.0)
  {
    assert card.abs == TranslationMatrix(0.0, 0.0);
    Bounds.TranslationAABB(0.0, 0.0, 10.0, 10.0);
  }

  /** The root's only child over `CardScene`, as shown: a visible 10 x 10 card at the origin. */
  lemma CardShown() returns (card: Shown)
    ensures TopShown(CardScene) == [card]
    ensures card.kind == DomCard && card.visible && card.abs == Identity && card.width == 10.0 && card.height == 10.0
  {
    var el := CardScene[0];
    card := Show(el, Identity);
    assert Compose(el.matrix, Identity) == Identity by {
      ComposeIdentity(Identity);
    }
    assert TopShown(CardScene)[0] == card;
  }

  /** Translating twice by the same id is translating once by the sum. */
  lemma {:induction false} TranslateIdAdditive(els: seq<DesignElement>, id: string, dx1: real, dy1: real, dx2: real, dy2: real)
    ensures TranslateId(TranslateId(els, id, dx1, dy1), id, dx2, dy2) == TranslateId(els, id, dx1 + dx2, dy1 + dy2)
    decreases els
  {
    if |els| > 0 {
      var el := els[0];
      TranslateIdAdditive(el.children, id, dx1, dy1, dx2, dy2);
      TranslateIdAdditive(els[1..], id, dx1, dy1, dx2, dy2);
      var once := TranslateId(els, id, dx1, dy1);
      assert once[1..] == TranslateId(els[1..], id, dx1, dy1);
    }
  }

  /** Translating the selected children twice is translating them once by the sum. */
  lemma MovedSelectedAdditive(scene: seq<DesignElement>, ids: seq<string>, dx1: real, dy1: real, dx2: real, dy2: real)
    ensures MovedSelected(MovedSelected(scene, ids, dx1, dy1), ids, dx2, dy2) == MovedSelected(scene, ids, dx1 + dx2, dy1 + dy2)
  {
    var a := MovedSelected(MovedSelected(scene, ids, dx1, dy1), ids, dx2, dy2);
    var b := MovedSelected(scene, ids, dx1 + dx2, dy1 + dy2);
    assert forall i :: 0 <= i < |scene| ==> a[i] == b[i];
  }

  /**
   * Below the threshold nothing happens and the recorded point stays where
   * the drag started; the move that crosses it translates by its distance
   * from that point.
   */
  lemma DragThreshold(m: Machine, world: Vec2)
    requires !m.isMoveTriggered
    ensures var dx := world.x - m.lastWorld.x;
            var dy := world.y - m.lastWorld.y;
            var r := MovingMoveStep(m, world);
            (Abs(dx) < 2.0 && Abs(dy) < 2.0 ==> r == m)
            && (Abs(dx) >= 2.0 || Abs(dy) >= 2.0 ==>
                  r.isMoveTriggered && r.lastWorld == world
                  && (r.scene, r.selection) == UpdatePositionOf(m.scene, m.selection, dx, dy))
  {
  }

  /**
   * Once triggered, two moves of a one-node drag translate the node by the
   * distance from the first recorded point to the last one.
   */
  lemma DragByIdTotal(m: Machine, w1: Vec2, w2: Vec2, id: string)
    requires m.isMoveTriggered && m.selection.moveInfo == Some(MoveById(id))
    ensures MovingMoveStep(MovingMoveStep(m, w1), w2).scene
            == TranslateId(m.scene, id, w2.x - m.lastWorld.x, w2.y - m.lastWorld.y)
  {
    MovedById(m, w1, id);
    MovedById(MovingMoveStep(m, w1), w2, id);
    TranslateIdTotal(m.scene, id, m.lastWorld, w1, w2);
  }

  /** Translating by the step from `p0` to `p1` and then from `p1` to `p2` is translating from `p0` to `p2`. */
  lemma TranslateIdTotal(els: seq<DesignElement>, id: string, p0: Vec2, p1: Vec2, p2: Vec2)
    ensures TranslateId(TranslateId(els, id, p1.x - p0.x, p1.y - p0.y), id, p2.x - p1.x, p2.y - p1.y)
            == TranslateId(els, id, p2.x - p0.x, p2.y - p0.y)
  {
    TranslateIdAdditive(els, id, p1.x - p0.x, p1.y - p0.y, p2.x - p1.x, p2.y - p1.y);
    assert (p1.x - p0.x) + (p2.x - p1.x) == p2.x - p0.x;
    assert (p1.y - p0.y) + (p2.y - p1.y) == p2.y - p0.y;
  }

  /** One triggered move of a one-node drag translates that node by the increment and records the point. */
  lemma MovedById(m: Machine, world: Vec2, id: string)
    requires m.isMoveTriggered && m.selection.moveInfo == Some(MoveById(id))
    ensures var r := MovingMoveStep(m, world);
            r.scene == TranslateId(m.scene, id, world.x - m.lastWorld.x, world.y - m.lastWorld.y)
            && r.isMoveTriggered && r.selection == m.selection && r.lastWorld == world
  {
  }

  /**
   * Once triggered, two moves of a frame drag translate every selected root
   * child by the distance from the first recorded point to the last one,
   * and leave no frame.
   */
  lemma DragByFrameTotal(m: Machine, w1: Vec2, w2: Vec2, index: nat)
    requires m.isMoveTriggered && m.selection.moveInfo == Some(MoveSelectionBox(index))
    ensures var r := MovingMoveStep(MovingMoveStep(m, w1), w2);
            r.scene == MovedSelected(m.scene, m.selection.ids, w2.x - m.lastWorld.x, w2.y - m.lastWorld.y)
            && r.selection.selectionBoxs == [] && r.selection.ids == m.selection.ids
  {
    MovedSelectedAdditive(m.scene, m.selection.ids, w1.x - m.lastWorld.x, w1.y - m.lastWorld.y, w2.x - w1.x, w2.y - w1.y);
  }

  /**
   * Releasing a press that never moved selects exactly the topmost root
   * child under the mouse, or nothing, and goes back to Idle.
   */
  lemma ClickWithoutDragSelects(m: Machine, world: Vec2)
    requires m.current == Moving && !m.isMoveTriggered
    ensures var r := MovingUpStep(m, world);
            var node := C.Topmost(world, TopShown(m.scene), BoxOf, HitsPoint);
            r.current == Idle && r.cursor == Default && r.scene == m.scene
            && (B.HasId(node) ==> r.selection.ids == [node.value.id])
            && (!B.HasId(node) ==> r.selection.ids == [] && r.selection.selectionBoxs == [])
  {
  }

  /**
   * The marquee selects exactly the ids of the visible nodes its ghost box
   * touches, each once, and its ghost box has no negative size.
   */
  lemma MarqueeSelectsTouched(s: SelectionState, gbox: Box, visible: seq<Shown>, index: map<string, Shown>, sqrt: HT.Sqrt)
    ensures var r := MarqueeSelection(s, gbox, visible, index, sqrt);
            NoDuplicates(r.ids) && r.ghostBox == gbox && r.hoverId == s.hoverId && r.moveInfo == s.moveInfo
            && forall id :: id in r.ids <==>
                 exists n :: n in Live(visible, index) && HitsBox(n, gbox, sqrt) && n.id == id
  {
    var live := Live(visible, index);
    var hits := C.FindIntersecting(gbox, live, (n: Shown, b: Box) => HitsBox(n, b, sqrt));
    var ids := IdsSeq(hits);
    forall id
      ensures id in ids <==> exists n :: n in live && HitsBox(n, gbox, sqrt) && n.id == id
    {
      if id in ids {
        var k :| 0 <= k < |ids| && ids[k] == id;
        assert hits[k] in live && HitsBox(hits[k], gbox, sqrt);
      }
      if exists n :: n in live && HitsBox(n, gbox, sqrt) && n.id == id {
        var n :| n in live && HitsBox(n, gbox, sqrt) && n.id == id;
        var k :| 0 <= k < |live| && live[k] == n;
        assert n in hits;
        var j :| 0 <= j < |hits| && hits[j] == n;
        assert ids[j] == id;
      }
    }
  }

  /** The ghost box of a marquee frame never has a negative size. */
  lemma GhostBoxNonNegative(start: Vec2, ev: MouseEvent, rect: B.Rect, scale: real)
    requires scale > 0.0
    ensures var q := MarqueeOf(start, ev, rect);
            q.width / scale >= 0.0 && q.height / scale >= 0.0
  {
  }

}
