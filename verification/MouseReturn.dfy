/** The mouse return of src/mouse-return.cpp: a button held on a remote computer is always let go. */
module MouseReturn {
  import opened Words
  import opened VbanProtocol

  const SLOTS: nat := 2

  datatype Action = MoveTo | LeftDown | LeftUp | RightDown | RightUp

  /** A prepared destination; `id` stands for its socket. */
  datatype Destination = Destination(id: nat, enabled: bool, open: bool, name: seq<Byte>)

  const NOWHERE := Destination(0, false, false, [])

  type Routing = d: seq<Destination> | |d| == SLOTS witness [NOWHERE, NOWHERE]

  /** What the network has seen: a datagram handed to a socket, with the socket's answer, or a change of all sockets. */
  datatype Entry =
    | Attempt(to: Destination, slot: nat, action: Action, x: int, y: int, number: Word32, delivered: bool)
    | Rerouted

  datatype Mouse = Mouse(
    routing: Option<Routing>, held: int, right: bool, x: int, y: int, dragging: seq<bool>,
    sequences: seq<Word32>, wire: seq<Entry>)
  {
    predicate Shaped() {
      |dragging| == |sequences| == SLOTS && -1 <= held < SLOTS
    }
  }

  const IDLE := Mouse(None, -1, false, 0, 0, [false, false], [0, 0], [])

  /** Otherwise no packet is built, and nothing is sent. */
  predicate PacketExists(name: seq<Byte>, x: int, y: int) {
    ValidStreamName(name) && 0 <= x < 4096 && 0 <= y < 4096
  }

  function Down(right: bool): Action {
    if right then RightDown else LeftDown
  }

  function Up(right: bool): Action {
    if right then RightUp else LeftUp
  }

  /** `net` decides which of the attempts succeed. */
  function Send(s: Mouse, slot: nat, action: Action, x: int, y: int, net: nat -> bool): (r: (Mouse, bool))
    requires s.Shaped()
    ensures r.0.Shaped()
  {
    if slot >= SLOTS || s.routing.None? then (s, false)
    else
      var d := s.routing.value[slot];
      if !d.enabled || !d.open then (s, false)
      else
        var number := s.sequences[slot];
        var counted := s.(sequences := s.sequences[slot := Next32(number)]);
        if !PacketExists(d.name, x, y) then (counted, false)
        else
          var delivered := net(|s.wire|);
          (counted.(wire := s.wire + [Attempt(d, slot, action, x, y, number, delivered)]), delivered)
  }

  function ReleaseHeld(s: Mouse, net: nat -> bool): (r: Mouse)
    requires s.Shaped()
    ensures r.Shaped()
  {
    if s.held < 0 then s
    else
      var slot, up := s.held, Up(s.right);
      var s1 := Send(s, slot, up, s.x, s.y, net).0;
      var s2 := Send(s1, slot, up, s.x, s.y, net).0;
      var s3 := Send(s2, slot, up, s.x, s.y, net).0;
      s3.(dragging := s3.dragging[slot := false], held := -1)
  }

  function Press(s: Mouse, slot: nat, right: bool, x: int, y: int, net: nat -> bool): (r: (Mouse, bool))
    requires s.Shaped()
    ensures r.0.Shaped()
  {
    var (moved, ok) := Send(ReleaseHeld(s, net), slot, MoveTo, x, y, net);
    if !ok then (moved, false)
    else
      var held := moved.(held := slot, right := right, x := x, y := y, dragging := moved.dragging[slot := true]);
      var (pressed, down) := Send(held, slot, Down(right), x, y, net);
      if down then (pressed, true) else (ReleaseHeld(pressed, net), false)
  }

  function Move(s: Mouse, slot: nat, x: int, y: int, net: nat -> bool): (r: (Mouse, bool))
    requires s.Shaped()
    ensures r.0.Shaped()
  {
    if s.held >= 0 && s.held != slot then (s, false)
    else
      var (moved, ok) := Send(s, slot, MoveTo, x, y, net);
      if ok then (moved.(x := x, y := y), true) else (ReleaseHeld(moved, net), false)
  }

  function Activate(s: Mouse, routing: Option<Routing>, net: nat -> bool): (r: Mouse)
    requires s.Shaped()
    ensures r.Shaped()
  {
    var released := ReleaseHeld(s, net);
    released.(routing := routing, dragging := [false, false], wire := released.wire + [Rerouted])
  }

  class MouseReturn {
    var routing: Option<Routing>
    var heldSlot: int
    var right: bool
    var x: int
    var y: int
    var dragging: seq<bool>
    var sequences: seq<Word32>
    ghost var wire: seq<Entry>
    var attempts: nat

    ghost predicate Valid()
      reads this
    {
      Model().Shaped() && attempts == |wire|
    }

    ghost function Model(): Mouse
      reads this
    {
      Mouse(routing, heldSlot, right, x, y, dragging, sequences, wire)
    }

    constructor ()
      ensures Valid() && Model() == IDLE
    {
      routing, heldSlot, right, x, y := None, -1, false, 0, 0;
      dragging, sequences, wire, attempts := [false, false], [0, 0], [], 0;
    }

    method SendAction(slot: nat, action: Action, px: int, py: int, net: nat -> bool) returns (ok: bool)
      requires Valid()
      modifies `sequences, `wire, `attempts
      ensures Valid() && (Model(), ok) == Send(old(Model()), slot, action, px, py, net)
    {
      if slot >= SLOTS || routing.None? {
        return false;
      }
      var d := routing.value[slot];
      if !d.enabled || !d.open {
        return false;
      }
      var number := sequences[slot];
      sequences := sequences[slot := Next32(number)];
      if !PacketExists(d.name, px, py) {
        return false;
      }
      ok := net(attempts);
      attempts := attempts + 1;
      wire := wire + [Attempt(d, slot, action, px, py, number, ok)];
    }

    method ReleaseLocked(net: nat -> bool)
      requires Valid()
      modifies this
      ensures Valid() && Model() == ReleaseHeld(old(Model()), net)
    {
      hide Send;
      if heldSlot < 0 {
        return;
      }
      var slot := heldSlot;
      var ok := SendAction(slot, Up(right), x, y, net);
      ok := SendAction(slot, Up(right), x, y, net);
      ok := SendAction(slot, Up(right), x, y, net);
      dragging := dragging[slot := false];
      heldSlot := -1;
    }

    method PressButton(slot: nat, button: bool, px: int, py: int, net: nat -> bool) returns (ok: bool)
      requires Valid()
      modifies this
      ensures Valid() && (Model(), ok) == Press(old(Model()), slot, button, px, py, net)
    {
      hide ReleaseHeld;
      ReleaseLocked(net);
      ok := SendAction(slot, MoveTo, px, py, net);
      if !ok {
        return;
      }
      heldSlot, right, x, y := slot, button, px, py;
      dragging := dragging[slot := true];
      ok := SendAction(slot, Down(button), px, py, net);
      if !ok {
        ReleaseLocked(net);
      }
    }

    method MoveMouse(slot: nat, px: int, py: int, net: nat -> bool) returns (ok: bool)
      requires Valid()
      modifies this
      ensures Valid() && (Model(), ok) == Move(old(Model()), slot, px, py, net)
    {
      hide ReleaseHeld, Send;
      if heldSlot >= 0 && heldSlot != slot {
        return false;
      }
      ok := SendAction(slot, MoveTo, px, py, net);
      if !ok {
        ReleaseLocked(net);
        return;
      }
      x, y := px, py;
    }

    method ActivateRouting(next: Option<Routing>, net: nat -> bool)
      requires Valid()
      modifies this
      ensures Valid() && Model() == Activate(old(Model()), next, net)
    {
      hide ReleaseHeld;
      ReleaseLocked(net);
      routing, dragging := next, [false, false];
      wire, attempts := wire + [Rerouted], attempts + 1;
    }
  }

  /** The remote button, as the datagrams describe it: up, or down with the number of button-up attempts so far. */
  datatype Remote = Released | Pressed(to: Destination, slot: nat, right: bool, x: int, y: int, ups: nat)

  /** The discipline of the wire. A button-down needs a released button. While it is down there are only moves on the
      same slot and destination, then three button-ups for that slot, destination and button at the last position that
      was delivered. Sockets change only while the button is up. */
  function Observe(remote: Remote, e: Entry): Option<Remote> {
    match e
    case Rerouted => if remote.Released? then Some(Released) else None
    case Attempt(to, slot, action, x, y, _, delivered) =>
      match action
      case MoveTo =>
        if remote.Released? then Some(Released)
        else if remote.ups == 0 && remote.to == to && remote.slot == slot then
          Some(if delivered then remote.(x := x, y := y) else remote)
        else None
      case LeftDown => if remote.Released? then Some(Pressed(to, slot, false, x, y, 0)) else None
      case RightDown => if remote.Released? then Some(Pressed(to, slot, true, x, y, 0)) else None
      case LeftUp => LetGo(remote, to, slot, false, x, y)
      case RightUp => LetGo(remote, to, slot, true, x, y)
  }

  function LetGo(remote: Remote, to: Destination, slot: nat, right: bool, x: int, y: int): Option<Remote> {
    if remote == Released || remote != Pressed(to, slot, right, x, y, remote.ups) then None
    else if remote.ups == 2 then Some(Released)
    else Some(remote.(ups := remote.ups + 1))
  }

  function ObserveAll(wire: seq<Entry>): Option<Remote> {
    if wire == [] then Some(Released)
    else
      var before := ObserveAll(wire[..|wire| - 1]);
      if before.None? then None else Observe(before.value, wire[|wire| - 1])
  }

  /** The plugin's idea of the button is the wire's, and a button-up packet for a held button can always be built. */
  ghost predicate Disciplined(s: Mouse) {
    && s.Shaped()
    && (forall i | 0 <= i < SLOTS :: s.dragging[i] <==> s.held == i)
    && (s.held < 0 ==> ObserveAll(s.wire) == Some(Released))
    && (s.held >= 0 ==>
          && Sendable(s, s.held, s.x, s.y)
          && ObserveAll(s.wire) == Some(Pressed(s.routing.value[s.held], s.held, s.right, s.x, s.y, 0)))
  }

  /** A packet for the slot is never suppressed. */
  ghost predicate Sendable(s: Mouse, slot: nat, x: int, y: int) {
    && slot < SLOTS && s.routing.Some?
    && s.routing.value[slot].enabled && s.routing.value[slot].open
    && PacketExists(s.routing.value[slot].name, x, y)
  }

  lemma ObserveAppended(wire: seq<Entry>, e: Entry)
    ensures ObserveAll(wire + [e]) == if ObserveAll(wire).None? then None else Observe(ObserveAll(wire).value, e)
  {
    assert (wire + [e])[..|wire|] == wire;
  }

  lemma SendObserved(s: Mouse, slot: nat, action: Action, x: int, y: int, net: nat -> bool)
    requires s.Shaped()
    ensures var (s', ok) := Send(s, slot, action, x, y, net);
            && s' == s.(sequences := s'.sequences, wire := s'.wire)
            && (if Sendable(s, slot, x, y) then
                 && ok == net(|s.wire|)
                 && s'.wire == s.wire + [Attempt(s.routing.value[slot], slot, action, x, y, s.sequences[slot], ok)]
                 && ObserveAll(s'.wire) ==
                      if ObserveAll(s.wire).None? then None
                      else Observe(ObserveAll(s.wire).value,
                                   Attempt(s.routing.value[slot], slot, action, x, y, s.sequences[slot], ok))
               else !ok && s'.wire == s.wire)
  {
    if Sendable(s, slot, x, y) {
      ObserveAppended(s.wire, Attempt(s.routing.value[slot], slot, action, x, y, s.sequences[slot], net(|s.wire|)));
    }
  }

  /** Letting go always takes exactly three button-up attempts, whatever their outcome. */
  lemma ReleaseDisciplined(s: Mouse, net: nat -> bool)
    requires Disciplined(s)
    ensures Disciplined(ReleaseHeld(s, net)) && ReleaseHeld(s, net).held == -1
    ensures ReleaseHeld(s, net).routing == s.routing
    ensures |ReleaseHeld(s, net).wire| == |s.wire| + if s.held >= 0 then 3 else 0
  {
    hide Send, ObserveAll, PacketExists;
    if s.held >= 0 {
      var up := Up(s.right);
      SendObserved(s, s.held, up, s.x, s.y, net);
      var s1 := Send(s, s.held, up, s.x, s.y, net).0;
      SendObserved(s1, s.held, up, s.x, s.y, net);
      var s2 := Send(s1, s.held, up, s.x, s.y, net).0;
      SendObserved(s2, s.held, up, s.x, s.y, net);
    }
  }

  lemma PressDisciplined(s: Mouse, slot: nat, right: bool, x: int, y: int, net: nat -> bool)
    requires Disciplined(s)
    ensures Disciplined(Press(s, slot, right, x, y, net).0)
    ensures Press(s, slot, right, x, y, net).1 <==> Press(s, slot, right, x, y, net).0.held == slot
  {
    hide Send, ObserveAll, PacketExists, ReleaseHeld;
    ReleaseDisciplined(s, net);
    var released := ReleaseHeld(s, net);
    SendObserved(released, slot, MoveTo, x, y, net);
    var (moved, ok) := Send(released, slot, MoveTo, x, y, net);
    if ok {
      var held := moved.(held := slot, right := right, x := x, y := y, dragging := moved.dragging[slot := true]);
      SendObserved(held, slot, Down(right), x, y, net);
      var (pressed, down) := Send(held, slot, Down(right), x, y, net);
      assert Disciplined(pressed);
      ReleaseDisciplined(pressed, net);
    }
  }

  /** Three button-ups at the position and for the button that was held, then the button counts as up. */
  ghost predicate LetsGo(s: Mouse, t: Mouse, held: int, right: bool, x: int, y: int, from: nat)
    requires s.Shaped()
  {
    && t.routing == s.routing && t.held == -1
    && if held < 0 then |t.wire| == from
       else
         && s.routing.Some? && 0 <= held < SLOTS && |t.wire| == from + 3
         && forall i | from <= i < from + 3 ::
              && t.wire[i].Attempt? && t.wire[i].to == s.routing.value[held] && t.wire[i].slot == held
              && t.wire[i].action == (if right then RightUp else LeftUp) && t.wire[i].x == x && t.wire[i].y == y
  }

  /** A release sends the three button-ups of what is held, and nothing if nothing is. */
  lemma ReleaseSends(s: Mouse, net: nat -> bool)
    requires Disciplined(s)
    ensures LetsGo(s, ReleaseHeld(s, net), s.held, s.right, s.x, s.y, |s.wire|) && s.wire <= ReleaseHeld(s, net).wire
  {
    hide Send, ObserveAll, PacketExists;
    if s.held >= 0 {
      var up := Up(s.right);
      SendObserved(s, s.held, up, s.x, s.y, net);
      var s1 := Send(s, s.held, up, s.x, s.y, net).0;
      SendObserved(s1, s.held, up, s.x, s.y, net);
      var s2 := Send(s1, s.held, up, s.x, s.y, net).0;
      SendObserved(s2, s.held, up, s.x, s.y, net);
    }
  }

  /** What a press for a slot that can be reached puts on the wire after its release: a move to the caller's position
      and, if that is delivered, the caller's button there; the button counts as held if it is delivered, and is let
      go of if not. */
  lemma PressSends(s: Mouse, slot: nat, right: bool, x: int, y: int, net: nat -> bool)
    requires Disciplined(s) && Sendable(s, slot, x, y)
    ensures var (t, ok) := Press(s, slot, right, x, y, net);
            var n := |s.wire| + if s.held >= 0 then 3 else 0;
            var d := s.routing.value[slot];
            && |t.wire| > n && t.wire[n].Attempt?
            && t.wire[n] == Attempt(d, slot, MoveTo, x, y, t.wire[n].number, net(n))
            && (!net(n) ==> !ok && |t.wire| == n + 1 && t.held == -1)
            && (net(n) ==>
                  && ok == net(n + 1) && |t.wire| > n + 1 && t.wire[n + 1].Attempt?
                  && t.wire[n + 1]
                     == Attempt(d, slot, if right then RightDown else LeftDown, x, y, t.wire[n + 1].number, net(n + 1)))
            && (ok ==> t.held == slot && t.right == right && t.x == x && t.y == y && |t.wire| == n + 2)
            && (net(n) && !ok ==> LetsGo(s, t, slot, right, x, y, n + 2))
  {
    hide Send, ObserveAll, PacketExists, ReleaseHeld;
    ReleaseDisciplined(s, net);
    ReleaseSends(s, net);
    var released := ReleaseHeld(s, net);
    SendObserved(released, slot, MoveTo, x, y, net);
    var (moved, ok) := Send(released, slot, MoveTo, x, y, net);
    if ok {
      var held := moved.(held := slot, right := right, x := x, y := y, dragging := moved.dragging[slot := true]);
      SendObserved(held, slot, Down(right), x, y, net);
      var (pressed, down) := Send(held, slot, Down(right), x, y, net);
      assert Disciplined(pressed);
      ReleaseSends(pressed, net);
    }
  }

  /** A move, with no button held or one of its own slot, puts the caller's position on the wire, and lets go if it
      fails; with the button held in another slot, or for a slot that cannot be reached, it sends no move. */
  lemma MoveSends(s: Mouse, slot: nat, x: int, y: int, net: nat -> bool)
    requires Disciplined(s)
    ensures var (t, ok) := Move(s, slot, x, y, net);
            var n := |s.wire|;
            if s.held >= 0 && s.held != slot then t == s && !ok
            else if !Sendable(s, slot, x, y) then !ok && LetsGo(s, t, s.held, s.right, s.x, s.y, n)
            else
              && ok == net(n) && |t.wire| > n && t.wire[n].Attempt?
              && t.wire[n] == Attempt(s.routing.value[slot], slot, MoveTo, x, y, t.wire[n].number, ok)
              && (ok ==> t.x == x && t.y == y && |t.wire| == n + 1 && t.held == s.held)
              && (!ok ==> LetsGo(s, t, s.held, s.right, s.x, s.y, n + 1))
  {
    hide Send, ObserveAll, PacketExists, ReleaseHeld;
    if !(s.held >= 0 && s.held != slot) {
      SendObserved(s, slot, MoveTo, x, y, net);
      var (moved, ok) := Send(s, slot, MoveTo, x, y, net);
      if !ok {
        assert Disciplined(moved);
        ReleaseSends(moved, net);
      }
    }
  }

  /** A change of route lets go over the old route before the sockets change, and then sends over the new one. */
  lemma ActivateSends(s: Mouse, routing: Option<Routing>, net: nat -> bool)
    requires Disciplined(s)
    ensures var t, n := Activate(s, routing, net), |s.wire| + if s.held >= 0 then 3 else 0;
            && t.routing == routing && t.held == -1 && |t.wire| == n + 1 && t.wire[n] == Rerouted
            && LetsGo(s, t.(routing := s.routing, wire := t.wire[..n]), s.held, s.right, s.x, s.y, |s.wire|)
  {
    hide ReleaseHeld, ObserveAll;
    ReleaseDisciplined(s, net);
    ReleaseSends(s, net);
    var t := Activate(s, routing, net);
    assert t.wire[..|t.wire| - 1] == ReleaseHeld(s, net).wire;
  }

  lemma MoveDisciplined(s: Mouse, slot: nat, x: int, y: int, net: nat -> bool)
    requires Disciplined(s)
    ensures Disciplined(Move(s, slot, x, y, net).0)
  {
    hide Send, ObserveAll, PacketExists, ReleaseHeld;
    if !(s.held >= 0 && s.held != slot) {
      SendObserved(s, slot, MoveTo, x, y, net);
      var (moved, ok) := Send(s, slot, MoveTo, x, y, net);
      if !ok {
        assert Disciplined(moved);
        ReleaseDisciplined(moved, net);
      }
    }
  }

  lemma ActivateDisciplined(s: Mouse, routing: Option<Routing>, net: nat -> bool)
    requires Disciplined(s)
    ensures Disciplined(Activate(s, routing, net))
  {
    hide ReleaseHeld;
    ReleaseDisciplined(s, net);
    ObserveAppended(ReleaseHeld(s, net).wire, Rerouted);
  }

  datatype Command =
    | DoPress(slot: nat, right: bool, x: int, y: int)
    | DoMove(slot: nat, x: int, y: int)
    | DoRelease
    | DoActivate(routing: Option<Routing>)

  function Perform(s: Mouse, c: Command, net: nat -> bool): (r: Mouse)
    requires s.Shaped()
    ensures r.Shaped()
  {
    match c
    case DoPress(slot, right, x, y) => Press(s, slot, right, x, y, net).0
    case DoMove(slot, x, y) => Move(s, slot, x, y, net).0
    case DoRelease => ReleaseHeld(s, net)
    case DoActivate(routing) => Activate(s, routing, net)
  }

  function Run(commands: seq<Command>, net: nat -> bool): (s: Mouse)
    ensures s.Shaped()
  {
    if commands == [] then IDLE else Perform(Run(commands[..|commands| - 1], net), commands[|commands| - 1], net)
  }

  /** For every series of commands and every pattern of failing sends: the wire is disciplined, the plugin holds a
      button exactly when the wire shows one down with no button-up yet, and a held button's slot is enabled and in
      range. */
  lemma {:induction false} EveryPressIsReleased(commands: seq<Command>, net: nat -> bool)
    ensures Disciplined(Run(commands, net))
  {
    hide Disciplined, Press, Move, ReleaseHeld, Activate;
    if commands == [] {
      IdleDisciplined();
    } else {
      var s, c := Run(commands[..|commands| - 1], net), commands[|commands| - 1];
      EveryPressIsReleased(commands[..|commands| - 1], net);
      match c
      case DoPress(slot, right, x, y) => PressDisciplined(s, slot, right, x, y, net);
      case DoMove(slot, x, y) => MoveDisciplined(s, slot, x, y, net);
      case DoRelease => ReleaseDisciplined(s, net);
      case DoActivate(routing) => ActivateDisciplined(s, routing, net);
    }
  }

  lemma IdleDisciplined()
    ensures Disciplined(IDLE)
  {
  }

  predicate IsDown(e: Entry) {
    e.Attempt? && (e.action.LeftDown? || e.action.RightDown?)
  }

  predicate IsMoveFor(e: Entry, down: Entry)
    requires IsDown(down)
  {
    e.Attempt? && e.action.MoveTo? && e.to == down.to && e.slot == down.slot
  }

  predicate IsUpFor(e: Entry, down: Entry)
    requires IsDown(down)
  {
    e.Attempt? && e.to == down.to && e.slot == down.slot && e.action == Up(down.action.RightDown?)
  }

  /** After the button-down at `d` there are only moves up to `u`, and then button-ups up to `end`. */
  ghost predicate MovesThenUps(wire: seq<Entry>, d: nat, u: nat, end: nat)
    requires d < u <= end <= |wire| && IsDown(wire[d])
  {
    && (forall i | d < i < u :: IsMoveFor(wire[i], wire[d]))
    && (forall i | u <= i < end :: IsUpFor(wire[i], wire[d]))
  }

  lemma {:induction false} UpsSoFar(wire: seq<Entry>, d: nat, end: nat) returns (u: nat)
    requires d < end <= |wire| && IsDown(wire[d]) && ObserveAll(wire[..end]).Some?
    ensures d < u <= end && MovesThenUps(wire, d, u, Min(end, u + 3))
    ensures var remote := ObserveAll(wire[..end]).value;
            u + 3 > end ==>
              && remote.Pressed? && remote.ups == end - u && remote.to == wire[d].to && remote.slot == wire[d].slot
              && remote.right == wire[d].action.RightDown?
    ensures u + 3 == end ==> ObserveAll(wire[..end]).value.Released?
  {
    assert wire[..end][..end - 1] == wire[..end - 1];
    if end == d + 1 {
      u := end;
    } else {
      u := UpsSoFar(wire, d, end - 1);
      if u == end - 1 && IsMoveFor(wire[end - 1], wire[d]) {
        u := end;
      }
    }
  }

  /** Exactly three button-ups at `u` let go of the button pressed at `d`. */
  ghost predicate LetGoAt(wire: seq<Entry>, d: nat, u: nat)
    requires d < |wire| && IsDown(wire[d])
  {
    d < u <= |wire| - 3 && MovesThenUps(wire, d, u, u + 3)
  }

  /** On a disciplined wire on which the button ends up released, every button-down is followed, after nothing but moves
      of the same slot, by three button-ups for the same slot, destination and button. */
  lemma DownIsFollowedByThreeUps(wire: seq<Entry>, d: nat)
    requires ObserveAll(wire) == Some(Released) && d < |wire| && IsDown(wire[d])
    ensures exists u: nat :: LetGoAt(wire, d, u)
  {
    assert wire[..|wire|] == wire;
    var u := UpsSoFar(wire, d, |wire|);
    assert LetGoAt(wire, d, u);
  }

  /** In every run that ends with a release or a change of route, every button-down there has ever been was followed by
      three button-ups for its slot, destination and button. */
  lemma EveryDownIsLetGo(commands: seq<Command>, last: Command, net: nat -> bool, d: nat)
    requires last.DoRelease? || last.DoActivate?
    requires var wire := Run(commands + [last], net).wire; d < |wire| && IsDown(wire[d])
    ensures exists u: nat :: LetGoAt(Run(commands + [last], net).wire, d, u)
  {
    hide Send, ObserveAll, Run, LetGoAt, Press, Move;
    var s := Run(commands, net);
    EveryPressIsReleased(commands, net);
    EveryPressIsReleased(commands + [last], net);
    RunStep(commands, last, net);
    ReleaseDisciplined(s, net);
    DownIsFollowedByThreeUps(Run(commands + [last], net).wire, d);
  }

  lemma RunStep(commands: seq<Command>, last: Command, net: nat -> bool)
    ensures Run(commands + [last], net) == Perform(Run(commands, net), last, net)
  {
    assert (commands + [last])[..|commands|] == commands;
  }
}
