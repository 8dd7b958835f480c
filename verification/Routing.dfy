/** Reconfiguration while packets arrive (src/receiver.cpp, src/video-receiver.cpp): the settings thread, the network
    thread, the audio worker and the video worker as interleaved steps, one step for every atomic access and for every
    passage that holds a lock. A stop or a failed step of one thread is that thread taking no more steps. */
module Routing {
  import opened Words

  const SLOTS: nat := 8
  const VIDEOS: nat := 2
  const QUEUE: nat := 4096

  /** What a slot listens to. */
  datatype Key = Key(enabled: bool, sender: nat, name: seq<Byte>)

  /** Where a datagram comes from, and the port of the socket it was read from. */
  datatype Origin = Origin(sender: nat, name: seq<Byte>, port: nat)

  datatype Socket = Socket(id: nat, port: nat)

  datatype Route = Route(generation: nat, port: nat, socket: Option<Socket>, slots: seq<Key>, videos: seq<Key>)

  const OFF := Key(false, 0, [])
  const DEFAULT := Route(0, 6980, None, [OFF, OFF, OFF, OFF, OFF, OFF, OFF, OFF], [OFF, OFF])

  predicate Accepts(key: Key, port: nat, o: Origin) {
    key.enabled && o.sender == key.sender && o.name == key.name && o.port == port
  }

  /** The settings thread: `slot` audio slots and `video` video slots have been handled. */
  datatype Settings =
    | Ready
    | Prepared(next: Route)
    | Applying(next: Route, slot: nat, video: nat)

  datatype Network =
    | Idle
    | Selecting(socket: Socket)
    | Received(socket: Socket, origin: Origin, isVideo: bool)
    | Examining(route: Route, origin: Origin, isVideo: bool, slot: nat)
    | Locked(route: Route, origin: Origin, slot: nat, checked: bool)
    | Enqueueing(route: Route, origin: Origin, slot: nat)

  /** The audio worker; `at` and `early` record, for the proofs, the generation at the pull and whether the slot had
      still to be reset for it. */
  datatype Audio =
    | Sleeping
    | Scanning(generation: nat, slot: nat)
    | Holding(generation: nat, slot: nat, block: set<Origin>, at: nat, early: bool)

  datatype Delivery = Delivery(generation: nat, slot: nat, block: set<Origin>, early: bool)

  datatype Fragment = Fragment(slot: nat, origin: Origin, generation: nat)

  datatype Worker =
    | Waiting
    | Taken(fragment: Fragment)
    | Assembled(fragment: Fragment, completed: Option<set<Fragment>>)

  /** `port` is the receiver's port as this slot last saw it. */
  datatype VideoSlot = VideoSlot(key: Key, port: nat, generation: nat, latest: Option<set<Fragment>>)

  datatype Video = Video(
    slots: seq<VideoSlot>, generations: seq<nat>, queue: seq<Fragment>,
    assemblers: seq<set<Fragment>>, tags: seq<nat>, worker: Worker)

  /** The whole receiver; a buffer and a picture are seen as the set of datagrams that went into them. `routes` lists
      every route ever published or about to be. */
  datatype State = State(
    settings: Settings, network: Network, audio: Audio,
    generation: nat, published: Route, routes: seq<Route>,
    buffers: seq<set<Origin>>, delivered: seq<Delivery>, video: Video)

  const UNUSED := VideoSlot(OFF, 0, 0, None)

  const START := State(
    Ready, Idle, Sleeping, 0, DEFAULT, [DEFAULT], [{}, {}, {}, {}, {}, {}, {}, {}], [],
    Video([UNUSED, UNUSED], [0, 0], [], [{}, {}], [0, 0], Waiting))

  /** The steps; the parameters are the choices of the environment, and of the parts that are modelled elsewhere: what a
      buffer or an assembler keeps, and which datagrams a block or a picture is made of. */
  datatype Action =
    | Prepare(next: Route) | Abandon | Bump | ResetSlot | ConfigureVideo | Publish
    | Load | Receive(origin: Origin, isVideo: bool) | Reload | Examine | CheckGeneration | Push(kept: set<Origin>)
    | Enqueue(room: bool)
    | LoadGeneration | Pull(kept: set<Origin>, block: set<Origin>) | Deliver
    | Take | Expire(slot: nat, rest: set<Fragment>)
    | Assemble(young: bool, content: set<Fragment>, completed: Option<set<Fragment>>)
    | Store(decoded: bool)

  predicate SlotLocked(s: State, i: nat) {
    s.network.Locked? && s.network.slot == i
  }

  predicate ConfigLocked(s: State) {
    s.settings.Applying? || s.network.Enqueueing?
  }

  predicate WellFormed(r: Route) {
    && |r.slots| == SLOTS && |r.videos| == VIDEOS
    && (r.socket.Some? ==> r.socket.value.port == r.port)
  }

  predicate AnyEnabled(r: Route) {
    (exists k | k in r.slots :: k.enabled) || exists k | k in r.videos :: k.enabled
  }

  /** A socket is kept while the port stays the same. */
  predicate Succeeds(was: Route, next: Route) {
    && WellFormed(next)
    && (next.socket.Some? <==> AnyEnabled(next))
    && (next.socket.Some? && was.socket.Some? && was.port == next.port ==> next.socket == was.socket)
  }

  predicate Changed(a: Key, aPort: nat, b: Key, bPort: nat) {
    a != b || aPort != bPort
  }

  function SettingsStep(s: State, a: Action): State {
    match (s.settings, a)
    case (Ready, Prepare(next)) =>
      if Succeeds(s.published, next) then s.(settings := Prepared(next)) else s
    case (Prepared(_), Abandon) => s.(settings := Ready)
    case (Prepared(next), Bump) =>
      if ConfigLocked(s) then s
      else
        var numbered := next.(generation := s.generation + 1);
        s.(generation := s.generation + 1, routes := s.routes + [numbered], settings := Applying(numbered, 0, 0))
    case (Applying(next, i, 0), ResetSlot) =>
      if i >= SLOTS || |s.buffers| != SLOTS || |next.slots| != SLOTS || |s.published.slots| != SLOTS then s
      else if !Changed(s.published.slots[i], s.published.port, next.slots[i], next.port) then
        s.(settings := Applying(next, i + 1, 0))
      else if SlotLocked(s, i) then s
      else s.(settings := Applying(next, i + 1, 0), buffers := s.buffers[i := {}])
    case (Applying(next, i, j), ConfigureVideo) =>
      if i != SLOTS || j >= VIDEOS || |next.videos| != VIDEOS then s
      else s.(settings := Applying(next, i, j + 1), video := Configured(s.video, j, next.videos[j], next.port))
    case (Applying(next, i, j), Publish) =>
      if i != SLOTS || j != VIDEOS then s else s.(settings := Ready, published := next)
    case _ => s
  }

  function Configured(v: Video, j: nat, key: Key, port: nat): Video {
    if j >= |v.slots| || j >= |v.generations| then v
    else if Changed(v.slots[j].key, v.slots[j].port, key, port) then
      var g := v.generations[j] + 1;
      v.(slots := v.slots[j := VideoSlot(key, port, g, None)], generations := v.generations[j := g])
    else v
  }

  function NetworkStep(s: State, a: Action): State {
    match (s.network, a)
    case (Idle, Load) =>
      if ConfigLocked(s) || s.published.socket.None? then s else s.(network := Selecting(s.published.socket.value))
    case (Selecting(socket), Receive(origin, isVideo)) =>
      if origin.port == socket.port then s.(network := Received(socket, origin, isVideo)) else s
    case (Received(socket, origin, isVideo), Reload) =>
      if ConfigLocked(s) then s
      else if s.published.socket != Some(socket) then s.(network := Idle)
      else s.(network := Examining(s.published, origin, isVideo, 0))
    case (Examining(route, origin, isVideo, i), Examine) =>
      if isVideo then
        if ConfigLocked(s) then s
        else if route.generation != s.generation then s.(network := Idle)
        else s.(network := Enqueueing(route, origin, 0))
      else if i >= SLOTS || |route.slots| != SLOTS then s.(network := Idle)
      else if Accepts(route.slots[i], route.port, origin) then s.(network := Locked(route, origin, i, false))
      else s.(network := Examining(route, origin, false, i + 1))
    case (Locked(route, origin, i, false), CheckGeneration) =>
      if route.generation != s.generation then s.(network := Idle)
      else s.(network := Locked(route, origin, i, true))
    case (Locked(route, origin, i, true), Push(kept)) =>
      if i < |s.buffers| && kept <= s.buffers[i] + {origin} then
        s.(network := Examining(route, origin, false, i + 1), buffers := s.buffers[i := kept])
      else s
    case (Enqueueing(route, origin, i), Enqueue(room)) =>
      if i >= VIDEOS || |route.videos| != VIDEOS || |s.video.generations| != VIDEOS then s.(network := Idle)
      else
        var next := s.(network := Enqueueing(route, origin, i + 1));
        if Accepts(route.videos[i], route.port, origin) && room && |s.video.queue| < QUEUE then
          next.(video := s.video.(queue := s.video.queue + [Fragment(i, origin, s.video.generations[i])]))
        else next
    case _ => s
  }

  /** Whether slot `i` has still to be reset for the generation that has been announced. */
  predicate AwaitsReset(s: State, i: nat) {
    && s.settings.Applying? && s.settings.slot <= i < SLOTS
    && |s.published.slots| == SLOTS && |s.settings.next.slots| == SLOTS
    && Changed(s.published.slots[i], s.published.port, s.settings.next.slots[i], s.settings.next.port)
  }

  function AudioStep(s: State, a: Action): State {
    match (s.audio, a)
    case (Sleeping, LoadGeneration) => s.(audio := Scanning(s.generation, 0))
    case (Scanning(g, i), Pull(kept, block)) =>
      if i >= SLOTS || i >= |s.buffers| then s.(audio := Sleeping)
      else if SlotLocked(s, i) || !(kept <= s.buffers[i]) || !(block <= s.buffers[i]) then s
      else s.(audio := Holding(g, i, block, s.generation, AwaitsReset(s, i)), buffers := s.buffers[i := kept])
    case (Holding(g, i, block, at, early), Deliver) =>
      var next := s.(audio := Scanning(g, i + 1));
      if block == {} || g != s.generation then next
      else next.(delivered := s.delivered + [Delivery(g, i, block, early)])
    case _ => s
  }

  /** `ready` says that the state lock is free. */
  function VideoStep(v: Video, a: Action, ready: bool): Video {
    match (v.worker, a)
    case (Waiting, Take) =>
      if v.queue == [] then v else v.(worker := Taken(v.queue[0]), queue := v.queue[1..])
    case (Waiting, Expire(i, rest)) =>
      if v.queue == [] && i < |v.assemblers| && rest <= v.assemblers[i] then
        v.(assemblers := v.assemblers[i := rest])
      else v
    case (Taken(p), Assemble(young, content, completed)) =>
      if p.slot >= |v.assemblers| || p.slot >= |v.tags| || p.slot >= |v.generations| then v
      else if !young || p.generation != v.generations[p.slot] then v.(worker := Waiting)
      else
        var all := (if v.tags[p.slot] == p.generation then v.assemblers[p.slot] else {}) + {p};
        if content <= all && (completed.Some? ==> completed.value <= all) then
          v.(assemblers := v.assemblers[p.slot := content], tags := v.tags[p.slot := p.generation],
             worker := Assembled(p, completed))
        else v
    case (Assembled(p, completed), Store(decoded)) =>
      if !ready || p.slot >= |v.slots| then v
      else if v.slots[p.slot].generation == p.generation && completed.Some? && decoded then
        v.(slots := v.slots[p.slot := v.slots[p.slot].(latest := completed)], worker := Waiting)
      else v.(worker := Waiting)
    case _ => v
  }

  /** One step of the thread the action belongs to; an action that is not possible changes nothing. */
  function Step(s: State, a: Action): State {
    match a
    case Prepare(_) => SettingsStep(s, a)
    case Abandon => SettingsStep(s, a)
    case Bump => SettingsStep(s, a)
    case ResetSlot => SettingsStep(s, a)
    case ConfigureVideo => SettingsStep(s, a)
    case Publish => SettingsStep(s, a)
    case LoadGeneration => AudioStep(s, a)
    case Pull(_, _) => AudioStep(s, a)
    case Deliver => AudioStep(s, a)
    case Take => s.(video := VideoStep(s.video, a, true))
    case Expire(_, _) => s.(video := VideoStep(s.video, a, true))
    case Assemble(_, _, _) => s.(video := VideoStep(s.video, a, true))
    case Store(_) => s.(video := VideoStep(s.video, a, !(s.settings.Applying? && 0 < s.settings.video < VIDEOS)))
    case _ => NetworkStep(s, a)
  }

  /** The state after any interleaving of the threads' steps. */
  function Run(actions: seq<Action>): State {
    if actions == [] then START else Step(Run(actions[..|actions| - 1]), actions[|actions| - 1])
  }
}
