/** What reconfigurations do not prevent: datagrams reach exactly the slots that listen to them, completed pictures are
    shown, and new settings come into force. */
module RoutingDelivery {
  import opened Words
  import opened Routing
  import opened RoutingSafety

  /** The state some steps later. */
  function After(s: State, steps: seq<Action>): State {
    if steps == [] then s else Step(After(s, steps[..|steps| - 1]), steps[|steps| - 1])
  }

  lemma AfterThen(s: State, steps: seq<Action>, a: Action)
    ensures After(s, []) == s && After(s, steps + [a]) == Step(After(s, steps), a)
  {
    assert (steps + [a])[..|steps|] == steps;
  }

  lemma {:induction false} AfterBoth(s: State, a: seq<Action>, b: seq<Action>)
    ensures After(s, a + b) == After(After(s, a), b)
  {
    if b == [] {
      assert a + b == a;
    } else {
      AfterBoth(s, a, b[..|b| - 1]);
      assert (a + b)[..|a + b| - 1] == a + b[..|b| - 1];
    }
  }

  /** Runs go on where they are. */
  lemma {:induction false} RunOn(actions: seq<Action>, steps: seq<Action>)
    ensures Run(actions + steps) == After(Run(actions), steps)
  {
    hide Step;
    if steps == [] {
      assert actions + steps == actions;
    } else {
      RunOn(actions, steps[..|steps| - 1]);
      assert (actions + steps)[..|actions + steps| - 1] == actions + steps[..|steps| - 1];
    }
  }

  // Audio datagrams.

  /** The slot's flag, sender, stream name and port are those of the datagram. */
  predicate ListensTo(r: Route, i: nat, o: Origin)
    requires i < |r.slots|
  {
    r.slots[i].enabled && r.slots[i].sender == o.sender && r.slots[i].name == o.name && r.port == o.port
  }

  /** The network thread looks at the datagram, whose route is up to date. */
  ghost predicate Looking(s: State, o: Origin, i: nat) {
    && s.network == Examining(s.published, o, false, i) && i <= SLOTS
    && s.published.generation == s.generation && |s.published.slots| == |s.buffers| == SLOTS
  }

  /** What the slots from `i` on hold once the datagram has been offered: `kept` where they listen to it. */
  function Offered(s: State, o: Origin, i: nat, kept: seq<set<Origin>>): seq<set<Origin>>
    requires |s.published.slots| == |s.buffers| == |kept| == SLOTS
  {
    seq(SLOTS, j requires 0 <= j < SLOTS =>
      if i <= j && ListensTo(s.published, j, o) then kept[j] else s.buffers[j])
  }

  /** The datagram is offered to every slot that listens to it, in turn, and to no other. `kept` is what each buffer
      makes of it. */
  lemma {:induction false} OfferedFrom(s: State, o: Origin, i: nat, kept: seq<set<Origin>>)
    returns (steps: seq<Action>)
    requires Looking(s, o, i) && |kept| == SLOTS
    requires forall j | 0 <= j < SLOTS :: kept[j] <= s.buffers[j] + {o}
    ensures After(s, steps) == s.(network := Idle, buffers := Offered(s, o, i, kept))
    decreases SLOTS - i
  {
    hide After;
    if i == SLOTS {
      steps := [Examine];
      AfterThen(s, [], Examine);
      assert [] + [Examine] == [Examine];
      assert Offered(s, o, i, kept) == s.buffers;
    } else if ListensTo(s.published, i, o) {
      steps := [Examine, CheckGeneration, Push(kept[i])];
      var t := OfferedTo(s, o, i, kept[i]);
      var more := OfferedFrom(t, o, i + 1, kept);
      AfterBoth(s, steps, more);
      steps := steps + more;
      assert Offered(t, o, i + 1, kept) == Offered(s, o, i, kept);
    } else {
      var t := s.(network := Examining(s.published, o, false, i + 1));
      AfterThen(s, [], Examine);
      assert [] + [Examine] == [Examine];
      var more := OfferedFrom(t, o, i + 1, kept);
      AfterBoth(s, [Examine], more);
      steps := [Examine] + more;
      assert Offered(t, o, i + 1, kept) == Offered(s, o, i, kept);
    }
  }

  lemma OfferedTo(s: State, o: Origin, i: nat, kept: set<Origin>) returns (t: State)
    requires Looking(s, o, i) && i < SLOTS && ListensTo(s.published, i, o) && kept <= s.buffers[i] + {o}
    ensures t == s.(network := Examining(s.published, o, false, i + 1), buffers := s.buffers[i := kept])
    ensures After(s, [Examine, CheckGeneration, Push(kept)]) == t
  {
    hide After;
    t := s.(network := Examining(s.published, o, false, i + 1), buffers := s.buffers[i := kept]);
    AfterThen(s, [], Examine);
    AfterThen(s, [Examine], CheckGeneration);
    AfterThen(s, [Examine, CheckGeneration], Push(kept));
    assert [] + [Examine] == [Examine] && [Examine] + [CheckGeneration] == [Examine, CheckGeneration];
    assert [Examine, CheckGeneration] + [Push(kept)] == [Examine, CheckGeneration, Push(kept)];
  }

  /** In every run: a datagram read from the socket of the published route, while no settings are being applied, is
      pushed into exactly the slots whose flag, sender, name and port match it, and every other buffer stays. */
  lemma AudioIsDelivered(actions: seq<Action>, kept: seq<set<Origin>>) returns (steps: seq<Action>)
    requires var s := Run(actions);
             && !s.settings.Applying? && s.network.Received? && !s.network.isVideo
             && s.published.socket == Some(s.network.socket) && |kept| == |s.buffers| == SLOTS
             && forall j | 0 <= j < SLOTS :: kept[j] <= s.buffers[j] + {s.network.origin}
    ensures var s, t := Run(actions), Run(actions + steps);
            && |s.published.slots| == SLOTS && t == s.(network := Idle, buffers := t.buffers) && |t.buffers| == SLOTS
            && forall i | 0 <= i < SLOTS ::
                 t.buffers[i] == if ListensTo(s.published, i, s.network.origin) then kept[i] else s.buffers[i]
  {
    hide After, Run;
    RunIsSafe(actions);
    var s := Run(actions);
    var o := s.network.origin;
    assert s.published.generation == s.generation && |s.published.slots| == SLOTS by { PublishedIsCurrent(s); }
    var t := s.(network := Examining(s.published, o, false, 0));
    AfterThen(s, [], Reload);
    assert [] + [Reload] == [Reload];
    var more := OfferedFrom(t, o, 0, kept);
    AfterBoth(s, [Reload], more);
    steps := [Reload] + more;
    RunOn(actions, steps);
  }

  lemma PublishedIsCurrent(s: State)
    requires Safe(s) && !s.settings.Applying?
    ensures s.published.generation == s.generation && WellFormed(s.published)
  {
  }

  // Video datagrams.

  predicate VideoListensTo(r: Route, i: nat, o: Origin)
    requires i < |r.videos|
  {
    r.videos[i].enabled && r.videos[i].sender == o.sender && r.videos[i].name == o.name && r.port == o.port
  }

  /** What the datagram adds to the queue, slot by slot, while there is room for all. */
  function Fragments(s: State, o: Origin, n: nat): seq<Fragment>
    requires n <= VIDEOS == |s.published.videos| == |s.video.generations|
  {
    if n == 0 then []
    else
      Fragments(s, o, n - 1)
      + if VideoListensTo(s.published, n - 1, o) then [Fragment(n - 1, o, s.video.generations[n - 1])] else []
  }

  lemma EnqueueOne(s: State, o: Origin, i: nat)
    requires s.network == Enqueueing(s.published, o, i) && i < VIDEOS
    requires |s.published.videos| == |s.video.generations| == VIDEOS && |s.video.queue| < QUEUE
    ensures Step(s, Enqueue(true)) ==
              s.(network := Enqueueing(s.published, o, i + 1),
                 video := s.video.(queue := s.video.queue +
                   if VideoListensTo(s.published, i, o) then [Fragment(i, o, s.video.generations[i])] else []))
  {
    assert s.video.queue + [] == s.video.queue;
  }

  /** In every run: a video datagram read from the socket of the published route, while no settings are being applied,
      is put into the queue for exactly the video slots it matches, under their generations, if there is room. */
  lemma VideoIsQueued(actions: seq<Action>) returns (steps: seq<Action>)
    requires var s := Run(actions);
             && !s.settings.Applying? && s.network.Received? && s.network.isVideo
             && s.published.socket == Some(s.network.socket) && |s.video.queue| + VIDEOS <= QUEUE
    ensures var s := Run(actions);
            && |s.published.videos| == |s.video.generations| == VIDEOS
            && Run(actions + steps)
               == s.(network := Idle,
                     video := s.video.(queue := s.video.queue + Fragments(s, s.network.origin, VIDEOS)))
  {
    hide After, Run;
    RunIsSafe(actions);
    var s := Run(actions);
    var o := s.network.origin;
    PublishedIsCurrent(s);
    steps := [Reload, Examine, Enqueue(true), Enqueue(true), Enqueue(true)];
    RunOn(actions, steps);
    QueuedFrom(s, steps);
  }

  lemma QueuedFrom(s: State, steps: seq<Action>)
    requires steps == [Reload, Examine, Enqueue(true), Enqueue(true), Enqueue(true)]
    requires !s.settings.Applying? && s.network.Received? && s.network.isVideo
    requires s.published.socket == Some(s.network.socket) && |s.video.queue| + VIDEOS <= QUEUE
    requires |s.published.videos| == |s.video.generations| == VIDEOS && s.published.generation == s.generation
    ensures After(s, steps)
            == s.(network := Idle,
                  video := s.video.(queue := s.video.queue + Fragments(s, s.network.origin, VIDEOS)))
  {
    hide After, Step;
    var o := s.network.origin;
    var t := s.(network := Enqueueing(s.published, o, 0));
    LookedUp(s, steps[..2]);
    EnqueueOne(t, o, 0);
    var u := Step(t, Enqueue(true));
    EnqueueOne(u, o, 1);
    var w := Step(u, Enqueue(true));
    EnqueueEnd(w, o);
    AfterThen(s, steps[..2], Enqueue(true));
    AfterThen(s, steps[..3], Enqueue(true));
    AfterThen(s, steps[..4], Enqueue(true));
    assert steps[..2] + [Enqueue(true)] == steps[..3] && steps[..3] + [Enqueue(true)] == steps[..4];
    assert steps[..4] + [Enqueue(true)] == steps;
    FragmentsAre(s, o);
  }

  lemma FragmentsAre(s: State, o: Origin)
    requires |s.published.videos| == |s.video.generations| == VIDEOS
    ensures var first := if VideoListensTo(s.published, 0, o) then [Fragment(0, o, s.video.generations[0])] else [];
            var second := if VideoListensTo(s.published, 1, o) then [Fragment(1, o, s.video.generations[1])] else [];
            s.video.queue + first + second == s.video.queue + Fragments(s, o, VIDEOS)
  {
    assert Fragments(s, o, 0) == [];
    assert Fragments(s, o, 1) == Fragments(s, o, 0)
        + if VideoListensTo(s.published, 0, o) then [Fragment(0, o, s.video.generations[0])] else [];
  }

  lemma LookedUp(s: State, steps: seq<Action>)
    requires steps == [Reload, Examine]
    requires !s.settings.Applying? && s.network.Received? && s.network.isVideo
    requires s.published.socket == Some(s.network.socket) && s.published.generation == s.generation
    ensures After(s, steps) == s.(network := Enqueueing(s.published, s.network.origin, 0))
  {
    hide After;
    AfterThen(s, [], Reload);
    AfterThen(s, [Reload], Examine);
    assert [] + [Reload] == [Reload] && [Reload] + [Examine] == steps;
  }

  lemma EnqueueEnd(s: State, o: Origin)
    requires s.network == Enqueueing(s.published, o, VIDEOS)
    ensures Step(s, Enqueue(true)) == s.(network := Idle)
  {
  }

  /** In every run: a fragment at the head of the queue that is of its slot's present generation and not too old,
      completing a picture that can be decoded, makes this picture the one its slot shows, and no other. */
  lemma PictureIsShown(actions: seq<Action>, content: set<Fragment>, picture: set<Fragment>)
    returns (steps: seq<Action>)
    requires var v := Run(actions).video;
             && !Run(actions).settings.Applying? && v.worker.Waiting? && v.queue != []
             && v.queue[0].slot < |v.generations| == |v.tags| == |v.assemblers|
             && v.queue[0].generation == v.generations[v.queue[0].slot]
             && var held :=
                  if v.tags[v.queue[0].slot] == v.queue[0].generation then v.assemblers[v.queue[0].slot] else {};
                content <= held + {v.queue[0]} && picture <= held + {v.queue[0]}
    ensures var v, w := Run(actions).video, Run(actions + steps).video;
            var i := v.queue[0].slot;
            && |w.slots| == |v.slots| == VIDEOS && i < VIDEOS
            && w.slots[i] == v.slots[i].(latest := Some(picture))
            && (forall j | 0 <= j < VIDEOS && j != i :: w.slots[j] == v.slots[j])
            && w.queue == v.queue[1..] && w.generations == v.generations && w.worker.Waiting?
            && Run(actions + steps) == Run(actions).(video := w)
  {
    hide After, Run;
    RunIsSafe(actions);
    steps := [Take, Assemble(true, content, Some(picture)), Store(true)];
    RunOn(actions, steps);
    assert Current(Run(actions).video, Run(actions).video.queue[0]);
    ShownAfter(Run(actions), content, picture, steps);
  }

  lemma ShownAfter(s: State, content: set<Fragment>, picture: set<Fragment>, steps: seq<Action>)
    requires steps == [Take, Assemble(true, content, Some(picture)), Store(true)]
    requires !s.settings.Applying? && PicturesSafe(s.video) && s.video.worker.Waiting? && s.video.queue != []
    requires s.video.queue[0].slot < VIDEOS
    requires s.video.queue[0].generation == s.video.generations[s.video.queue[0].slot]
    requires var v, p := s.video, s.video.queue[0];
             var held := if v.tags[p.slot] == p.generation then v.assemblers[p.slot] else {};
             content <= held + {p} && picture <= held + {p}
    ensures var v, p := s.video, s.video.queue[0];
            After(s, steps) == s.(video := v.(
              queue := v.queue[1..], slots := v.slots[p.slot := v.slots[p.slot].(latest := Some(picture))],
              assemblers := v.assemblers[p.slot := content], tags := v.tags[p.slot := p.generation], worker := Waiting))
  {
    hide After, Tagged, Accepts;
    AfterThen(s, [], Take);
    AfterThen(s, [Take], steps[1]);
    AfterThen(s, steps[..2], Store(true));
    assert [] + [Take] == [Take] && [Take] + [steps[1]] == steps[..2];
    assert steps[..2] + [Store(true)] == steps;
  }

  // Blocks and settings.

  /** In every run: a block the audio worker pulls is handed on, if the generation is still the one it began its round
      with. */
  lemma BlockIsHandedOn(actions: seq<Action>, kept: set<Origin>, block: set<Origin>) returns (steps: seq<Action>)
    requires var s := Run(actions);
             && s.audio.Scanning? && s.audio.generation == s.generation && s.audio.slot < SLOTS
             && !SlotLocked(s, s.audio.slot) && |s.buffers| == SLOTS
             && block != {} && block <= s.buffers[s.audio.slot] && kept <= s.buffers[s.audio.slot]
    ensures var s, t := Run(actions), Run(actions + steps);
            var i := s.audio.slot;
            && t.buffers == s.buffers[i := kept] && t.audio == Scanning(s.generation, i + 1)
            && |t.delivered| == |s.delivered| + 1 && t.delivered[..|s.delivered|] == s.delivered
            && t.delivered[|s.delivered|].block == block && t.delivered[|s.delivered|].slot == i
            && t.delivered[|s.delivered|].generation == s.generation
  {
    hide After, Run, AwaitsReset;
    steps := [Pull(kept, block), Deliver];
    RunOn(actions, steps);
    AfterThen(Run(actions), [], Pull(kept, block));
    AfterThen(Run(actions), [Pull(kept, block)], Deliver);
    assert [] + [Pull(kept, block)] == [Pull(kept, block)] && [Pull(kept, block)] + [Deliver] == steps;
  }

  /** The slot's flag, sender, stream name or port is another one. */
  predicate Differs(a: Key, aPort: nat, b: Key, bPort: nat) {
    a.enabled != b.enabled || a.sender != b.sender || a.name != b.name || aPort != bPort
  }

  /** Audio slots from `i` on emptied where their configuration differs, and only there. */
  function Emptied(s: State, next: Route, i: nat): seq<set<Origin>>
    requires |s.buffers| == |s.published.slots| == |next.slots| == SLOTS
  {
    seq(SLOTS, j requires 0 <= j < SLOTS =>
      if i <= j && Differs(s.published.slots[j], s.published.port, next.slots[j], next.port) then {} else s.buffers[j])
  }

  lemma {:induction false} SlotsApplied(s: State, next: Route, i: nat) returns (steps: seq<Action>)
    requires s.settings == Applying(next, i, 0) && i <= SLOTS && !s.network.Locked?
    requires |s.buffers| == |s.published.slots| == |next.slots| == SLOTS
    ensures After(s, steps) == s.(settings := Applying(next, SLOTS, 0), buffers := Emptied(s, next, i))
    decreases SLOTS - i
  {
    hide After;
    if i == SLOTS {
      steps := [];
      AfterThen(s, [], ResetSlot);
      assert Emptied(s, next, i) == s.buffers;
    } else {
      var t := Step(s, ResetSlot);
      AfterThen(s, [], ResetSlot);
      assert [] + [ResetSlot] == [ResetSlot];
      var more := SlotsApplied(t, next, i + 1);
      AfterBoth(s, [ResetSlot], more);
      steps := [ResetSlot] + more;
      assert Emptied(t, next, i + 1) == Emptied(s, next, i);
    }
  }

  /** A video slot after new settings: as it was if they do not concern it, else without a picture, in a new
      generation. */
  ghost predicate VideoApplied(v: Video, w: Video, i: nat, key: Key, port: nat) {
    && i < |v.slots| == |w.slots| && i < |v.generations| == |w.generations|
    && if Differs(v.slots[i].key, v.slots[i].port, key, port) then
         w.slots[i] == VideoSlot(key, port, v.generations[i] + 1, None) && w.generations[i] == v.generations[i] + 1
       else w.slots[i] == v.slots[i] && w.generations[i] == v.generations[i]
  }

  lemma VideosApplied(s: State, next: Route) returns (steps: seq<Action>)
    requires s.settings == Applying(next, SLOTS, 0)
             && |next.videos| == |s.video.slots| == |s.video.generations| == VIDEOS
    ensures var t := After(s, steps);
            && t == s.(settings := Ready, published := next, video := t.video)
            && t.video == s.video.(slots := t.video.slots, generations := t.video.generations)
            && forall i | 0 <= i < VIDEOS :: VideoApplied(s.video, t.video, i, next.videos[i], next.port)
  {
    hide After;
    steps := [ConfigureVideo, ConfigureVideo, Publish];
    AfterThen(s, [], ConfigureVideo);
    AfterThen(s, [ConfigureVideo], ConfigureVideo);
    AfterThen(s, [ConfigureVideo, ConfigureVideo], Publish);
    assert [] + [ConfigureVideo] == [ConfigureVideo];
    assert [ConfigureVideo] + [ConfigureVideo] == [ConfigureVideo, ConfigureVideo];
    assert [ConfigureVideo, ConfigureVideo] + [Publish] == steps;
  }

  /** In every run: settings come into force. Exactly the slots they concern are emptied; every other slot keeps its
      packets, its picture and its generation. */
  lemma SettingsComeIntoForce(actions: seq<Action>, next: Route) returns (steps: seq<Action>)
    requires var s := Run(actions);
             s.settings.Ready? && !s.network.Locked? && !s.network.Enqueueing? && Succeeds(s.published, next)
    ensures var s, t := Run(actions), Run(actions + steps);
            && t.settings.Ready? && t.published == next.(generation := s.generation + 1)
            && t.generation == s.generation + 1 && t.network == s.network && t.delivered == s.delivered
            && |s.buffers| == |t.buffers| == |s.published.slots| == |next.slots| == SLOTS && |next.videos| == VIDEOS
            && (forall i | 0 <= i < SLOTS ::
                  t.buffers[i] ==
                    if Differs(s.published.slots[i], s.published.port, next.slots[i], next.port) then {}
                    else s.buffers[i])
            && forall i | 0 <= i < VIDEOS :: VideoApplied(s.video, t.video, i, next.videos[i], next.port)
  {
    hide After, Run, Step, AnyEnabled;
    RunIsSafe(actions);
    var s := Run(actions);
    PublishedIsCurrent(s);
    assert |s.buffers| == SLOTS && |s.video.slots| == |s.video.generations| == VIDEOS;
    var t := Announced(s, next);
    var numbered := next.(generation := s.generation + 1);
    var first := [Prepare(next), Bump];
    var slots := SlotsApplied(t, numbered, 0);
    var u := After(t, slots);
    var videos := VideosApplied(u, numbered);
    AfterBoth(s, first, slots);
    AfterBoth(s, first + slots, videos);
    steps := first + slots + videos;
    RunOn(actions, steps);
  }

  lemma Announced(s: State, next: Route) returns (t: State)
    requires s.settings.Ready? && !s.network.Enqueueing? && Succeeds(s.published, next)
    ensures var numbered := next.(generation := s.generation + 1);
            && t == s.(settings := Applying(numbered, 0, 0), generation := s.generation + 1,
                       routes := s.routes + [numbered])
            && After(s, [Prepare(next), Bump]) == t
  {
    hide After, AnyEnabled, Succeeds;
    var numbered := next.(generation := s.generation + 1);
    t := s.(settings := Applying(numbered, 0, 0), generation := s.generation + 1, routes := s.routes + [numbered]);
    AfterThen(s, [], Prepare(next));
    AfterThen(s, [Prepare(next)], Bump);
    assert [] + [Prepare(next)] == [Prepare(next)] && [Prepare(next)] + [Bump] == [Prepare(next), Bump];
  }

  // Each thread has one thing to do at a time: whatever else is tried changes nothing.

  predicate NetworkMay(n: Network, a: Action) {
    match n
    case Idle => a.Load?
    case Selecting(_) => a.Receive?
    case Received(_, _, _) => a.Reload?
    case Examining(_, _, _, _) => a.Examine?
    case Locked(_, _, _, checked) => if checked then a.Push? else a.CheckGeneration?
    case Enqueueing(_, _, _) => a.Enqueue?
  }

  lemma NetworkHasOneWay(s: State, a: Action)
    requires !NetworkMay(s.network, a)
    ensures NetworkStep(s, a) == s
  {
    hide QUEUE, Accepts;
  }

  predicate VideoMay(w: Worker, a: Action) {
    match w
    case Waiting => a.Take? || a.Expire?
    case Taken(_) => a.Assemble?
    case Assembled(_, _) => a.Store?
  }

  lemma VideoHasOneWay(v: Video, a: Action, ready: bool)
    requires !VideoMay(v.worker, a)
    ensures VideoStep(v, a, ready) == v
  {
  }

  predicate SettingsMay(s: Settings, a: Action) {
    match s
    case Ready => a.Prepare?
    case Prepared(_) => a.Abandon? || a.Bump?
    case Applying(_, i, j) => if i < SLOTS then a.ResetSlot? else if j < VIDEOS then a.ConfigureVideo? else a.Publish?
  }

  lemma SettingsHaveOneWay(s: State, a: Action)
    requires Numbered(s) && !SettingsMay(s.settings, a)
    ensures SettingsStep(s, a) == s
  {
    hide Configured, Succeeds, WellFormed;
  }
}
