/** Isolation across reconfigurations: whatever the threads' interleaving, nothing accepted for one configuration of a
    slot is attributed to another. */
module RoutingSafety {
  import opened Words
  import opened Routing

  /** Routes are numbered as they are announced, and the published one is the last or, while settings are applied, the
      last but one. */
  ghost predicate Numbered(s: State) {
    && |s.routes| == s.generation + 1 && |s.buffers| == SLOTS
    && (forall g | 0 <= g < |s.routes| :: s.routes[g].generation == g && WellFormed(s.routes[g]))
    && match s.settings
       case Ready => s.published == s.routes[s.generation]
       case Prepared(next) => s.published == s.routes[s.generation] && WellFormed(next)
       case Applying(next, i, j) =>
         && s.generation > 0 && s.published == s.routes[s.generation - 1] && next == s.routes[s.generation]
         && i <= SLOTS && j <= VIDEOS && (j > 0 ==> i == SLOTS)
  }

  /** The route slot `i` follows: the announced one once the slot has been handled. */
  function RouteOf(s: State, i: nat): Route {
    if s.settings.Applying? && i < s.settings.slot then s.settings.next else s.published
  }

  ghost predicate SlotAccepts(r: Route, i: nat, o: Origin)
    requires i < SLOTS
  {
    |r.slots| == SLOTS && Accepts(r.slots[i], r.port, o)
  }

  /** Every packet in a buffer belongs to the route its slot follows. */
  ghost predicate Isolated(s: State) {
    forall i, o | 0 <= i < SLOTS && i < |s.buffers| && o in s.buffers[i] :: SlotAccepts(RouteOf(s, i), i, o)
  }

  ghost predicate Published(s: State, r: Route) {
    r.generation <= s.published.generation < |s.routes| && r == s.routes[r.generation]
  }

  /** A route the network thread holds may be out of date, but its generation then tells. */
  ghost predicate Carried(s: State) {
    match s.network
    case Idle => true
    case Selecting(socket) => true
    case Received(socket, o, _) => o.port == socket.port
    case Examining(r, o, _, i) => Published(s, r) && o.port == r.port
    case Locked(r, o, i, checked) =>
      && Published(s, r) && o.port == r.port
      && i < SLOTS && SlotAccepts(r, i, o) && (checked ==> SlotAccepts(RouteOf(s, i), i, o))
    case Enqueueing(r, o, i) => !s.settings.Applying? && r == s.published && o.port == r.port
  }

  /** A block was taken for its slot's route or, while the slot still awaited its reset, for the route before it. */
  ghost predicate TakenFor(s: State, g: nat, i: nat, block: set<Origin>, early: bool) {
    && g < |s.routes| && i < SLOTS
    && (!early ==> forall o | o in block :: SlotAccepts(s.routes[g], i, o))
    && (early ==>
          && g > 0
          && forall o | o in block :: !SlotAccepts(s.routes[g], i, o) && SlotAccepts(s.routes[g - 1], i, o))
  }

  ghost predicate Attributed(s: State) {
    && (match s.audio
        case Sleeping => true
        case Scanning(g, _) => g <= s.generation
        case Holding(g, i, block, at, early) => g <= at <= s.generation && TakenFor(s, at, i, block, early))
    && forall d | d in s.delivered :: d.block != {} && TakenFor(s, d.generation, d.slot, d.block, d.early)
  }

  ghost predicate AudioSafe(s: State) {
    Numbered(s) && Isolated(s) && Carried(s) && Attributed(s)
  }

  lemma SettingsKeepNumbered(s: State, a: Action)
    requires Numbered(s)
    ensures Numbered(SettingsStep(s, a))
  {
    hide Configured, Changed, AnyEnabled;
  }

  lemma SettingsKeepIsolated(s: State, a: Action)
    requires Numbered(s) && Isolated(s)
    ensures Isolated(SettingsStep(s, a))
  {
    hide Configured, AnyEnabled, Succeeds;
  }

  lemma SettingsKeepCarried(s: State, a: Action)
    requires Numbered(s) && Carried(s)
    ensures Carried(SettingsStep(s, a))
  {
    hide Configured, AnyEnabled, Succeeds;
  }

  lemma SettingsKeepAttributed(s: State, a: Action)
    requires Numbered(s) && Attributed(s)
    ensures Attributed(SettingsStep(s, a))
  {
    hide Configured, AnyEnabled, Succeeds, Changed;
  }

  lemma NetworkKeepsNumbered(s: State, a: Action)
    requires Numbered(s)
    ensures Numbered(NetworkStep(s, a))
  {
    hide Accepts, WellFormed, QUEUE;
  }

  lemma NetworkKeepsIsolated(s: State, a: Action)
    requires Isolated(s) && Carried(s)
    ensures Isolated(NetworkStep(s, a))
  {
    hide SlotAccepts, Published, Accepts;
    match (s.network, a)
    case (Locked(r, o, i, true), Push(kept)) =>
      var t := NetworkStep(s, a);
      assert forall j | 0 <= j < SLOTS :: RouteOf(t, j) == RouteOf(s, j);
    case _ => SameRoutes(s, NetworkStep(s, a));
  }

  lemma SameRoutes(s: State, t: State)
    requires Isolated(s) && t.buffers == s.buffers && t.settings == s.settings && t.published == s.published
    ensures Isolated(t)
  {
    hide SlotAccepts;
  }

  lemma NetworkKeepsCarried(s: State, a: Action)
    requires Numbered(s) && Carried(s)
    ensures Carried(NetworkStep(s, a))
  {
    hide QUEUE;
  }

  lemma NetworkKeepsAttributed(s: State, a: Action)
    requires Attributed(s)
    ensures Attributed(NetworkStep(s, a))
  {
    hide SlotAccepts, Accepts;
    var t := NetworkStep(s, a);
    assert t.audio == s.audio && t.delivered == s.delivered && t.routes == s.routes && t.generation == s.generation;
  }

  lemma AudioKeepsIsolated(s: State, a: Action)
    requires Numbered(s) && Isolated(s)
    ensures Numbered(AudioStep(s, a)) && Isolated(AudioStep(s, a))
  {
    hide SlotAccepts, AwaitsReset, WellFormed;
    var t := AudioStep(s, a);
    assert forall j | 0 <= j < SLOTS :: RouteOf(t, j) == RouteOf(s, j);
    assert forall j, o | 0 <= j < SLOTS && j < |t.buffers| && o in t.buffers[j] :: o in s.buffers[j];
  }

  lemma AudioKeepsCarried(s: State, a: Action)
    requires Carried(s)
    ensures Carried(AudioStep(s, a))
  {
    hide SlotAccepts, AwaitsReset;
    var t := AudioStep(s, a);
    assert t.network == s.network && t.settings == s.settings && t.published == s.published && t.routes == s.routes;
  }

  /** What is pulled belongs to the slot's route: to the announced one exactly if the slot does not await its reset. */
  lemma PullIsAttributed(s: State, i: nat, block: set<Origin>)
    requires Numbered(s) && Isolated(s) && i < SLOTS && block <= s.buffers[i]
    ensures TakenFor(s, s.generation, i, block, AwaitsReset(s, i))
  {
    forall o | o in block
      ensures SlotAccepts(s.routes[s.generation], i, o) == !AwaitsReset(s, i)
      ensures AwaitsReset(s, i) ==> s.generation > 0 && SlotAccepts(s.routes[s.generation - 1], i, o)
    {
      assert SlotAccepts(RouteOf(s, i), i, o);
    }
  }

  lemma AudioKeepsAttributed(s: State, a: Action)
    requires Numbered(s) && Isolated(s) && Attributed(s)
    ensures Attributed(AudioStep(s, a))
  {
    hide SlotAccepts, AwaitsReset, Isolated, TakenFor;
    var t := AudioStep(s, a);
    forall g: nat, i: nat, block, early | TakenFor(s, g, i, block, early) ensures TakenFor(t, g, i, block, early) {
      StillTakenFor(s, t, g, i, block, early);
    }
    match (s.audio, a)
    case (Scanning(g, i), Pull(kept, block)) =>
      if i < SLOTS && i < |s.buffers| && block <= s.buffers[i] {
        PullIsAttributed(s, i, block);
      }
    case _ =>
  }

  lemma StillTakenFor(s: State, t: State, g: nat, i: nat, block: set<Origin>, early: bool)
    requires TakenFor(s, g, i, block, early) && t.routes == s.routes
    ensures TakenFor(t, g, i, block, early)
  {
  }

  // Pictures.

  /** A fragment of the slot's present generation belongs to the slot's present configuration. */
  ghost predicate Current(v: Video, f: Fragment) {
    && f.slot < VIDEOS && |v.slots| == VIDEOS
    && f.generation <= v.slots[f.slot].generation
    && (f.generation == v.slots[f.slot].generation ==> Accepts(v.slots[f.slot].key, v.slots[f.slot].port, f.origin))
  }

  /** Everything a picture is made of carries the slot's tag. */
  ghost predicate Tagged(v: Video, content: set<Fragment>, i: nat, g: nat) {
    forall f | f in content :: Current(v, f) && f.slot == i && f.generation == g
  }

  ghost predicate PicturesSafe(v: Video) {
    && |v.slots| == |v.generations| == |v.assemblers| == |v.tags| == VIDEOS
    && (forall i | 0 <= i < VIDEOS ::
          && v.slots[i].generation == v.generations[i]
          && Tagged(v, v.assemblers[i], i, v.tags[i])
          && (v.slots[i].latest.Some? ==> Tagged(v, v.slots[i].latest.value, i, v.slots[i].generation)))
    && (forall f | f in v.queue :: Current(v, f))
    && match v.worker
       case Waiting => true
       case Taken(f) => Current(v, f)
       case Assembled(f, c) => Current(v, f) && (c.Some? ==> Tagged(v, c.value, f.slot, f.generation))
  }

  /** A video slot has the configuration of the route it follows. */
  ghost predicate FollowsRoute(s: State, i: nat) {
    var r := if s.settings.Applying? && i < s.settings.video then s.settings.next else s.published;
    && i < |s.video.slots| && i < |r.videos|
    && s.video.slots[i].key == r.videos[i]
    && (s.video.slots[i].key.enabled ==> s.video.slots[i].port == r.port)
  }

  ghost predicate Aligned(s: State) {
    forall i | 0 <= i < VIDEOS :: FollowsRoute(s, i)
  }

  lemma ConfiguredKeepsCurrent(v: Video, j: nat, key: Key, port: nat, f: Fragment)
    requires Current(v, f)
    requires j < |v.generations| && j < |v.slots| ==> v.generations[j] == v.slots[j].generation
    ensures Current(Configured(v, j, key, port), f)
  {
  }

  lemma ConfigureKeepsPictures(v: Video, j: nat, key: Key, port: nat)
    requires PicturesSafe(v)
    ensures PicturesSafe(Configured(v, j, key, port))
  {
    hide Accepts;
    forall f | Current(v, f) ensures Current(Configured(v, j, key, port), f) {
      ConfiguredKeepsCurrent(v, j, key, port, f);
    }
  }

  lemma VideoKeepsPictures(v: Video, a: Action, ready: bool)
    requires PicturesSafe(v)
    ensures PicturesSafe(VideoStep(v, a, ready))
  {
    hide Accepts;
    var w := VideoStep(v, a, ready);
    forall f | Current(v, f) ensures Current(w, f) {
    }
  }

  lemma SettingsKeepAligned(s: State, a: Action)
    requires Numbered(s) && Aligned(s) && PicturesSafe(s.video)
    ensures Aligned(SettingsStep(s, a))
  {
    hide Current, Accepts, AnyEnabled, Tagged;
    forall i | 0 <= i < VIDEOS ensures FollowsRoute(SettingsStep(s, a), i) {
      assert FollowsRoute(s, i);
    }
  }

  /** What the network thread puts in the queue fits the slot it is meant for. */
  lemma EnqueuedIsCurrent(s: State, i: nat)
    requires Carried(s) && Aligned(s) && PicturesSafe(s.video) && s.network.Enqueueing? && i < VIDEOS
    requires |s.network.route.videos| == VIDEOS
    requires Accepts(s.network.route.videos[i], s.network.route.port, s.network.origin)
    ensures Current(s.video, Fragment(i, s.network.origin, s.video.generations[i]))
  {
    assert FollowsRoute(s, i);
  }

  lemma EnqueueKeepsPictures(s: State, a: Action)
    requires Carried(s) && Aligned(s) && PicturesSafe(s.video)
    ensures var t := NetworkStep(s, a); Aligned(t) && PicturesSafe(t.video)
  {
    hide SlotAccepts, Published, Accepts, Carried, PicturesSafe, QUEUE, Aligned;
    SameAligned(s, NetworkStep(s, a));
    if s.network.Enqueueing? && s.network.slot < VIDEOS && |s.network.route.videos| == VIDEOS
       && |s.video.generations| == VIDEOS
       && Accepts(s.network.route.videos[s.network.slot], s.network.route.port, s.network.origin) {
      EnqueuedIsCurrent(s, s.network.slot);
      QueueKeepsPictures(s.video, Fragment(s.network.slot, s.network.origin, s.video.generations[s.network.slot]));
    }
  }

  lemma SameAligned(s: State, t: State)
    requires Aligned(s) && t.settings == s.settings && t.published == s.published && t.video.slots == s.video.slots
    ensures Aligned(t)
  {
    forall i | 0 <= i < VIDEOS ensures FollowsRoute(t, i) {
      assert FollowsRoute(s, i);
    }
  }

  lemma QueueKeepsPictures(v: Video, f: Fragment)
    requires PicturesSafe(v) && Current(v, f)
    ensures PicturesSafe(v.(queue := v.queue + [f]))
  {
    hide Accepts;
    var w := v.(queue := v.queue + [f]);
    forall g | Current(v, g) ensures Current(w, g) {
    }
  }

  // Runs.

  ghost predicate Safe(s: State) {
    AudioSafe(s) && Aligned(s) && PicturesSafe(s.video)
  }

  lemma StepIsSafe(s: State, a: Action)
    requires Safe(s)
    ensures Safe(Step(s, a))
  {
    hide Numbered, Isolated, Carried, Attributed, PicturesSafe, Aligned, SettingsStep, NetworkStep, AudioStep,
         VideoStep;
    match a
    case Prepare(_) => SettingsAreSafe(s, a);
    case Abandon => SettingsAreSafe(s, a);
    case Bump => SettingsAreSafe(s, a);
    case ResetSlot => SettingsAreSafe(s, a);
    case ConfigureVideo => SettingsAreSafe(s, a);
    case Publish => SettingsAreSafe(s, a);
    case LoadGeneration => AudioIsSafe(s, a);
    case Pull(_, _) => AudioIsSafe(s, a);
    case Deliver => AudioIsSafe(s, a);
    case Take => VideoIsSafe(s, a, true);
    case Expire(_, _) => VideoIsSafe(s, a, true);
    case Assemble(_, _, _) => VideoIsSafe(s, a, true);
    case Store(_) => VideoIsSafe(s, a, !(s.settings.Applying? && 0 < s.settings.video < VIDEOS));
    case _ => NetworkIsSafe(s, a);
  }

  lemma SettingsAreSafe(s: State, a: Action)
    requires Safe(s)
    ensures Safe(SettingsStep(s, a))
  {
    hide Numbered, Isolated, Carried, Attributed, PicturesSafe, Aligned, Changed, Succeeds, Configured;
    SettingsKeepNumbered(s, a);
    SettingsKeepIsolated(s, a);
    SettingsKeepCarried(s, a);
    SettingsKeepAttributed(s, a);
    SettingsKeepAligned(s, a);
    match (s.settings, a)
    case (Applying(next, i, j), ConfigureVideo) =>
      if j < |next.videos| {
        ConfigureKeepsPictures(s.video, j, next.videos[j], next.port);
      }
    case _ =>
  }

  lemma NetworkIsSafe(s: State, a: Action)
    requires Safe(s)
    ensures Safe(NetworkStep(s, a))
  {
    hide Numbered, Isolated, Carried, Attributed, PicturesSafe, Aligned, NetworkStep;
    NetworkKeepsNumbered(s, a);
    NetworkKeepsIsolated(s, a);
    NetworkKeepsCarried(s, a);
    NetworkKeepsAttributed(s, a);
    EnqueueKeepsPictures(s, a);
  }

  lemma AudioIsSafe(s: State, a: Action)
    requires Safe(s)
    ensures Safe(AudioStep(s, a))
  {
    hide Numbered, Isolated, Carried, Attributed, PicturesSafe, Aligned, AwaitsReset;
    SameAligned(s, AudioStep(s, a));
    AudioKeepsIsolated(s, a);
    AudioKeepsCarried(s, a);
    AudioKeepsAttributed(s, a);
  }

  lemma VideoIsSafe(s: State, a: Action, ready: bool)
    requires Safe(s)
    ensures Safe(s.(video := VideoStep(s.video, a, ready)))
  {
    hide Numbered, Isolated, Carried, Attributed, PicturesSafe, VideoStep;
    VideoKeepsPictures(s.video, a, ready);
    VideoKeepsAligned(s, a, ready);
    SettingsFieldsOnly(s, s.(video := VideoStep(s.video, a, ready)));
  }

  lemma VideoKeepsAligned(s: State, a: Action, ready: bool)
    requires Aligned(s)
    ensures Aligned(s.(video := VideoStep(s.video, a, ready)))
  {
    forall i | 0 <= i < VIDEOS ensures FollowsRoute(s.(video := VideoStep(s.video, a, ready)), i) {
      assert FollowsRoute(s, i);
    }
  }

  /** The audio side does not see the video side. */
  lemma SettingsFieldsOnly(s: State, t: State)
    requires AudioSafe(s) && t == s.(video := t.video)
    ensures AudioSafe(t)
  {
    hide SlotAccepts, WellFormed, Published;
    SameRoutes(s, t);
    assert forall r :: Published(t, r) == Published(s, r) by { SamePublished(s, t); }
    assert Carried(t);
    forall g: nat, i: nat, block, early | TakenFor(s, g, i, block, early) ensures TakenFor(t, g, i, block, early) {
      StillTakenFor(s, t, g, i, block, early);
    }
  }

  lemma SamePublished(s: State, t: State)
    requires t.published == s.published && t.routes == s.routes
    ensures forall r :: Published(t, r) == Published(s, r)
  {
  }

  lemma {:induction false} RunIsSafe(actions: seq<Action>)
    ensures Safe(Run(actions))
  {
    hide Step, Safe;
    if actions == [] {
      StartIsSafe();
    } else {
      RunIsSafe(actions[..|actions| - 1]);
      StepIsSafe(Run(actions[..|actions| - 1]), actions[|actions| - 1]);
    }
  }

  lemma StartIsSafe()
    ensures Safe(START)
  {
  }

  /** Once a route is published, and until the next one is announced, every packet in a slot's buffer matches that
      slot's enabled flag, sender, name and port. */
  lemma BuffersMatchThePublishedRoute(actions: seq<Action>)
    ensures var s := Run(actions);
            !s.settings.Applying? ==>
              && |s.buffers| == |s.published.slots| == SLOTS
              && forall i, o | 0 <= i < SLOTS && o in s.buffers[i] :: Accepts(s.published.slots[i], s.published.port, o)
  {
    hide Run, Carried, Attributed, PicturesSafe, Aligned, Accepts;
    RunIsSafe(actions);
    var s := Run(actions);
    if !s.settings.Applying? {
      forall i, o | 0 <= i < SLOTS && o in s.buffers[i] ensures Accepts(s.published.slots[i], s.published.port, o) {
        assert SlotAccepts(RouteOf(s, i), i, o);
      }
    }
  }

  /** At any moment, a picture a slot shows was put together only from fragments queued under the slot's present
      generation, all of them from the sender, name and port the slot is configured for. */
  lemma PicturesMatchTheirSlot(actions: seq<Action>, i: nat)
    requires i < VIDEOS
    ensures var s := Run(actions);
            var v := s.video;
            && |v.slots| == |v.generations| == |s.published.videos| == VIDEOS
            && (v.slots[i].latest.Some? ==>
                  forall f | f in v.slots[i].latest.value ::
                    && f.slot == i && f.generation == v.generations[i]
                    && Accepts(v.slots[i].key, v.slots[i].port, f.origin)
                    && (!s.settings.Applying? ==> Accepts(s.published.videos[i], s.published.port, f.origin)))
  {
    hide Run, Isolated, Carried, Attributed;
    RunIsSafe(actions);
    assert FollowsRoute(Run(actions), i);
  }

  /** A block is handed on under a generation although that generation's route does not accept its packets exactly if
      it was pulled after the generation had been announced and before its slot had been reset for it; its packets
      then all belong to the route published before. */
  lemma DeliveredExactlyUnlessEarly(actions: seq<Action>, k: nat)
    requires k < |Run(actions).delivered|
    ensures var s := Run(actions);
            var d := s.delivered[k];
            && d.generation < |s.routes| && d.slot < SLOTS && |s.routes[d.generation].slots| == SLOTS
            && ((forall o | o in d.block ::
                   Accepts(s.routes[d.generation].slots[d.slot], s.routes[d.generation].port, o)) <==> !d.early)
            && (d.early ==>
                  && d.generation > 0 && |s.routes[d.generation - 1].slots| == SLOTS
                  && forall o | o in d.block ::
                       Accepts(s.routes[d.generation - 1].slots[d.slot], s.routes[d.generation - 1].port, o))
  {
    hide Run, Isolated, Carried, PicturesSafe, Aligned, Accepts;
    RunIsSafe(actions);
    var s := Run(actions);
    var d := s.delivered[k];
    assert TakenFor(s, d.generation, d.slot, d.block, d.early);
    assert s.routes[d.generation].generation == d.generation;
    assert d.early ==> s.routes[d.generation - 1].generation == d.generation - 1;
    var o :| o in d.block;
    if d.early {
      forall o | o in d.block
        ensures Accepts(s.routes[d.generation - 1].slots[d.slot], s.routes[d.generation - 1].port, o)
      {
        assert SlotAccepts(s.routes[d.generation - 1], d.slot, o);
      }
    }
  }

  lemma Then(actions: seq<Action>, a: Action)
    ensures Run(actions + [a]) == Step(Run(actions), a)
  {
    assert (actions + [a])[..|actions|] == actions;
  }

  /** Nothing to empty, nothing to wait for. */
  lemma ResetAll(actions: seq<Action>, s: State, i: nat) returns (later: seq<Action>)
    requires Run(actions) == s && s.settings.Applying? && s.settings.slot == i <= SLOTS && s.settings.video == 0
    requires s.network.Idle? && s.buffers == START.buffers && |s.settings.next.slots| == |s.published.slots| == SLOTS
    ensures Run(later) == s.(settings := Applying(s.settings.next, SLOTS, 0))
    decreases SLOTS - i
  {
    hide Run;
    later := actions;
    if i < SLOTS {
      Then(actions, ResetSlot);
      var t := Step(s, ResetSlot);
      assert s.buffers[i := {}] == s.buffers;
      assert t == s.(settings := Applying(s.settings.next, i + 1, 0));
      later := ResetAll(actions + [ResetSlot], t, i + 1);
    }
  }
}
