/** The window in which the audio worker's generation test lets a block of the previous configuration through. */
module RoutingWindow {
  import opened Words
  import opened Routing
  import opened RoutingSafety

  const NAME: seq<Byte> := [65]
  const OTHER: seq<Byte> := [66]

  /** The first slot listens to stream `name`. */
  function FirstSlot(generation: nat, name: seq<Byte>): Route {
    Route(generation, 6980, Some(Socket(1, 6980)), [Key(true, 7, name), OFF, OFF, OFF, OFF, OFF, OFF, OFF], [OFF, OFF])
  }

  const PACKET := Origin(7, NAME, 6980)

  lemma Then2(actions: seq<Action>, a: Action, b: Action)
    ensures Run(actions + [a, b]) == Step(Step(Run(actions), a), b)
  {
    hide Run, Step;
    Then(actions, a);
    Then(actions + [a], b);
    assert actions + [a] + [b] == actions + [a, b];
  }

  /** A configuration is applied. */
  lemma Opened() returns (actions: seq<Action>)
    ensures Run(actions) == START.(generation := 1, published := FirstSlot(1, NAME),
            routes := [DEFAULT, FirstSlot(1, NAME)],
                                   video := Run(actions).video)
  {
    hide Run;
    assert Run([]) == START by { Nothing(); }
    assert Key(true, 7, NAME) in FirstSlot(0, NAME).slots;
    Then2([], Prepare(FirstSlot(0, NAME)), Bump);
    var a := [] + [Prepare(FirstSlot(0, NAME)), Bump];
    assert Succeeds(DEFAULT, FirstSlot(0, NAME));
    actions := ResetAll(a, Run(a), 0);
    Then2(actions, ConfigureVideo, ConfigureVideo);
    actions := actions + [ConfigureVideo, ConfigureVideo];
    Then(actions, Publish);
    actions := actions + [Publish];
  }

  lemma Nothing()
    ensures Run([]) == START
  {
  }

  ghost predicate Listening(s: State) {
    && s.settings.Ready? && s.network.Idle? && s.audio.Sleeping? && s.generation == 1
    && s.published == FirstSlot(1, NAME)
    && s.routes == [DEFAULT, FirstSlot(1, NAME)] && s.buffers == START.buffers && s.delivered == []
  }

  /** A packet arrives and finds its slot. */
  lemma Arrived(actions: seq<Action>) returns (later: seq<Action>)
    requires Listening(Run(actions))
    ensures Run(later) == Run(actions).(network := Locked(FirstSlot(1, NAME), PACKET, 0, false))
  {
    hide Run;
    Then2(actions, Load, Receive(PACKET, false));
    later := actions + [Load, Receive(PACKET, false)];
    Then2(later, Reload, Examine);
    later := later + [Reload, Examine];
  }

  /** It is stored. */
  lemma Stored(actions: seq<Action>) returns (later: seq<Action>)
    requires Listening(Run(actions))
    ensures var s := Run(actions);
            Run(later) == s.(network := Examining(FirstSlot(1, NAME), PACKET, false, 1),
                buffers := s.buffers[0 := {PACKET}])
  {
    hide Run;
    later := Arrived(actions);
    Then2(later, CheckGeneration, Push({PACKET}));
    later := later + [CheckGeneration, Push({PACKET})];
  }

  /** The slot is to listen to another stream; the new generation is announced. */
  lemma Announced(actions: seq<Action>, s: State) returns (later: seq<Action>)
    requires Run(actions) == s && s.settings.Ready? && s.generation == 1 && s.published == FirstSlot(1, NAME)
    requires s.network.Examining?
    ensures Run(later) == s.(generation := 2, routes := s.routes + [FirstSlot(2, OTHER)],
                             settings := Applying(FirstSlot(2, OTHER), 0, 0))
  {
    hide Run;
    assert Key(true, 7, OTHER) in FirstSlot(0, OTHER).slots;
    assert Succeeds(s.published, FirstSlot(0, OTHER));
    Then2(actions, Prepare(FirstSlot(0, OTHER)), Bump);
    later := actions + [Prepare(FirstSlot(0, OTHER)), Bump];
  }

  /** The audio worker comes first. */
  lemma PulledEarly(actions: seq<Action>, s: State) returns (later: seq<Action>)
    requires Run(actions) == s && s.settings == Applying(FirstSlot(2, OTHER), 0, 0) && s.published == FirstSlot(1, NAME)
    requires s.network.Examining? && s.audio.Sleeping? && s.generation == 2
    requires |s.buffers| == SLOTS && s.buffers[0] == {PACKET} && s.delivered == []
    ensures Run(later).delivered == [Delivery(2, 0, {PACKET}, true)] && Run(later).routes == s.routes
  {
    hide Run;
    assert AwaitsReset(s, 0);
    Then2(actions, LoadGeneration, Pull({}, {PACKET}));
    later := actions + [LoadGeneration, Pull({}, {PACKET})];
    Then(later, Deliver);
    later := later + [Deliver];
  }

  /** The block delivered for the first slot under the announced generation is made of a packet that generation's
      route does not accept: the worker read the generation after it was announced, but pulled before the slot was
      reset. */
  lemma PreviousBlockPasses() returns (actions: seq<Action>)
    ensures var s := Run(actions);
            && |s.delivered| == 1 && |s.routes| == 3
            && s.delivered[0] == Delivery(2, 0, {PACKET}, true)
            && s.routes[2] == FirstSlot(2, OTHER) && !Accepts(s.routes[2].slots[0], s.routes[2].port, PACKET)
  {
    hide Run;
    actions := Opened();
    actions := Stored(actions);
    actions := Announced(actions, Run(actions));
    actions := PulledEarly(actions, Run(actions));
  }
}
