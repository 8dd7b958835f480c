/** The single-producer, single-consumer ring of src/return-audio.hpp, one atomic load, store or slot access at a
    time. */
module AudioRing {
  import opened Words

  /** The capture callback: outside `write_slot`, after its load of the read counter, or filling the slot it got. */
  datatype Producer = Outside | SawRead(read: nat) | Filling

  /** The worker: outside `front`, after its load of the write counter, or using the slot it got. */
  datatype Consumer<T> = Away | SawWrite(write: nat) | Using(seen: seq<T>)

  /** `published` and `popped` record every value handed over; the program itself has only the slots and counters. */
  datatype Ring<T> = Ring(
    data: seq<T>, write: nat, read: nat, producer: Producer, consumer: Consumer<T>, published: seq<T>, popped: seq<T>)
  {
    function Capacity(): nat {
      |data|
    }
  }

  /** Steps of both threads; a slot is filled and looked at in any number of pieces. */
  datatype Step<T> =
    | LoadRead | CheckRoom | Store(value: T) | Publish
    | LoadWrite | CheckData | Look | Pop

  function Start<T>(slots: seq<T>): Ring<T> {
    Ring(slots, 0, 0, Outside, Away, [], [])
  }

  /** A step that its thread cannot take at this point changes nothing. */
  function Next<T>(s: Ring<T>, step: Step<T>): (t: Ring<T>)
    requires s.Capacity() > 0
    ensures t.Capacity() == s.Capacity()
  {
    match step
    case LoadRead => if s.producer.Outside? then s.(producer := SawRead(s.read)) else s
    case CheckRoom =>
      if s.producer.SawRead? then
        s.(producer := if s.write - s.producer.read == s.Capacity() then Outside else Filling)
      else s
    case Store(v) => if s.producer.Filling? then s.(data := s.data[s.write % s.Capacity() := v]) else s
    case Publish =>
      if s.producer.Filling? then
        s.(producer := Outside, write := s.write + 1, published := s.published + [s.data[s.write % s.Capacity()]])
      else s
    case LoadWrite => if s.consumer.Away? then s.(consumer := SawWrite(s.write)) else s
    case CheckData =>
      if s.consumer.SawWrite? then s.(consumer := if s.read == s.consumer.write then Away else Using([])) else s
    case Look =>
      if s.consumer.Using? then s.(consumer := Using(s.consumer.seen + [s.data[s.read % s.Capacity()]])) else s
    case Pop =>
      if s.consumer.Using? then
        s.(consumer := Away, read := s.read + 1, popped := s.popped + [s.data[s.read % s.Capacity()]])
      else s
  }

  function Run<T>(slots: seq<T>, steps: seq<Step<T>>): (s: Ring<T>)
    requires |slots| > 0
    ensures s.Capacity() == |slots|
  {
    if steps == [] then Start(slots) else Next(Run(slots, steps[..|steps| - 1]), steps[|steps| - 1])
  }

  ghost predicate Invariant<T>(s: Ring<T>) {
    && s.Capacity() > 0
    && s.read <= s.write <= s.read + s.Capacity()
    && |s.published| == s.write
    && s.popped == s.published[..s.read]
    && (forall i | s.read <= i < s.write :: s.data[i % s.Capacity()] == s.published[i])
    && (s.producer.SawRead? ==> s.producer.read <= s.read && s.write <= s.producer.read + s.Capacity())
    && (s.producer.Filling? ==> s.write < s.read + s.Capacity())
    && (s.consumer.SawWrite? ==> s.read <= s.consumer.write <= s.write)
    && (s.consumer.Using? ==>
          && s.read < s.write
          && forall i | 0 <= i < |s.consumer.seen| :: s.consumer.seen[i] == s.published[s.read])
  }

  /** Counters less than one capacity apart use different slots. */
  lemma SlotsDiffer(a: nat, b: nat, capacity: nat)
    requires a < b < a + capacity
    ensures a % capacity != b % capacity
  {
    var p, q := a / capacity, b / capacity;
    assert a == capacity * p + a % capacity && b == capacity * q + b % capacity;
    if q > p {
      ProductMonotone(p + 1, q, capacity);
      Distribute(capacity, p, 1);
    }
  }

  lemma StepKeepsInvariant<T>(s: Ring<T>, step: Step<T>)
    requires Invariant(s)
    ensures Invariant(Next(s, step))
  {
    if step.LoadRead? || step.CheckRoom? || step.Store? || step.Publish? {
      ProducerKeepsInvariant(s, step);
    } else {
      ConsumerKeepsInvariant(s, step);
    }
  }

  lemma ProducerKeepsInvariant<T>(s: Ring<T>, step: Step<T>)
    requires Invariant(s) && (step.LoadRead? || step.CheckRoom? || step.Store? || step.Publish?)
    ensures Invariant(Next(s, step))
  {
    if step.Store? && s.producer.Filling? {
      forall i | s.read <= i < s.write ensures i % s.Capacity() != s.write % s.Capacity() {
        SlotsDiffer(i, s.write, s.Capacity());
      }
    }
  }

  lemma ConsumerKeepsInvariant<T>(s: Ring<T>, step: Step<T>)
    requires Invariant(s) && (step.LoadWrite? || step.CheckData? || step.Look? || step.Pop?)
    ensures Invariant(Next(s, step))
  {
    if step.Pop? && s.consumer.Using? {
      assert s.published[..s.read + 1] == s.published[..s.read] + [s.published[s.read]];
    }
  }

  lemma {:induction false} RunKeepsInvariant<T>(slots: seq<T>, steps: seq<Step<T>>)
    requires |slots| > 0
    ensures Invariant(Run(slots, steps))
  {
    if steps != [] {
      RunKeepsInvariant(slots, steps[..|steps| - 1]);
      StepKeepsInvariant(Run(slots, steps[..|steps| - 1]), steps[|steps| - 1]);
    }
  }

  /** In every interleaving the ring is a bounded queue: what has been popped is a prefix of what has been published,
      and at most the capacity is between them. */
  lemma PoppedIsPrefixOfPublished<T>(slots: seq<T>, steps: seq<Step<T>>)
    requires |slots| > 0
    ensures var s := Run(slots, steps);
            && s.popped <= s.published
            && |s.popped| == s.read <= |s.published| == s.write <= s.read + |slots|
  {
    RunKeepsInvariant(slots, steps);
  }

  /** The producer never holds the slot the consumer holds, so every look at a slot sees the value published in it. */
  lemma SlotsNeverShared<T>(slots: seq<T>, steps: seq<Step<T>>)
    requires |slots| > 0
    ensures var s := Run(slots, steps);
            s.consumer.Using? ==>
              && (s.producer.Filling? ==> s.write % |slots| != s.read % |slots|)
              && (forall v | v in s.consumer.seen :: s.read < |s.published| && v == s.published[s.read])
  {
    RunKeepsInvariant(slots, steps);
    var s := Run(slots, steps);
    if s.consumer.Using? && s.producer.Filling? {
      SlotsDiffer(s.read, s.write, |slots|);
    }
  }

  /** The ring after some more steps. */
  function RunOn<T>(s: Ring<T>, steps: seq<Step<T>>): (t: Ring<T>)
    requires s.Capacity() > 0
    ensures t.Capacity() == s.Capacity()
  {
    if steps == [] then s else Next(RunOn(s, steps[..|steps| - 1]), steps[|steps| - 1])
  }

  predicate OfProducer<T>(step: Step<T>) {
    step.LoadRead? || step.CheckRoom? || step.Store? || step.Publish?
  }

  ghost predicate AllOfProducer<T>(steps: seq<Step<T>>) {
    forall i | 0 <= i < |steps| :: OfProducer(steps[i])
  }

  ghost predicate AllOfConsumer<T>(steps: seq<Step<T>>) {
    forall i | 0 <= i < |steps| :: !OfProducer(steps[i])
  }

  lemma {:induction false} ConsumerLeaves<T>(s: Ring<T>, steps: seq<Step<T>>)
    requires Invariant(s) && AllOfConsumer(steps)
    ensures var t := RunOn(s, steps);
            && Invariant(t) && t.data == s.data && t.write == s.write && t.producer == s.producer
            && t.published == s.published && t.read >= s.read
  {
    if steps != [] {
      ConsumerLeaves(s, steps[..|steps| - 1]);
      ConsumerKeepsInvariant(RunOn(s, steps[..|steps| - 1]), steps[|steps| - 1]);
    }
  }

  lemma {:induction false} ProducerLeaves<T>(s: Ring<T>, steps: seq<Step<T>>)
    requires Invariant(s) && AllOfProducer(steps)
    ensures var t := RunOn(s, steps);
            && Invariant(t) && t.read == s.read && t.consumer == s.consumer && t.popped == s.popped
            && s.published <= t.published
  {
    hide Invariant;
    HasSlots(s);
    if steps != [] {
      ProducerLeaves(s, steps[..|steps| - 1]);
      ProducerKeepsInvariant(RunOn(s, steps[..|steps| - 1]), steps[|steps| - 1]);
    }
  }

  /** The callback asks for a slot, while the worker may do anything in between. */
  ghost function Asked<T>(s: Ring<T>, between: seq<Step<T>>): (t: Ring<T>)
    requires s.Capacity() > 0
    ensures t.Capacity() == s.Capacity()
  {
    Next(RunOn(Next(s, LoadRead), between), CheckRoom)
  }

  /** The callback gets a slot if and only if there was room when it looked, and the value it stores is then
      published. */
  lemma RoomIsUsed<T>(s: Ring<T>, first: seq<Step<T>>, second: seq<Step<T>>, third: seq<Step<T>>, value: T)
    requires Invariant(s) && s.producer.Outside?
    requires AllOfConsumer(first) && AllOfConsumer(second) && AllOfConsumer(third)
    ensures Asked(s, first).producer.Filling? <==> s.write - s.read < s.Capacity()
    ensures s.write - s.read >= s.Capacity() ==> Asked(s, first).producer.Outside?
    ensures var t := Next(RunOn(Next(RunOn(Asked(s, first), second), Store(value)), third), Publish);
            t.published == if s.write - s.read < s.Capacity() then s.published + [value] else s.published
  {
    hide Next, Invariant;
    HasSlots(s);
    LoadedRead(s);
    StepKeepsInvariant(s, LoadRead);
    var loaded := Next(s, LoadRead);
    ConsumerLeaves(loaded, first);
    var looked := RunOn(loaded, first);
    CheckedRoom(looked, s.read);
    StepKeepsInvariant(looked, CheckRoom);
    var asked := Asked(s, first);
    ConsumerLeaves(asked, second);
    Stored(RunOn(asked, second), value);
    StepKeepsInvariant(RunOn(asked, second), Store(value));
    var stored := Next(RunOn(asked, second), Store(value));
    ConsumerLeaves(stored, third);
    Published(RunOn(stored, third));
  }

  lemma HasSlots<T>(s: Ring<T>)
    requires Invariant(s)
    ensures s.Capacity() > 0
  {
  }

  lemma LoadedRead<T>(s: Ring<T>)
    requires s.Capacity() > 0 && s.producer.Outside?
    ensures Next(s, LoadRead) == s.(producer := SawRead(s.read))
  {
  }

  lemma CheckedRoom<T>(s: Ring<T>, read: nat)
    requires Invariant(s) && s.producer == SawRead(read)
    ensures Next(s, CheckRoom).published == s.published && Next(s, CheckRoom).write == s.write
    ensures Next(s, CheckRoom).producer == if s.write - read < s.Capacity() then Filling else Outside
  {
  }

  lemma Stored<T>(s: Ring<T>, value: T)
    requires Invariant(s) && !s.producer.SawRead?
    ensures var t := Next(s, Store(value));
            && t.published == s.published && t.producer == s.producer && t.write == s.write
            && t.Capacity() == s.Capacity()
            && (s.producer.Filling? ==> t.data[t.write % t.Capacity()] == value)
  {
  }

  lemma Published<T>(s: Ring<T>)
    requires s.Capacity() > 0
    ensures Next(s, Publish).published
            == if s.producer.Filling? then s.published + [s.data[s.write % s.Capacity()]] else s.published
  {
  }

  /** The worker asks for the next block, while the callback may do anything in between. */
  ghost function Fetched<T>(s: Ring<T>, between: seq<Step<T>>): (t: Ring<T>)
    requires s.Capacity() > 0
    ensures t.Capacity() == s.Capacity()
  {
    Next(RunOn(Next(s, LoadWrite), between), CheckData)
  }

  /** The worker gets a block if and only if one was published when it looked; it sees the one published next after
      those it has popped, and popping it goes on to the one after. */
  lemma DataIsUsed<T>(s: Ring<T>, first: seq<Step<T>>, second: seq<Step<T>>, third: seq<Step<T>>)
    requires Invariant(s) && s.consumer.Away?
    requires AllOfProducer(first) && AllOfProducer(second) && AllOfProducer(third)
    ensures Fetched(s, first).consumer.Using? <==> s.read < |s.published|
    ensures s.read >= |s.published| ==> Fetched(s, first).consumer.Away?
    ensures s.read < |s.published| ==>
              var looked := Next(RunOn(Fetched(s, first), second), Look);
              var t := Next(RunOn(looked, third), Pop);
              looked.consumer == Using([s.published[s.read]]) && t.popped == s.popped + [s.published[s.read]]
  {
    hide Next, Invariant;
    HasSlots(s);
    LoadedWrite(s);
    StepKeepsInvariant(s, LoadWrite);
    var loaded := Next(s, LoadWrite);
    ProducerLeaves(loaded, first);
    CheckedData(RunOn(loaded, first), s.write);
    StepKeepsInvariant(RunOn(loaded, first), CheckData);
    var fetched := Fetched(s, first);
    if s.read < |s.published| {
      ProducerLeaves(fetched, second);
      LookedAt(RunOn(fetched, second));
      StepKeepsInvariant(RunOn(fetched, second), Look);
      var looked := Next(RunOn(fetched, second), Look);
      ProducerLeaves(looked, third);
      PoppedNext(RunOn(looked, third));
    }
  }

  lemma LoadedWrite<T>(s: Ring<T>)
    requires Invariant(s) && s.consumer.Away?
    ensures Next(s, LoadWrite) == s.(consumer := SawWrite(s.write)) && s.write == |s.published|
  {
  }

  lemma CheckedData<T>(s: Ring<T>, write: nat)
    requires Invariant(s) && s.consumer == SawWrite(write)
    ensures var t := Next(s, CheckData);
            && t.consumer == (if s.read < write then Using([]) else Away)
            && t.published == s.published && t.read == s.read && t.popped == s.popped
  {
  }

  lemma LookedAt<T>(s: Ring<T>)
    requires Invariant(s) && s.consumer.Using?
    ensures s.read < |s.published|
    ensures var t := Next(s, Look);
            && t.consumer == Using(s.consumer.seen + [s.published[s.read]])
            && t.published == s.published && t.read == s.read && t.popped == s.popped
  {
  }

  lemma PoppedNext<T>(s: Ring<T>)
    requires Invariant(s) && s.consumer.Using?
    ensures s.read < |s.published| && Next(s, Pop).popped == s.popped + [s.published[s.read]]
  {
  }
}
