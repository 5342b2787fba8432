/** Runs of the touch merger: when a receiver accepts everything that two interleaved sources make it emit. */
module TouchRuns {
  import opened TouchTable
  import opened TouchMerger

  // ------------------------------------------------------------------------
  // The sources
  // ------------------------------------------------------------------------

  /** What the sources hold: what the merger has down, and the keys that are still pressed although a
      CANCEL took their slots. */
  datatype Sources = Sources(down: Down, orphans: set<int>)

  const AT_REST: Sources := Sources(map[], {})

  function HeldKeys(down: Down): set<int> {
    set id | id in down && IsKey(id)
  }

  predicate Cancels(input: Input) {
    input.Touch? && input.action == ACTION_CANCEL
  }

  /** The touchscreen keeps the motion-event rules; a key is pressed when it is not pressed, down or
      orphaned, and released when it is, with a mapping available. A CANCEL may come at any time. */
  predicate Obeys(s: Sources, input: Input) {
    if input.Key? && Acted(input) then
      InputAction(input) == ACTION_DOWN <==> Subject(input) !in s.down && Subject(input) !in s.orphans
    else WellFormed(s.down, input)
  }

  predicate ReleasesOrphan(s: Sources, input: Input) {
    input.Key? && Acted(input) && InputAction(input) == ACTION_UP && Subject(input) in s.orphans
  }

  /** A source's input that releases no orphan is one the merger can follow. */
  lemma {:induction false} ObeyedIsFollowed(s: Sources, input: Input)
    requires Obeys(s, input) && !ReleasesOrphan(s, input)
    ensures WellFormed(s.down, input)
  {
  }

  function After(s: Sources, input: Input): Sources
    requires Obeys(s, input)
  {
    if ReleasesOrphan(s, input) then Sources(s.down, s.orphans - {Subject(input)})
    else
      ObeyedIsFollowed(s, input);
      Sources(Next(s.down, input), if Cancels(input) then s.orphans + HeldKeys(s.down) else s.orphans)
  }

  predicate ObeysRun(s: Sources, inputs: seq<Input>)
    decreases |inputs|
  {
    inputs == [] || (Obeys(s, inputs[0]) && ObeysRun(After(s, inputs[0]), inputs[1..]))
  }

  /** No input is the release of a key that a CANCEL orphaned. */
  predicate ReleasesNoOrphan(s: Sources, inputs: seq<Input>)
    requires ObeysRun(s, inputs)
    decreases |inputs|
  {
    inputs == [] || (!ReleasesOrphan(s, inputs[0]) && ReleasesNoOrphan(After(s, inputs[0]), inputs[1..]))
  }

  /** No CANCEL comes while a key is held. */
  predicate Calm(s: Sources, inputs: seq<Input>)
    requires ObeysRun(s, inputs)
    decreases |inputs|
  {
    inputs == [] || (!(Cancels(inputs[0]) && HeldKeys(s.down) != {}) && Calm(After(s, inputs[0]), inputs[1..]))
  }

  /** Only the twelve legal touch ids are down; orphans are keys that are not. */
  predicate Sorted(s: Sources) {
    Legal(s.down) && forall id :: id in s.orphans ==> IsKey(id) && id !in s.down
  }

  // ------------------------------------------------------------------------
  // The receiver
  // ------------------------------------------------------------------------

  /** A receiver that starts with the pointers before accepts every event the merger emits. */
  predicate AcceptedRun(t: seq<Slot>, before: map<int, Coords>, inputs: seq<Input>)
    decreases |inputs|
  {
    inputs == [] ||
      var (t1, e) := Process(t, inputs[0]);
      if e.None? then AcceptedRun(t1, before, inputs[1..])
      else Accepts(before, e.value) && AcceptedRun(t1, Received(e.value), inputs[1..])
  }

  /** Every event shows exactly what is down, at its latest coordinates, and what stays down keeps its
      pointer id. */
  ghost predicate FaithfulRun(t: seq<Slot>, s: Sources, inputs: seq<Input>)
    requires ObeysRun(s, inputs)
    decreases |inputs|
  {
    inputs == [] ||
      var (t1, e) := Process(t, inputs[0]);
      var s1 := After(s, inputs[0]);
      && (if !Acted(inputs[0]) then e.None?
          else e.Some? && ShowsExactly(e.value, Inserted(t, inputs[0]).0, During(s.down, inputs[0])))
      && (forall id :: id in s.down && id in s1.down ==> Find(t1, id, 0) == Find(t, id, 0))
      && FaithfulRun(t1, s1, inputs[1..])
  }

  // ------------------------------------------------------------------------
  // One input
  // ------------------------------------------------------------------------

  /** Keys are not in the pointers of a touch event. */
  lemma {:induction false} TouchAddsNoKey(down: Down, input: Input, id: int)
    requires WellFormed(down, input) && input.Touch? && IsKey(id) && id !in down
    ensures id !in Next(down, input)
  {
    MergeDomain(down, input.pointers);
  }

  lemma {:induction false} StaysSorted(s: Sources, input: Input)
    requires Sorted(s) && Obeys(s, input) && Legal(After(s, input).down)
    ensures Sorted(After(s, input))
  {
    if !ReleasesOrphan(s, input) {
      ObeyedIsFollowed(s, input);
      forall id | id in After(s, input).orphans
        ensures IsKey(id) && id !in After(s, input).down
      {
        if input.Touch? && id in s.orphans {
          TouchAddsNoKey(s.down, input, id);
        }
      }
    }
  }

  lemma {:induction false} StepKeeps(t: seq<Slot>, s: Sources, input: Input)
    requires Represents(t, s.down) && Sorted(s) && Obeys(s, input) && !ReleasesOrphan(s, input)
    ensures Represents(Process(t, input).0, After(s, input).down) && Sorted(After(s, input))
  {
    ObeyedIsFollowed(s, input);
    StepCorrect(t, s.down, input);
    StaysSorted(s, input);
  }

  // ------------------------------------------------------------------------
  // Runs
  // ------------------------------------------------------------------------

  lemma {:induction false} RunAcceptedIff(t: seq<Slot>, s: Sources, inputs: seq<Input>)
    requires Represents(t, s.down) && Sorted(s) && ObeysRun(s, inputs)
    ensures AcceptedRun(t, Shown(t), inputs) <==> ReleasesNoOrphan(s, inputs)
    decreases |inputs|
  {
    if inputs != [] {
      if ReleasesOrphan(s, inputs[0]) {
        StrayRelease(t, s.down, inputs[0]);
      } else {
        ObeyedIsFollowed(s, inputs[0]);
        StepCorrect(t, s.down, inputs[0]);
        StepKeeps(t, s, inputs[0]);
        RunAcceptedIff(Process(t, inputs[0]).0, After(s, inputs[0]), inputs[1..]);
      }
    }
  }

  lemma {:induction false} RunFaithful(t: seq<Slot>, s: Sources, inputs: seq<Input>)
    requires Represents(t, s.down) && Sorted(s) && ObeysRun(s, inputs) && ReleasesNoOrphan(s, inputs)
    ensures FaithfulRun(t, s, inputs)
    decreases |inputs|
  {
    if inputs != [] {
      ObeyedIsFollowed(s, inputs[0]);
      StepCorrect(t, s.down, inputs[0]);
      StepKeeps(t, s, inputs[0]);
      RunFaithful(Process(t, inputs[0]).0, After(s, inputs[0]), inputs[1..]);
    }
  }

  lemma {:induction false} CalmMakesNoOrphan(s: Sources, inputs: seq<Input>)
    requires ObeysRun(s, inputs) && s.orphans == {} && Calm(s, inputs)
    ensures ReleasesNoOrphan(s, inputs)
    decreases |inputs|
  {
    if inputs != [] {
      CalmMakesNoOrphan(After(s, inputs[0]), inputs[1..]);
    }
  }

  function EmptyTable(): seq<Slot> {
    seq(MAX_POINTER_COUNT, i => FREE)
  }

  lemma {:induction false} EmptyAtRest()
    ensures Represents(EmptyTable(), map[]) && Shown(EmptyTable()) == map[]
  {
    assert Reset(EmptyTable()) == EmptyTable();
    ResetRepresents(EmptyTable());
  }

  /** Over every run of two interleaved sources, CANCELs at any time included: the receiver accepts the
      merged stream exactly when no input releases a key that a CANCEL orphaned, and up to there every
      event shows what is down. */
  lemma {:induction false} MergedStreamAcceptedIff(inputs: seq<Input>)
    requires ObeysRun(AT_REST, inputs)
    ensures AcceptedRun(EmptyTable(), map[], inputs) <==> ReleasesNoOrphan(AT_REST, inputs)
    ensures ReleasesNoOrphan(AT_REST, inputs) ==> FaithfulRun(EmptyTable(), AT_REST, inputs)
  {
    EmptyAtRest();
    RunAcceptedIff(EmptyTable(), AT_REST, inputs);
    if ReleasesNoOrphan(AT_REST, inputs) {
      RunFaithful(EmptyTable(), AT_REST, inputs);
    }
  }

  /** The merged stream is well formed: while no CANCEL comes with a key held, every emitted event is one
      a motion-event receiver accepts, and shows what the sources hold down. */
  lemma {:induction false} MergedStreamWellFormed(inputs: seq<Input>)
    requires ObeysRun(AT_REST, inputs) && Calm(AT_REST, inputs)
    ensures AcceptedRun(EmptyTable(), map[], inputs)
    ensures FaithfulRun(EmptyTable(), AT_REST, inputs)
  {
    CalmMakesNoOrphan(AT_REST, inputs);
    MergedStreamAcceptedIff(inputs);
  }

  /** An orphaned key that is released some time is released as an orphan. */
  lemma {:induction false} OrphanIsReleased(s: Sources, between: seq<Input>, up: Input)
    requires ObeysRun(s, between + [up])
    requires up.Key? && Acted(up) && InputAction(up) == ACTION_UP && Subject(up) in s.orphans
    ensures !ReleasesNoOrphan(s, between + [up])
    decreases |between|
  {
    if between == [] {
      assert (between + [up])[0] == up;
    } else {
      assert (between + [up])[0] == between[0] && (between + [up])[1..] == between[1..] + [up];
      if !ReleasesOrphan(s, between[0]) {
        OrphanIsReleased(After(s, between[0]), between[1..], up);
      }
    }
  }

  /** Why a CANCEL must not arrive while a key is held: whatever happens between, the run is refused by
      the time the key is released. */
  lemma {:induction false} CancelOrphansKey(t: seq<Slot>, s: Sources, cancel: Input, between: seq<Input>, up: Input)
    requires Represents(t, s.down) && Sorted(s) && Cancels(cancel)
    requires up.Key? && Acted(up) && InputAction(up) == ACTION_UP && Subject(up) in s.down
    requires ObeysRun(s, [cancel] + (between + [up]))
    ensures !AcceptedRun(t, Shown(t), [cancel] + (between + [up]))
  {
    var inputs := [cancel] + (between + [up]);
    assert inputs[0] == cancel && inputs[1..] == between + [up];
    RunAcceptedIff(t, s, inputs);
    OrphanIsReleased(After(s, cancel), between, up);
  }
}
