/** The three-stage fail-safe update, as a protocol over two copies of a partition table.
    Headers and entry arrays are abstract here: what the protocol needs to know of their
    encoding is gathered in Laws, and GptBlocks shows that GPT blocks obey it. */
module FailSafe {
  import opened GptHeader

  datatype Copy = Primary | Secondary

  datatype Stage = UPDATE_MAIN | UPDATE_BACKUP | UPDATE_FINALIZE {
    function Number(): int {
      match this case UPDATE_MAIN => 1 case UPDATE_BACKUP => 2 case UPDATE_FINALIZE => 3
    }
  }

  const BOOT_LUN_A_ID: nat := 1
  const BOOT_LUN_B_ID: nat := 2

  /** How headers are judged and rewritten, and how the boot chain is swapped. */
  datatype Codec<!H, !A> = Codec(
    state: H -> GptState,          // gpt_get_state
    mark: (H, bool) -> H,          // gpt_set_state, with GPT_OK or GPT_BAD_SIGNATURE
    repoint: (H, A) -> H,          // the header gpt2_set_boot_chain writes for an array
    describes: (H, A) -> bool,     // the header's entry-array CRC is the array's
    swap: A -> A,                  // gpt_boot_chain_swap
    hasBackup: A -> bool)          // gpt_boot_chain_swap returns 0

  /** Marking a header whose CRC is good sets its state and keeps the array it describes. */
  ghost predicate MarkLaw<H(!new), A(!new)>(c: Codec<H, A>) {
    forall h, good :: c.state(h) != GPT_BAD_CRC ==>
      && c.state(c.mark(h, good)) == (if good then GPT_OK else GPT_BAD_SIGNATURE)
      && forall a :: c.describes(c.mark(h, good), a) == c.describes(h, a)
  }

  /** Repointing keeps the state and describes the new array; it changes nothing that was right. */
  ghost predicate RepointLaw<H(!new), A(!new)>(c: Codec<H, A>) {
    forall h, a :: c.state(h) != GPT_BAD_CRC ==>
      && c.describes(c.repoint(h, a), a)
      && c.state(c.repoint(h, a)) == c.state(h)
      && (c.state(h) == GPT_OK && c.describes(h, a) ==> c.repoint(h, a) == h)
  }

  /** Corrupting and fixing a good header is the identity. */
  ghost predicate MarkTwiceLaw<H(!new), A(!new)>(c: Codec<H, A>) {
    forall h :: c.state(h) == GPT_OK ==> c.mark(c.mark(h, false), true) == h
  }

  /** What the secondary header goes through in one update comes down to one repointing. */
  ghost predicate CycleLaw<H(!new), A(!new)>(c: Codec<H, A>) {
    forall h, a, b :: c.state(h) == GPT_OK ==>
      c.mark(c.repoint(c.mark(c.repoint(h, a), false), b), true) == c.repoint(h, b)
  }

  ghost predicate Laws<H(!new), A(!new)>(c: Codec<H, A>) {
    MarkLaw(c) && RepointLaw(c) && MarkTwiceLaw(c) && CycleLaw(c)
  }

  // ------------------------------------------------------------------------
  // Disk and writes
  // ------------------------------------------------------------------------

  datatype Disk<H, A> = Disk(ph: H, pe: A, sh: H, se: A, lun: nat)

  datatype Op<H, A> =
    | PutHeader(copy: Copy, h: H)
    | PutEntries(copy: Copy, a: A)
    | SetBootLun(id: nat)

  function Apply<H, A>(d: Disk<H, A>, op: Op<H, A>): Disk<H, A> {
    match op
    case PutHeader(Primary, h) => d.(ph := h)
    case PutHeader(Secondary, h) => d.(sh := h)
    case PutEntries(Primary, a) => d.(pe := a)
    case PutEntries(Secondary, a) => d.(se := a)
    case SetBootLun(id) => d.(lun := id)
  }

  function After<H, A>(d: Disk<H, A>, ops: seq<Op<H, A>>): Disk<H, A>
    decreases |ops|
  {
    if ops == [] then d else After(Apply(d, ops[0]), ops[1..])
  }

  predicate CompletePrimary<H, A>(c: Codec<H, A>, d: Disk<H, A>) {
    c.state(d.ph) == GPT_OK && c.describes(d.ph, d.pe)
  }

  predicate CompleteSecondary<H, A>(c: Codec<H, A>, d: Disk<H, A>) {
    c.state(d.sh) == GPT_OK && c.describes(d.sh, d.se)
  }

  // ------------------------------------------------------------------------
  // prepare_partitions
  // ------------------------------------------------------------------------

  /** What a call does when nothing fails: its writes in order, and what it returns. */
  datatype Script<H, A> = Script(ops: seq<Op<H, A>>, rc: int)

  /** The stage the two header states call for. */
  function InternalStage(primary: GptState, secondary: GptState): Stage
    requires primary != GPT_BAD_CRC && secondary != GPT_BAD_CRC
    requires primary == GPT_OK || secondary == GPT_OK
  {
    if primary == GPT_OK && secondary == GPT_OK then UPDATE_MAIN
    else if primary == GPT_BAD_SIGNATURE then UPDATE_BACKUP
    else UPDATE_FINALIZE
  }

  /** prepare_partitions; switchLun says that the device is UFS and has both xbl and xblbak. */
  function Prepare<H, A>(c: Codec<H, A>, switchLun: bool, d: Disk<H, A>, stage: Stage): Script<H, A> {
    var primary, secondary := c.state(d.ph), c.state(d.sh);
    if primary == GPT_BAD_CRC || secondary == GPT_BAD_CRC then Script([], -1)
    else if primary == GPT_BAD_SIGNATURE && secondary == GPT_BAD_SIGNATURE then Script([], -1)
    else
      var internal := InternalStage(primary, secondary);
      if stage.Number() == internal.Number() - 1 then Script([], 0)
      else if stage != internal then Script([], -1)
      else RunStage(c, switchLun, d, stage)
  }

  function LunSwitch<H, A>(switchLun: bool, id: nat): seq<Op<H, A>> {
    if switchLun then [SetBootLun(id)] else []
  }

  function RunStage<H, A>(c: Codec<H, A>, switchLun: bool, d: Disk<H, A>, stage: Stage): Script<H, A> {
    match stage
    case UPDATE_MAIN =>
      var lun := LunSwitch(switchLun, BOOT_LUN_B_ID);
      if !c.describes(d.ph, d.pe) then Script(lun, -1)
      else if !c.hasBackup(d.pe) then Script(lun, 0)
      else Script(lun + [
        PutHeader(Secondary, c.repoint(d.sh, c.swap(d.pe))),
        PutEntries(Secondary, c.swap(d.pe)),
        PutHeader(Primary, c.mark(d.ph, false))], 0)
    case UPDATE_BACKUP =>
      Script(LunSwitch(switchLun, BOOT_LUN_A_ID) + [
        PutHeader(Primary, c.mark(d.ph, true)),
        PutHeader(Secondary, c.mark(d.sh, false))], 0)
    case UPDATE_FINALIZE =>
      if !c.describes(d.ph, d.pe) then Script([], -1)
      else Script([
        PutHeader(Secondary, c.repoint(d.sh, d.pe)),
        PutEntries(Secondary, d.pe),
        PutHeader(Secondary, c.mark(c.repoint(d.sh, d.pe), true))], 0)
  }

  // ------------------------------------------------------------------------
  // Interruption
  // ------------------------------------------------------------------------

  ghost predicate SameTarget<H, A>(a: Op<H, A>, b: Op<H, A>) {
    match (a, b)
    case (PutHeader(x, _), PutHeader(y, _)) => x == y
    case (PutEntries(x, _), PutEntries(y, _)) => x == y
    case _ => a == b
  }

  /** What reached the disk when a call was cut short: some writes in full, the last of them
      possibly torn, that is, its region holding anything at all. */
  ghost predicate Interrupted<H, A>(ops: seq<Op<H, A>>, done: seq<Op<H, A>>) {
    done == [] || (ops != [] && SameTarget(done[0], ops[0])
      && (|done| == 1 || (done[0] == ops[0] && Interrupted(ops[1..], done[1..]))))
  }

  /** A cut in the first part of a list of writes is a cut of the list. */
  lemma {:induction false} InterruptedEarly<H, A>(first: seq<Op<H, A>>, rest: seq<Op<H, A>>, done: seq<Op<H, A>>)
    requires Interrupted(first, done)
    ensures Interrupted(first + rest, done)
    decreases |first|
  {
    if done != [] {
      assert (first + rest)[1..] == first[1..] + rest;
      if |done| > 1 {
        InterruptedEarly(first[1..], rest, done[1..]);
      }
    }
  }

  /** A cut in the second part comes after the whole first part. */
  lemma {:induction false} InterruptedLate<H, A>(first: seq<Op<H, A>>, rest: seq<Op<H, A>>, done: seq<Op<H, A>>)
    requires Interrupted(rest, done)
    ensures Interrupted(first + rest, first + done)
    decreases |first|
  {
    if first == [] {
      assert first + rest == rest && first + done == done;
    } else {
      InterruptedLate(first[1..], rest, done);
      assert (first + rest)[1..] == first[1..] + rest && (first + done)[1..] == first[1..] + done;
    }
  }

  /** The write is whole, or it tore entries, or it tore a header so that the CRC check shows it. */
  ghost predicate Visible<H, A>(c: Codec<H, A>, op: Op<H, A>, written: Op<H, A>) {
    op == written || written.PutEntries? || (written.PutHeader? && c.state(written.h) == GPT_BAD_CRC)
  }

  ghost predicate Detectable<H, A>(c: Codec<H, A>, ops: seq<Op<H, A>>, done: seq<Op<H, A>>)
    requires Interrupted(ops, done)
  {
    done == [] || (if |done| == 1 then Visible(c, ops[0], done[0]) else Detectable(c, ops[1..], done[1..]))
  }

  datatype Call<H, A> = Call(stage: Stage, done: seq<Op<H, A>>)

  /** A primary header that shows a bad signature still carries its array's CRC, as one that
      gpt_set_state corrupted does. */
  predicate Rerunnable<H, A>(c: Codec<H, A>, d: Disk<H, A>) {
    c.state(d.ph) == GPT_BAD_SIGNATURE ==> c.describes(d.ph, d.pe)
  }

  /** Calls in any order with any stages, each cut anywhere and leaving a disk that can be rerun; the last
      may leave anything in the region it was writing. */
  ghost predicate PossibleRun<H, A>(c: Codec<H, A>, switchLun: bool, d: Disk<H, A>, calls: seq<Call<H, A>>)
    decreases |calls|
  {
    calls == [] ||
      var ops := Prepare(c, switchLun, d, calls[0].stage).ops;
      && Interrupted(ops, calls[0].done)
      && (|calls| > 1 ==> Rerunnable(c, After(d, calls[0].done)))
      && PossibleRun(c, switchLun, After(d, calls[0].done), calls[1..])
  }

  /** Calls in any order with any stages, each run through, cut after any write, or cut in the middle of
      one: of an entry array, whatever that left, or of a header so that its CRC check shows it. */
  ghost predicate CleanRun<H, A>(c: Codec<H, A>, switchLun: bool, d: Disk<H, A>, calls: seq<Call<H, A>>)
    decreases |calls|
  {
    calls == [] ||
      var ops := Prepare(c, switchLun, d, calls[0].stage).ops;
      && Interrupted(ops, calls[0].done) && Detectable(c, ops, calls[0].done)
      && CleanRun(c, switchLun, After(d, calls[0].done), calls[1..])
  }

  function AfterCalls<H, A>(d: Disk<H, A>, calls: seq<Call<H, A>>): Disk<H, A>
    decreases |calls|
  {
    if calls == [] then d else AfterCalls(After(d, calls[0].done), calls[1..])
  }

  predicate OneComplete<H, A>(c: Codec<H, A>, d: Disk<H, A>) {
    CompletePrimary(c, d) || CompleteSecondary(c, d)
  }

  /** One copy is complete before the first write and after every write of the run. */
  ghost predicate AlwaysOneComplete<H, A>(c: Codec<H, A>, d: Disk<H, A>, calls: seq<Call<H, A>>)
    decreases |calls|
  {
    OneComplete(c, d) && (calls == [] ||
      ((forall k :: 0 <= k <= |calls[0].done| ==> OneComplete(c, After(d, calls[0].done[..k])))
       && AlwaysOneComplete(c, After(d, calls[0].done), calls[1..])))
  }

  /** What every call keeps. */
  predicate Inv<H, A>(c: Codec<H, A>, d: Disk<H, A>) {
    OneComplete(c, d) && Rerunnable(c, d)
  }

  /** Every write of the list may be made, or torn, without losing the last complete copy. */
  ghost predicate Safe<H(!new), A(!new)>(c: Codec<H, A>, d: Disk<H, A>, ops: seq<Op<H, A>>)
    decreases |ops|
  {
    Inv(c, d) && (ops == [] ||
      (&& (forall w: Op<H, A> :: SameTarget(w, ops[0]) ==>
             OneComplete(c, Apply(d, w)) && (Visible(c, ops[0], w) ==> Inv(c, Apply(d, w))))
       && Safe(c, Apply(d, ops[0]), ops[1..])))
  }

  /** While the primary is complete, anything may be written elsewhere. */
  lemma {:induction false} ElsewhereIsSafe<H(!new), A(!new)>(c: Codec<H, A>, d: Disk<H, A>, ops: seq<Op<H, A>>,
                                                             rest: seq<Op<H, A>>)
    requires CompletePrimary(c, d)
    requires forall op :: op in ops ==> op.SetBootLun? || op.copy == Secondary
    requires Safe(c, After(d, ops), rest)
    ensures Safe(c, d, ops + rest)
    decreases |ops|
  {
    if ops == [] {
      assert ops + rest == rest;
    } else {
      ElsewhereIsSafe(c, Apply(d, ops[0]), ops[1..], rest);
      assert (ops + rest)[1..] == ops[1..] + rest;
    }
  }

  lemma OneWriteIsSafe<H(!new), A(!new)>(c: Codec<H, A>, d: Disk<H, A>, op: Op<H, A>, rest: seq<Op<H, A>>)
    requires Inv(c, d) && Safe(c, Apply(d, op), rest)
    requires forall w: Op<H, A> :: SameTarget(w, op) ==>
      OneComplete(c, Apply(d, w)) && (Visible(c, op, w) ==> Inv(c, Apply(d, w)))
    ensures Safe(c, d, [op] + rest)
  {
    assert ([op] + rest)[1..] == rest;
  }

  lemma {:induction false} AfterAppend<H, A>(d: Disk<H, A>, first: seq<Op<H, A>>, rest: seq<Op<H, A>>)
    ensures After(d, first + rest) == After(After(d, first), rest)
    decreases |first|
  {
    if first == [] {
      assert first + rest == rest;
    } else {
      AfterAppend(Apply(d, first[0]), first[1..], rest);
      assert (first + rest)[1..] == first[1..] + rest;
    }
  }

  lemma AfterList<H, A>(d: Disk<H, A>, a: Op<H, A>, b: Op<H, A>, e: Op<H, A>)
    ensures After(d, [a]) == Apply(d, a)
    ensures After(d, [a, b]) == Apply(Apply(d, a), b)
    ensures After(d, [a, b, e]) == Apply(Apply(Apply(d, a), b), e)
  {
    AfterAppend(d, [a], [b]);
    assert [a] + [b] == [a, b];
    AfterAppend(d, [a, b], [e]);
    assert [a, b] + [e] == [a, b, e];
  }

  lemma AfterLun<H, A>(d: Disk<H, A>, switchLun: bool, id: nat)
    ensures After(d, LunSwitch(switchLun, id)) == if switchLun then d.(lun := id) else d
  {
    AfterList(d, SetBootLun(id), SetBootLun(id), SetBootLun(id));
  }

  lemma LunIsSafe<H(!new), A(!new)>(c: Codec<H, A>, switchLun: bool, d: Disk<H, A>, id: nat)
    requires Inv(c, d)
    ensures Safe(c, d, LunSwitch(switchLun, id))
  {
    var op: Op<H, A> := SetBootLun(id);
    if switchLun {
      assert Safe(c, Apply(d, op), []);
      OneWriteIsSafe(c, d, op, []);
      assert [op] + [] == LunSwitch<H, A>(switchLun, id);
    }
  }

  lemma MainIsSafe<H(!new), A(!new)>(c: Codec<H, A>, switchLun: bool, d: Disk<H, A>)
    requires Laws(c) && Inv(c, d) && c.state(d.ph) == GPT_OK && c.state(d.sh) == GPT_OK
    ensures Safe(c, d, RunStage(c, switchLun, d, UPDATE_MAIN).ops)
  {
    var lun := LunSwitch<H, A>(switchLun, BOOT_LUN_B_ID);
    if c.describes(d.ph, d.pe) && c.hasBackup(d.pe) {
      var sh, pe, ph := c.repoint(d.sh, c.swap(d.pe)), c.swap(d.pe), c.mark(d.ph, false);
      var first := lun + [PutHeader(Secondary, sh), PutEntries(Secondary, pe)];
      var d1 := After(d, first);
      assert d1.ph == d.ph && d1.pe == d.pe && d1.sh == sh && d1.se == pe by {
        AfterAppend(d, lun, [PutHeader(Secondary, sh), PutEntries(Secondary, pe)]);
        AfterLun(d, switchLun, BOOT_LUN_B_ID);
        AfterList(After(d, lun), PutHeader(Secondary, sh), PutEntries(Secondary, pe), PutEntries(Secondary, pe));
      }
      assert Safe(c, Apply(d1, PutHeader(Primary, ph)), []);
      OneWriteIsSafe(c, d1, PutHeader(Primary, ph), []);
      ElsewhereIsSafe(c, d, first, [PutHeader(Primary, ph)]);
      assert first + [PutHeader(Primary, ph)] == RunStage(c, switchLun, d, UPDATE_MAIN).ops;
    } else {
      LunIsSafe(c, switchLun, d, BOOT_LUN_B_ID);
    }
  }

  lemma BackupIsSafe<H(!new), A(!new)>(c: Codec<H, A>, switchLun: bool, d: Disk<H, A>)
    requires Laws(c) && Inv(c, d) && c.state(d.ph) == GPT_BAD_SIGNATURE
    ensures Safe(c, d, RunStage(c, switchLun, d, UPDATE_BACKUP).ops)
  {
    var lun := LunSwitch<H, A>(switchLun, BOOT_LUN_A_ID);
    var ph, sh := c.mark(d.ph, true), c.mark(d.sh, false);
    var d1 := After(d, lun);
    AfterLun(d, switchLun, BOOT_LUN_A_ID);
    var d2 := Apply(d1, PutHeader(Primary, ph));
    assert CompletePrimary(c, d2);
    var last: seq<Op<H, A>> := [PutHeader(Secondary, sh)];
    ElsewhereIsSafe(c, d2, last, []);
    assert last + [] == last;
    OneWriteIsSafe(c, d1, PutHeader(Primary, ph), last);
    var tail := [PutHeader(Primary, ph)] + last;
    if switchLun {
      OneWriteIsSafe(c, d, SetBootLun(BOOT_LUN_A_ID), tail);
      assert [SetBootLun(BOOT_LUN_A_ID)] + tail == RunStage(c, switchLun, d, UPDATE_BACKUP).ops;
    } else {
      assert tail == RunStage(c, switchLun, d, UPDATE_BACKUP).ops;
    }
  }

  lemma PrepareIsSafe<H(!new), A(!new)>(c: Codec<H, A>, switchLun: bool, d: Disk<H, A>, stage: Stage)
    requires Laws(c) && Inv(c, d)
    ensures Safe(c, d, Prepare(c, switchLun, d, stage).ops)
  {
    var ops := Prepare(c, switchLun, d, stage).ops;
    if ops != [] {
      match stage {
        case UPDATE_MAIN => MainIsSafe(c, switchLun, d);
        case UPDATE_BACKUP => BackupIsSafe(c, switchLun, d);
        case UPDATE_FINALIZE =>
          AfterList(d, ops[0], ops[1], ops[2]);
          ElsewhereIsSafe(c, d, ops, []);
          assert ops + [] == ops;
      }
    }
  }

  lemma {:induction false} SafeMeansSafe<H(!new), A(!new)>(c: Codec<H, A>, d: Disk<H, A>, ops: seq<Op<H, A>>,
                                                           done: seq<Op<H, A>>)
    requires Safe(c, d, ops) && Interrupted(ops, done)
    ensures forall k :: 0 <= k <= |done| ==> OneComplete(c, After(d, done[..k]))
    ensures Detectable(c, ops, done) ==> Inv(c, After(d, done))
    decreases |ops|
  {
    if done != [] {
      var d1 := Apply(d, done[0]);
      if |done| > 1 {
        SafeMeansSafe(c, d1, ops[1..], done[1..]);
      }
      forall k | 0 <= k <= |done|
        ensures OneComplete(c, After(d, done[..k]))
      {
        if k > 0 {
          assert done[..k][1..] == done[1..][..k - 1];
        }
      }
    }
  }

  /** Crash safety: a complete copy is never lost. */
  lemma {:induction false} CrashSafety<H(!new), A(!new)>(c: Codec<H, A>, switchLun: bool, d: Disk<H, A>,
                                                         calls: seq<Call<H, A>>)
    requires Laws(c) && Inv(c, d) && PossibleRun(c, switchLun, d, calls)
    ensures AlwaysOneComplete(c, d, calls)
    decreases |calls|
  {
    if calls != [] {
      var call := calls[0];
      PrepareIsSafe(c, switchLun, d, call.stage);
      SafeMeansSafe(c, d, Prepare(c, switchLun, d, call.stage).ops, call.done);
      assert call.done[..|call.done|] == call.done;
      if |calls| > 1 {
        CrashSafety(c, switchLun, After(d, call.done), calls[1..]);
      }
    }
  }

  /** A cut that tore no header, or one so that its CRC check shows it, leaves a disk that can be rerun. */
  lemma VisibleTearsRerun<H(!new), A(!new)>(c: Codec<H, A>, switchLun: bool, d: Disk<H, A>, call: Call<H, A>)
    requires Laws(c) && Inv(c, d) && Interrupted(Prepare(c, switchLun, d, call.stage).ops, call.done)
    requires Detectable(c, Prepare(c, switchLun, d, call.stage).ops, call.done)
    ensures Inv(c, After(d, call.done))
  {
    PrepareIsSafe(c, switchLun, d, call.stage);
    SafeMeansSafe(c, d, Prepare(c, switchLun, d, call.stage).ops, call.done);
  }

  lemma {:induction false} CleanRunIsPossible<H(!new), A(!new)>(c: Codec<H, A>, switchLun: bool, d: Disk<H, A>,
                                                                calls: seq<Call<H, A>>)
    requires Laws(c) && Inv(c, d) && CleanRun(c, switchLun, d, calls)
    ensures PossibleRun(c, switchLun, d, calls) && Inv(c, AfterCalls(d, calls))
    decreases |calls|
  {
    if calls != [] {
      VisibleTearsRerun(c, switchLun, d, calls[0]);
      CleanRunIsPossible(c, switchLun, After(d, calls[0].done), calls[1..]);
    }
  }

  /** One more call, made on a disk that can be rerun. */
  lemma {:induction false} OneMoreCall<H, A>(c: Codec<H, A>, switchLun: bool, d: Disk<H, A>, calls: seq<Call<H, A>>,
                                             last: Call<H, A>)
    requires Interrupted(Prepare(c, switchLun, AfterCalls(d, calls), last.stage).ops, last.done)
    ensures AfterCalls(d, calls + [last]) == After(AfterCalls(d, calls), last.done)
    ensures PossibleRun(c, switchLun, d, calls) && Rerunnable(c, AfterCalls(d, calls))
        ==> PossibleRun(c, switchLun, d, calls + [last])
    ensures CleanRun(c, switchLun, d, calls + [last])
      <==> (CleanRun(c, switchLun, d, calls)
            && Detectable(c, Prepare(c, switchLun, AfterCalls(d, calls), last.stage).ops, last.done))
    decreases |calls|
  {
    if calls == [] {
      assert calls + [last] == [last];
    } else {
      assert (calls + [last])[1..] == calls[1..] + [last];
      OneMoreCall(c, switchLun, After(d, calls[0].done), calls[1..], last);
    }
  }

  /** Crash safety with nothing assumed of the disks between the calls: no call but the last tears a header
      unseen, and the last may leave anything in the region it was writing. */
  lemma CleanRunCrashSafe<H(!new), A(!new)>(c: Codec<H, A>, switchLun: bool, d: Disk<H, A>, calls: seq<Call<H, A>>,
                                            last: Call<H, A>)
    requires Laws(c) && Inv(c, d) && CleanRun(c, switchLun, d, calls)
    requires Interrupted(Prepare(c, switchLun, AfterCalls(d, calls), last.stage).ops, last.done)
    ensures AlwaysOneComplete(c, d, calls + [last])
  {
    CleanRunIsPossible(c, switchLun, d, calls);
    OneMoreCall(c, switchLun, d, calls, last);
    CrashSafety(c, switchLun, d, calls + [last]);
  }

  lemma {:induction false} WholeCallIsACut<H, A>(c: Codec<H, A>, ops: seq<Op<H, A>>)
    ensures Interrupted(ops, ops) && Detectable(c, ops, ops)
    decreases |ops|
  {
    if ops != [] {
      WholeCallIsACut(c, ops[1..]);
    }
  }

  /** A bad signature over a foreign array CRC: the BACKUP stage trusts it, fixes a primary header that
      describes nothing and gives up the only complete copy. */
  lemma ForeignPrimaryLosesAll<H(!new), A(!new)>(c: Codec<H, A>, switchLun: bool, d: Disk<H, A>)
    requires Laws(c) && CompleteSecondary(c, d) && !Rerunnable(c, d)
    ensures var calls := [Call(UPDATE_BACKUP, Prepare(c, switchLun, d, UPDATE_BACKUP).ops)];
      PossibleRun(c, switchLun, d, calls) && !AlwaysOneComplete(c, d, calls)
    ensures !OneComplete(c, Finished(c, switchLun, d, UPDATE_BACKUP))
  {
    var ops := Prepare(c, switchLun, d, UPDATE_BACKUP).ops;
    WholeCallIsACut(c, ops);
    StageEffect(c, switchLun, d);
    assert ops[..|ops|] == ops;
    assert !OneComplete(c, After(d, ops));
  }

  /** Two complete copies around one array. */
  function TwoCopies<H, A>(c: Codec<H, A>, ph: H, sh: H, a: A): Disk<H, A> {
    Disk(c.repoint(ph, a), a, c.repoint(sh, a), a, BOOT_LUN_A_ID)
  }

  /** A complete secondary copy beside a corrupted primary header that was written for another array. */
  function ForeignPrimary<H, A>(c: Codec<H, A>, ph: H, sh: H, a: A, b: A): Disk<H, A> {
    TwoCopies(c, ph, sh, a).(ph := c.mark(c.repoint(ph, b), false))
  }

  /** Two arrays that a header tells apart are enough for such a disk. */
  lemma ForeignPrimaryIsRuined<H(!new), A(!new)>(c: Codec<H, A>, switchLun: bool, ph: H, sh: H, a: A, b: A)
    requires Laws(c) && c.state(ph) == GPT_OK && c.state(sh) == GPT_OK && !c.describes(c.repoint(ph, b), a)
    ensures var d := ForeignPrimary(c, ph, sh, a, b);
      && CompleteSecondary(c, d) && !Rerunnable(c, d)
      && !OneComplete(c, Finished(c, switchLun, d, UPDATE_BACKUP))
  {
    ForeignPrimaryLosesAll(c, switchLun, ForeignPrimary(c, ph, sh, a, b));
  }

  /** Exactly which disks are safe: from one complete copy, every run keeps a complete copy at every write
      boundary if and only if a primary header with a bad signature carries its array's CRC. */
  lemma CrashSafetyIff<H(!new), A(!new)>(c: Codec<H, A>, switchLun: bool, d: Disk<H, A>)
    requires Laws(c) && OneComplete(c, d)
    ensures (forall calls :: PossibleRun(c, switchLun, d, calls) ==> AlwaysOneComplete(c, d, calls))
      <==> Rerunnable(c, d)
  {
    if Rerunnable(c, d) {
      forall calls | PossibleRun(c, switchLun, d, calls)
        ensures AlwaysOneComplete(c, d, calls)
      {
        CrashSafety(c, switchLun, d, calls);
      }
    } else {
      ForeignPrimaryLosesAll(c, switchLun, d);
    }
  }

  // ------------------------------------------------------------------------
  // Writing a whole table back
  // ------------------------------------------------------------------------

  /** Every write of the list may be made, or torn in any way, with a complete copy left. */
  ghost predicate OneThroughout<H(!new), A(!new)>(c: Codec<H, A>, d: Disk<H, A>, ops: seq<Op<H, A>>)
    decreases |ops|
  {
    OneComplete(c, d) && (ops == [] ||
      (&& (forall w: Op<H, A> :: SameTarget(w, ops[0]) ==> OneComplete(c, Apply(d, w)))
       && OneThroughout(c, Apply(d, ops[0]), ops[1..])))
  }

  lemma {:induction false} ThroughoutMeans<H(!new), A(!new)>(c: Codec<H, A>, d: Disk<H, A>, ops: seq<Op<H, A>>,
                                                             done: seq<Op<H, A>>)
    requires OneThroughout(c, d, ops) && Interrupted(ops, done)
    ensures forall k :: 0 <= k <= |done| ==> OneComplete(c, After(d, done[..k]))
    decreases |ops|
  {
    if done != [] {
      if |done| > 1 {
        ThroughoutMeans(c, Apply(d, done[0]), ops[1..], done[1..]);
      }
      forall k | 0 <= k <= |done|
        ensures OneComplete(c, After(d, done[..k]))
      {
        if k > 0 {
          assert done[..k][1..] == done[1..][..k - 1];
        }
      }
    }
  }

  /** Primary header, primary entries, secondary header, secondary entries: with the old secondary
      and both new copies complete, a complete copy survives every cut of the four writes, and all
      four leave both copies complete. */
  lemma CommitSafety<H(!new), A(!new)>(c: Codec<H, A>, d: Disk<H, A>, new_: Disk<H, A>, done: seq<Op<H, A>>)
    requires CompleteSecondary(c, d) && CompletePrimary(c, new_) && CompleteSecondary(c, new_)
    requires Interrupted([PutHeader(Primary, new_.ph)] + [PutEntries(Primary, new_.pe)]
                       + ([PutHeader(Secondary, new_.sh)] + [PutEntries(Secondary, new_.se)]), done)
    ensures forall k :: 0 <= k <= |done| ==> OneComplete(c, After(d, done[..k]))
    ensures After(d, [PutHeader(Primary, new_.ph)] + [PutEntries(Primary, new_.pe)]
                   + ([PutHeader(Secondary, new_.sh)] + [PutEntries(Secondary, new_.se)])) == new_.(lun := d.lun)
  {
    var ops := [PutHeader(Primary, new_.ph)] + [PutEntries(Primary, new_.pe)]
             + ([PutHeader(Secondary, new_.sh)] + [PutEntries(Secondary, new_.se)]);
    var d1, d2 := d.(ph := new_.ph), d.(ph := new_.ph, pe := new_.pe);
    var d3, d4 := d2.(sh := new_.sh), d2.(sh := new_.sh, se := new_.se);
    assert ops[1..][1..][1..][1..] == [];
    assert OneThroughout(c, d4, ops[1..][1..][1..][1..]);
    assert OneThroughout(c, d3, ops[1..][1..][1..]);
    assert OneThroughout(c, d2, ops[1..][1..]);
    assert OneThroughout(c, d1, ops[1..]);
    ThroughoutMeans(c, d, ops, done);
    assert After(d3, ops[1..][1..][1..]) == d4;
    assert After(d2, ops[1..][1..]) == d4;
    assert After(d1, ops[1..]) == d4;
  }

  // ------------------------------------------------------------------------
  // Stages without faults
  // ------------------------------------------------------------------------

  /** The table after a call that nothing interrupts. */
  function Finished<H, A>(c: Codec<H, A>, switchLun: bool, d: Disk<H, A>, stage: Stage): Disk<H, A> {
    After(d, Prepare(c, switchLun, d, stage).ops)
  }

  /** The three pairs of header states an update passes through. */
  predicate InUpdate<H, A>(c: Codec<H, A>, d: Disk<H, A>) {
    && c.state(d.ph) != GPT_BAD_CRC && c.state(d.sh) != GPT_BAD_CRC
    && (c.state(d.ph) == GPT_OK || c.state(d.sh) == GPT_OK)
  }

  /** The stage a disk in an update is waiting for. */
  function Expected<H, A>(c: Codec<H, A>, d: Disk<H, A>): Stage
    requires InUpdate(c, d)
  {
    InternalStage(c.state(d.ph), c.state(d.sh))
  }

  lemma StageEffect<H(!new), A(!new)>(c: Codec<H, A>, switchLun: bool, d: Disk<H, A>)
    requires InUpdate(c, d)
    ensures var r := Finished(c, switchLun, d, Expected(c, d));
      match Expected(c, d)
      case UPDATE_MAIN =>
        if c.describes(d.ph, d.pe) && c.hasBackup(d.pe) then
          r == Disk(c.mark(d.ph, false), d.pe, c.repoint(d.sh, c.swap(d.pe)), c.swap(d.pe),
                    if switchLun then BOOT_LUN_B_ID else d.lun)
        else r == d.(lun := if switchLun then BOOT_LUN_B_ID else d.lun)
      case UPDATE_BACKUP =>
        r == Disk(c.mark(d.ph, true), d.pe, c.mark(d.sh, false), d.se, if switchLun then BOOT_LUN_A_ID else d.lun)
      case UPDATE_FINALIZE =>
        if c.describes(d.ph, d.pe) then r == Disk(d.ph, d.pe, c.mark(c.repoint(d.sh, d.pe), true), d.pe, d.lun)
        else r == d
  {
    var script := Prepare(c, switchLun, d, Expected(c, d));
    match Expected(c, d) {
      case UPDATE_MAIN =>
        var lun := LunSwitch<H, A>(switchLun, BOOT_LUN_B_ID);
        AfterLun(d, switchLun, BOOT_LUN_B_ID);
        if c.describes(d.ph, d.pe) && c.hasBackup(d.pe) {
          var x, y := PutHeader(Secondary, c.repoint(d.sh, c.swap(d.pe))), PutEntries(Secondary, c.swap(d.pe));
          var z := PutHeader(Primary, c.mark(d.ph, false));
          AfterAppend(d, lun, [x, y, z]);
          AfterList(After(d, lun), x, y, z);
        }
      case UPDATE_BACKUP =>
        var lun := LunSwitch<H, A>(switchLun, BOOT_LUN_A_ID);
        AfterLun(d, switchLun, BOOT_LUN_A_ID);
        var x, y := PutHeader(Primary, c.mark(d.ph, true)), PutHeader(Secondary, c.mark(d.sh, false));
        AfterAppend(d, lun, [x, y]);
        AfterList(After(d, lun), x, y, y);
      case UPDATE_FINALIZE =>
        if script.ops != [] {
          AfterList(d, script.ops[0], script.ops[1], script.ops[2]);
        }
    }
  }

  /** Stage inference is sound: the header states stay among the three of an update; the stage
      they call for runs and moves on to the next (a disk with no backup partitions stays where
      it is), the stage before it changes nothing and succeeds, any other is refused untouched. */
  lemma StageInference<H(!new), A(!new)>(c: Codec<H, A>, switchLun: bool, d: Disk<H, A>, stage: Stage)
    requires Laws(c) && InUpdate(c, d)
    ensures InUpdate(c, Finished(c, switchLun, d, stage))
    ensures var next := Expected(c, Finished(c, switchLun, d, stage));
      var script := Prepare(c, switchLun, d, stage);
      match (Expected(c, d), stage)
      case (UPDATE_MAIN, UPDATE_MAIN) =>
        && script.rc == (if c.describes(d.ph, d.pe) then 0 else -1)
        && next == (if c.describes(d.ph, d.pe) && c.hasBackup(d.pe) then UPDATE_BACKUP else UPDATE_MAIN)
      case (UPDATE_BACKUP, UPDATE_BACKUP) => script.rc == 0 && next == UPDATE_FINALIZE
      case (UPDATE_FINALIZE, UPDATE_FINALIZE) =>
        && script.rc == (if c.describes(d.ph, d.pe) then 0 else -1)
        && next == (if c.describes(d.ph, d.pe) then UPDATE_MAIN else UPDATE_FINALIZE)
      case (UPDATE_BACKUP, UPDATE_MAIN) => script == Script([], 0)
      case (UPDATE_FINALIZE, UPDATE_BACKUP) => script == Script([], 0)
      case _ => script == Script([], -1)
  {
    if stage == Expected(c, d) {
      StageEffect(c, switchLun, d);
    }
  }

  function FaultFreeRun<H, A>(c: Codec<H, A>, switchLun: bool, d: Disk<H, A>, stages: seq<Stage>): Disk<H, A> {
    if stages == [] then d
    else Finished(c, switchLun, FaultFreeRun(c, switchLun, d, stages[..|stages| - 1]), stages[|stages| - 1])
  }

  /** A header with a bad CRC, or two bad signatures, stop every update: however often any stages are asked
      for, no call returns 0 and none changes the disk. */
  lemma {:induction false} RefusedForGood<H(!new), A(!new)>(c: Codec<H, A>, switchLun: bool, d: Disk<H, A>,
                                                            stages: seq<Stage>, next: Stage)
    requires c.state(d.ph) == GPT_BAD_CRC || c.state(d.sh) == GPT_BAD_CRC
      || (c.state(d.ph) == GPT_BAD_SIGNATURE && c.state(d.sh) == GPT_BAD_SIGNATURE)
    ensures var r := FaultFreeRun(c, switchLun, d, stages);
      r == d && Prepare(c, switchLun, r, next).rc != 0 && Finished(c, switchLun, r, next) == d
  {
    if stages != [] {
      RefusedForGood(c, switchLun, d, stages[..|stages| - 1], stages[|stages| - 1]);
    }
  }

  lemma {:induction false} OneMoreStage<H, A>(c: Codec<H, A>, switchLun: bool, d: Disk<H, A>, stages: seq<Stage>,
                                              n: nat)
    requires n < |stages|
    ensures FaultFreeRun(c, switchLun, d, stages[..n + 1])
      == Finished(c, switchLun, FaultFreeRun(c, switchLun, d, stages[..n]), stages[n])
  {
    assert stages[..n + 1][..n] == stages[..n];
  }

  /** The first of the stages were asked for, one call each, and led from d to t. Without a fault every call
      ran through, and t is what the stages make of d. */
  ghost predicate Made<H, A>(c: Codec<H, A>, switchLun: bool, d: Disk<H, A>, t: Disk<H, A>, calls: seq<Call<H, A>>,
                             stages: seq<Stage>, faulty: bool)
  {
    && |calls| <= |stages| && (forall i :: 0 <= i < |calls| ==> calls[i].stage == stages[i])
    && PossibleRun(c, switchLun, d, calls) && t == AfterCalls(d, calls)
    && (!faulty ==> CleanRun(c, switchLun, d, calls) && t == FaultFreeRun(c, switchLun, d, stages[..|calls|]))
  }

  /** What one more call adds to a run. */
  lemma {:induction false} CallMade<H, A>(c: Codec<H, A>, switchLun: bool, d: Disk<H, A>, calls: seq<Call<H, A>>,
                                          last: Call<H, A>, stages: seq<Stage>, faultyBefore: bool, faulty: bool)
    requires |calls| < |stages| && last.stage == stages[|calls|] && (faultyBefore ==> faulty)
    requires Made(c, switchLun, d, AfterCalls(d, calls), calls, stages, faultyBefore)
    requires Rerunnable(c, AfterCalls(d, calls))
    requires var ops := Prepare(c, switchLun, AfterCalls(d, calls), last.stage).ops;
      Interrupted(ops, last.done) && (!faulty ==> last.done == ops)
    ensures Made(c, switchLun, d, After(AfterCalls(d, calls), last.done), calls + [last], stages, faulty)
  {
    OneMoreCall(c, switchLun, d, calls, last);
    if !faulty {
      WholeCallMade(c, switchLun, d, calls, last, stages);
    }
  }

  /** ... when the call ran through. */
  lemma {:induction false} WholeCallMade<H, A>(c: Codec<H, A>, switchLun: bool, d: Disk<H, A>, calls: seq<Call<H, A>>,
                                               last: Call<H, A>, stages: seq<Stage>)
    requires |calls| < |stages| && last.stage == stages[|calls|] && CleanRun(c, switchLun, d, calls)
    requires AfterCalls(d, calls) == FaultFreeRun(c, switchLun, d, stages[..|calls|])
    requires last.done == Prepare(c, switchLun, AfterCalls(d, calls), last.stage).ops
    ensures CleanRun(c, switchLun, d, calls + [last])
    ensures After(AfterCalls(d, calls), last.done) == FaultFreeRun(c, switchLun, d, stages[..|calls| + 1])
  {
    WholeCallIsACut(c, last.done);
    OneMoreCall(c, switchLun, d, calls, last);
    OneMoreStage(c, switchLun, d, stages, |calls|);
  }

  /** Over any run without faults from two good headers neither header ever has a bad CRC, the two
      are never both corrupted, and the primary entries and their CRC field are never touched. */
  lemma {:induction false} FaultFreeStates<H(!new), A(!new)>(c: Codec<H, A>, switchLun: bool, d: Disk<H, A>,
                                                             stages: seq<Stage>)
    requires Laws(c) && c.state(d.ph) == GPT_OK && c.state(d.sh) == GPT_OK
    ensures var r := FaultFreeRun(c, switchLun, d, stages);
      && (c.state(r.ph), c.state(r.sh)) in {(GPT_OK, GPT_OK), (GPT_BAD_SIGNATURE, GPT_OK), (GPT_OK, GPT_BAD_SIGNATURE)}
      && r.pe == d.pe && (forall a :: c.describes(r.ph, a) == c.describes(d.ph, a))
  {
    if stages != [] {
      var init, last := stages[..|stages| - 1], stages[|stages| - 1];
      FaultFreeStates(c, switchLun, d, init);
      var mid := FaultFreeRun(c, switchLun, d, init);
      StageInference(c, switchLun, mid, last);
      if last == Expected(c, mid) {
        StageEffect(c, switchLun, mid);
      }
    }
  }

  // ------------------------------------------------------------------------
  // A whole update
  // ------------------------------------------------------------------------

  /** Without faults MAIN, BACKUP and FINALIZE all return 0 exactly when the primary copy is complete and
      has something to swap. */
  lemma UpdateRuns<H(!new), A(!new)>(c: Codec<H, A>, switchLun: bool, d: Disk<H, A>)
    requires Laws(c) && c.state(d.ph) == GPT_OK && c.state(d.sh) == GPT_OK
    ensures var d1 := Finished(c, switchLun, d, UPDATE_MAIN);
      var d2 := Finished(c, switchLun, d1, UPDATE_BACKUP);
      (Prepare(c, switchLun, d, UPDATE_MAIN).rc == 0
        && Prepare(c, switchLun, d1, UPDATE_BACKUP).rc == 0
        && Prepare(c, switchLun, d2, UPDATE_FINALIZE).rc == 0)
      <==> c.describes(d.ph, d.pe) && c.hasBackup(d.pe)
  {
    var d1 := Finished(c, switchLun, d, UPDATE_MAIN);
    StageInference(c, switchLun, d, UPDATE_MAIN);
    StageInference(c, switchLun, d1, UPDATE_BACKUP);
    StageEffect(c, switchLun, d);
    StageEffect(c, switchLun, d1);
  }

  /** When MAIN, BACKUP and FINALIZE all return 0, the primary copy is what it was to the last bit,
      the secondary entries equal the primary's, and a disk whose copies agreed is restored. */
  lemma FullCycle<H(!new), A(!new)>(c: Codec<H, A>, switchLun: bool, d: Disk<H, A>)
    requires Laws(c) && c.state(d.ph) == GPT_OK && c.state(d.sh) == GPT_OK
    ensures var d1 := Finished(c, switchLun, d, UPDATE_MAIN);
      var d2 := Finished(c, switchLun, d1, UPDATE_BACKUP);
      var d3 := Finished(c, switchLun, d2, UPDATE_FINALIZE);
      && Prepare(c, switchLun, d, UPDATE_MAIN).rc == 0
      && Prepare(c, switchLun, d1, UPDATE_BACKUP).rc == 0
      && Prepare(c, switchLun, d2, UPDATE_FINALIZE).rc == 0
      ==>
      && d1.se == c.swap(d.pe) && CompleteSecondary(c, d1)
      && d3.ph == d.ph && d3.pe == d.pe && d3.se == d.pe && CompletePrimary(c, d3) && CompleteSecondary(c, d3)
      && d3.lun == (if switchLun then BOOT_LUN_A_ID else d.lun)
      && (c.describes(d.sh, d.pe) && d.se == d.pe ==> d3 == d.(lun := d3.lun))
  {
    var d1 := Finished(c, switchLun, d, UPDATE_MAIN);
    StageEffect(c, switchLun, d);
    if Prepare(c, switchLun, d, UPDATE_MAIN).rc == 0 && Prepare(c, switchLun, d1, UPDATE_BACKUP).rc == 0 {
      StageInference(c, switchLun, d, UPDATE_MAIN);
      StageEffect(c, switchLun, d1);
      var d2 := Finished(c, switchLun, d1, UPDATE_BACKUP);
      assert d2.ph == d.ph;
      if Prepare(c, switchLun, d2, UPDATE_FINALIZE).rc == 0 {
        StageEffect(c, switchLun, d2);
      }
    }
  }
}
