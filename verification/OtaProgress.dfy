/** An update that was cut short can always be finished; a flash error can cost the old firmware. */
module OtaProgress {
  import opened Words
  import opened Folds
  import opened Crc32
  import opened Image
  import opened OtaMachine
  import opened OtaSafety

  /** The mailbox after the first k success writes. */
  function Marks(mbx: Mailbox, k: nat): Mailbox {
    if k == 0 then mbx else Mark(Marks(mbx, k - 1), k - 1)
  }

  lemma FourMarks(mbx: Mailbox)
    ensures Marks(mbx, 4) == Mark(Mark(Mark(Mark(mbx, 0), 1), 2), 3)
  {
    hide Mark;
    assert Marks(mbx, 1) == Mark(mbx, 0);
    assert Marks(mbx, 2) == Mark(Marks(mbx, 1), 1);
    assert Marks(mbx, 3) == Mark(Marks(mbx, 2), 2);
  }

  /** What a completed update leaves in the mailbox. */
  lemma MarksMeaning(mbx: Mailbox)
    ensures Marks(mbx, 4).signature == mbx.signature
    ensures Marks(mbx, 4).flags == (mbx.flags & !7) | 2
    ensures Marks(mbx, 4).bootCounter == mbx.bootCounter + 1
  {
    FourMarks(mbx);
    hide Marks;
  }

  lemma FlagCleared(flags: bv32)
    ensures ClearFlag(flags, 1) == flags & !1
  {
  }

  lemma ClearSet(flags: bv32)
    ensures SetFlag(ClearFlag(flags, 1), 2) == (flags & !1) | 2
  {
  }

  lemma ClearSetClear(flags: bv32)
    ensures ClearFlag(SetFlag(ClearFlag(flags, 1), 2), 4) == (flags & !7) | 2
  {
  }

  lemma MarkSteps(mbx: Mailbox)
    ensures Mark(mbx, 0).flags == ClearFlag(mbx.flags, 1) && Mark(mbx, 1).flags == SetFlag(mbx.flags, 2)
    ensures Mark(mbx, 2).flags == ClearFlag(mbx.flags, 4)
  {
    hide ClearFlag, SetFlag;
  }

  lemma FirstMarks(mbx: Mailbox)
    ensures Marks(mbx, 1).flags == ClearFlag(mbx.flags, 1)
    ensures Marks(mbx, 2).flags == SetFlag(ClearFlag(mbx.flags, 1), 2)
    ensures Marks(mbx, 3).flags == ClearFlag(SetFlag(ClearFlag(mbx.flags, 1), 2), 4)
  {
    hide Mark, ClearFlag, SetFlag;
    assert Marks(mbx, 0) == mbx;
    assert Marks(mbx, 1) == Mark(mbx, 0);
    assert Marks(mbx, 2) == Mark(Marks(mbx, 1), 1);
    assert Marks(mbx, 3) == Mark(Marks(mbx, 2), 2);
    hide Marks;
    MarkSteps(mbx);
    MarkSteps(Marks(mbx, 1));
    MarkSteps(Marks(mbx, 2));
  }

  /** What the first one, two or three writes leave in the flags. */
  lemma FirstMarksMeaning(mbx: Mailbox)
    ensures Marks(mbx, 1).flags == mbx.flags & !1
    ensures Marks(mbx, 2).flags == (mbx.flags & !1) | 2
    ensures Marks(mbx, 3).flags == (mbx.flags & !7) | 2
  {
    hide *;
    FirstMarks(mbx);
    FlagCleared(mbx.flags);
    ClearSet(mbx.flags);
    ClearSetClear(mbx.flags);
  }

  /** Steps an undisturbed boot still takes. */
  function StepsLeft(s: Sys, size: nat): nat {
    match s.phase
    case Start => 125 + (size + 15) / 16
    case Erasing(n, _) => 132 - n + (size + 15) / 16
    case Copying(offset, _) => 5 + (if offset <= size then (size - offset + 15) / 16 else 0)
    case Verifying(_) => 5
    case Marking(k) => 4 - k
    case _ => 0
  }

  /** On the way to a successful end. */
  ghost predicate OnTrack(s0: Sys, s: Sys)
    requires Staged(s0).Some?
  {
    && SameOutsideApp(s0.flash, s.flash)
    && if s.phase.Marking? then s.mbx == Marks(s0.mbx, s.phase.step) && Installed(s.flash, StagedPayload(s0))
       else if s.phase.Booted? then s.mbx == Marks(s0.mbx, 4) && Installed(s.flash, StagedPayload(s0))
       else Updating(s0, Staged(s0).value, StagedPayload(s0), false, s)
  }

  lemma OnTrackStep(s0: Sys, s: Sys)
    requires Requested(s0.mbx) && Staged(s0).Some?
    requires OnTrack(s0, s) && !s.phase.Booted?
    ensures OnTrack(s0, Step(s, Done))
    ensures StepsLeft(Step(s, Done), Staged(s0).value.size) == StepsLeft(s, Staged(s0).value.size) - 1
  {
    hide Crc, Inspect, Requested, ClearRequest, Mark;
    if s.phase.Erasing? {
      UpdatingErase(s0, s, Done);
    } else if s.phase.Copying? {
      UpdatingCopy(s0, s, Done);
    } else {
      SameBank2(s0, s);
      InspectAccepts(s0.flash[BANK2..], Staged(s0).value);
      if s.phase.Verifying? {
        InstalledMeans(s.flash, StagedPayload(s0));
        assert s.flash[APP..APP + s.phase.job.size] == StagedPayload(s0);
      }
    }
  }

  lemma BootedIsLast(s: Sys, size: nat)
    requires StepsLeft(s, size) > 0
    ensures !s.phase.Booted?
  {
  }

  lemma {:induction false} OnTrackRun(s0: Sys, s: Sys, n: nat)
    requires Requested(s0.mbx) && Staged(s0).Some?
    requires OnTrack(s0, s) && n <= StepsLeft(s, Staged(s0).value.size)
    ensures var t := Run(s, Repeat(Done, n));
            OnTrack(s0, t) && StepsLeft(t, Staged(s0).value.size) == StepsLeft(s, Staged(s0).value.size) - n
    decreases n
  {
    hide OnTrack, Step, Staged, Requested, StepsLeft;
    if n > 0 {
      BootedIsLast(s, Staged(s0).value.size);
      OnTrackStep(s0, s);
      OnTrackRun(s0, Step(s, Done), n - 1);
      assert Repeat(Done, n)[1..] == Repeat(Done, n - 1);
    }
  }

  lemma AllStepsTaken(s0: Sys, s: Sys)
    requires Staged(s0).Some? && OnTrack(s0, s) && StepsLeft(s, Staged(s0).value.size) == 0
    ensures s.phase.Booted?
  {
    hide Crc, Inspect, Requested, Mark;
  }

  lemma StartIsOnTrack(s0: Sys, s: Sys)
    requires s.phase.Start? && Staged(s0).Some? && s.mbx == s0.mbx && SameOutsideApp(s0.flash, s.flash)
    ensures OnTrack(s0, s)
  {
  }

  /**
   * However often and wherever earlier attempts were cut, one undisturbed boot completes the
   * update: payload in place, rest of the region blank, mailbox marked.
   */
  lemma RecoversFromEveryCut(s0: Sys, events: seq<Event>, junk: seq<bv8>)
    requires s0.phase.Start? && Requested(s0.mbx) && Staged(s0).Some?
    requires Requested(Run(s0, events).mbx)
    ensures var t := Run(Step(Run(s0, events), Reset(junk)),
                         Repeat(Done, 125 + (Staged(s0).value.size + 15) / 16));
            t.phase.Booted? && Installed(t.flash, StagedPayload(s0)) && t.mbx == Marks(s0.mbx, 4)
  {
    var s := Run(s0, events);
    var r := Step(s, Reset(junk));
    var n := 125 + (Staged(s0).value.size + 15) / 16;
    ResetKeeps(s0, events, junk);
    hide Inspect, Requested, Staged, Step, Installed, Updating;
    StartIsOnTrack(s0, r);
    OnTrackRun(s0, r, n);
    AllStepsTaken(s0, Run(r, Repeat(Done, n)));
  }

  lemma ResetKeeps(s0: Sys, events: seq<Event>, junk: seq<bv8>)
    requires s0.phase.Start? && Requested(s0.mbx)
    requires Requested(Run(s0, events).mbx)
    ensures var r := Step(Run(s0, events), Reset(junk));
            r.phase.Start? && r.mbx == s0.mbx && SameOutsideApp(s0.flash, r.flash)
  {
    hide Inspect, Requested, Crc, Failing, GaveUp;
    RequestSurvivesUntilSettled(s0, events);
    InvRun(s0, events);
    InvStep(s0, Failing(s0, events), GaveUp(s0, events), Run(s0, events), Reset(junk));
  }

  lemma PackedIsStaged(s0: Sys, payload: seq<bv8>, index: int, version: Version, timestamp: int)
    requires PackImage(payload, index, version, timestamp).Some? && |payload| <= MAX_PAYLOAD
    requires PackImage(payload, index, version, timestamp).value <= s0.flash[BANK2..]
    ensures Staged(s0).Some? && Staged(s0).value.size == |payload| && StagedPayload(s0) == payload
  {
    hide Inspect, PackImage, Crc;
    PackedImageAccepted(payload, index, version, timestamp, s0.flash[BANK2..]);
  }

  /** From the packer to a running image: one undisturbed boot installs exactly the packed payload. */
  lemma PackThenInstall(s0: Sys, payload: seq<bv8>, index: int, version: Version, timestamp: int)
    requires s0.phase.Start? && Requested(s0.mbx)
    requires PackImage(payload, index, version, timestamp).Some? && |payload| <= MAX_PAYLOAD
    requires PackImage(payload, index, version, timestamp).value <= s0.flash[BANK2..]
    ensures var t := Run(s0, Repeat(Done, 125 + (|payload| + 15) / 16));
            && t.phase.Booted?
            && t.mbx == Marks(s0.mbx, 4)
            && t.flash[APP..CONFIG] == payload + Repeat(0xFF, MAX_PAYLOAD - |payload|)
            && SameOutsideApp(s0.flash, t.flash)
  {
    hide Inspect, Requested, Staged, Step, PackImage, Crc, Installed, Updating;
    var n := 125 + (|payload| + 15) / 16;
    PackedIsStaged(s0, payload, index, version, timestamp);
    StartIsOnTrack(s0, s0);
    OnTrackRun(s0, s0, n);
    AllStepsTaken(s0, Run(s0, Repeat(Done, n)));
    InstalledMeans(Run(s0, Repeat(Done, n)).flash, payload);
  }

  /** The final CRC check rejects a copy whose damage lies within 32 consecutive bits. */
  lemma VerifyCatchesBurst(s: Sys, payload: seq<bv8>, lo: nat)
    requires s.phase.Verifying? && |payload| == s.phase.job.size && s.phase.job.crc == Crc(payload)
    requires var copy := s.flash[APP..APP + |payload|];
             copy != payload &&
             forall k :: 0 <= k < 8 * |payload| && !(lo <= k < lo + 32) ==> MessageBits(copy)[k] == MessageBits(payload)[k]
    ensures Step(s, Done).phase.Dropping?
  {
    hide Crc, MessageBits;
    BurstDetected(s.flash[APP..APP + |payload|], payload, lo);
  }

  // ----- a failed update does not keep the existing firmware --------------------------------------

  /** One boot that is not cut and ends with the request dropped, not marked as done. */
  predicate FailedBoot(s0: Sys, events: seq<Event>) {
    && (forall i :: 0 <= i < |events| ==> !events[i].Reset?)
    && Run(s0, events).phase.Booted?
    && Run(s0, events).mbx == ClearRequest(s0.mbx)
  }

  lemma ReachFirstProgram(s0: Sys)
    requires s0.phase.Start? && Requested(s0.mbx) && Staged(s0).Some?
    ensures var t := Run(s0, Repeat(Done, 120));
            t.phase == Copying(0, Staged(s0).value) && Copied(t.flash, StagedPayload(s0), 0)
            && t.mbx == s0.mbx && SameOutsideApp(s0.flash, t.flash)
  {
    hide Inspect, Requested, Crc;
    var t := Step(s0, Done);
    assert Repeat(Done, 120)[1..] == Repeat(Done, 119);
    EraseAll(s0, t);
  }

  lemma ErasedPhase(s0: Sys, s: Sys)
    requires Staged(s0).Some? && s.phase.Erasing? && s.phase.sector < 127
    requires Updating(s0, Staged(s0).value, StagedPayload(s0), false, s)
    ensures Step(s, Done).phase
         == if s.phase.sector < 126 then Erasing(s.phase.sector + 1, Staged(s0).value) else Copying(0, Staged(s0).value)
  {
    hide Inspect, Write;
  }

  lemma {:induction false} EraseAll(s0: Sys, s: Sys)
    requires Requested(s0.mbx) && Staged(s0).Some? && SameOutsideApp(s0.flash, s.flash)
    requires s.phase.Erasing? && Updating(s0, Staged(s0).value, StagedPayload(s0), false, s)
    ensures var t := Run(s, Repeat(Done, 127 - s.phase.sector));
            t.phase == Copying(0, Staged(s0).value) && Copied(t.flash, StagedPayload(s0), 0)
            && t.mbx == s0.mbx && SameOutsideApp(s0.flash, t.flash)
    decreases 127 - s.phase.sector
  {
    hide Inspect, Requested, Step, Write;
    var n := 127 - s.phase.sector;
    var t := Step(s, Done);
    UpdatingErase(s0, s, Done);
    ErasedPhase(s0, s);
    assert Repeat(Done, n)[1..] == Repeat(Done, n - 1);
    if n > 1 {
      EraseAll(s0, t);
    } else {
      assert Run(t, Repeat(Done, 0)) == t;
    }
  }

  /** The boot that erases everything and then cannot program the first quad-word. */
  function FailAtFirstProgram(junk: seq<bv8>): seq<Event> {
    Repeat(Done, 120) + [Fault(junk), Done]
  }

  lemma FaultThenDrop(t: Sys, junk: seq<bv8>)
    requires t.phase.Copying? && t.phase.offset == 0 && |junk| == QUAD_WORD
    ensures var u := Step(Step(t, Fault(junk)), Done);
            u.phase.Booted? && u.mbx == ClearRequest(t.mbx) && u.flash[APP] == junk[0]
  {
    hide ClearRequest, Inspect;
  }

  lemma RunOfFailure(s0: Sys, junk: seq<bv8>)
    ensures Run(s0, FailAtFirstProgram(junk)) == Step(Step(Run(s0, Repeat(Done, 120)), Fault(junk)), Done)
  {
    hide Step;
    FoldAppend(Step, s0, Repeat(Done, 120), [Fault(junk), Done]);
    FoldTwo(Step, Run(s0, Repeat(Done, 120)), Fault(junk), Done);
  }

  lemma FirstProgramFails(s0: Sys, junk: seq<bv8>)
    requires s0.phase.Start? && Requested(s0.mbx) && Staged(s0).Some?
    requires |junk| == QUAD_WORD
    ensures FailedBoot(s0, FailAtFirstProgram(junk))
    ensures Run(s0, FailAtFirstProgram(junk)).flash[APP] == junk[0]
  {
    hide Inspect, Requested, ClearRequest, Step, Staged, StagedPayload, Copied, Run;
    ReachFirstProgram(s0);
    FaultThenDrop(Run(s0, Repeat(Done, 120)), junk);
    RunOfFailure(s0, junk);
  }

  /**
   * A failed update keeps the existing application exactly when the image was rejected before
   * the erase. Past that point the comment at src/main.c:132 does not hold: the old firmware is gone.
   */
  lemma FailureKeepsAppIffRejected(s0: Sys)
    requires s0.phase.Start? && Requested(s0.mbx)
    ensures (forall events | FailedBoot(s0, events) :: Run(s0, events).flash == s0.flash) <==> Staged(s0) == None
  {
    if Staged(s0) == None {
      forall events | FailedBoot(s0, events)
        ensures Run(s0, events).flash == s0.flash
      {
        RejectedImageNoChange(s0, events);
      }
    } else {
      hide *;
      FirstProgramFails(s0, Repeat(s0.flash[APP] ^ 1, QUAD_WORD));
    }
  }
}
