/** What a run leaves in the mailbox: the four marks of a completed update are written one at a time. */
module OtaMailbox {
  import opened Words
  import opened Folds
  import opened Crc32
  import opened Image
  import opened OtaMachine
  import opened OtaSafety
  import opened OtaProgress

  /** Some, not all, of the four marks have been written. */
  predicate HalfMarked(s: Sys) {
    s.phase.Marking? && s.phase.step > 0
  }

  /** Event i is a reset between two marks. */
  predicate CutsMarks(s0: Sys, events: seq<Event>, i: nat) {
    i < |events| && events[i].Reset? && HalfMarked(Run(s0, events[..i]))
  }

  ghost predicate MarksCut(s0: Sys, events: seq<Event>) {
    exists i :: CutsMarks(s0, events, i)
  }

  /** The mailbox is what the first k of the four writes make of it, for some k in a range. */
  ghost predicate MarkedBetween(before: Mailbox, lo: nat, hi: nat, after: Mailbox) {
    exists k :: lo <= k <= hi && after == Marks(before, k)
  }

  lemma MarksCutSnoc(s0: Sys, events: seq<Event>, e: Event)
    ensures MarksCut(s0, events + [e]) <==> MarksCut(s0, events) || (e.Reset? && HalfMarked(Run(s0, events)))
  {
    hide HalfMarked, Run;
    var all := events + [e];
    if i: nat :| CutsMarks(s0, all, i) {
      if i < |events| {
        assert all[..i] == events[..i];
        assert CutsMarks(s0, events, i);
      } else {
        assert all[..i] == events;
      }
    }
    if i: nat :| CutsMarks(s0, events, i) {
      assert all[..i] == events[..i];
      assert CutsMarks(s0, all, i);
    }
    if e.Reset? && HalfMarked(Run(s0, events)) {
      assert all[..|events|] == events;
      assert CutsMarks(s0, all, |events|);
    }
  }

  // ----- the invariant ---------------------------------------------------------------------------------

  /** The mailbox once the request is dropped, by why the boot that dropped it ended. */
  ghost predicate Settled(before: Mailbox, gaveUp: bool, cut: bool, after: Mailbox) {
    && !(gaveUp && cut)
    && if gaveUp then after == ClearRequest(before)
       else if cut then MarkedBetween(before, 1, 3, after)
       else after == Marks(before, 4)
  }

  /** What OtaSafety.Inv leaves open about the mailbox. */
  ghost predicate MailboxInv(s0: Sys, gaveUp: bool, cut: bool, s: Sys) {
    if HalfMarked(s) then !gaveUp && !cut && s.phase.step < 4 && s.mbx == Marks(s0.mbx, s.phase.step)
    else if Requested(s.mbx) then !gaveUp && !cut
    else Settled(s0.mbx, gaveUp, cut, s.mbx)
  }

  lemma OneMark(mbx: Mailbox)
    ensures Marks(mbx, 1) == ClearRequest(mbx)
  {
    assert Marks(mbx, 0) == mbx;
  }

  lemma NextMark(mbx: Mailbox, k: nat)
    ensures Marks(mbx, k + 1) == Mark(Marks(mbx, k), k)
  {
  }

  /** Mailbox and phase after a step while the request stands. */
  lemma RequestedStep(s: Sys, e: Event)
    requires Requested(s.mbx) && (s.phase.Marking? ==> s.phase.step == 0)
    ensures var t := Step(s, e);
            t.mbx == if e.Reset? || !(s.phase.Marking? || s.phase.Dropping?) then s.mbx else ClearRequest(s.mbx)
    ensures s.phase.Marking? && !e.Reset? ==> Step(s, e).phase == Marking(1)
    ensures HalfMarked(Step(s, e)) ==> s.phase.Marking? && !e.Reset?
    ensures !Requested(Step(s, e).mbx) <==> !e.Reset? && (s.phase.Marking? || s.phase.Dropping?)
  {
    Cleared(s.mbx);
    hide Crc, Inspect, Requested, ClearRequest, Write, QuadAt, Payload;
  }

  /** Mailbox and phase after a step between the marks. */
  lemma HalfMarkedStep(s: Sys, e: Event)
    requires HalfMarked(s)
    ensures Step(s, e) == if e.Reset? then s.(phase := Start)
                          else s.(mbx := Mark(s.mbx, s.phase.step),
                                  phase := if s.phase.step < 3 then Marking(s.phase.step + 1) else Booted)
  {
  }

  /** With the request answered the mailbox is not written again. */
  lemma AnsweredMailbox(s: Sys, e: Event)
    requires !Requested(s.mbx) && (s.phase.Start? || s.phase.Booted?)
    ensures Step(s, e).mbx == s.mbx && !HalfMarked(Step(s, e))
  {
  }

  lemma MailboxStep(s0: Sys, failing: bool, gaveUp: bool, cut: bool, s: Sys, e: Event)
    requires Requested(s0.mbx) && Staged(s0).Some?
    requires Inv(s0, failing, gaveUp, s) && MailboxInv(s0, gaveUp, cut, s)
    ensures MailboxInv(s0, gaveUp || (failing && !e.Reset?), cut || (e.Reset? && HalfMarked(s)), Step(s, e))
  {
    hide Crc, Inspect, Requested, ClearRequest, Mark, Marks, Step, Installed, Copied, ErasedBelow, SameOutsideApp;
    OneMark(s0.mbx);
    if HalfMarked(s) {
      HalfMarkedStep(s, e);
      NextMark(s0.mbx, s.phase.step);
      MarkKeepsCleared(s.mbx, s.phase.step);
    } else if Requested(s.mbx) {
      RequestedStep(s, e);
    } else {
      AnsweredMailbox(s, e);
    }
  }

  lemma {:induction false} MailboxRun(s0: Sys, events: seq<Event>)
    requires s0.phase.Start? && Requested(s0.mbx) && Staged(s0).Some?
    ensures MailboxInv(s0, GaveUp(s0, events), MarksCut(s0, events), Run(s0, events))
    decreases |events|
  {
    hide Inv, Step, Failing, Requested, Staged;
    if events == [] {
      assert !GaveUp(s0, events) && !MarksCut(s0, events);
    } else {
      hide GaveUp, MarksCut, MailboxInv;
      var init, e := events[..|events| - 1], events[|events| - 1];
      assert events == init + [e];
      MailboxRun(s0, init);
      InvRun(s0, init);
      GaveUpSnoc(s0, init, e);
      MarksCutSnoc(s0, init, e);
      RunSnoc(s0, init, e);
      MailboxStep(s0, Failing(s0, init), GaveUp(s0, init), MarksCut(s0, init), Run(s0, init), e);
    }
  }

  // ----- the results -----------------------------------------------------------------------------------

  lemma CountersDiffer(mbx: Mailbox, k: nat)
    requires k <= 3
    ensures Marks(mbx, k).bootCounter == mbx.bootCounter
    ensures Marks(mbx, 4).bootCounter != mbx.bootCounter
  {
    MarksMeaning(mbx);
    hide ClearFlag, SetFlag;
    assert Marks(mbx, 0) == mbx;
    NextMark(mbx, 0);
    NextMark(mbx, 1);
    NextMark(mbx, 2);
    hide Marks;
  }

  /** In every run the four writes happen in order: the mailbox is the old one with a first part of them applied. */
  lemma MarksInOrder(s0: Sys, events: seq<Event>)
    requires s0.phase.Start?
    ensures MarkedBetween(s0.mbx, 0, 4, Run(s0, events).mbx)
  {
    hide Inspect, Requested, ClearRequest, Mark, Marks, Run, Failing, GaveUp, MarksCut;
    OneMark(s0.mbx);
    NoMark(s0.mbx);
    if Requested(s0.mbx) {
      if Staged(s0).Some? {
        MailboxRun(s0, events);
        RequestSurvivesUntilSettled(s0, events);
      } else {
        RejectedImageNoChange(s0, events);
      }
    } else {
      NoRequestNoChange(s0, events);
    }
  }

  lemma NoMark(mbx: Mailbox)
    ensures Marks(mbx, 0) == mbx
  {
  }

  /**
   * A finished update is marked in full if and only if no attempt was given up and no reset fell
   * between two of the marks.
   */
  lemma MarkedInFullIff(s0: Sys, events: seq<Event>)
    requires s0.phase.Start? && Requested(s0.mbx) && Staged(s0).Some?
    requires Run(s0, events).phase.Booted?
    ensures Run(s0, events).mbx == Marks(s0.mbx, 4) <==> !GaveUp(s0, events) && !MarksCut(s0, events)
    ensures !GaveUp(s0, events) ==> MarkedBetween(s0.mbx, 1, 4, Run(s0, events).mbx)
  {
    hide Inspect, Requested, ClearRequest, Mark, Marks, Run, Failing, GaveUp, MarksCut, Installed, SameOutsideApp, Staged;
    MailboxRun(s0, events);
    InvRun(s0, events);
    OneMark(s0.mbx);
    CountersDiffer(s0.mbx, 1);
    CountersDiffer(s0.mbx, 2);
    CountersDiffer(s0.mbx, 3);
  }

  // ----- the runs that leave k marks ------------------------------------------------------------------

  /** One boot that is reset after k marks, and the next one. */
  function CutAfter(k: nat, size: nat): seq<Event>
    requires k <= 3
  {
    Repeat(Done, 121 + (size + 15) / 16 + k) + [Reset([]), Done]
  }

  lemma RunOfCut(s0: Sys, n: nat)
    ensures Run(s0, Repeat(Done, n) + [Reset([]), Done]) == Step(Step(Run(s0, Repeat(Done, n)), Reset([])), Done)
  {
    hide Step;
    FoldAppend(Step, s0, Repeat(Done, n), [Reset([]), Done]);
    FoldTwo(Step, Run(s0, Repeat(Done, n)), Reset([]), Done);
  }

  lemma MarkingWhenFewLeft(s: Sys, size: nat, k: nat)
    requires 1 <= k <= 3 && StepsLeft(s, size) == 4 - k
    ensures s.phase == Marking(k)
  {
  }

  lemma ResetBetweenMarks(s: Sys)
    requires HalfMarked(s) && !Requested(s.mbx)
    ensures Step(Step(s, Reset([])), Done) == s.(phase := Booted)
  {
    hide Requested, Crc, Inspect;
  }

  lemma {:induction false} MarksClear(mbx: Mailbox, k: nat)
    requires k >= 1
    ensures !Requested(Marks(mbx, k))
    decreases k
  {
    hide Requested, Mark;
    if k > 1 {
      MarksClear(mbx, k - 1);
    }
    MarkKeepsCleared(Marks(mbx, k - 1), k - 1);
  }

  /** A reset after the first, second or third mark: the new firmware is in place and starts with k marks out of four. */
  lemma CutLeavesMarks(s0: Sys, k: nat)
    requires s0.phase.Start? && Requested(s0.mbx) && Staged(s0).Some? && 1 <= k <= 3
    ensures var t := Run(s0, CutAfter(k, Staged(s0).value.size));
            t.phase.Booted? && t.mbx == Marks(s0.mbx, k) && Installed(t.flash, StagedPayload(s0))
  {
    hide Inspect, Requested, Staged, Step, Installed, Updating, Marks, Run;
    var size := Staged(s0).value.size;
    var n := 121 + (size + 15) / 16 + k;
    StartIsOnTrack(s0, s0);
    OnTrackRun(s0, s0, n);
    var s := Run(s0, Repeat(Done, n));
    MarkingWhenFewLeft(s, size, k);
    MarksClear(s0.mbx, k);
    ResetBetweenMarks(s);
    RunOfCut(s0, n);
  }
}
