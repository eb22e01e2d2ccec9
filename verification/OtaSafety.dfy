/** Safety of the update protocol over every run of boots. */
module OtaSafety {
  import opened Words
  import opened Folds
  import opened Crc32
  import opened Image
  import opened OtaMachine

  function Staged(s: Sys): Option<Job> {
    Inspect(s.flash[BANK2..])
  }

  function StagedPayload(s: Sys): seq<bv8>
    requires Staged(s).Some?
  {
    Payload(s.flash[BANK2..], Staged(s).value.size)
  }

  // ----- failed attempts -------------------------------------------------------------------------

  /** An erase or program operation that the flash reports as failed. */
  predicate FlashError(s: Sys, e: Event) {
    (s.phase.Erasing? || s.phase.Copying?) && e.Fault?
  }

  /** The last event was a flash error; the request has not been dropped yet. */
  predicate Failing(s0: Sys, events: seq<Event>) {
    var n := |events|;
    n > 0 && FlashError(Run(s0, events[..n - 1]), events[n - 1])
  }

  /** Event i drops the request after a flash error. */
  predicate GivesUpAt(s0: Sys, events: seq<Event>, i: nat) {
    i < |events| && Failing(s0, events[..i]) && !events[i].Reset?
  }

  /** Some attempt met a flash error and was not cut by a reset before it dropped the request. */
  ghost predicate GaveUp(s0: Sys, events: seq<Event>) {
    exists i :: GivesUpAt(s0, events, i)
  }

  lemma GaveUpSnoc(s0: Sys, events: seq<Event>, e: Event)
    ensures GaveUp(s0, events + [e]) <==> GaveUp(s0, events) || (Failing(s0, events) && !e.Reset?)
  {
    hide Failing;
    var all := events + [e];
    if i: nat :| GivesUpAt(s0, all, i) {
      if i < |events| {
        assert all[..i] == events[..i];
        assert GivesUpAt(s0, events, i);
      } else {
        assert all[..i] == events;
      }
    }
    if i: nat :| GivesUpAt(s0, events, i) {
      assert all[..i] == events[..i];
      assert GivesUpAt(s0, all, i);
    }
    if Failing(s0, events) && !e.Reset? {
      assert all[..|events|] == events;
      assert GivesUpAt(s0, all, |events|);
    }
  }

  // ----- the invariant ------------------------------------------------------------------------

  /** A request is pending and the staged image is good. */
  ghost predicate Updating(s0: Sys, job: Job, payload: seq<bv8>, failing: bool, s: Sys)
    requires |payload| == job.size <= MAX_PAYLOAD
  {
    s.mbx == s0.mbx && (s.phase.Dropping? <==> failing) &&
    match s.phase
    case Start => true
    case Erasing(n, j) => j == job && ErasedBelow(s.flash, n)
    case Copying(n, j) => j == job && Copied(s.flash, payload, n)
    case Verifying(j) => j == job && Installed(s.flash, payload)
    case Marking(k) => k == 0 && Installed(s.flash, payload)
    case Dropping => true
    case Booted => false
  }

  /** The request has been answered; flash is not touched again. */
  ghost predicate Answered(payload: seq<bv8>, gaveUp: bool, s: Sys)
    requires |payload| <= MAX_PAYLOAD
  {
    && !Requested(s.mbx)
    && (s.phase.Start? || s.phase.Booted? || (s.phase.Marking? && s.phase.step > 0))
    && (gaveUp || Installed(s.flash, payload))
  }

  /** What holds after any run from s0, by whether the last step failed and whether an attempt was given up. */
  ghost predicate Inv(s0: Sys, failing: bool, gaveUp: bool, s: Sys) {
    && SameOutsideApp(s0.flash, s.flash)
    && if !Requested(s0.mbx) then
         s.flash == s0.flash && s.mbx == s0.mbx && s.log == s0.log && (s.phase.Start? || s.phase.Booted?)
       else
         match Staged(s0)
         case None =>
           && s.flash == s0.flash && s.log == s0.log
           && ((s.mbx == s0.mbx && (s.phase.Start? || s.phase.Dropping?))
               || (s.mbx == ClearRequest(s0.mbx) && (s.phase.Start? || s.phase.Booted?)))
         case Some(job) =>
           || (Updating(s0, job, StagedPayload(s0), failing, s) && !gaveUp)
           || (Answered(StagedPayload(s0), gaveUp, s) && !failing)
  }

  lemma SameBank2(s0: Sys, s: Sys)
    requires SameOutsideApp(s0.flash, s.flash)
    ensures s.flash[BANK2..] == s0.flash[BANK2..]
  {
  }

  lemma Cleared(mbx: Mailbox)
    ensures !Requested(ClearRequest(mbx))
  {
  }

  lemma MarkKeepsCleared(mbx: Mailbox, k: nat)
    requires k == 0 || !Requested(mbx)
    ensures !Requested(Mark(mbx, k))
  {
  }

  lemma UpdatingErase(s0: Sys, s: Sys, e: Event)
    requires Requested(s0.mbx) && Staged(s0).Some? && SameOutsideApp(s0.flash, s.flash)
    requires Updating(s0, Staged(s0).value, StagedPayload(s0), false, s) && s.phase.Erasing?
    ensures SameOutsideApp(s0.flash, Step(s, e).flash)
    ensures Updating(s0, Staged(s0).value, StagedPayload(s0), e.Fault?, Step(s, e))
  {
    hide Crc, Inspect, Requested;
    LayoutFits();
  }

  lemma CopyOne(f0: seq<bv8>, f: seq<bv8>, payload: seq<bv8>, n: nat, e: Event)
    requires |f0| == |f| == FLASH_SIZE && |payload| <= MAX_PAYLOAD
    requires n < |payload| && n % QUAD_WORD == 0 && SameOutsideApp(f0, f) && Copied(f, payload, n)
    ensures APP + n + QUAD_WORD <= CONFIG
    ensures var t := Write(f, APP + n, QuadAt(payload, n), e);
            SameOutsideApp(f0, t) && (e.Done? ==> Copied(t, payload, n + QUAD_WORD))
  {
    LayoutFits();
    hide Torn;
  }

  lemma CopiedAll(f: seq<bv8>, payload: seq<bv8>, n: nat)
    requires |f| == FLASH_SIZE && |payload| <= n && |payload| <= MAX_PAYLOAD && Copied(f, payload, n)
    ensures Installed(f, payload)
  {
  }

  lemma UpdatingCopy(s0: Sys, s: Sys, e: Event)
    requires Requested(s0.mbx) && Staged(s0).Some? && SameOutsideApp(s0.flash, s.flash)
    requires Updating(s0, Staged(s0).value, StagedPayload(s0), false, s) && s.phase.Copying?
    ensures SameOutsideApp(s0.flash, Step(s, e).flash)
    ensures Updating(s0, Staged(s0).value, StagedPayload(s0), e.Fault?, Step(s, e))
  {
    hide Crc, Inspect, Requested, Copied, Installed, SameOutsideApp, Write, QuadAt, Payload;
    SameBank2(s0, s);
    CopyOne(s0.flash, s.flash, StagedPayload(s0), s.phase.offset, e);
    if e.Done? && s.phase.offset + QUAD_WORD >= s.phase.job.size {
      CopiedAll(Step(s, e).flash, StagedPayload(s0), s.phase.offset + QUAD_WORD);
    }
  }

  lemma UpdatingOther(s0: Sys, failing: bool, s: Sys, e: Event)
    requires Requested(s0.mbx) && Staged(s0).Some? && SameOutsideApp(s0.flash, s.flash)
    requires Updating(s0, Staged(s0).value, StagedPayload(s0), failing, s)
    requires s.phase.Start? || s.phase.Verifying? || s.phase.Marking? || s.phase.Dropping?
    ensures Inv(s0, false, failing && !e.Reset?, Step(s, e))
  {
    hide Crc, Inspect, Requested, ClearRequest, Mark;
    SameBank2(s0, s);
    InspectAccepts(s0.flash[BANK2..], Staged(s0).value);
    if s.phase.Verifying? {
      InstalledMeans(s.flash, StagedPayload(s0));
      assert s.flash[APP..APP + s.phase.job.size] == StagedPayload(s0);
    }
    Cleared(s.mbx);
    MarkKeepsCleared(s.mbx, 0);
  }

  lemma AnsweredStep(s0: Sys, gaveUp: bool, s: Sys, e: Event)
    requires Requested(s0.mbx) && Staged(s0).Some? && SameOutsideApp(s0.flash, s.flash)
    requires Answered(StagedPayload(s0), gaveUp, s)
    ensures Inv(s0, false, gaveUp, Step(s, e))
  {
    hide Crc, Inspect, Requested, ClearRequest, Mark;
    if s.phase.Marking? {
      MarkKeepsCleared(s.mbx, s.phase.step);
    }
  }

  lemma InvStep(s0: Sys, failing: bool, gaveUp: bool, s: Sys, e: Event)
    requires Inv(s0, failing, gaveUp, s)
    ensures Inv(s0, FlashError(s, e), gaveUp || (failing && !e.Reset?), Step(s, e))
  {
    if Requested(s0.mbx) && Staged(s0).Some? {
      if Updating(s0, Staged(s0).value, StagedPayload(s0), failing, s) && !gaveUp {
        if s.phase.Erasing? {
          UpdatingErase(s0, s, e);
        } else if s.phase.Copying? {
          UpdatingCopy(s0, s, e);
        } else {
          UpdatingOther(s0, failing, s, e);
        }
      } else {
        AnsweredStep(s0, gaveUp, s, e);
      }
    } else {
      Cleared(s0.mbx);
      hide Crc, Inspect, Requested, ClearRequest, Mark;
      SameBank2(s0, s);
    }
  }

  lemma {:induction false} InvRun(s0: Sys, events: seq<Event>)
    requires s0.phase.Start?
    ensures Inv(s0, Failing(s0, events), GaveUp(s0, events), Run(s0, events))
    decreases |events|
  {
    if events == [] {
      InvStart(s0);
      assert !GaveUp(s0, events);
    } else {
      hide Inv, Step, Failing, GaveUp;
      var init, e := events[..|events| - 1], events[|events| - 1];
      assert events == init + [e];
      InvRun(s0, init);
      GaveUpSnoc(s0, init, e);
      RunSnoc(s0, init, e);
      InvStep(s0, Failing(s0, init), GaveUp(s0, init), Run(s0, init), e);
      LastFails(s0, init, e);
    }
  }

  lemma InvStart(s0: Sys)
    requires s0.phase.Start?
    ensures Inv(s0, false, false, s0)
  {
    hide Crc, Inspect, Requested, ClearRequest;
  }

  lemma RunSnoc(s0: Sys, events: seq<Event>, e: Event)
    ensures Run(s0, events + [e]) == Step(Run(s0, events), e)
  {
    hide Step;
    FoldAppend(Step, s0, events, [e]);
    FoldOne(Step, Run(s0, events), e);
  }

  lemma LastFails(s0: Sys, events: seq<Event>, e: Event)
    ensures Failing(s0, events + [e]) <==> FlashError(Run(s0, events), e)
  {
    assert (events + [e])[..|events|] == events;
  }

  // ----- the guarantees --------------------------------------------------------------------------

  /** Boot loader, configuration sector and Bank 2 survive every run of boots, however it is cut. */
  lemma OnlyAppRegionChanges(s0: Sys, events: seq<Event>)
    requires s0.phase.Start?
    ensures SameOutsideApp(s0.flash, Run(s0, events).flash)
    ensures Staged(Run(s0, events)) == Staged(s0)
  {
    hide Crc, Inspect, Requested, Failing, GaveUp;
    InvRun(s0, events);
    SameBank2(s0, Run(s0, events));
  }

  /** Without a request nothing is written, whatever Bank 2 holds. */
  lemma NoRequestNoChange(s0: Sys, events: seq<Event>)
    requires s0.phase.Start? && !Requested(s0.mbx)
    ensures Run(s0, events).flash == s0.flash && Run(s0, events).mbx == s0.mbx
  {
    hide Crc, Inspect, Requested, Failing, GaveUp;
    InvRun(s0, events);
  }

  /** A rejected image never costs a byte of flash; at most the request is dropped. */
  lemma RejectedImageNoChange(s0: Sys, events: seq<Event>)
    requires s0.phase.Start? && Staged(s0) == None
    ensures Run(s0, events).flash == s0.flash
    ensures Run(s0, events).mbx == s0.mbx || Run(s0, events).mbx == ClearRequest(s0.mbx)
  {
    hide Crc, Inspect, Requested, Failing, GaveUp;
    InvRun(s0, events);
  }

  /** A request for a good image damaged by a burst in its header, or for another type, costs no byte of flash. */
  lemma DamagedHeaderNoChange(s0: Sys, good: seq<bv8>, events: seq<Event>)
    requires s0.phase.Start? && |good| == FLASH_SIZE - BANK2 && Inspect(good).Some?
    requires Burst(good[..64], s0.flash[BANK2..][..64]) || s0.flash[BANK2 + 8] != 0
    ensures Run(s0, events).flash == s0.flash
  {
    hide Inspect, Burst, Run;
    if s0.flash[BANK2 + 8] != 0 {
      OtherTypeRejected(s0.flash[BANK2..]);
    } else {
      DamagedHeaderRejected(good, s0.flash[BANK2..]);
    }
    RejectedImageNoChange(s0, events);
  }

  /**
   * The request is dropped for one of three reasons only: the image was rejected, an attempt that
   * met a flash error ran on to its end, or the application region now equals the staged payload.
   */
  lemma RequestSurvivesUntilSettled(s0: Sys, events: seq<Event>)
    requires s0.phase.Start? && Requested(s0.mbx)
    ensures Requested(Run(s0, events).mbx) ==> Run(s0, events).mbx == s0.mbx
    ensures !Requested(Run(s0, events).mbx) ==>
      || Staged(s0) == None
      || GaveUp(s0, events)
      || Installed(Run(s0, events).flash, StagedPayload(s0))
    ensures GaveUp(s0, events) && Staged(s0).Some? ==> !Requested(Run(s0, events).mbx)
  {
    Cleared(s0.mbx);
    hide Crc, Inspect, Requested, ClearRequest, Failing, GaveUp;
    InvRun(s0, events);
  }

  /**
   * A run that has left the boot loader has installed the payload exactly, whatever flash errors and
   * resets went before, unless an attempt was given up.
   */
  lemma FinishedMeansInstalled(s0: Sys, events: seq<Event>)
    requires s0.phase.Start? && Requested(s0.mbx) && Staged(s0).Some?
    requires !GaveUp(s0, events) && Run(s0, events).phase.Booted?
    ensures Installed(Run(s0, events).flash, StagedPayload(s0))
    ensures !Requested(Run(s0, events).mbx)
  {
    hide Crc, Inspect, Requested, Failing, GaveUp;
    InvRun(s0, events);
  }

  /** Whenever a quad-word is about to be programmed, it is blank. */
  lemma ProgramsBlankFlash(s0: Sys, events: seq<Event>)
    requires s0.phase.Start?
    ensures var s := Run(s0, events);
            s.phase.Copying? ==>
              forall k :: APP + s.phase.offset <= k < APP + s.phase.offset + QUAD_WORD ==> s.flash[k] == 0xFF
  {
    hide Crc, Inspect, Requested, Failing, GaveUp;
    InvRun(s0, events);
  }
}
