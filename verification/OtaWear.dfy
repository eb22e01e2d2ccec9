/** No quad-word is programmed twice without an erase of its sector in between. */
module OtaWear {
  import opened Folds
  import opened Image
  import opened OtaMachine

  /** Programmed, and its sector not erased since. */
  ghost predicate InUse(log: seq<FlashOp>, at: nat) {
    exists i :: 0 <= i < |log| && log[i] == ProgramQuad(at) &&
                forall m :: i < m < |log| ==> log[m] != EraseSector(at / SECTOR_SIZE)
  }

  ghost predicate NoDoubleProgram(log: seq<FlashOp>) {
    forall i, j :: 0 <= i < j < |log| && log[i].ProgramQuad? && log[j] == log[i] ==>
      exists m :: i < m < j && log[m] == EraseSector(log[i].at / SECTOR_SIZE)
  }

  lemma InUseAppend(log: seq<FlashOp>, op: FlashOp, at: nat)
    ensures InUse(log + [op], at) ==>
      op == ProgramQuad(at) || (InUse(log, at) && op != EraseSector(at / SECTOR_SIZE))
  {
    var longer := log + [op];
    if InUse(longer, at) && op != ProgramQuad(at) {
      var i :| 0 <= i < |longer| && longer[i] == ProgramQuad(at) &&
               forall m :: i < m < |longer| ==> longer[m] != EraseSector(at / SECTOR_SIZE);
      assert longer[|log|] == op;
      assert forall m :: i < m < |log| ==> log[m] == longer[m];
      assert log[i] == ProgramQuad(at);
    }
  }

  lemma NoDoubleProgramAppend(log: seq<FlashOp>, op: FlashOp)
    requires NoDoubleProgram(log)
    requires op.ProgramQuad? ==> !InUse(log, op.at)
    ensures NoDoubleProgram(log + [op])
  {
    var longer := log + [op];
    forall i, j | 0 <= i < j < |longer| && longer[i].ProgramQuad? && longer[j] == longer[i]
      ensures exists m :: i < m < j && longer[m] == EraseSector(longer[i].at / SECTOR_SIZE)
    {
      if j < |log| {
        assert log[i] == longer[i] && log[j] == longer[j];
        var m :| i < m < j && log[m] == EraseSector(log[i].at / SECTOR_SIZE);
        assert longer[m] == log[m];
      } else {
        assert log[i] == ProgramQuad(op.at);
        var m :| i < m < |log| && log[m] == EraseSector(op.at / SECTOR_SIZE);
        assert longer[m] == log[m];
      }
    }
  }

  /** The part of the application region the current attempt may still program is unused. */
  ghost predicate Fresh(s: Sys) {
    && NoDoubleProgram(s.log)
    && (s.phase.Erasing? ==> forall at :: APP <= at < s.phase.sector * SECTOR_SIZE ==> !InUse(s.log, at))
    && (s.phase.Copying? ==> forall at :: APP + s.phase.offset <= at < CONFIG ==> !InUse(s.log, at))
  }

  lemma FreshStep(s: Sys, e: Event)
    requires Fresh(s)
    ensures Fresh(Step(s, e))
  {
    hide Write, Inspect, Requested, QuadAt, NoDoubleProgram, InUse;
    var t := Step(s, e);
    match s.phase
    case Erasing(n, _) =>
      var op := EraseSector(n);
      NoDoubleProgramAppend(s.log, op);
      forall at | APP <= at < (n + 1) * SECTOR_SIZE
        ensures !InUse(t.log, at)
      {
        InUseAppend(s.log, op, at);
        assert at >= n * SECTOR_SIZE ==> at / SECTOR_SIZE == n;
      }
    case Copying(offset, _) =>
      var op := ProgramQuad(APP + offset);
      NoDoubleProgramAppend(s.log, op);
      forall at | APP + offset < at < CONFIG
        ensures !InUse(t.log, at)
      {
        InUseAppend(s.log, op, at);
      }
    case _ =>
  }

  lemma {:induction false} FreshRun(s: Sys, events: seq<Event>)
    requires Fresh(s)
    ensures Fresh(Run(s, events))
    decreases |events|
  {
    hide Fresh, Step;
    if events != [] {
      FreshStep(s, events[0]);
      FreshRun(Step(s, events[0]), events[1..]);
    }
  }

  /** Over any run of boots from a fresh log, every second programming follows an erase. */
  lemma NeverProgramsTwice(s0: Sys, events: seq<Event>)
    requires s0.phase.Start? && NoDoubleProgram(s0.log)
    ensures NoDoubleProgram(Run(s0, events).log)
  {
    FreshRun(s0, events);
  }
}
