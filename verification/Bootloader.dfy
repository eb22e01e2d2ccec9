/**
 * handleOtaUpdate and the mailbox part of main, run on a board whose flash cells, mailbox words
 * and hardware outcomes are explicit. Each method is shown to take exactly the machine's steps.
 */
module Bootloader {
  import opened Words
  import opened Folds
  import opened Crc32
  import opened Image
  import opened OtaMachine
  import opened OtaSafety

  datatype HalStatus = HalOk | HalError | PowerLost

  /** What handleOtaUpdate reports: 0, -1, or nothing because a reset cut it short. */
  datatype Outcome = Success | Failure | Interrupted

  function PhaseAfter(result: Outcome): Phase {
    match result
    case Success => Marking(0)
    case Failure => Dropping
    case Interrupted => Start
  }

  /** The outcomes of hardware steps from..to. */
  function Trace(outcome: nat -> Event, from: nat, to: nat): (t: seq<Event>)
    requires from <= to
    ensures |t| == to - from
  {
    seq(to - from, i requires 0 <= i < to - from => outcome(from + i))
  }

  lemma RunNothing(s: Sys, outcome: nat -> Event, from: nat)
    ensures Run(s, Trace(outcome, from, from)) == s
  {
  }

  lemma RunOn(s: Sys, outcome: nat -> Event, from: nat, to: nat)
    requires from <= to
    ensures Run(s, Trace(outcome, from, to + 1)) == Step(Run(s, Trace(outcome, from, to)), outcome(to))
  {
    hide Step;
    var t := Trace(outcome, from, to);
    assert Trace(outcome, from, to + 1) == t + [outcome(to)];
    FoldAppend(Step, s, t, [outcome(to)]);
    FoldOne(Step, Run(s, t), outcome(to));
  }

  class Board {
    const flash: array<bv8>
    var signature: bv32
    var flags: bv32
    var bootCounter: bv32
    /** How the n-th hardware step ends. */
    const outcome: nat -> Event
    var clock: nat
    ghost var log: seq<FlashOp>

    constructor (flash: array<bv8>, mbx: Mailbox, outcome: nat -> Event)
      ensures this.flash == flash && this.outcome == outcome && clock == 0
      ensures At(Start) == System(flash[..], mbx, Start, [])
    {
      this.flash, this.outcome, clock, log := flash, outcome, 0, [];
      signature, flags, bootCounter := mbx.signature, mbx.flags, mbx.bootCounter;
    }

    ghost predicate Valid() {
      flash.Length == FLASH_SIZE
    }

    ghost function At(phase: Phase): System
      reads this, flash
    {
      System(flash[..], Mailbox(signature, flags, bootCounter), phase, log)
    }

    method NextEvent() returns (e: Event)
      modifies `clock
      ensures e == outcome(old(clock)) && clock == old(clock) + 1
    {
      e := outcome(clock);
      clock := clock + 1;
    }

    /** One erase or program operation of the flash controller. */
    method Operate(at: nat, data: seq<bv8>, ghost op: FlashOp) returns (st: HalStatus)
      requires Valid() && at + |data| <= FLASH_SIZE
      modifies `clock, `log, flash
      ensures clock == old(clock) + 1 && log == old(log) + [op]
      ensures flash[..] == Write(old(flash[..]), at, data, outcome(old(clock)))
      ensures st == match outcome(old(clock)) case Done => HalOk case Fault(_) => HalError case Reset(_) => PowerLost
    {
      var e := NextEvent();
      log := log + [op];
      var left := if e.Done? then data else Torn(flash[at..at + |data|], e.junk);
      forall k | 0 <= k < |data| {
        flash[at + k] := left[k];
      }
      assert old(flash[..])[at..at + |data|] == old(flash[at..at + |data|]);
      st := match e case Done => HalOk case Fault(_) => HalError case Reset(_) => PowerLost;
    }

    /** One sector of HAL_FLASHEx_Erase. */
    method EraseSector(sector: nat, ghost job: Job) returns (st: HalStatus)
      requires Valid() && 0 < job.size <= MAX_PAYLOAD
      requires APP_START_SECTOR <= sector < APP_START_SECTOR + APP_NUM_SECTORS
      modifies `clock, `log, flash
      ensures clock == old(clock) + 1
      ensures Step(old(At(Erasing(sector, job))), outcome(old(clock))) == At(
        match st
        case HalOk => if sector + 1 < APP_START_SECTOR + APP_NUM_SECTORS then Erasing(sector + 1, job) else Copying(0, job)
        case HalError => Dropping
        case PowerLost => Start)
    {
      hide Write, Repeat;
      st := Operate(sector * SECTOR_SIZE, Repeat(0xFF, SECTOR_SIZE), FlashOp.EraseSector(sector));
    }

    /** EraseSector as the next step of a run that began at time c0. */
    method EraseNext(sector: nat, ghost job: Job, ghost s0: Sys, ghost c0: nat) returns (st: HalStatus)
      requires Valid() && 0 < job.size <= MAX_PAYLOAD && c0 <= clock
      requires APP_START_SECTOR <= sector < APP_START_SECTOR + APP_NUM_SECTORS
      requires Run(s0, Trace(outcome, c0, clock)) == At(Erasing(sector, job))
      modifies `clock, `log, flash
      ensures c0 <= clock
      ensures Run(s0, Trace(outcome, c0, clock)) == At(
        match st
        case HalOk => if sector + 1 < APP_START_SECTOR + APP_NUM_SECTORS then Erasing(sector + 1, job) else Copying(0, job)
        case HalError => Dropping
        case PowerLost => Start)
    {
      hide Step, Run, Trace;
      RunOn(s0, outcome, c0, clock);
      st := EraseSector(sector, job);
    }

    /** HAL_FLASHEx_Erase over the application sectors. */
    method EraseApp(ghost job: Job) returns (st: HalStatus)
      requires Valid() && 0 < job.size <= MAX_PAYLOAD
      modifies `clock, `log, flash
      ensures clock >= old(clock)
      ensures Run(old(At(Erasing(APP_START_SECTOR, job))), Trace(outcome, old(clock), clock))
              == At(match st case HalOk => Copying(0, job) case HalError => Dropping case PowerLost => Start)
    {
      ghost var s0: Sys := At(Erasing(APP_START_SECTOR, job));
      hide Step, Run, Trace, WellFormed;
      RunNothing(s0, outcome, clock);
      var sector := APP_START_SECTOR;
      while sector < APP_START_SECTOR + APP_NUM_SECTORS
        invariant APP_START_SECTOR <= sector <= APP_START_SECTOR + APP_NUM_SECTORS
        invariant clock >= old(clock)
        invariant Run(s0, Trace(outcome, old(clock), clock)) ==
          At(if sector < APP_START_SECTOR + APP_NUM_SECTORS then Erasing(sector, job) else Copying(0, job))
      {
        st := EraseNext(sector, job, s0, old(clock));
        if st != HalOk {
          return;
        }
        sector := sector + 1;
      }
      st := HalOk;
    }

    /** memcpy and memset of the next quad-word. */
    method FillQuad(srcOffset: nat, remaining: nat, chunkSize: nat) returns (quadWord: array<bv8>)
      requires Valid() && 0 < remaining && srcOffset + remaining <= MAX_PAYLOAD
      requires chunkSize == if remaining >= QUAD_WORD then QUAD_WORD else remaining
      ensures fresh(quadWord)
      ensures quadWord[..] == QuadAt(Payload(flash[..][BANK2..], srcOffset + remaining), srcOffset)
    {
      quadWord := new bv8[QUAD_WORD];
      forall k | 0 <= k < chunkSize {
        quadWord[k] := flash[BANK2 + HEADER_SIZE + srcOffset + k];
      }
      if chunkSize < QUAD_WORD {
        forall k | chunkSize <= k < QUAD_WORD {
          quadWord[k] := 0xFF;
        }
      }
      ghost var payload := Payload(flash[..][BANK2..], srcOffset + remaining);
      ghost var quad := QuadAt(payload, srcOffset);
      hide Payload, QuadAt;
      forall k | 0 <= k < QUAD_WORD
        ensures quadWord[k] == quad[k]
      {
        if k < chunkSize {
          PayloadAt(flash[..], srcOffset + remaining, srcOffset + k);
        }
      }
    }

    /** HAL_FLASH_Program of one quad-word of the payload. */
    method ProgramChunk(srcOffset: nat, remaining: nat, dstAddr: nat, chunkSize: nat, ghost job: Job) returns (st: HalStatus)
      requires Valid() && 0 < remaining && srcOffset + remaining == job.size <= MAX_PAYLOAD
      requires srcOffset % QUAD_WORD == 0 && dstAddr == APP + srcOffset
      requires chunkSize == if remaining >= QUAD_WORD then QUAD_WORD else remaining
      modifies `clock, `log, flash
      ensures clock == old(clock) + 1
      ensures Step(old(At(Copying(srcOffset, job))), outcome(old(clock))) == At(
        match st
        case HalOk => if chunkSize < remaining then Copying(srcOffset + QUAD_WORD, job) else Verifying(job)
        case HalError => Dropping
        case PowerLost => Start)
    {
      hide Write, QuadAt, Payload;
      var quadWord := FillQuad(srcOffset, remaining, chunkSize);
      st := Operate(dstAddr, quadWord[..], ProgramQuad(dstAddr));
    }

    /** The copy loop of handleOtaUpdate. */
    method CopyPayload(job: Job) returns (st: HalStatus)
      requires Valid() && 0 < job.size <= MAX_PAYLOAD
      modifies `clock, `log, flash
      ensures clock >= old(clock)
      ensures Run(old(At(Copying(0, job))), Trace(outcome, old(clock), clock))
              == At(match st case HalOk => Verifying(job) case HalError => Dropping case PowerLost => Start)
    {
      ghost var s0: Sys := At(Copying(0, job));
      RunNothing(s0, outcome, clock);
      hide Step, Run, Trace;
      var dstAddr := APP;
      var remaining := job.size;
      var srcOffset := 0;
      while remaining > 0
        invariant srcOffset + remaining == job.size
        invariant remaining > 0 ==> srcOffset % QUAD_WORD == 0 && dstAddr == APP + srcOffset
        invariant clock >= old(clock)
        invariant Run(s0, Trace(outcome, old(clock), clock)) ==
          At(if remaining > 0 then Copying(srcOffset, job) else Verifying(job))
      {
        RunOn(s0, outcome, old(clock), clock);
        var chunkSize := if remaining >= QUAD_WORD then QUAD_WORD else remaining;
        st := ProgramChunk(srcOffset, remaining, dstAddr, chunkSize, job);
        if st != HalOk {
          return;
        }
        dstAddr := dstAddr + QUAD_WORD;
        srcOffset := srcOffset + chunkSize;
        remaining := remaining - chunkSize;
      }
      st := HalOk;
    }

    /** The last step of handleOtaUpdate: re-read the copy. */
    method VerifyCopy(job: Job) returns (result: Outcome)
      requires Valid() && 0 < job.size <= MAX_PAYLOAD
      modifies `clock
      ensures clock == old(clock) + 1
      ensures Step(old(At(Verifying(job))), outcome(old(clock))) == At(PhaseAfter(result))
    {
      hide Crc;
      var e := NextEvent();
      if e.Reset? {
        return Interrupted;
      }
      var verifyCrc := Crc32Calc(flash[APP..APP + job.size]);
      assert flash[APP..APP + job.size] == flash[..][APP..APP + job.size];
      if verifyCrc != job.crc {
        return Failure;
      }
      return Success;
    }

    /** The checks on Bank 2 before anything is erased. */
    method ValidateBank2() returns (r: Option<Job>)
      requires Valid()
      ensures r == Inspect(flash[..][BANK2..])
    {
      hide Crc, WordAt, FromLittleEndian;
      var hdr := flash[BANK2..];
      assert hdr == flash[..][BANK2..];
      var headerCrc := Crc32Calc(hdr[..60]);
      if headerCrc != WordAt(hdr, 60) {
        return None;
      }
      var payloadSize := FromLittleEndian(hdr[13..17]);
      if payloadSize == 0 || payloadSize > APP_NUM_SECTORS * SECTOR_SIZE {
        return None;
      }
      if hdr[8] != 0 {
        return None;
      }
      var storedCrc := WordAt(hdr, HEADER_SIZE + payloadSize);
      var payloadCrc := Crc32Calc(hdr[HEADER_SIZE..HEADER_SIZE + payloadSize]);
      if payloadCrc != storedCrc {
        return None;
      }
      return Some(Job(payloadSize, storedCrc));
    }

    lemma Joined(s: Sys, a: nat, b: nat, c: nat)
      requires a <= b <= c
      ensures Run(s, Trace(outcome, a, c)) == Run(Run(s, Trace(outcome, a, b)), Trace(outcome, b, c))
    {
      hide Step;
      assert Trace(outcome, a, c) == Trace(outcome, a, b) + Trace(outcome, b, c);
      FoldAppend(Step, s, Trace(outcome, a, b), Trace(outcome, b, c));
    }

    /** handleOtaUpdate, entered with a pending request. */
    method HandleOtaUpdate() returns (result: Outcome)
      requires Valid() && Requested(At(Start).mbx)
      modifies `clock, `log, flash
      ensures clock >= old(clock)
      ensures Run(Act(old(At(Start)), Done), Trace(outcome, old(clock), clock)) == At(PhaseAfter(result))
    {
      hide Inspect, Requested, Step, Run, Trace;
      ghost var s0 := Act(At(Start), Done);
      RunNothing(s0, outcome, clock);
      var found := ValidateBank2();
      if found == None {
        return Failure;
      }
      var job := found.value;
      ghost var c0 := clock;
      var st := EraseApp(job);
      if st == HalError {
        return Failure;
      } else if st == PowerLost {
        return Interrupted;
      }
      ghost var c1 := clock;
      st := CopyPayload(job);
      Joined(s0, c0, c1, clock);
      if st == HalError {
        return Failure;
      } else if st == PowerLost {
        return Interrupted;
      }
      RunOn(s0, outcome, c0, clock);
      result := VerifyCopy(job);
    }

    /** One mailbox write after success. */
    method MarkOnce(k: nat) returns (ok: bool)
      requires Valid() && k < 4
      modifies `clock, `flags, `bootCounter
      ensures clock == old(clock) + 1
      ensures Step(old(At(Marking(k))), outcome(old(clock)))
              == At(if !ok then Start else if k < 3 then Marking(k + 1) else Booted)
    {
      StepMarking(At(Marking(k)), outcome(clock));
      MarkCases(At(Start).mbx);
      hide Step, Mark, ClearFlag, SetFlag;
      var e := NextEvent();
      if e.Reset? {
        return false;
      }
      if k == 0 {
        flags := ClearFlag(flags, 1);
      } else if k == 1 {
        flags := SetFlag(flags, 2);
      } else if k == 2 {
        flags := ClearFlag(flags, 4);
      } else {
        bootCounter := bootCounter + 1;
      }
      return true;
    }

    /** The mailbox part of main: one boot, from power-up to the jump or to the next reset. */
    method Boot() returns (booted: bool)
      requires Valid()
      modifies `clock, `log, `flags, `bootCounter, flash
      ensures clock >= old(clock)
      ensures Run(old(At(Start)), Trace(outcome, old(clock), clock)) == At(if booted then Booted else Start)
    {
      hide Step, Run, Trace, Mark;
      ghost var s0: Sys, c0 := At(Start), clock;
      RunNothing(s0, outcome, c0);
      RunOn(s0, outcome, c0, clock);
      StepStart(s0, outcome(c0));
      var e := NextEvent();
      if e.Reset? {
        return false;
      }
      if !(signature == 0x1B241671 && flags & 1 != 0) {
        return true;
      }
      var result := HandleOtaUpdate();
      Joined(s0, c0, c0 + 1, clock);
      match result {
        case Interrupted => return false;
        case Failure =>
          RunOn(s0, outcome, c0, clock);
          booted := DropRequest();
        case Success =>
          for k := 0 to 4
            invariant clock >= c0
            invariant Run(s0, Trace(outcome, c0, clock)) == At(if k < 4 then Marking(k) else Booted)
          {
            RunOn(s0, outcome, c0, clock);
            var ok := MarkOnce(k);
            if !ok {
              return false;
            }
          }
          return true;
      }
    }

    /**
     * Any number of boots in a row. While the application runs the hardware step that matters is the
     * next reset, which starts the boot loader again. The events of all boots make up one run.
     */
    method PowerCycles(n: nat) returns (booted: bool)
      requires Valid()
      modifies `clock, `log, `flags, `bootCounter, flash
      ensures clock >= old(clock)
      ensures Run(old(At(Start)), Trace(outcome, old(clock), clock)) == At(if booted then Booted else Start)
      ensures SameOutsideApp(old(flash[..]), flash[..])
    {
      hide Step, Run, Trace, Mark, SameOutsideApp, Staged;
      ghost var s0: Sys, c0 := At(Start), clock;
      RunNothing(s0, outcome, c0);
      booted := false;
      for k := 0 to n
        invariant clock >= c0
        invariant Run(s0, Trace(outcome, c0, clock)) == At(if booted then Booted else Start)
      {
        ghost var c1 := clock;
        if booted {
          RunOn(s0, outcome, c0, clock);
          StepBooted(At(Booted), outcome(clock));
          var e := NextEvent();
          booted := !e.Reset?;
        } else {
          booted := Boot();
          Joined(s0, c0, c1, clock);
        }
      }
      OnlyAppRegionChanges(s0, Trace(outcome, c0, clock));
    }

    /** The mailbox write after a failure. */
    method DropRequest() returns (ok: bool)
      requires Valid()
      modifies `clock, `flags
      ensures clock == old(clock) + 1
      ensures Step(old(At(Dropping)), outcome(old(clock))) == At(if ok then Booted else Start)
    {
      hide ClearFlag;
      var e := NextEvent();
      if e.Reset? {
        return false;
      }
      flags := ClearFlag(flags, 1);
      return true;
    }
  }

  lemma PayloadAt(flash: seq<bv8>, size: nat, k: nat)
    requires |flash| == FLASH_SIZE && size <= MAX_PAYLOAD && k < size
    ensures Payload(flash[BANK2..], size)[k] == flash[BANK2 + HEADER_SIZE + k]
  {
    LayoutFits();
  }

  lemma StepStart(s: Sys, e: Event)
    requires s.phase.Start?
    ensures Step(s, e) ==
      if e.Reset? then s else if Requested(s.mbx) then Act(s, Done) else s.(phase := Booted)
  {
    hide Requested, Inspect;
  }

  lemma StepBooted(s: Sys, e: Event)
    requires s.phase.Booted?
    ensures Step(s, e) == if e.Reset? then s.(phase := Start) else s
  {
  }

  lemma StepMarking(s: Sys, e: Event)
    requires s.phase.Marking?
    ensures Step(s, e) ==
      if e.Reset? then s.(phase := Start)
      else s.(mbx := Mark(s.mbx, s.phase.step), phase := if s.phase.step < 3 then Marking(s.phase.step + 1) else Booted)
  {
    hide Mark;
  }

  lemma MarkCases(m: Mailbox)
    ensures Mark(m, 0) == Mailbox(m.signature, ClearFlag(m.flags, 1), m.bootCounter)
    ensures Mark(m, 1) == Mailbox(m.signature, SetFlag(m.flags, 2), m.bootCounter)
    ensures Mark(m, 2) == Mailbox(m.signature, ClearFlag(m.flags, 4), m.bootCounter)
    ensures Mark(m, 3) == Mailbox(m.signature, m.flags, m.bootCounter + 1)
  {
    hide ClearFlag, SetFlag;
  }
}
