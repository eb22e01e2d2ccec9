/**
 * The update protocol of src/main.c as a state machine. One run covers any number of boots: an
 * event says how the next hardware step ends, and a warm reset may cut the run at every step.
 */
module OtaMachine {
  import opened Words
  import opened Folds
  import opened Crc32
  import opened Image

  // ----- state ------------------------------------------------------------------------------

  const SIGNATURE: bv32 := 0x1B241671

  /** The mailbox words the boot loader looks at; they survive a warm reset. */
  datatype Mailbox = Mailbox(signature: bv32, flags: bv32, bootCounter: bv32)

  predicate Requested(mbx: Mailbox) {
    mbx.signature == SIGNATURE && mbx.flags & 1 != 0
  }

  /** A request is the signature word together with an odd flags word. */
  lemma RequestedIff(signature: bv32, flags: bv32, bootCounter: bv32)
    ensures Requested(Mailbox(signature, flags, bootCounter)) <==> signature == 0x1B241671 && flags % 2 == 1
  {
    assert flags & 1 == flags % 2;
  }

  function SetFlag(flags: bv32, mask: bv32): bv32 {
    flags | mask
  }

  function ClearFlag(flags: bv32, mask: bv32): bv32 {
    flags & !mask
  }

  function ClearRequest(mbx: Mailbox): Mailbox {
    mbx.(flags := ClearFlag(mbx.flags, 1))
  }

  /** The four mailbox writes after a successful copy, one at a time. */
  function Mark(mbx: Mailbox, step: nat): Mailbox {
    if step == 0 then ClearRequest(mbx)
    else if step == 1 then mbx.(flags := SetFlag(mbx.flags, 2))
    else if step == 2 then mbx.(flags := ClearFlag(mbx.flags, 4))
    else mbx.(bootCounter := mbx.bootCounter + 1)
  }

  /** Where the boot loader stands within one boot. */
  datatype Phase =
    | Start
    | Erasing(sector: nat, job: Job)
    | Copying(offset: nat, job: Job)
    | Verifying(job: Job)
    | Marking(step: nat)
    | Dropping
    | Booted

  /** Every flash operation that was begun, whether or not it completed. */
  datatype FlashOp = EraseSector(sector: nat) | ProgramQuad(at: nat)

  datatype System = System(flash: seq<bv8>, mbx: Mailbox, phase: Phase, log: seq<FlashOp>)

  /**
   * How a step ends. A fault (the HAL reports an error) or a reset in the middle of a flash
   * operation leaves the touched sector or quad-word holding arbitrary bytes.
   */
  datatype Event = Done | Fault(junk: seq<bv8>) | Reset(junk: seq<bv8>)

  predicate WellFormed(s: System) {
    && |s.flash| == FLASH_SIZE
    && (s.phase.Erasing? ==> APP_START_SECTOR <= s.phase.sector < APP_START_SECTOR + APP_NUM_SECTORS)
    && (s.phase.Copying? ==> s.phase.offset < s.phase.job.size && s.phase.offset % QUAD_WORD == 0)
    && (s.phase.Erasing? || s.phase.Copying? || s.phase.Verifying? ==> 0 < s.phase.job.size <= MAX_PAYLOAD)
    && (s.phase.Marking? ==> s.phase.step < 4)
  }

  // ----- flash ---------------------------------------------------------------------------------

  function Overwrite(flash: seq<bv8>, at: nat, data: seq<bv8>): (r: seq<bv8>)
    requires at + |data| <= |flash|
    ensures |r| == |flash|
    ensures forall k :: 0 <= k < |flash| ==> r[k] == if at <= k < at + |data| then data[k - at] else flash[k]
  {
    flash[..at] + data + flash[at + |data|..]
  }

  /** The bytes an interrupted operation leaves where it meant to put `wanted`. */
  function Torn(before: seq<bv8>, junk: seq<bv8>): (r: seq<bv8>)
    ensures |r| == |before|
  {
    if |junk| == |before| then junk else before
  }

  /** A flash operation on one sector or quad-word under an event. */
  function Write(flash: seq<bv8>, at: nat, data: seq<bv8>, e: Event): (r: seq<bv8>)
    requires at + |data| <= |flash|
    ensures |r| == |flash|
  {
    Overwrite(flash, at, if e.Done? then data else Torn(flash[at..at + |data|], e.junk))
  }

  /** The sixteen bytes programmed at an offset: payload, padded with 0xFF at the end. */
  function QuadAt(payload: seq<bv8>, offset: nat): (q: seq<bv8>)
    requires offset < |payload|
    ensures |q| == QUAD_WORD
    ensures forall k :: 0 <= k < QUAD_WORD ==>
      q[k] == if offset + k < |payload| then payload[offset + k] else 0xFF
  {
    if offset + QUAD_WORD <= |payload| then payload[offset..offset + QUAD_WORD]
    else payload[offset..] + Repeat(0xFF, QUAD_WORD - (|payload| - offset))
  }

  // ----- one step ---------------------------------------------------------------------------------

  /** Everything a step does to the state when it is not cut by a reset. */
  function Act(s: System, e: Event): (t: System)
    requires WellFormed(s) && !e.Reset?
    ensures WellFormed(t)
  {
    match s.phase
    case Start =>
      if !Requested(s.mbx) then s.(phase := Booted)
      else
        (match Inspect(s.flash[BANK2..])
         case None => s.(phase := Dropping)
         case Some(job) => s.(phase := Erasing(APP_START_SECTOR, job)))
    case Erasing(n, job) =>
      var t := s.(flash := Write(s.flash, n * SECTOR_SIZE, Repeat(0xFF, SECTOR_SIZE), e),
                  log := s.log + [EraseSector(n)]);
      if !e.Done? then t.(phase := Dropping)
      else if n + 1 < APP_START_SECTOR + APP_NUM_SECTORS then t.(phase := Erasing(n + 1, job))
      else t.(phase := Copying(0, job))
    case Copying(offset, job) =>
      var quad := QuadAt(Payload(s.flash[BANK2..], job.size), offset);
      var t := s.(flash := Write(s.flash, APP + offset, quad, e), log := s.log + [ProgramQuad(APP + offset)]);
      if !e.Done? then t.(phase := Dropping)
      else if offset + QUAD_WORD < job.size then t.(phase := Copying(offset + QUAD_WORD, job))
      else t.(phase := Verifying(job))
    case Verifying(job) =>
      if Crc(s.flash[APP..APP + job.size]) == job.crc then s.(phase := Marking(0)) else s.(phase := Dropping)
    case Marking(k) =>
      s.(mbx := Mark(s.mbx, k), phase := if k < 3 then Marking(k + 1) else Booted)
    case Dropping =>
      s.(mbx := ClearRequest(s.mbx), phase := Booted)
    case Booted => s
  }

  /** What a reset in this phase leaves in flash. */
  function Cut(s: System, e: Event): (t: System)
    requires WellFormed(s) && e.Reset?
    ensures WellFormed(t)
  {
    match s.phase
    case Erasing(n, _) =>
      s.(flash := Write(s.flash, n * SECTOR_SIZE, Repeat(0xFF, SECTOR_SIZE), e),
         log := s.log + [EraseSector(n)], phase := Start)
    case Copying(offset, job) =>
      var quad := QuadAt(Payload(s.flash[BANK2..], job.size), offset);
      s.(flash := Write(s.flash, APP + offset, quad, e),
         log := s.log + [ProgramQuad(APP + offset)], phase := Start)
    case _ => s.(phase := Start)
  }

  type Sys = s: System | WellFormed(s)
    witness System(Repeat(0, FLASH_SIZE), Mailbox(0, 0, 0), Start, [])

  function Step(s: Sys, e: Event): Sys {
    if e.Reset? then Cut(s, e) else Act(s, e)
  }

  function Run(s: Sys, events: seq<Event>): Sys {
    Fold(Step, s, events)
  }

  // ----- what every step keeps ---------------------------------------------------------------------

  /** Only the application region may differ. */
  predicate SameOutsideApp(f0: seq<bv8>, f: seq<bv8>)
    requires |f0| == |f| == FLASH_SIZE
  {
    forall k :: 0 <= k < FLASH_SIZE && !(APP <= k < CONFIG) ==> f[k] == f0[k]
  }

  predicate ErasedBelow(flash: seq<bv8>, sector: nat)
    requires |flash| == FLASH_SIZE
  {
    forall k :: APP <= k < CONFIG && k < sector * SECTOR_SIZE ==> flash[k] == 0xFF
  }

  /** The first n payload bytes are in place and the rest of the application region is blank. */
  predicate Copied(flash: seq<bv8>, payload: seq<bv8>, n: nat)
    requires |flash| == FLASH_SIZE && |payload| <= MAX_PAYLOAD
  {
    forall k :: APP <= k < CONFIG ==>
      flash[k] == if k - APP < n && k - APP < |payload| then payload[k - APP] else 0xFF
  }

  /** The application region is exactly the payload followed by blank flash. */
  predicate Installed(flash: seq<bv8>, payload: seq<bv8>)
    requires |flash| == FLASH_SIZE && |payload| <= MAX_PAYLOAD
  {
    Copied(flash, payload, MAX_PAYLOAD)
  }

  lemma InstalledMeans(flash: seq<bv8>, payload: seq<bv8>)
    requires |flash| == FLASH_SIZE && |payload| <= MAX_PAYLOAD
    ensures Installed(flash, payload) <==>
      flash[APP..CONFIG] == payload + Repeat(0xFF, MAX_PAYLOAD - |payload|)
  {
    var r := payload + Repeat(0xFF, MAX_PAYLOAD - |payload|);
    if Installed(flash, payload) {
      assert flash[APP..CONFIG] == r;
    }
    if flash[APP..CONFIG] == r {
      forall k | APP <= k < CONFIG
        ensures flash[k] == r[k - APP]
      {
        assert flash[k] == flash[APP..CONFIG][k - APP];
      }
    }
  }
}
