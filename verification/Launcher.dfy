/**
 The launcher's file-system steps, with a crash possible between any two of them.

 A release archive is transferred beside its destination and renamed into place, checked
 against the cached SHA256SUMS, unpacked into a staging directory and renamed into place.
 Transfers, hashing and tar are given: their results are choices of the run, and `hash` is any
 function.
 */
module Launcher {
  import opened Common

  type Content = string
  type Hash = Content -> string

  /** A directory unpacked from an archive; `data` is what the server keeps in its data directory. */
  datatype Dir = Dir(from: Content, complete: bool, server: bool, data: Option<string>)

  /** A payload directory and the staging directory beside it. */
  datatype Slot = Slot(staging: Option<Dir>, payload: Option<Dir>)

  /** The cache. SHA256SUMS is held as its entry for this artifact, if it has one. */
  datatype Disk = Disk(
    tarball: Option<Content>,
    tarballPartial: Option<Content>,
    sums: Option<Option<string>>,
    sumsPartial: Option<Option<string>>,
    release: Slot,
    local: Slot)

  const EMPTY := Disk(None, None, None, None, Slot(None, None), Slot(None, None))

  /** The command line: a local archive or none, a pinned digest or none, and --verify-cache. */
  datatype Args = Args(archive: Option<Content>, archiveSha256: Option<string>, verifyCache: bool)

  datatype Target = Release | Local

  /** Where the process is. Each state is one step of the file system or one decision. */
  datatype Pc =
    | Down                       // no process
    | Choosing(args: Args)
    | FetchTarball(attempt: nat)
    | RenameTarball
    | NeedSums
    | FetchSums(attempt: nat)
    | RenameSums
    | Checking
    | RemoveTarball
    | RemoveStaging(target: Target, archive: Content)
    | Extracting(target: Target, archive: Content)
    | PreserveRm(target: Target)
    | PreserveMv(target: Target)
    | RemovePayload(target: Target)
    | RenameStaging(target: Target)
    | LastCheck(target: Target)
    | Serving(target: Target)
    | Failed

  /** The machine, and what completed transfers brought so far: archives, and entries of SHA256SUMS. */
  datatype Machine = Machine(disk: Disk, pc: Pc, transferred: set<Content>, listed: set<Option<string>>)

  datatype Choice =
    | Proceed
    | Received(part: Content)       // some of the body is on disk
    | Completed(body: Content)      // the transfer finished
    | CompletedSums(entry: Option<string>)
    | Broken                        // a failure a retry may cure
    | Definitive                    // a 404 or another 4xx
    | Unpacked(server: bool)
    | Unpacking(dir: Dir)           // tar is under way
    | TarFailed
    | ProvenanceRejected
    | ServerWrites(data: string)

  datatype Event = Start(args: Args) | Crash | Go(choice: Choice)

  const ATTEMPTS: nat := 3

  function SlotOf(d: Disk, t: Target): Slot {
    if t == Release then d.release else d.local
  }

  function WithSlot(d: Disk, t: Target, s: Slot): Disk {
    if t == Release then d.(release := s) else d.(local := s)
  }

  predicate HasServer(dir: Option<Dir>) {
    dir.Some? && dir.value.server
  }

  predicate HasData(dir: Option<Dir>) {
    dir.Some? && dir.value.data.Some?
  }

  predicate Enabled(m: Machine, event: Event) {
    match event
    case Start(_) => m.pc == Down || m.pc == Failed
    case Crash => m.pc != Down
    case Go(choice) =>
      match m.pc
      case FetchTarball(_) => choice.Received? || choice.Completed? || choice == Broken || choice == Definitive
      case FetchSums(_) => choice.Received? || choice.CompletedSums? || choice == Broken || choice == Definitive
      case Extracting(_, _) => choice.Unpacked? || choice.Unpacking? || choice == TarFailed
      case Checking => choice == Proceed || choice == ProvenanceRejected
      case Serving(_) => choice.ServerWrites?
      case Down => false
      case Failed => false
      case _ => choice == Proceed
  }

  function Step(hash: Hash, m: Machine, event: Event): Machine
    requires Enabled(m, event)
  {
    match event
    case Start(args) => m.(pc := Choosing(args))
    case Crash => m.(pc := Down)
    case Go(choice) => Gone(hash, m, choice)
  }

  function Gone(hash: Hash, m: Machine, choice: Choice): Machine {
    var d := m.disk;
    match m.pc
    case Choosing(args) =>
      if args.archive.Some? then
        if args.archiveSha256.Some? && hash(args.archive.value) != args.archiveSha256.value then m.(pc := Failed)
        else m.(pc := RemoveStaging(Local, args.archive.value))
      else if args.archiveSha256.Some? then m.(pc := Failed)
      else if !args.verifyCache && HasServer(d.release.payload) then m.(pc := LastCheck(Release))
      else m.(pc := if d.tarball.Some? then NeedSums else FetchTarball(1))
    case FetchTarball(attempt) =>
      (match choice
       case Received(part) => m.(disk := d.(tarballPartial := Some(part)))
       case Completed(body) =>
         m.(disk := d.(tarballPartial := Some(body)), pc := RenameTarball, transferred := m.transferred + {body})
       case _ => m.(disk := d.(tarballPartial := None),
                    pc := if choice == Definitive || attempt >= ATTEMPTS then Failed else FetchTarball(attempt + 1)))
    case RenameTarball => m.(disk := d.(tarball := d.tarballPartial, tarballPartial := None), pc := NeedSums)
    case NeedSums => m.(pc := if d.sums.Some? then Checking else FetchSums(1))
    case FetchSums(attempt) =>
      (match choice
       case Received(_) => m.(disk := d.(sumsPartial := Some(None)))
       case CompletedSums(entry) =>
         m.(disk := d.(sumsPartial := Some(entry)), pc := RenameSums, listed := m.listed + {entry})
       case _ => m.(disk := d.(sumsPartial := None),
                    pc := if choice == Definitive || attempt >= ATTEMPTS then Failed else FetchSums(attempt + 1)))
    case RenameSums => m.(disk := d.(sums := d.sumsPartial, sumsPartial := None), pc := Checking)
    case Checking =>
      if d.tarball.None? || d.sums.None? || d.sums.value.None? then m.(pc := Failed)
      else if hash(d.tarball.value) != d.sums.value.value then m.(pc := RemoveTarball)
      else if choice == ProvenanceRejected then m.(pc := Failed)
      else m.(pc := RemoveStaging(Release, d.tarball.value))
    case RemoveTarball => m.(disk := d.(tarball := None), pc := Failed)
    case RemoveStaging(t, archive) =>
      m.(disk := WithSlot(d, t, SlotOf(d, t).(staging := None)), pc := Extracting(t, archive))
    case Extracting(t, archive) =>
      (match choice
       case Unpacked(server) =>
         var dir := Dir(archive, true, server, Some(""));
         m.(disk := WithSlot(d, t, SlotOf(d, t).(staging := Some(dir))), pc := PreserveRm(t))
       case Unpacking(dir) =>
         m.(disk := WithSlot(d, t, SlotOf(d, t).(staging := Some(dir.(from := archive, complete := false)))))
       case _ => m.(pc := Failed))
    case PreserveRm(t) =>
      var s := SlotOf(d, t);
      if HasData(s.payload) && s.staging.Some? then
        m.(disk := WithSlot(d, t, s.(staging := Some(s.staging.value.(data := None)))), pc := PreserveMv(t))
      else m.(pc := RemovePayload(t))
    case PreserveMv(t) =>
      var s := SlotOf(d, t);
      if s.payload.Some? && s.staging.Some? then
        m.(disk := WithSlot(d, t, Slot(Some(s.staging.value.(data := s.payload.value.data)),
                                       Some(s.payload.value.(data := None)))),
           pc := RemovePayload(t))
      else m.(pc := Failed)
    case RemovePayload(t) => m.(disk := WithSlot(d, t, SlotOf(d, t).(payload := None)), pc := RenameStaging(t))
    case RenameStaging(t) => m.(disk := WithSlot(d, t, Slot(None, SlotOf(d, t).staging)), pc := LastCheck(t))
    case LastCheck(t) => m.(pc := if HasServer(SlotOf(d, t).payload) then Serving(t) else Failed)
    case Serving(t) =>
      var s := SlotOf(d, t);
      if choice.ServerWrites? && s.payload.Some? then
        m.(disk := WithSlot(d, t, s.(payload := Some(s.payload.value.(data := Some(choice.data))))))
      else m
    case Down => m
    case Failed => m
  }

  /** How far a step of a run without retries is from its end. */
  function Rank(pc: Pc): nat {
    match pc
    case Choosing(_) => 13
    case FetchTarball(_) => 12
    case RenameTarball => 11
    case NeedSums => 10
    case FetchSums(_) => 9
    case RenameSums => 8
    case Checking => 7
    case RemoveTarball => 1
    case RemoveStaging(_, _) => 6
    case Extracting(_, _) => 5
    case PreserveRm(_) => 4
    case PreserveMv(_) => 3
    case RemovePayload(_) => 2
    case RenameStaging(_) => 2
    case LastCheck(_) => 1
    case _ => 0
  }

  // ---------------------------------------------------------------- the launcher's own code

  datatype Destination = ArchivePath | SumsPath

  function AfterFetch(to: Destination): Pc {
    if to == ArchivePath then NeedSums else Checking
  }

  /** How one attempt at a download can go. */
  predicate AttemptOf(to: Destination, choice: Choice) {
    || choice == Broken || choice == Definitive
    || (if to == ArchivePath then choice.Completed? else choice.CompletedSums?)
  }

  /** The steps from an attempt on, each attempt going as `attempts` says, to the rename or the refusal. */
  function Fetched(hash: Hash, m: Machine, attempts: seq<Choice>): Machine
    decreases |attempts|
  {
    if m.pc.RenameTarball? || m.pc.RenameSums? then Gone(hash, m, Proceed)
    else if attempts == [] || !(m.pc.FetchTarball? || m.pc.FetchSums?) then m
    else Fetched(hash, Gone(hash, m, attempts[0]), attempts[1..])
  }

  /** The steps of unpacking: tar has `left` in the staging directory when it ends as `tar` says. */
  function Extracted(hash: Hash, m: Machine, left: Dir, tar: Choice): Machine
    requires tar.Unpacked? || tar == TarFailed
    decreases Rank(m.pc), if m.pc.RemovePayload? then 1 else 0
  {
    match m.pc
    case Extracting(_, _) => Extracted(hash, Gone(hash, Gone(hash, m, Unpacking(left)), tar), left, tar)
    case RemoveStaging(_, _) => Extracted(hash, Gone(hash, m, Proceed), left, tar)
    case PreserveRm(_) => Extracted(hash, Gone(hash, m, Proceed), left, tar)
    case PreserveMv(_) => Extracted(hash, Gone(hash, m, Proceed), left, tar)
    case RemovePayload(_) => Extracted(hash, Gone(hash, m, Proceed), left, tar)
    case RenameStaging(_) => Extracted(hash, Gone(hash, m, Proceed), left, tar)
    case _ => m
  }

  /** What an undisturbed unpacking leaves in the payload directory. */
  function Replaced(slot: Slot, archive: Content, server: bool): Slot {
    Slot(None, Some(Dir(archive, true, server, if HasData(slot.payload) then slot.payload.value.data else Some(""))))
  }

  function Attempting(to: Destination, attempt: nat): Pc {
    if to == ArchivePath then FetchTarball(attempt) else FetchSums(attempt)
  }

  /** What one attempt does to the disk. */
  function Attempted(to: Destination, d: Disk, outcome: Choice): Disk {
    if outcome.Completed? then d.(tarball := Some(outcome.body), tarballPartial := None)
    else if outcome.CompletedSums? then d.(sums := Some(outcome.entry), sumsPartial := None)
    else if to == ArchivePath then d.(tarballPartial := None)
    else d.(sumsPartial := None)
  }

  predicate Succeeds(outcome: Choice) {
    outcome.Completed? || outcome.CompletedSums?
  }

  predicate LastAttempt(outcome: Choice, attempt: nat) {
    Succeeds(outcome) || outcome == Definitive || attempt >= ATTEMPTS
  }

  function Brought(transferred: set<Content>, outcome: Choice): set<Content> {
    if outcome.Completed? then transferred + {outcome.body} else transferred
  }

  function Noted(listed: set<Option<string>>, outcome: Choice): set<Option<string>> {
    if outcome.CompletedSums? then listed + {outcome.entry} else listed
  }

  function AfterAttempt(to: Destination, outcome: Choice, attempt: nat): Pc {
    if Succeeds(outcome) then AfterFetch(to)
    else if LastAttempt(outcome, attempt) then Failed
    else Attempting(to, attempt + 1)
  }

  /** What an attempt leaves, its rename included. */
  function MachineAfter(m: Machine, to: Destination, attempt: nat, outcome: Choice): Machine {
    Machine(Attempted(to, m.disk, outcome), AfterAttempt(to, outcome, attempt),
            Brought(m.transferred, outcome), Noted(m.listed, outcome))
  }

  lemma GoneFails(hash: Hash, m: Machine, to: Destination, attempt: nat, outcome: Choice)
    requires m.pc == Attempting(to, attempt) && AttemptOf(to, outcome) && !Succeeds(outcome)
    ensures Gone(hash, m, outcome) == MachineAfter(m, to, attempt, outcome)
  {
  }

  lemma GoneSucceeds(hash: Hash, m: Machine, to: Destination, attempt: nat, outcome: Choice)
    requires m.pc == Attempting(to, attempt) && AttemptOf(to, outcome) && Succeeds(outcome)
    ensures var next := Gone(hash, m, outcome);
            && (next.pc.RenameTarball? || next.pc.RenameSums?)
            && Gone(hash, next, Proceed) == MachineAfter(m, to, attempt, outcome)
  {
  }

  lemma FetchedStep(hash: Hash, m: Machine, to: Destination, attempt: nat, outcomes: seq<Choice>)
    requires m.pc == Attempting(to, attempt) && outcomes != [] && AttemptOf(to, outcomes[0])
    ensures var next := MachineAfter(m, to, attempt, outcomes[0]);
            Fetched(hash, m, outcomes)
            == if LastAttempt(outcomes[0], attempt) then next else Fetched(hash, next, outcomes[1..])
  {
    hide Gone;
    hide Attempted;
    hide Brought;
    hide Noted;
    hide AttemptOf;
    assert Fetched(hash, m, outcomes) == Fetched(hash, Gone(hash, m, outcomes[0]), outcomes[1..]);
    if Succeeds(outcomes[0]) {
      GoneSucceeds(hash, m, to, attempt, outcomes[0]);
    } else {
      GoneFails(hash, m, to, attempt, outcomes[0]);
    }
  }

  lemma AttemptedAgain(to: Destination, d: Disk, outcome: Choice, attempt: nat)
    requires AttemptOf(to, outcome)
    ensures Attempted(to, Attempted(to, d, Broken), outcome) == Attempted(to, d, outcome)
    ensures !LastAttempt(outcome, attempt) ==> outcome == Broken
  {
  }

  lemma ExtractedEnds(hash: Hash, m: Machine, t: Target, archive: Content, left: Dir, tar: Choice)
    requires m.pc == RemoveStaging(t, archive) && (tar.Unpacked? || tar == TarFailed)
    ensures var slot := SlotOf(m.disk, t);
            Extracted(hash, m, left, tar)
            == if tar.Unpacked? then
                 m.(pc := LastCheck(t), disk := WithSlot(m.disk, t, Replaced(slot, archive, tar.server)))
               else
                 var cut := Some(left.(from := archive, complete := false));
                 m.(pc := Failed, disk := WithSlot(m.disk, t, slot.(staging := cut)))
  {
    var m1 := Gone(hash, m, Proceed);
    var m2 := Gone(hash, Gone(hash, m1, Unpacking(left)), tar);
    if tar.Unpacked? {
      var m3 := Gone(hash, m2, Proceed);
      if HasData(SlotOf(m.disk, t).payload) {
        ExtractedFromRemove(hash, Gone(hash, m3, Proceed), t, left, tar);
      } else {
        ExtractedFromRemove(hash, m3, t, left, tar);
      }
      assert Extracted(hash, m2, left, tar) == Extracted(hash, m3, left, tar);
    } else {
      assert Extracted(hash, m2, left, tar) == m2;
    }
    assert Extracted(hash, m1, left, tar) == Extracted(hash, m2, left, tar);
  }

  lemma ExtractedFromRemove(hash: Hash, m: Machine, t: Target, left: Dir, tar: Choice)
    requires m.pc == RemovePayload(t) && (tar.Unpacked? || tar == TarFailed)
    ensures Extracted(hash, m, left, tar)
         == m.(pc := LastCheck(t), disk := WithSlot(m.disk, t, Slot(None, SlotOf(m.disk, t).staging)))
  {
    var m1 := Gone(hash, m, Proceed);
    var m2 := Gone(hash, m1, Proceed);
    assert Extracted(hash, m2, left, tar) == m2;
    assert Extracted(hash, m1, left, tar) == m2;
  }

  class Cache {
    var disk: Disk
    ghost var transferred: set<Content>
    ghost var listed: set<Option<string>>

    ghost function At(pc: Pc): Machine
      reads this
    {
      Machine(disk, pc, transferred, listed)
    }

    constructor (found: Disk)
      ensures disk == found && transferred == {} && listed == {}
    {
      disk, transferred, listed := found, {}, {};
    }

    /** `downloadOnce`: the body beside the destination, then renamed; what is beside it removed. */
    method Attempt(to: Destination, outcome: Choice)
      requires AttemptOf(to, outcome)
      modifies this
      ensures disk == Attempted(to, old(disk), outcome)
      ensures transferred == Brought(old(transferred), outcome)
      ensures listed == Noted(old(listed), outcome)
    {
      if outcome.Completed? {
        disk, transferred := disk.(tarballPartial := Some(outcome.body)), transferred + {outcome.body};
        disk := disk.(tarball := disk.tarballPartial);
      }
      if outcome.CompletedSums? {
        disk, listed := disk.(sumsPartial := Some(outcome.entry)), listed + {outcome.entry};
        disk := disk.(sums := disk.sumsPartial);
      }
      disk := if to == ArchivePath then disk.(tarballPartial := None) else disk.(sumsPartial := None);
    }

    /**
     The retry loop of `download`, on how its attempts happen to go: at most three, none after
     a definitive answer, and something new at the destination only if one completed.
     */
    method Download(ghost hash: Hash, to: Destination, outcomes: seq<Choice>) returns (ok: bool, attempts: nat)
      requires |outcomes| >= ATTEMPTS && forall c <- outcomes :: AttemptOf(to, c)
      modifies this
      ensures 1 <= attempts <= 3
      ensures forall k :: 0 <= k < attempts - 1 ==> outcomes[k] == Broken
      ensures ok <==> Succeeds(outcomes[attempts - 1])
      ensures !ok ==> outcomes[attempts - 1] == Definitive || attempts == 3
      ensures disk == Attempted(to, old(disk), outcomes[attempts - 1])
      ensures At(if ok then AfterFetch(to) else Failed) == Fetched(hash, old(At(Attempting(to, 1))), outcomes)
    {
      hide Fetched;
      hide Attempted;
      hide Attempting;
      hide AttemptOf;
      hide AfterFetch;
      hide Brought;
      hide Noted;
      hide Gone;
      assert outcomes[0..] == outcomes;
      attempts := 1;
      while true
        invariant 1 <= attempts <= ATTEMPTS
        invariant forall k :: 0 <= k < attempts - 1 ==> outcomes[k] == Broken
        invariant disk == old(disk) || disk == Attempted(to, old(disk), Broken)
        invariant Fetched(hash, old(At(Attempting(to, 1))), outcomes)
               == Fetched(hash, At(Attempting(to, attempts)), outcomes[attempts - 1..])
        decreases ATTEMPTS - attempts
      {
        var outcome := outcomes[attempts - 1];
        assert outcomes[attempts - 1..][1..] == outcomes[attempts..];
        FetchedStep(hash, At(Attempting(to, attempts)), to, attempts, outcomes[attempts - 1..]);
        AttemptedAgain(to, old(disk), outcome, attempts);
        Attempt(to, outcome);
        ok := Succeeds(outcome);
        if LastAttempt(outcome, attempts) {
          return ok, attempts;
        }
        attempts := attempts + 1;
      }
    }

    /** `extract`: the archive's payload in place of the old one, its data kept; nothing of it if tar fails. */
    method Extract(ghost hash: Hash, archive: Content, t: Target, left: Dir, tar: Choice) returns (ok: bool)
      requires tar.Unpacked? || tar == TarFailed
      modifies this`disk
      ensures ok <==> tar.Unpacked?
      ensures At(if ok then LastCheck(t) else Failed) == Extracted(hash, old(At(RemoveStaging(t, archive))), left, tar)
      ensures ok ==> SlotOf(disk, t) == Replaced(SlotOf(old(disk), t), archive, tar.server)
      ensures !ok ==> SlotOf(disk, t).payload == SlotOf(old(disk), t).payload
      ensures disk == WithSlot(old(disk), t, SlotOf(disk, t))
    {
      hide Extracted;
      ExtractedEnds(hash, At(RemoveStaging(t, archive)), t, archive, left, tar);
      var slot := SlotOf(disk, t).(staging := None);
      slot := slot.(staging := Some(left.(from := archive, complete := false)));
      if tar == TarFailed {
        disk := WithSlot(disk, t, slot);
        return false;
      }
      slot := slot.(staging := Some(Dir(archive, true, tar.server, Some(""))));
      if HasData(slot.payload) {
        slot := slot.(staging := Some(slot.staging.value.(data := None)));
        slot := Slot(Some(slot.staging.value.(data := slot.payload.value.data)),
                     Some(slot.payload.value.(data := None)));
      }
      slot := slot.(payload := None);
      slot := Slot(None, slot.staging);
      disk := WithSlot(disk, t, slot);
      return true;
    }
  }

  // ---------------------------------------------------------------- whole runs

  predicate Possible(hash: Hash, m: Machine, events: seq<Event>)
    decreases |events|
  {
    events == [] || (Enabled(m, events[0]) && Possible(hash, Step(hash, m, events[0]), events[1..]))
  }

  function After(hash: Hash, m: Machine, events: seq<Event>): Machine
    requires Possible(hash, m, events)
    decreases |events|
  {
    if events == [] then m else After(hash, Step(hash, m, events[0]), events[1..])
  }

  const INSTALLED := Machine(EMPTY, Down, {}, {})

  /** The archive a directory came from hashes to its entry in the cached SHA256SUMS. */
  predicate Verified(hash: Hash, d: Disk, from: Content) {
    d.sums.Some? && d.sums.value == Some(hash(from))
  }

  ghost predicate Inv(hash: Hash, m: Machine) {
    DiskHolds(hash, m) && StepHolds(hash, m)
  }

  ghost predicate DiskHolds(hash: Hash, m: Machine) {
    var d := m.disk;
    && (d.tarball.Some? ==> d.tarball.value in m.transferred)
    && (d.sums.Some? ==> d.sums.value in m.listed)
    && (d.release.payload.Some? ==>
          && d.release.payload.value.complete
          && d.release.payload.value.from in m.transferred
          && Verified(hash, d, d.release.payload.value.from))
    && (d.local.payload.Some? ==> d.local.payload.value.complete)
  }

  /** What the launcher knows at the step it has come to. */
  ghost predicate StepHolds(hash: Hash, m: Machine) {
    var d := m.disk;
    match m.pc
    case RenameTarball => d.tarballPartial.Some? && d.tarballPartial.value in m.transferred
    case NeedSums => d.tarball.Some?
    case FetchSums(_) => d.sums.None? && d.tarball.Some? && d.release.payload.None?
    case RenameSums =>
      && d.sumsPartial.Some? && d.sumsPartial.value in m.listed
      && d.sums.None? && d.tarball.Some? && d.release.payload.None?
    case Checking => d.sums.Some? && d.tarball.Some?
    case RemoveStaging(Release, archive) => archive in m.transferred && Verified(hash, d, archive)
    case Extracting(Release, archive) => archive in m.transferred && Verified(hash, d, archive)
    case PreserveRm(t) => StagingReady(hash, m, t)
    case PreserveMv(t) => StagingReady(hash, m, t) && HasData(SlotOf(d, t).payload)
    case RemovePayload(t) => StagingReady(hash, m, t) && !HasData(SlotOf(d, t).payload)
    case RenameStaging(t) => StagingReady(hash, m, t) && SlotOf(d, t).payload.None?
    case _ => true
  }

  predicate StagingReady(hash: Hash, m: Machine, t: Target) {
    var s := SlotOf(m.disk, t).staging;
    && s.Some? && s.value.complete
    && (t == Release ==> s.value.from in m.transferred && Verified(hash, m.disk, s.value.from))
  }

  lemma StepKeepsInv(hash: Hash, m: Machine, event: Event)
    requires Inv(hash, m) && Enabled(m, event)
    ensures Inv(hash, Step(hash, m, event))
  {
    if event.Go? {
      if Downloading(m.pc) {
        DownloadKeepsInv(hash, m, event.choice);
      } else if Staging(m.pc) {
        StagingKeepsInv(hash, m, event.choice);
      } else {
        SwapKeepsInv(hash, m, event.choice);
      }
    }
  }

  predicate Downloading(pc: Pc) {
    || pc.Choosing? || pc.FetchTarball? || pc.RenameTarball? || pc.NeedSums?
    || pc.FetchSums? || pc.RenameSums? || pc.Checking? || pc.RemoveTarball?
  }

  predicate Staging(pc: Pc) {
    pc.RemoveStaging? || pc.Extracting? || pc.PreserveRm? || pc.PreserveMv?
  }

  lemma DownloadKeepsInv(hash: Hash, m: Machine, choice: Choice)
    requires Inv(hash, m) && Downloading(m.pc)
    ensures Inv(hash, Gone(hash, m, choice))
  {
  }

  lemma StagingKeepsInv(hash: Hash, m: Machine, choice: Choice)
    requires Inv(hash, m) && Staging(m.pc)
    ensures Inv(hash, Gone(hash, m, choice))
  {
  }

  lemma SwapKeepsInv(hash: Hash, m: Machine, choice: Choice)
    requires Inv(hash, m) && !Downloading(m.pc) && !Staging(m.pc)
    ensures Inv(hash, Gone(hash, m, choice))
  {
  }

  lemma {:induction false} RunKeepsInv(hash: Hash, m: Machine, events: seq<Event>)
    requires Inv(hash, m) && Possible(hash, m, events)
    ensures Inv(hash, After(hash, m, events))
    decreases |events|
  {
    if events != [] {
      StepKeepsInv(hash, m, events[0]);
      RunKeepsInv(hash, Step(hash, m, events[0]), events[1..]);
    }
  }

  /**
   Main result. Over every run of starts, crashes and steps: whatever is in the release
   payload directory was unpacked whole from an archive whose transfer completed and whose
   hash is the one SHA256SUMS has for it, and whatever is at the place of the archive or of
   SHA256SUMS is a completed transfer.
   */
  lemma PayloadIsVerified(hash: Hash, events: seq<Event>)
    requires Possible(hash, INSTALLED, events)
    ensures var m := After(hash, INSTALLED, events);
            && (m.disk.tarball.Some? ==> m.disk.tarball.value in m.transferred)
            && (m.disk.sums.Some? ==> m.disk.sums.value in m.listed)
            && (m.disk.release.payload.Some? ==>
                  var p := m.disk.release.payload.value;
                  p.complete && p.from in m.transferred && Verified(hash, m.disk, p.from))
  {
    RunKeepsInv(hash, INSTALLED, events);
  }

  /**
   A mismatch deletes the archive and nothing else, and the next run that prepares the payload
   starts by downloading it.
   */
  lemma MismatchDownloadsAgain(hash: Hash, m: Machine, choice: Choice, args: Args)
    requires Inv(hash, m) && m.pc == Checking && Enabled(m, Go(choice))
    requires m.disk.sums.value.Some? && !Verified(hash, m.disk, m.disk.tarball.value)
    requires args.archive.None? && args.archiveSha256.None?
    requires args.verifyCache || !HasServer(m.disk.release.payload)
    ensures var removing := Step(hash, m, Go(choice));
            && Enabled(removing, Go(Proceed)) && var refused := Step(hash, removing, Go(Proceed));
            && refused.pc == Failed && refused.disk == m.disk.(tarball := None)
            && Step(hash, Step(hash, refused, Start(args)), Go(Proceed)).pc == FetchTarball(1)
  {
  }

  // ---------------------------------------------------------------- running to the end

  /** How an undisturbed run goes: transfers complete with `body` and `entry`, tar and provenance succeed. */
  function Good(pc: Pc, body: Content, entry: Option<string>): Choice {
    match pc
    case FetchTarball(_) => Completed(body)
    case FetchSums(_) => CompletedSums(entry)
    case Extracting(_, _) => Unpacked(true)
    case _ => Proceed
  }

  /** The rest of an undisturbed run, until it serves or refuses. */
  function Finished(hash: Hash, m: Machine, body: Content, entry: Option<string>): Machine
    decreases Rank(m.pc), if m.pc.RemovePayload? then 1 else 0
  {
    if Rank(m.pc) == 0 then m else Finished(hash, Gone(hash, m, Good(m.pc, body, entry)), body, entry)
  }

  lemma FromRemovePayload(hash: Hash, m: Machine, body: Content, entry: Option<string>, t: Target)
    requires m.pc == RemovePayload(t) && HasServer(SlotOf(m.disk, t).staging)
    ensures Finished(hash, m, body, entry)
         == m.(pc := Serving(t), disk := WithSlot(m.disk, t, Slot(None, SlotOf(m.disk, t).staging)))
  {
    var m1 := Gone(hash, m, Proceed);
    var m2 := Gone(hash, m1, Proceed);
    var m3 := Gone(hash, m2, Proceed);
    assert m3.pc == Serving(t);
    assert Finished(hash, m3, body, entry) == m3;
    assert Finished(hash, m2, body, entry) == m3;
    assert Finished(hash, m1, body, entry) == m3;
  }

  lemma FromRemoveStaging(hash: Hash, m: Machine, body: Content, entry: Option<string>, t: Target, archive: Content)
    requires m.pc == RemoveStaging(t, archive)
    ensures Finished(hash, m, body, entry)
         == m.(pc := Serving(t), disk := WithSlot(m.disk, t, Replaced(SlotOf(m.disk, t), archive, true)))
  {
    var m1 := Gone(hash, m, Proceed);
    var m2 := Gone(hash, m1, Unpacked(true));
    var m3 := Gone(hash, m2, Proceed);
    if HasData(SlotOf(m.disk, t).payload) {
      var m4 := Gone(hash, m3, Proceed);
      FromRemovePayload(hash, m4, body, entry, t);
      assert Finished(hash, m3, body, entry) == Finished(hash, m4, body, entry);
    } else {
      FromRemovePayload(hash, m3, body, entry, t);
    }
    assert Finished(hash, m2, body, entry) == Finished(hash, m3, body, entry);
    assert Finished(hash, m1, body, entry) == Finished(hash, m2, body, entry);
  }

  /** The check decides: it unpacks a verified archive, or deletes the archive and refuses. */
  lemma FromChecking(hash: Hash, m: Machine, body: Content, entry: Option<string>)
    requires m.pc == Checking && m.disk.tarball.Some? && m.disk.sums.Some? && m.disk.sums.value.Some?
    ensures var archive, end := m.disk.tarball.value, Finished(hash, m, body, entry);
            if Verified(hash, m.disk, archive)
            then end == m.(pc := Serving(Release), disk := m.disk.(release := Replaced(m.disk.release, archive, true)))
            else end == m.(pc := Failed, disk := m.disk.(tarball := None))
  {
    var m1 := Gone(hash, m, Proceed);
    if Verified(hash, m.disk, m.disk.tarball.value) {
      FromRemoveStaging(hash, m1, body, entry, Release, m.disk.tarball.value);
    } else {
      var m2 := Gone(hash, m1, Proceed);
      assert Finished(hash, m1, body, entry) == m2;
    }
  }

  lemma FromNeedSums(hash: Hash, m: Machine, body: Content, entry: Option<string>)
    requires m.pc == NeedSums && m.disk.tarball.Some? && entry.Some?
    requires m.disk.sums.Some? ==> m.disk.sums == Some(entry)
    ensures var archive, end := m.disk.tarball.value, Finished(hash, m, body, entry);
            if entry.value == hash(archive)
            then end.pc == Serving(Release) && end.disk.release == Replaced(m.disk.release, archive, true)
            else end.pc == Failed && end.disk.tarball == None && end.disk.sums == Some(entry)
                 && end.disk.release == m.disk.release
  {
    var m1 := Gone(hash, m, Proceed);
    if m.disk.sums.Some? {
      FromChecking(hash, m1, body, entry);
    } else {
      var m2 := Gone(hash, m1, CompletedSums(entry));
      var m3 := Gone(hash, m2, Proceed);
      FromChecking(hash, m3, body, entry);
      assert Finished(hash, m2, body, entry) == Finished(hash, m3, body, entry);
      assert Finished(hash, m1, body, entry) == Finished(hash, m2, body, entry);
    }
  }

  /** A run of the launcher from a crash or a refusal, asked to prepare the release payload. */
  function Run(hash: Hash, m: Machine, verifyCache: bool, body: Content, entry: Option<string>): Machine {
    Finished(hash, m.(pc := Choosing(Args(None, None, verifyCache))), body, entry)
  }

  lemma RunPrepares(hash: Hash, m: Machine, verifyCache: bool, body: Content, entry: Option<string>)
    requires entry.Some? && (m.disk.sums.Some? ==> m.disk.sums == Some(entry))
    requires verifyCache || !HasServer(m.disk.release.payload)
    ensures var archive := if m.disk.tarball.Some? then m.disk.tarball.value else body;
            var end := Run(hash, m, verifyCache, body, entry);
            if entry.value == hash(archive)
            then end.pc == Serving(Release) && end.disk.release == Replaced(m.disk.release, archive, true)
            else end.pc == Failed && end.disk.tarball == None && end.disk.sums == Some(entry)
                 && end.disk.release == m.disk.release
  {
    var m0 := m.(pc := Choosing(Args(None, None, verifyCache)));
    var m1 := Gone(hash, m0, Proceed);
    if m.disk.tarball.Some? {
      FromNeedSums(hash, m1, body, entry);
    } else {
      var m2 := Gone(hash, m1, Completed(body));
      var m3 := Gone(hash, m2, Proceed);
      FromNeedSums(hash, m3, body, entry);
      assert Finished(hash, m2, body, entry) == Finished(hash, m3, body, entry);
      assert Finished(hash, m1, body, entry) == Finished(hash, m2, body, entry);
    }
    assert Finished(hash, m0, body, entry) == Finished(hash, m1, body, entry);
  }

  lemma RunServesCached(hash: Hash, m: Machine, body: Content, entry: Option<string>)
    requires HasServer(m.disk.release.payload)
    ensures Run(hash, m, false, body, entry) == m.(pc := Serving(Release))
  {
    var m0 := m.(pc := Choosing(Args(None, None, false)));
    var m1 := Gone(hash, m0, Proceed);
    var m2 := Gone(hash, m1, Proceed);
    assert Finished(hash, m2, body, entry) == m2;
    assert Finished(hash, m1, body, entry) == m2;
  }

  /** One more run, with or without --verify-cache, when the served archive is that of SHA256SUMS. */
  lemma RunRecovers(hash: Hash, m: Machine, verifyCache: bool, body: Content)
    requires Inv(hash, m) && (m.disk.sums.Some? ==> Verified(hash, m.disk, body))
    ensures var end := Run(hash, m, verifyCache, body, Some(hash(body)));
            var cached := !verifyCache && HasServer(m.disk.release.payload);
            if cached || m.disk.tarball.None? || hash(m.disk.tarball.value) == hash(body)
            then end.pc == Serving(Release) && end.disk.release.payload.Some?
                 && hash(end.disk.release.payload.value.from) == hash(body)
            else end.pc == Failed && end.disk.tarball == None && end.disk.sums == Some(Some(hash(body)))
                 && end.disk.release == m.disk.release
  {
    hide Finished;
    hide Run;
    if !verifyCache && HasServer(m.disk.release.payload) {
      RunServesCached(hash, m, body, Some(hash(body)));
    } else {
      RunPrepares(hash, m, verifyCache, body, Some(hash(body)));
    }
  }

  /** And the run after a refusal: the archive is gone, so it serves. */
  lemma RunRecoversNext(hash: Hash, m: Machine, verifyCache: bool, body: Content)
    requires m.disk.tarball.None? && m.disk.sums == Some(Some(hash(body)))
    requires m.disk.release.payload.Some? ==> hash(m.disk.release.payload.value.from) == hash(body)
    ensures var end := Run(hash, m, verifyCache, body, Some(hash(body)));
            end.pc == Serving(Release) && end.disk.release.payload.Some?
            && hash(end.disk.release.payload.value.from) == hash(body)
  {
    hide Finished;
    hide Run;
    if !verifyCache && HasServer(m.disk.release.payload) {
      RunServesCached(hash, m, body, Some(hash(body)));
    } else {
      RunPrepares(hash, m, verifyCache, body, Some(hash(body)));
    }
  }

  /**
   Recovery. Wherever a run was cut off, and whatever archive was left in the cache, two
   undisturbed runs are enough to serve a verified payload, each with or without
   --verify-cache, provided the served archive is the one SHA256SUMS describes and no other
   SHA256SUMS is cached. One is enough exactly if it may serve the payload it finds, or the
   archive in the cache, if any, is that one too.
   */
  lemma RecoversInTwoRuns(hash: Hash, events: seq<Event>, body: Content, first: bool, second: bool)
    requires Possible(hash, INSTALLED, events)
    requires var d := After(hash, INSTALLED, events).disk; d.sums.Some? ==> Verified(hash, d, body)
    ensures var m := After(hash, INSTALLED, events);
            var once := Run(hash, m, first, body, Some(hash(body)));
            var twice := Run(hash, once, second, body, Some(hash(body)));
            && (once.pc == Serving(Release) <==>
                  || (!first && HasServer(m.disk.release.payload))
                  || m.disk.tarball.None? || hash(m.disk.tarball.value) == hash(body))
            && var end := if once.pc == Serving(Release) then once else twice;
               end.pc == Serving(Release) && end.disk.release.payload.Some?
               && hash(end.disk.release.payload.value.from) == hash(body)
  {
    hide Run;
    RunKeepsInv(hash, INSTALLED, events);
    var m := After(hash, INSTALLED, events);
    RunRecovers(hash, m, first, body);
    var once := Run(hash, m, first, body, Some(hash(body)));
    if once.pc != Serving(Release) {
      RunRecoversNext(hash, once, second, body);
    }
  }

  // ---------------------------------------------------------------- what was asked for

  /** The command line of the last start, read off the events; `args` is from before them. */
  function LastAsked(args: Args, events: seq<Event>): Args
    decreases |events|
  {
    if events == [] then args
    else LastAsked(if events[0].Start? then events[0].args else args, events[1..])
  }

  /** A local archive with no digest or the right one, or no archive and no digest. */
  predicate AsksFor(hash: Hash, args: Args, t: Target) {
    if t == Release then args.archive.None? && args.archiveSha256.None?
    else args.archive.Some? && (args.archiveSha256.Some? ==> args.archiveSha256.value == hash(args.archive.value))
  }

  predicate ComesFrom(dir: Option<Dir>, archive: Option<Content>) {
    dir.Some? && archive.Some? && dir.value.from == archive.value
  }

  /** What the process does is what it was started for. */
  predicate AsStarted(hash: Hash, m: Machine, args: Args) {
    match m.pc
    case Down => true
    case Failed => true
    case Choosing(a) => a == args
    case RemoveStaging(t, archive) => AsksFor(hash, args, t) && (t == Local ==> args.archive == Some(archive))
    case Extracting(t, archive) => AsksFor(hash, args, t) && (t == Local ==> args.archive == Some(archive))
    case PreserveRm(t) => AsksFor(hash, args, t) && (t == Local ==> ComesFrom(m.disk.local.staging, args.archive))
    case PreserveMv(t) => AsksFor(hash, args, t) && (t == Local ==> ComesFrom(m.disk.local.staging, args.archive))
    case RemovePayload(t) => AsksFor(hash, args, t) && (t == Local ==> ComesFrom(m.disk.local.staging, args.archive))
    case RenameStaging(t) => AsksFor(hash, args, t) && (t == Local ==> ComesFrom(m.disk.local.staging, args.archive))
    case LastCheck(t) => AsksFor(hash, args, t) && (t == Local ==> ComesFrom(m.disk.local.payload, args.archive))
    case Serving(t) =>
      && AsksFor(hash, args, t) && HasServer(SlotOf(m.disk, t).payload)
      && (t == Local ==> ComesFrom(m.disk.local.payload, args.archive))
    case _ => AsksFor(hash, args, Release)
  }

  lemma DownloadIsAsStarted(hash: Hash, m: Machine, choice: Choice, args: Args)
    requires AsStarted(hash, m, args) && Downloading(m.pc)
    ensures AsStarted(hash, Gone(hash, m, choice), args)
    ensures Gone(hash, m, choice).disk.local == m.disk.local
  {
  }

  lemma SwapIsAsStarted(hash: Hash, m: Machine, choice: Choice, args: Args)
    requires AsStarted(hash, m, args) && !Downloading(m.pc) && Enabled(m, Go(choice))
    ensures AsStarted(hash, Gone(hash, m, choice), args)
    ensures Gone(hash, m, choice).disk.local.payload == m.disk.local.payload
            || AsksFor(hash, args, Local)
  {
  }

  lemma StepIsAsStarted(hash: Hash, m: Machine, event: Event, args: Args)
    requires AsStarted(hash, m, args) && Enabled(m, event)
    ensures AsStarted(hash, Step(hash, m, event), if event.Start? then event.args else args)
    ensures Step(hash, m, event).disk.local.payload == m.disk.local.payload || AsksFor(hash, args, Local)
  {
    hide Gone;
    if event.Go? {
      if Downloading(m.pc) {
        DownloadIsAsStarted(hash, m, event.choice, args);
      } else {
        SwapIsAsStarted(hash, m, event.choice, args);
      }
    }
  }

  lemma {:induction false} RunIsAsStarted(hash: Hash, m: Machine, events: seq<Event>, args: Args)
    requires AsStarted(hash, m, args) && Possible(hash, m, events)
    ensures AsStarted(hash, After(hash, m, events), LastAsked(args, events))
    decreases |events|
  {
    hide Step;
    hide AsStarted;
    hide Enabled;
    if events != [] {
      StepIsAsStarted(hash, m, events[0], args);
      var now := if events[0].Start? then events[0].args else args;
      RunIsAsStarted(hash, Step(hash, m, events[0]), events[1..], now);
    }
  }

  /**
   Main result about the command line. Over every run of starts, crashes and steps, with the last
   start read off the events: a server runs from the local payload only if an archive was given,
   its digest, if pinned, is the archive's, and the payload was unpacked from that archive; it
   runs from the release payload only if neither was given; and no step touches the local
   payload directory but under such a start. Nothing is served without a server in it.
   */
  lemma ServesWhatWasAsked(hash: Hash, events: seq<Event>, next: Event)
    requires Possible(hash, INSTALLED, events) && Enabled(After(hash, INSTALLED, events), next)
    ensures var m := After(hash, INSTALLED, events);
            var args := LastAsked(Args(None, None, false), events);
            var digestHolds := args.archive.Some? && args.archiveSha256.Some? ==>
                                 hash(args.archive.value) == args.archiveSha256.value;
            && (m.pc == Serving(Local) ==>
                  && args.archive.Some? && digestHolds
                  && m.disk.local.payload.Some? && m.disk.local.payload.value.complete
                  && m.disk.local.payload.value.from == args.archive.value && m.disk.local.payload.value.server)
            && (m.pc == Serving(Release) ==>
                  && args.archive.None? && args.archiveSha256.None?
                  && m.disk.release.payload.Some? && m.disk.release.payload.value.server)
            && (Step(hash, m, next).disk.local.payload != m.disk.local.payload ==> args.archive.Some? && digestHolds)
  {
    var args := Args(None, None, false);
    RunIsAsStarted(hash, INSTALLED, events, args);
    RunKeepsInv(hash, INSTALLED, events);
    StepIsAsStarted(hash, After(hash, INSTALLED, events), next, LastAsked(args, events));
    hide Gone;
  }

  /** A wrong digest, or one without an archive, is refused at once, with nothing on the disk touched. */
  lemma WrongDigestIsRefused(hash: Hash, m: Machine, args: Args)
    requires Enabled(m, Start(args)) && args.archiveSha256.Some?
    requires args.archive.Some? ==> hash(args.archive.value) != args.archiveSha256.value
    ensures var refused := Step(hash, Step(hash, m, Start(args)), Go(Proceed));
            refused == m.(pc := Failed)
  {
  }

  /** An undisturbed run with an archive serves it, in place of any other, exactly if the digest allows it. */
  lemma LocalRunIff(hash: Hash, m: Machine, args: Args, body: Content, entry: Option<string>)
    requires args.archive.Some?
    ensures var end := Finished(hash, m.(pc := Choosing(args)), body, entry);
            end == if args.archiveSha256.None? || args.archiveSha256.value == hash(args.archive.value)
                   then m.(pc := Serving(Local),
                           disk := m.disk.(local := Replaced(m.disk.local, args.archive.value, true)))
                   else m.(pc := Failed)
  {
    var m0 := m.(pc := Choosing(args));
    var m1 := Gone(hash, m0, Proceed);
    if args.archiveSha256.None? || args.archiveSha256.value == hash(args.archive.value) {
      FromRemoveStaging(hash, m1, body, entry, Local, args.archive.value);
    }
    assert Finished(hash, m0, body, entry) == Finished(hash, m1, body, entry);
  }

  /** The check unpacks the archive exactly if it is verified and its provenance is not rejected. */
  lemma CheckingIff(hash: Hash, m: Machine, choice: Choice)
    requires m.pc == Checking && Enabled(m, Go(choice)) && m.disk.tarball.Some?
    ensures var next, archive := Step(hash, m, Go(choice)), m.disk.tarball.value;
            && next.disk == m.disk
            && (next.pc == RemoveStaging(Release, archive) <==>
                  Verified(hash, m.disk, archive) && choice != ProvenanceRejected)
            && (next.pc == RemoveTarball <==>
                  m.disk.sums.Some? && m.disk.sums.value.Some? && !Verified(hash, m.disk, archive))
            && (next.pc == RemoveStaging(Release, archive) || next.pc == RemoveTarball || next.pc == Failed)
  {
  }

  // ---------------------------------------------------------------- the server's data

  /** The data the server wrote: where it is, the staging directory counting only once moved there. */
  predicate KeepsData(m: Machine, data: string) {
    || (m.disk.release.payload.Some? && m.disk.release.payload.value.data == Some(data))
    || ((m.pc == RemovePayload(Release) || m.pc == RenameStaging(Release))
        && m.disk.release.staging.Some? && m.disk.release.staging.value.data == Some(data))
  }

  /**
   An unpacking run keeps the server's data at every step: it is in the payload directory, or
   on its way in the staging directory.
   */
  lemma NoStepLosesData(hash: Hash, m: Machine, choice: Choice, data: string)
    requires Inv(hash, m) && KeepsData(m, data) && Enabled(m, Go(choice)) && !choice.ServerWrites?
    ensures KeepsData(Step(hash, m, Go(choice)), data)
  {
  }

  /** What the server writes is then what is kept, and the write is all that changes. */
  lemma WritesAreKept(hash: Hash, m: Machine, data: string)
    requires m.pc == Serving(Release) && m.disk.release.payload.Some?
    ensures var written := Step(hash, m, Go(ServerWrites(data)));
            && KeepsData(written, data)
            && var payload := m.disk.release.payload.value.(data := Some(data));
               written == m.(disk := m.disk.(release := m.disk.release.(payload := Some(payload))))
  {
  }

  /**
   A crash loses it exactly when it comes between the two renames: a next undisturbed run,
   with or without --verify-cache, serves the data again if and only if the payload directory
   held it when the run was cut off.
   */
  lemma CrashKeepsDataIff(hash: Hash, events: seq<Event>, verifyCache: bool, body: Content, data: string)
    requires Possible(hash, INSTALLED, events) && KeepsData(After(hash, INSTALLED, events), data) && data != ""
    requires var m := After(hash, INSTALLED, events);
             && m.pc != Down
             && Verified(hash, m.disk, body) && (m.disk.tarball.Some? ==> Verified(hash, m.disk, m.disk.tarball.value))
    ensures var m := After(hash, INSTALLED, events);
            var end := Run(hash, Step(hash, m, Crash), verifyCache, body, m.disk.sums.value);
            && end.pc == Serving(Release) && end.disk.release.payload.Some?
            && (end.disk.release.payload.value.data == Some(data)
                <==> m.disk.release.payload.Some? && m.disk.release.payload.value.data == Some(data))
  {
    RunKeepsInv(hash, INSTALLED, events);
    var m := After(hash, INSTALLED, events);
    if !verifyCache && HasServer(m.disk.release.payload) {
      RunServesCached(hash, Step(hash, m, Crash), body, m.disk.sums.value);
    } else {
      RunPrepares(hash, Step(hash, m, Crash), verifyCache, body, m.disk.sums.value);
    }
  }

  /**
   The window is real: a machine in it, and what a crash there leaves. An ordinary rerun serves
   the payload without its data; a preparing one starts an empty data directory, and the
   staging directory that held the data is gone.
   */
  lemma DataLostBetweenTheRenames(hash: Hash, archive: Content, data: string, verifyCache: bool)
    requires data != ""
    ensures var d := EMPTY.(tarball := Some(archive), sums := Some(Some(hash(archive))),
                            release := Slot(Some(Dir(archive, true, true, None)),
                                            Some(Dir(archive, true, true, Some(data)))));
            var m := Machine(d, PreserveMv(Release), {archive}, {Some(hash(archive))});
            && Inv(hash, m) && KeepsData(m, data)
            && var moved := Step(hash, m, Go(Proceed));
               KeepsData(moved, data)
               && var end := Run(hash, Step(hash, moved, Crash), verifyCache, archive, Some(hash(archive)));
                  end.pc == Serving(Release) && end.disk.release.payload.Some?
                  && end.disk.release.payload.value.data == (if verifyCache then Some("") else None)
                  && (verifyCache ==> end.disk.release.staging == None)
  {
    var d := EMPTY.(tarball := Some(archive), sums := Some(Some(hash(archive))),
                    release := Slot(Some(Dir(archive, true, true, None)), Some(Dir(archive, true, true, Some(data)))));
    var moved := Step(hash, Machine(d, PreserveMv(Release), {archive}, {Some(hash(archive))}), Go(Proceed));
    var crashed := Step(hash, moved, Crash);
    if verifyCache {
      RunPrepares(hash, crashed, true, archive, Some(hash(archive)));
    } else {
      RunServesCached(hash, crashed, archive, Some(hash(archive)));
    }
  }
}
