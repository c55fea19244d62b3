/**
 The durable state of one Contributor installation and what every crash point must leave behind.

 A program directory holds exactly one file, the Node executable, so one `Content` names both the directory
 and that executable. Contents stand for SHA-256 digests: equal contents are equal files, and two generations
 may share a content.
 */
module ContributorDisk {
  import opened Common

  type Content = nat

  /** `Broken` is a directory that exists without the complete files of any bundle. */
  datatype Slot = Absent | Broken | Whole(content: Content)

  datatype Half = Program | Config
  datatype Position = Current | Previous | Next

  datatype Dirs = Dirs(current: Slot, previous: Slot, next: Slot)

  /** The fields of the installation record that differ between generations. */
  datatype Record = Record(deployment: nat, generation: nat, manifest: nat, program: Content, config: Content)

  /** The update marker carries the record of the generation being replaced. */
  datatype Disk = Disk(program: Dirs, config: Dirs, management: Content, record: Record, marker: Option<Record>)

  function At(d: Disk, half: Half, position: Position): Slot {
    var dirs := if half.Program? then d.program else d.config;
    match position
    case Current => dirs.current
    case Previous => dirs.previous
    case Next => dirs.next
  }

  function With(d: Disk, half: Half, position: Position, slot: Slot): Disk {
    var dirs := if half.Program? then d.program else d.config;
    var changed :=
      match position
      case Current => dirs.(current := slot)
      case Previous => dirs.(previous := slot)
      case Next => dirs.(next := slot);
    if half.Program? then d.(program := changed) else d.(config := changed)
  }

  /** `directoryPresent`: a broken directory is present. */
  predicate Present(d: Disk, half: Half, position: Position) {
    At(d, half, position) != Absent
  }

  predicate Paired(d: Disk, position: Position) {
    Present(d, Program, position) == Present(d, Config, position)
  }

  /** `verifyInstalled` over a chosen pair of directories. */
  predicate Verifies(program: Slot, config: Slot, record: Record) {
    program == Whole(record.program) && config == Whole(record.config)
  }

  predicate Installed(d: Disk) {
    Verifies(d.program.current, d.config.current, d.record)
  }

  /** The generation counter is a uint64. */
  predicate Continues(previous: Record, record: Record) {
    && previous.deployment == record.deployment
    && (previous.generation + 1) % UINT64_LIMIT == record.generation
  }

  /** Both halves of the recorded generation are intact, at places recovery can pair up again. */
  predicate Recoverable(d: Disk) {
    || Installed(d)
    || Verifies(d.program.previous, d.config.previous, d.record)
    || (Verifies(d.program.previous, d.config.current, d.record) && d.config.previous == Absent)
    || (Verifies(d.program.current, d.config.previous, d.record) && d.program.previous == Absent)
  }

  /** A marker names the recorded generation, or its predecessor once the successor is committed and in place. */
  predicate MarkerFits(d: Disk) {
    || d.marker.None?
    || d.marker.value == d.record
    || (Installed(d) && Continues(d.marker.value, d.record) && d.management == d.record.program)
  }

  /** What every interruption point leaves behind. */
  predicate Durable(d: Disk) {
    Recoverable(d) && MarkerFits(d)
  }

  /** Without a marker nothing will ever repair the management executable. */
  predicate Managed(d: Disk) {
    d.marker.None? ==> d.management == d.record.program
  }

  predicate Clean(d: Disk) {
    && Installed(d)
    && d.program.previous == d.program.next == Absent
    && d.config.previous == d.config.next == Absent
    && d.marker.None?
  }

  /** Unpaired residue beside a verified installation with no marker: refused, never cleaned. */
  predicate Refused(d: Disk) {
    d.marker.None? && Installed(d) && !(Paired(d, Previous) && Paired(d, Next))
  }

  function CleanDisk(record: Record, management: Content): Disk {
    Disk(Dirs(Whole(record.program), Absent, Absent), Dirs(Whole(record.config), Absent, Absent), management, record, None)
  }

  /** What a completed recovery makes of a disk. */
  function Recovered(d: Disk): Disk {
    CleanDisk(d.record, if d.marker.None? then d.management else d.record.program)
  }

  /** Where each half of the recorded generation may be: at current or previous, never only at next. */
  lemma HalvesSurvive(d: Disk)
    requires Durable(d)
    ensures Whole(d.record.program) in {d.program.current, d.program.previous}
    ensures Whole(d.record.config) in {d.config.current, d.config.previous}
  {
    assert {d.program.current, d.program.previous} == {d.program.previous, d.program.current};
    assert {d.config.current, d.config.previous} == {d.config.previous, d.config.current};
  }

  /** A completed recovery is a fixed point: it is clean, durable, not refused, and recovering it changes nothing. */
  lemma RecoveredIsStable(d: Disk)
    ensures Clean(Recovered(d)) && Durable(Recovered(d)) && !Refused(Recovered(d))
    ensures Recovered(Recovered(d)) == Recovered(d)
    ensures Managed(d) ==> Recovered(d) == CleanDisk(d.record, d.record.program)
  {
  }
}
