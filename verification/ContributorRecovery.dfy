/** Recovery of an interrupted update, from any disk an interruption can leave. */
module ContributorRecovery {
  import opened Common
  import opened ContributorDisk
  import opened ContributorHost

  /**
   completeInterruptedPreviousMove: pairs up the predecessor when only one half reached `previous`, after
   authenticating it where it stands.
   */
  method CompletePreviousMove(host: Host) returns (ok: bool)
    requires Recoverable(host.disk) && !Installed(host.disk)
    modifies host`disk, host`alive, host`faults, host`clock
    ensures host.Later()
    ensures host.faults == old(host.faults) ==> ok
    ensures ok ==> Verifies(host.disk.program.previous, host.disk.config.previous, host.disk.record)
    ensures Recoverable(host.disk) && (!ok ==> host.disk == old(host.disk))
    ensures host.disk.(program := old(host.disk.program), config := old(host.disk.config)) == old(host.disk)
  {
    var d := host.disk;
    if Paired(d, Previous) { return true; }
    var programPrevious := Present(d, Program, Previous);
    var authentic := if programPrevious then Verifies(d.program.previous, d.config.current, d.record)
                     else Verifies(d.program.current, d.config.previous, d.record);
    if !authentic { return false; }
    if programPrevious {
      ok := host.Rename(Config, Current, Previous);
    } else {
      ok := host.Rename(Program, Current, Previous);
    }
  }

  /** The branch taken when the installation in place verifies. */
  method RecoverInstalled(host: Host) returns (ok: bool)
    requires Durable(host.disk) && Installed(host.disk)
    modifies host`disk, host`alive, host`faults, host`clock
    ensures host.Later()
    ensures host.faults == old(host.faults) ==> (ok <==> !Refused(old(host.disk)))
    ensures ok ==> host.disk == Recovered(old(host.disk))
    ensures Refused(old(host.disk)) ==> host.disk == old(host.disk) && !ok
    ensures Durable(host.disk) && Installed(host.disk) && host.disk.record == old(host.disk.record)
    ensures old(Clean(host.disk)) ==> ok && host.clock == old(host.clock) && host.alive == old(host.alive)
    ensures old(Managed(host.disk)) ==> Managed(host.disk)
  {
    var d := host.disk;
    if d.marker.None? {
      if !Paired(d, Previous) || !Paired(d, Next) { return false; }
      if !Present(d, Program, Previous) && !Present(d, Program, Next) { return true; }
      var previous := host.RemoveBoth(Previous);
      var next := host.RemoveBoth(Next);
      return previous && next;
    }
    if d.marker.value != d.record && !Continues(d.marker.value, d.record) { return false; }
    if d.marker.value == d.record {
      ok := host.RestoreManagement();
      if !ok { return; }
      var active;
      ok, active := host.AskActive();
      if !ok { return; }
      if !active {
        ok := host.RestartCurrentGeneration();
        if !ok { return; }
      }
    }
    var previous := host.RemoveBoth(Previous);
    var next := host.RemoveBoth(Next);
    if !(previous && next) { return false; }
    ok := host.WriteMarker(None);
  }

  /** The branch taken when it does not: the predecessor at `previous` is authenticated and moved back. */
  method RecoverPrevious(host: Host) returns (ok: bool)
    requires Durable(host.disk) && !Installed(host.disk)
    modifies host`disk, host`alive, host`faults, host`clock
    ensures host.Later()
    ensures host.faults == old(host.faults) ==> ok
    ensures ok ==> host.disk == Recovered(old(host.disk))
    ensures Durable(host.disk) && host.disk.record == old(host.disk.record)
    ensures old(Managed(host.disk)) ==> Managed(host.disk)
  {
    var d := host.disk;
    if d.marker.Some? && d.marker.value != d.record { return false; }
    ok := CompletePreviousMove(host);
    if !ok { return; }
    d := host.disk;
    if !Paired(d, Previous) || !Present(d, Program, Previous) { return false; }
    if !Verifies(d.program.previous, d.config.previous, d.record) { return false; }
    var active;
    ok, active := host.AskActive();
    if !ok { return; }
    ok := host.Ask();
    if !ok { return; }
    if active {
      ok := host.Ask();
      if !ok { return; }
    }
    ok := host.RemoveBoth(Current);
    if !ok { return; }
    ok := MovePreviousBack(host);
    if !ok { return; }
    ok := RestoreRecovered(host);
  }

  method MovePreviousBack(host: Host) returns (ok: bool)
    requires Durable(host.disk)
    requires Verifies(host.disk.program.previous, host.disk.config.previous, host.disk.record)
    requires host.disk.program.current == host.disk.config.current == Absent
    modifies host`disk, host`alive, host`faults, host`clock
    ensures host.Later()
    ensures host.faults == old(host.faults) ==> ok
    ensures ok ==> host.alive
    ensures ok ==> host.disk == old(host.disk).(
                     program := old(host.disk.program).(current := old(host.disk.program.previous), previous := Absent),
                     config := old(host.disk.config).(current := old(host.disk.config.previous), previous := Absent))
    ensures Durable(host.disk)
    ensures host.disk.(program := old(host.disk.program), config := old(host.disk.config)) == old(host.disk)
  {
    ok := host.Rename(Program, Previous, Current);
    if !ok { return; }
    ok := host.Rename(Config, Previous, Current);
    if !ok {
      var undone := host.Rename(Program, Current, Previous);
    }
  }

  method RestoreRecovered(host: Host) returns (ok: bool)
    requires Durable(host.disk) && Installed(host.disk)
    requires host.disk.program.previous == host.disk.config.previous == Absent
    requires host.disk.marker.None? || host.disk.marker.value == host.disk.record
    modifies host`disk, host`alive, host`faults, host`clock
    ensures host.Later()
    ensures host.faults == old(host.faults) ==> ok
    ensures ok ==> host.disk == Recovered(old(host.disk))
    ensures Durable(host.disk) && host.disk.record == old(host.disk.record)
    ensures old(Managed(host.disk)) ==> Managed(host.disk)
  {
    var next := host.RemoveBoth(Next);
    var lifecycle := host.Ask();
    if !(next && lifecycle) { return false; }
    ok := host.Ask();
    if !ok { return; }
    ok := host.Ask();
    if !ok { return; }
    if host.disk.marker.Some? {
      ok := host.RestoreManagement();
      if !ok { return; }
    }
    if !Installed(host.disk) { return false; }
    ok := host.WriteMarker(None);
  }

  /**
   recoverInterruptedUpdate. From every disk an interruption can leave, and wherever this run is itself
   interrupted, the disk stays durable and the record is untouched. Left in peace it succeeds, except where one half
   alone lies beside an intact installation without a marker, which it refuses without touching anything; success is the
   recorded generation in place with all four other slots empty.
   */
  method Recover(host: Host) returns (ok: bool)
    requires Durable(host.disk)
    modifies host`disk, host`alive, host`faults, host`clock
    ensures host.Later()
    ensures host.faults == old(host.faults) ==> (ok <==> !Refused(old(host.disk)))
    ensures ok ==> host.disk == Recovered(old(host.disk)) && Clean(host.disk)
    ensures Refused(old(host.disk)) ==> host.disk == old(host.disk) && !ok
    ensures Durable(host.disk) && host.disk.record == old(host.disk.record)
    ensures old(Clean(host.disk)) ==> ok && host.clock == old(host.clock) && host.alive == old(host.alive)
    ensures old(Managed(host.disk)) ==> Managed(host.disk)
    ensures var d := old(host.disk);
            host.faults == old(host.faults) ==>
              (ok <==> || d.marker.Some? || d.program.current != Whole(d.record.program) || d.config.current != Whole(d.record.config)
                       || ((d.program.previous == Absent <==> d.config.previous == Absent)
                           && (d.program.next == Absent <==> d.config.next == Absent)))
    ensures var d := old(host.disk);
            ok ==> host.disk == Disk(Dirs(Whole(d.record.program), Absent, Absent), Dirs(Whole(d.record.config), Absent, Absent),
                                     if d.marker.None? then d.management else d.record.program, d.record, None)
    ensures var d := old(host.disk);
            && d.marker.None? && d.program.current == Whole(d.record.program) && d.config.current == Whole(d.record.config)
            && !((d.program.previous == Absent <==> d.config.previous == Absent)
                 && (d.program.next == Absent <==> d.config.next == Absent)) ==>
              !ok && host.disk == d
  {
    if Installed(host.disk) {
      ok := RecoverInstalled(host);
    } else {
      ok := RecoverPrevious(host);
    }
  }
}
