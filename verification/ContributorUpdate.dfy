/** The update transaction, its deferred rollback, and Apply over whole lifetimes of a host. */
module ContributorUpdate {
  import opened Common
  import opened ContributorDisk
  import opened ContributorHost
  import opened ContributorRecovery

  /** The disk while the update may still be abandoned: durable, still on the old record, with the marker naming it. */
  predicate Abandonable(d: Disk, record: Record) {
    Recoverable(d) && d.record == record && d.marker == Some(record)
  }

  /** The disk once all four renames are done and the successor is not yet committed. */
  predicate Switched(d: Disk, record: Record, bundle: Record) {
    && Abandonable(d, record)
    && Verifies(d.program.previous, d.config.previous, record)
    && Verifies(d.program.current, d.config.current, bundle)
    && d.program.next == d.config.next == Absent
    && d.management == bundle.program
  }

  /** The process survived and at most one step was refused on the way. */
  twostate predicate OneFault(host: Host)
    reads host
  {
    host.alive && host.faults <= old(host.faults) + 1
  }

  // ---------- the scripts that lose the management executable ----------

  /** The fourth rename is refused, and so is the removal that should undo the third. */
  predicate Jams(script: Script, from: nat) {
    && GrantedThrough(script, from, from + 3) && script(from + 3).Denied? && script(from + 4) == Denied(Untouched)
    && Survives(script, from + 5, from + 7)
  }

  /** A whole update during which that happens and everything needed to drop the marker goes well. */
  predicate Strays(script: Script, from: nat) {
    && GrantedThrough(script, from, from + 8) && Jams(script, from + 8)
    && Survives(script, from + 15, from + 17) && GrantedThrough(script, from + 17, from + 22)
  }

  /** What it leaves: the successor's program and management executable, the old record, no marker. */
  predicate Astray(d: Disk, record: Record, bundle: Record) {
    && d.record == record && d.marker.None?
    && d.program.current == Whole(bundle.program) && d.management == bundle.program
  }

  // ---------- the update ----------

  /** writeBundleDirectories: both directories are created before either is filled. */
  method Stage(host: Host, bundle: Record) returns (ok: bool)
    requires Clean(host.disk)
    modifies host`disk, host`alive, host`faults, host`clock
    ensures host.Later()
    ensures host.faults == old(host.faults) ==> ok
    ensures ok ==> host.alive && Verifies(host.disk.program.next, host.disk.config.next, bundle)
    ensures !ok ==> host.faults > old(host.faults)
    ensures !ok && OneFault(host) ==> host.disk == old(host.disk)
    ensures host.disk == old(host.disk).(program := old(host.disk.program).(next := host.disk.program.next),
                                         config := old(host.disk.config).(next := host.disk.config.next))
    ensures ok <==> old(host.alive && GrantedThrough(host.script, host.clock, host.clock + 4))
    ensures ok ==> host.clock == old(host.clock) + 4
    ensures old(host.alive && host.script(host.clock).Granted? && host.script(host.clock + 1) == Died(Untouched)) ==>
              host.clock == old(host.clock) + 4
              && host.disk == old(host.disk).(program := old(host.disk.program).(next := Broken))
  {
    ok := host.WriteNext(Program, Broken);
    if ok { ok := host.WriteNext(Config, Broken); }
    if ok { ok := host.WriteNext(Program, Whole(bundle.program)); }
    if ok { ok := host.WriteNext(Config, Whole(bundle.config)); }
    if !ok {
      var cleaned := host.RemoveBoth(Next);
    }
  }

  /** The four renames. A failure undoes the ones before it as far as the environment lets it. */
  method Switch(host: Host, bundle: Record) returns (ok: bool)
    requires Abandonable(host.disk, host.disk.record) && Installed(host.disk)
    requires host.disk.program.previous == host.disk.config.previous == Absent
    requires Verifies(host.disk.program.next, host.disk.config.next, bundle)
    requires host.disk.management == bundle.program
    modifies host
    ensures host.Later()
    ensures host.faults == old(host.faults) ==> ok
    ensures ok ==> host.alive && Switched(host.disk, old(host.disk.record), bundle)
    ensures !ok ==> Abandonable(host.disk, old(host.disk.record)) && host.faults > old(host.faults)
    ensures !ok && OneFault(host) ==>
      host.disk == old(host.disk).(program := old(host.disk.program).(next := host.disk.program.next))
    ensures !ok && !host.undoFailed ==> host.disk.program.current in {Absent, Whole(host.disk.record.program)}
                                        || !host.alive
    ensures old(host.undoFailed) ==> host.undoFailed
    ensures ok ==> host.undoFailed == old(host.undoFailed)
    ensures old(host.alive && Jams(host.script, host.clock)) ==> !ok && host.clock == old(host.clock) + 7
    ensures bundle.program != old(host.disk.record.program) ==>
              (!ok && host.alive && host.disk.program.current == Whole(bundle.program)
               <==> old(host.alive && Jams(host.script, host.clock)))
    ensures host.disk.management == old(host.disk.management)
    ensures host.disk.program.current in {Absent, Broken, Whole(host.disk.record.program), Whole(bundle.program)}
  {
    hide Host.Calm;
    ok := host.Rename(Program, Current, Previous);
    if !ok { return; }
    ok := host.Rename(Config, Current, Previous);
    if !ok {
      var program := host.Rename(Program, Previous, Current);
      return;
    }
    ok := host.Rename(Program, Next, Current);
    if !ok {
      var config := host.Rename(Config, Previous, Current);
      var program := host.Rename(Program, Previous, Current);
      return;
    }
    ok := host.Rename(Config, Next, Current);
    if !ok { UndoThird(host); }
  }

  /** The undo list of the fourth rename: the successor's program is removed and both predecessors are moved back. */
  method UndoThird(host: Host)
    requires Abandonable(host.disk, host.disk.record) && host.disk.config.current == Absent
    requires Verifies(host.disk.program.previous, host.disk.config.previous, host.disk.record)
    modifies host
    ensures host.Later()
    ensures Abandonable(host.disk, old(host.disk.record))
    ensures host.alive && host.faults == old(host.faults) ==>
              host.disk == old(host.disk).(
                program := old(host.disk.program).(current := old(host.disk.program.previous), previous := Absent),
                config := old(host.disk.config).(current := old(host.disk.config.previous), previous := Absent))
    ensures !host.undoFailed ==> host.disk.program.current in {Absent, Whole(host.disk.record.program)} || !host.alive
    ensures old(host.undoFailed) ==> host.undoFailed
    ensures host.clock == old(host.clock) + 3 && host.disk.management == old(host.disk.management)
    ensures host.disk.program.current in {Absent, Broken, Whole(host.disk.record.program), old(host.disk.program.current)}
    ensures old(host.disk.program.current.Whole? && host.disk.program.current != Whole(host.disk.record.program)) ==>
              (host.alive && host.disk.program.current == old(host.disk.program.current)
               <==> old(host.alive && host.script(host.clock) == Denied(Untouched)
                        && Survives(host.script, host.clock + 1, host.clock + 3)))
  {
    hide Host.Calm;
    var removed := host.RemoveAll(Program, Current);
    if !removed { host.undoFailed := true; }
    var config := host.Rename(Config, Previous, Current);
    var program := host.Rename(Program, Previous, Current);
  }

  /** rollbackUpdate: every step is attempted whatever the ones before it did. */
  method Rollback(host: Host, bundle: Record) returns (ok: bool)
    requires Abandonable(host.disk, host.disk.record)
    requires Verifies(host.disk.program.previous, host.disk.config.previous, host.disk.record)
    modifies host`disk, host`alive, host`faults, host`clock
    ensures host.Later()
    ensures ok ==> Installed(host.disk)
    ensures host.faults == old(host.faults) ==> ok && host.disk.program.previous == host.disk.config.previous == Absent
    ensures host.disk.program.next == old(host.disk.program.next) && host.disk.config.next == old(host.disk.config.next)
    ensures Abandonable(host.disk, old(host.disk.record))
  {
    var stopped := host.Ask();
    var removed := host.RemoveBoth(Current);
    var program := host.Rename(Program, Previous, Current);
    var config := host.Rename(Config, Previous, Current);
    var lifecycle := host.Ask();
    var started := host.Ask();
    if started { started := host.Ask(); }
    ok := stopped && removed && program && config && lifecycle && started;
  }

  /** The deferred handler of a failed, uncommitted update. */
  method Unwind(host: Host, bundle: Record, switched: bool)
    requires Abandonable(host.disk, host.disk.record)
    requires switched ==> Switched(host.disk, host.disk.record, bundle)
    requires !switched && !host.undoFailed && host.alive ==>
               host.disk.program.current in {Absent, Whole(host.disk.record.program)}
    modifies host`disk, host`alive, host`faults, host`clock
    ensures host.Later()
    ensures Durable(host.disk) && host.disk.record == old(host.disk.record)
    ensures !host.undoFailed ==> Managed(host.disk)
    ensures Managed(host.disk) <==> host.disk.marker.Some? || host.disk.program.current == Whole(host.disk.record.program)
    ensures host.faults == old(host.faults) && (switched || old(Installed(host.disk) && !Present(host.disk, Program, Previous)
                                                               && !Present(host.disk, Config, Previous))) ==>
      host.disk == CleanDisk(old(host.disk.record), old(host.disk.record.program))
    ensures switched ==> Managed(host.disk)
    ensures !switched ==> host.disk.program.current == old(host.disk.program.current)
    ensures !switched && old(host.disk.program.current.Whole?) ==>
              (host.disk.marker.None? <==> old(host.alive && Survives(host.script, host.clock, host.clock + 2)
                                              && GrantedThrough(host.script, host.clock + 2, host.clock + 7)))
    ensures host.disk.marker.None? && !switched ==>
              host.clock == old(host.clock) + 7 && host.disk.program.current == Whole(host.disk.management)
  {
    hide Host.Calm;
    var cleaned := host.RemoveBoth(Next);
    var recovered;
    if switched {
      recovered := Rollback(host, bundle);
    } else {
      recovered := host.RestartCurrentGeneration();
    }
    var restored := host.RestoreManagement();
    if recovered && restored {
      var dropped := host.WriteMarker(None);
    }
  }

  /** The body of the update between the marker and the commit. */
  method Transact(host: Host, bundle: Record) returns (ok: bool)
    requires Abandonable(host.disk, host.disk.record) && Installed(host.disk)
    requires host.disk.program.previous == host.disk.config.previous == Absent
    requires Verifies(host.disk.program.next, host.disk.config.next, bundle)
    requires host.disk.management == bundle.program
    requires Continues(host.disk.record, bundle)
    modifies host
    ensures host.Later()
    ensures host.faults == old(host.faults) ==> ok
    ensures Durable(host.disk)
    ensures ok ==> host.disk == CleanDisk(bundle, bundle.program)
    ensures host.disk.record == old(host.disk.record) || host.disk.record == bundle
    ensures OneFault(host) ==>
      host.disk in {CleanDisk(old(host.disk.record), old(host.disk.record.program)), CleanDisk(bundle, bundle.program)}
    ensures old(host.undoFailed) ==> host.undoFailed
    ensures !host.undoFailed ==> Managed(host.disk)
    ensures Managed(host.disk) <==> host.disk.marker.Some? || host.disk.program.current == Whole(host.disk.record.program)
    ensures bundle.program != old(host.disk.record.program) ==>
              (!Managed(host.disk)
               <==> old(host.alive && GrantedThrough(host.script, host.clock, host.clock + 2)
                        && Jams(host.script, host.clock + 2) && Survives(host.script, host.clock + 9, host.clock + 11)
                        && GrantedThrough(host.script, host.clock + 11, host.clock + 16)))
    ensures !Managed(host.disk) ==> host.clock == old(host.clock) + 16 && Astray(host.disk, old(host.disk.record), bundle)
  {
    hide Host.Calm, GrantedThrough, Survives, Jams;
    var switched;
    ok, switched := Attempt(host, bundle);
    if !ok {
      Unwind(host, bundle, switched);
      return;
    }
    ok := Settle(host);
  }

  /** The steps of the transaction up to the commit, which must all succeed. */
  method Attempt(host: Host, bundle: Record) returns (ok: bool, switched: bool)
    requires Abandonable(host.disk, host.disk.record) && Installed(host.disk)
    requires host.disk.program.previous == host.disk.config.previous == Absent
    requires Verifies(host.disk.program.next, host.disk.config.next, bundle)
    requires host.disk.management == bundle.program
    requires Continues(host.disk.record, bundle)
    modifies host
    ensures host.Later() && (host.faults == old(host.faults) ==> ok)
    ensures ok ==> && Durable(host.disk) && Installed(host.disk) && host.disk.record == bundle && host.disk.marker.Some?
                   && host.disk.management == bundle.program && host.disk.program.next == host.disk.config.next == Absent
    ensures !ok ==> Abandonable(host.disk, old(host.disk.record))
    ensures !ok && switched ==> Switched(host.disk, old(host.disk.record), bundle)
    ensures !ok && !switched && OneFault(host) ==>
      host.disk == old(host.disk).(program := old(host.disk.program).(next := host.disk.program.next))
    ensures !ok && !switched && !host.undoFailed && host.alive ==>
              host.disk.program.current in {Absent, Whole(host.disk.record.program)}
    ensures old(host.undoFailed) ==> host.undoFailed
    ensures !ok ==> host.disk.program.current in {Absent, Broken, Whole(host.disk.record.program), Whole(bundle.program)}
    ensures !ok && !switched && bundle.program != old(host.disk.record.program) ==>
              (host.alive && host.disk.program.current == Whole(bundle.program)
               <==> old(host.alive && GrantedThrough(host.script, host.clock, host.clock + 2)
                        && Jams(host.script, host.clock + 2)))
    ensures old(host.alive && GrantedThrough(host.script, host.clock, host.clock + 2) && Jams(host.script, host.clock + 2)) ==>
              !ok && !switched && host.clock == old(host.clock) + 9
  {
    hide Host.Calm;
    switched := false;
    ok := host.Ask();
    if ok { ok := host.Ask(); }
    if ok {
      ok := Switch(host, bundle);
      switched := ok;
    }
    if ok { ok := host.Ask(); }
    if ok { ok := host.Ask(); }
    if ok { ok := host.Ask(); }
    if ok { ok := host.WriteRecord(bundle); }
  }

  /** After the commit: the old generation and the marker are cleared, with a second attempt by the deferred handler. */
  method Settle(host: Host) returns (ok: bool)
    requires Durable(host.disk) && Installed(host.disk) && host.disk.marker.Some?
    requires host.disk.management == host.disk.record.program
    requires host.disk.program.next == host.disk.config.next == Absent
    modifies host`disk, host`alive, host`faults, host`clock
    ensures host.Later()
    ensures host.faults == old(host.faults) ==> ok
    ensures ok ==> host.disk == CleanDisk(host.disk.record, host.disk.record.program)
    ensures OneFault(host) ==> host.disk == CleanDisk(host.disk.record, host.disk.record.program)
    ensures Durable(host.disk) && Installed(host.disk) && host.disk.record == old(host.disk.record)
    ensures host.disk.management == old(host.disk.management)
  {
    ok := host.RemoveBoth(Previous);
    if ok { ok := host.WriteMarker(None); }
    if !ok {
      var next := host.RemoveBoth(Next);
      var previous := host.RemoveBoth(Previous);
      var dropped := host.WriteMarker(None);
    }
  }

  /** Staging, the marker and the successor's management executable, each undone as far as it can be when one fails. */
  method Begin(host: Host, bundle: Record) returns (ok: bool)
    requires Clean(host.disk)
    modifies host`disk, host`alive, host`faults, host`clock
    ensures host.Later()
    ensures host.faults == old(host.faults) ==> ok
    ensures ok <==> old(host.alive && GrantedThrough(host.script, host.clock, host.clock + 6))
    ensures ok ==> && host.alive && host.clock == old(host.clock) + 6
                   && host.disk == Disk(old(host.disk.program).(next := Whole(bundle.program)),
                                        old(host.disk.config).(next := Whole(bundle.config)),
                                        bundle.program, old(host.disk.record), Some(old(host.disk.record)))
    ensures !ok ==> && Durable(host.disk) && Installed(host.disk) && host.disk.record == old(host.disk.record)
                    && host.disk.management in {old(host.disk.management), host.disk.record.program}
    ensures !ok && OneFault(host) && old(Managed(host.disk)) ==> host.disk == old(host.disk)
    ensures old(host.alive && GrantedThrough(host.script, host.clock, host.clock + 4)
                && host.script(host.clock + 4).Died?) ==>
              host.clock == old(host.clock) + 7
              && host.disk == old(host.disk).(program := old(host.disk.program).(next := Whole(bundle.program)),
                                              config := old(host.disk.config).(next := Whole(bundle.config)))
    ensures old(host.alive && host.script(host.clock).Granted? && host.script(host.clock + 1) == Died(Untouched)) ==>
              host.clock == old(host.clock) + 4
              && host.disk == old(host.disk).(program := old(host.disk.program).(next := Broken))
  {
    hide Host.Calm;
    var record := host.disk.record;
    ok := Stage(host, bundle);
    if !ok { return; }
    ok := host.WriteMarker(Some(record));
    if !ok {
      var cleaned := host.RemoveBoth(Next);
      return;
    }
    ok := host.WriteManagement(bundle.program);
    if !ok {
      var cleaned := host.RemoveBoth(Next);
      var restored := host.RestoreManagement();
      if cleaned && restored {
        var dropped := host.WriteMarker(None);
      }
    }
  }

  /**
   update: wherever it stops, the disk is durable and its record is the old one or the bundle's. It succeeds
   only with the successor installed, managed and clean, and left in peace it does succeed.
   */
  method Update(host: Host, bundle: Record) returns (ok: bool)
    requires Clean(host.disk) && Continues(host.disk.record, bundle)
    requires !host.undoFailed ==> Managed(host.disk)
    modifies host
    ensures host.Later()
    ensures host.faults == old(host.faults) ==> ok
    ensures Durable(host.disk)
    ensures ok ==> host.disk == CleanDisk(bundle, bundle.program)
    ensures host.disk.record == old(host.disk.record) || host.disk.record == bundle
    ensures OneFault(host) && old(Managed(host.disk)) ==>
      host.disk in {old(host.disk), CleanDisk(bundle, bundle.program)}
    ensures old(host.undoFailed) ==> host.undoFailed
    ensures !host.undoFailed ==> Managed(host.disk)
    ensures old(Managed(host.disk)) ==>
              (Managed(host.disk) <==> host.disk.marker.Some? || host.disk.program.current == Whole(host.disk.record.program))
    ensures old(Managed(host.disk)) && bundle.program != old(host.disk.record.program) ==>
              (!Managed(host.disk) <==> old(host.alive && Strays(host.script, host.clock)))
    ensures old(Managed(host.disk)) && !Managed(host.disk) ==>
              host.clock == old(host.clock) + 22 && Astray(host.disk, old(host.disk.record), bundle)
    ensures old(host.alive && GrantedThrough(host.script, host.clock, host.clock + 4)
                  && host.script(host.clock + 4).Died?) ==>
              host.clock == old(host.clock) + 7
              && host.disk == old(host.disk).(program := old(host.disk.program).(next := Whole(bundle.program)),
                                              config := old(host.disk.config).(next := Whole(bundle.config)))
    ensures old(host.alive && host.script(host.clock).Granted? && host.script(host.clock + 1) == Died(Untouched)) ==>
              host.clock == old(host.clock) + 4
              && host.disk == old(host.disk).(program := old(host.disk.program).(next := Broken))
  {
    hide Host.Calm;
    var d := host.disk;
    if Present(d, Program, Next) || Present(d, Config, Next) || Present(d, Program, Previous) || Present(d, Config, Previous) {
      return false;
    }
    ok := Begin(host, bundle);
    if !ok { return; }
    ok := Transact(host, bundle);
  }

  /** openBundle admits generations from one up. */
  predicate Admissible(bundle: Record) {
    0 < bundle.generation < UINT64_LIMIT
  }

  /**
   Apply on an installed host: recovery, the exact successor check, then the update. Left in peace it fails only
   on refused residue or on a bundle that does not continue the deployment by one generation.
   */
  method Apply(host: Host, bundle: Record) returns (ok: bool)
    requires Durable(host.disk) && Admissible(bundle) && Admissible(host.disk.record)
    requires !host.undoFailed ==> Managed(host.disk)
    modifies host
    ensures host.Later()
    ensures host.faults == old(host.faults) ==>
              (ok <==> !Refused(old(host.disk)) && bundle.deployment == old(host.disk.record.deployment)
                       && bundle.generation == old(host.disk.record.generation) + 1)
    ensures Durable(host.disk)
    ensures ok ==> host.disk == CleanDisk(bundle, bundle.program)
    ensures host.disk.record != old(host.disk.record) ==>
              && host.disk.record == bundle && bundle.deployment == old(host.disk.record.deployment)
              && bundle.generation == old(host.disk.record.generation) + 1
    ensures old(host.undoFailed) ==> host.undoFailed
    ensures !host.undoFailed ==> Managed(host.disk)
    ensures old(Clean(host.disk) && Managed(host.disk)) && bundle.program != old(host.disk.record.program) ==>
              (!Managed(host.disk) <==> old(host.alive && Strays(host.script, host.clock))
                                        && Continues(old(host.disk.record), bundle))
    ensures old(Clean(host.disk) && Managed(host.disk)) && !Managed(host.disk) ==>
              host.clock == old(host.clock) + 22 && Astray(host.disk, old(host.disk.record), bundle)
    ensures Continues(old(host.disk.record), bundle) && old(Clean(host.disk))
            && old(host.alive && GrantedThrough(host.script, host.clock, host.clock + 4)
                   && host.script(host.clock + 4).Died?) ==>
              host.clock == old(host.clock) + 7
              && host.disk == old(host.disk).(program := old(host.disk.program).(next := Whole(bundle.program)),
                                              config := old(host.disk.config).(next := Whole(bundle.config)))
    ensures Continues(old(host.disk.record), bundle) && old(Clean(host.disk))
            && old(host.alive && host.script(host.clock).Granted? && host.script(host.clock + 1) == Died(Untouched)) ==>
              host.clock == old(host.clock) + 4
              && host.disk == old(host.disk).(program := old(host.disk.program).(next := Broken))
    ensures var d := old(host.disk);
            && d.marker.None? && d.program.current == Whole(d.record.program) && d.config.current == Whole(d.record.config)
            && !((d.program.previous == Absent <==> d.config.previous == Absent)
                 && (d.program.next == Absent <==> d.config.next == Absent)) ==>
              !ok && host.disk == d
  {
    ok := Recover(host);
    if !ok { return; }
    if !Continues(host.disk.record, bundle) { return false; }
    if !Installed(host.disk) { return false; }
    ok := Update(host, bundle);
  }

  /** Committed records, oldest first: one deployment, each generation the next. */
  ghost predicate Chain(records: seq<Record>) {
    && |records| > 0
    && (forall r <- records :: Admissible(r) && r.deployment == records[0].deployment)
    && forall i :: 0 < i < |records| ==> records[i].generation == records[i - 1].generation + 1
  }

  datatype Operation = Applying(bundle: Record) | Recovering

  /**
   Any history of a host: each operation is an Apply of an arbitrary bundle or a recovery on its own (as every
   Control action begins), each may fail or die at any step, and each is followed by a restart. Whatever happened,
   the disk it leaves is durable and records the newest committed generation, and one undisturbed recovery then
   makes it clean on that generation, or refuses it and leaves it alone.
   */
  method Lifetime(first: Record, operations: seq<Operation>, script: Script)
    returns (host: Host, ghost committed: seq<Record>, ghost crashed: Disk)
    requires Admissible(first)
    ensures fresh(host)
    ensures Chain(committed) && committed[0] == first && crashed.record == committed[|committed| - 1]
    ensures forall i :: 0 < i < |committed| ==> Applying(committed[i]) in operations
    ensures Durable(crashed) && (!host.undoFailed ==> Managed(crashed))
    ensures host.faults == 0 ==> host.disk == if Refused(crashed) then crashed else Recovered(crashed)
    ensures host.faults == 0 && !host.undoFailed && !Refused(crashed) ==>
              host.disk == CleanDisk(crashed.record, crashed.record.program)
  {
    hide Durable, Managed, Clean, Refused, Recovered, Strays, Astray, Host.Calm;
    CleanIsDurable(first);
    host := new Host(first, script);
    committed := [first];
    for n := 0 to |operations|
      invariant fresh(host)
      invariant Chain(committed) && committed[0] == first && host.disk.record == committed[|committed| - 1]
      invariant forall i :: 0 < i < |committed| ==> Applying(committed[i]) in operations
      invariant Durable(host.disk) && (!host.undoFailed ==> Managed(host.disk))
    {
      host.Restart();
      match operations[n]
      case Applying(bundle) =>
        if Admissible(bundle) {
          var before := host.disk.record;
          var ok := Apply(host, bundle);
          if host.disk.record != before { committed := committed + [bundle]; }
        }
      case Recovering =>
        var ok := Recover(host);
    }
    crashed := host.disk;
    RecoveredIsStable(crashed);
    host.Restart();
    var ok := Recover(host);
  }

  function StrayScript(step: nat): Fate {
    if step == 11 || step == 12 then Denied(Untouched) else Granted(true)
  }

  lemma ScriptStrays()
    ensures Strays(StrayScript, 0)
  {
  }

  lemma CleanIsDurable(record: Record)
    ensures var d := CleanDisk(record, record.program); Clean(d) && Durable(d) && Managed(d) && d.record == record
  {
  }

  /** Recovery takes such a disk back to the old generation, but has no marker to tell it about the executable. */
  lemma AstrayRecovers(d: Disk, record: Record, bundle: Record)
    requires Astray(d, record, bundle) && bundle.program != record.program
    ensures !Managed(d) && !Refused(d) && Recovered(d) == CleanDisk(record, bundle.program)
    ensures !Managed(CleanDisk(record, bundle.program))
  {
  }

  /**
   Applying a bundle on a clean host during two refused steps, and then a recovery in a calm time: the host is back on
   its old generation, clean, with the successor's management executable and nothing left to say so.
   */
  method StrayRun(record: Record, bundle: Record) returns (host: Host)
    requires Admissible(record) && Admissible(bundle) && bundle.program != record.program
    requires bundle.deployment == record.deployment && bundle.generation == record.generation + 1
    ensures fresh(host) && host.faults == 0
    ensures host.disk == CleanDisk(record, bundle.program) && !Managed(host.disk)
  {
    hide Durable, Clean, CleanDisk, Refused, Recovered, Astray, Strays, Managed;
    CleanIsDurable(record);
    ScriptStrays();
    host := new Host(record, StrayScript);
    var applied := Apply(host, bundle);
    AstrayRecovers(host.disk, record, bundle);
    host.Restart();
    var recovered := Recover(host);
  }

  /** A process killed between staging and the marker leaves a complete pair, which the next recovery clears away. */
  method StagedRun(record: Record, bundle: Record) returns (host: Host, recovered: bool)
    requires Admissible(record) && Admissible(bundle)
    requires bundle.deployment == record.deployment && bundle.generation == record.generation + 1
    ensures fresh(host) && recovered && host.disk == CleanDisk(record, record.program)
  {
    hide Durable, Strays, Managed;
    CleanIsDurable(record);
    host := new Host(record, step => if step == 4 then Died(Untouched) else Granted(true));
    var applied := Apply(host, bundle);
    assert host.disk.config.next == Whole(bundle.config);
    host.Restart();
    recovered := Recover(host);
  }

  /** Killed between the two directories it leaves one half alone, which no recovery and no update gets past. */
  method HalfStagedRun(record: Record, bundle: Record, later: Record) returns (host: Host, recovered: bool, applied: bool)
    requires Admissible(record) && Admissible(bundle) && Admissible(later)
    requires bundle.deployment == record.deployment && bundle.generation == record.generation + 1
    ensures fresh(host) && !recovered && !applied
    ensures host.disk == CleanDisk(record, record.program).(program := Dirs(Whole(record.program), Absent, Broken))
  {
    hide Durable, Strays, Managed;
    CleanIsDurable(record);
    host := new Host(record, step => if step == 1 then Died(Untouched) else Granted(true));
    applied := Apply(host, bundle);
    host.Restart();
    recovered := Recover(host);
    host.Restart();
    applied := Apply(host, later);
  }
}
