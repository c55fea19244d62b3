/**
 The update transaction and its recovery, step by step over one host.

 Each rename, removal and atomic write is one primitive step, and what the environment does to each is written down
 beforehand: it grants the step, refuses it, or lets the process die before or inside it. A dead process still unwinds
 in the model, but none of its further steps reach the disk, so the disk when a method returns is the disk at the
 moment of death: a contract that holds for every script of fates holds at every interruption point.
 */
module ContributorHost {
  import opened Common
  import opened ContributorDisk

  /** What a step that is not atomic leaves when it is refused or cut short. */
  datatype Residue = Untouched | Damaged | Finished

  /** What happens to one step; a granted question to the supervisor is answered. */
  datatype Fate = Granted(active: bool) | Denied(residue: Residue) | Died(residue: Residue)

  type Script = nat -> Fate

  predicate GrantedThrough(script: Script, from: nat, to: nat) {
    forall i :: from <= i < to ==> script(i).Granted?
  }

  /** The process survives these steps. */
  predicate Survives(script: Script, from: nat, to: nat) {
    forall i :: from <= i < to ==> !script(i).Died?
  }

  /** What one removal may leave of a directory. */
  predicate Removal(before: Slot, after: Slot) {
    after == before || after == Absent || (after == Broken && before != Absent)
  }

  class Host {
    const script: Script
    var clock: nat
    var disk: Disk
    var alive: bool
    /** How many steps the environment has refused or cut short. */
    var faults: nat
    /** Set once the removal that undoes a half-made program switch has failed. */
    var undoFailed: bool

    constructor (record: Record, script: Script)
      ensures disk == CleanDisk(record, record.program) && this.script == script && clock == 0
      ensures alive && faults == 0 && !undoFailed
    {
      this.script, clock := script, 0;
      disk, alive, faults, undoFailed := CleanDisk(record, record.program), true, 0, false;
    }

    /** Every step from here on will be granted. */
    ghost predicate Calm()
      reads this
    {
      alive && forall i :: i >= clock ==> script(i).Granted?
    }

    /** The process does not come back to life, faults are not forgotten, and a calm time has none. */
    twostate predicate Later()
      reads this
    {
      old(faults) <= faults && (alive ==> old(alive)) && (old(Calm()) ==> Calm() && faults == old(faults))
    }

    /** The next step will be granted to a living process. */
    predicate Lucky()
      reads this
    {
      alive && script(clock).Granted?
    }

    /** It will not, but the process lives on. */
    predicate Unlucky()
      reads this
    {
      alive && script(clock).Denied?
    }

    method Restart()
      modifies `alive, `faults
      ensures alive && faults == 0
    {
      alive, faults := true, 0;
    }

    // ---------- primitive steps ----------

    /** One call to the supervisor, one wait for a lifecycle state, or one removal of the lifecycle file. */
    method Ask() returns (ok: bool)
      modifies `alive, `faults, `clock
      ensures faults == old(faults) <==> ok
      ensures Later() && clock == old(clock) + 1
      ensures ok <==> old(Lucky())
      ensures alive == (ok || old(Unlucky()))
    {
      ok := Lucky();
      alive := ok || Unlucky();
      clock := clock + 1;
      if !ok { faults := faults + 1; }
    }

    /** One question to the supervisor: is the Node active? */
    method AskActive() returns (ok: bool, active: bool)
      modifies `alive, `faults, `clock
      ensures faults == old(faults) <==> ok
      ensures Later() && (ok ==> alive)
    {
      ok := Ask();
      active := ok && script(clock - 1).active;
    }

    /** A rename onto a directory that exists is refused. */
    method Rename(half: Half, from: Position, to: Position) returns (ok: bool)
      requires from != to
      modifies `disk, `alive, `faults, `clock
      ensures faults == old(faults) ==> (ok <==> old(Present(disk, half, from) && !Present(disk, half, to)))
      ensures Later()
      ensures clock == old(clock) + 1 && alive == old(Lucky() || Unlucky())
      ensures ok <==> old(Lucky() && Present(disk, half, from) && !Present(disk, half, to))
      ensures disk == if ok then With(With(old(disk), half, to, At(old(disk), half, from)), half, from, Absent) else old(disk)
    {
      ok := Ask();
      ok := ok && Present(disk, half, from) && !Present(disk, half, to);
      if ok {
        var moved := At(disk, half, from);
        disk := With(disk, half, to, moved);
        disk := With(disk, half, from, Absent);
      }
    }

    /** RemoveAll is not atomic: refused or interrupted, it may leave the directory broken. */
    method RemoveAll(half: Half, position: Position) returns (ok: bool)
      modifies `disk, `alive, `faults, `clock
      ensures faults == old(faults) <==> ok
      ensures Later() && (!old(alive) ==> disk == old(disk))
      ensures ok ==> alive && !Present(disk, half, position)
      ensures Removal(At(old(disk), half, position), At(disk, half, position))
      ensures disk == With(old(disk), half, position, At(disk, half, position))
      ensures clock == old(clock) + 1 && alive == old(Lucky() || Unlucky()) && (ok <==> old(Lucky()))
      ensures old(alive && At(disk, half, position).Whole?) ==>
                (At(disk, half, position) == At(old(disk), half, position)
                 <==> !script(old(clock)).Granted? && script(old(clock)).residue.Untouched?)
    {
      var before := alive;
      ok := Ask();
      if ok {
        disk := With(disk, half, position, Absent);
      } else if before {
        match script(clock - 1).residue
        case Untouched =>
        case Finished => disk := With(disk, half, position, Absent);
        case Damaged => if Present(disk, half, position) { disk := With(disk, half, position, Broken); }
      }
    }

    method WriteManagement(content: Content) returns (ok: bool)
      modifies `disk, `alive, `faults, `clock
      ensures faults == old(faults) <==> ok
      ensures Later()
      ensures clock == old(clock) + 1 && alive == old(Lucky() || Unlucky()) && (ok <==> old(Lucky()))
      ensures disk == if ok then old(disk).(management := content) else old(disk)
    {
      ok := Ask();
      if ok { disk := disk.(management := content); }
    }

    method WriteMarker(marker: Option<Record>) returns (ok: bool)
      modifies `disk, `alive, `faults, `clock
      ensures faults == old(faults) <==> ok
      ensures Later()
      ensures clock == old(clock) + 1 && alive == old(Lucky() || Unlucky()) && (ok <==> old(Lucky()))
      ensures disk == if ok then old(disk).(marker := marker) else old(disk)
    {
      ok := Ask();
      if ok { disk := disk.(marker := marker); }
    }

    method WriteRecord(record: Record) returns (ok: bool)
      modifies `disk, `alive, `faults, `clock
      ensures faults == old(faults) <==> ok
      ensures Later()
      ensures clock == old(clock) + 1 && alive == old(Lucky() || Unlucky()) && (ok <==> old(Lucky()))
      ensures disk == if ok then old(disk).(record := record) else old(disk)
    {
      ok := Ask();
      if ok { disk := disk.(record := record); }
    }

    /** Creating or filling a staged directory; anything short of success leaves it as it was or broken. */
    method WriteNext(half: Half, slot: Slot) returns (ok: bool)
      requires slot != Absent
      modifies `disk, `alive, `faults, `clock
      ensures faults == old(faults) <==> ok
      ensures Later() && (!old(alive) ==> disk == old(disk))
      ensures ok ==> alive && At(disk, half, Next) == slot
      ensures disk == With(old(disk), half, Next, At(disk, half, Next))
      ensures clock == old(clock) + 1 && alive == old(Lucky() || Unlucky()) && (ok <==> old(Lucky()))
      ensures !ok && !script(old(clock)).Granted? && script(old(clock)).residue.Untouched? ==> disk == old(disk)
    {
      var before := alive;
      ok := Ask();
      if ok {
        disk := With(disk, half, Next, slot);
      } else if before && !script(clock - 1).residue.Untouched? {
        disk := With(disk, half, Next, Broken);
      }
    }

    /** restoreManagementExecutableFromCurrent: an unreadable executable is an error. */
    method RestoreManagement() returns (ok: bool)
      modifies `disk, `alive, `faults, `clock
      ensures faults == old(faults) ==> (ok <==> old(disk).program.current.Whole?)
      ensures Later()
      ensures clock == old(clock) + (if old(disk).program.current.Whole? then 1 else 0)
      ensures ok <==> old(Lucky() && disk.program.current.Whole?)
      ensures ok ==> alive
      ensures disk == if ok then old(disk).(management := old(disk).program.current.content) else old(disk)
    {
      if disk.program.current.Whole? {
        ok := WriteManagement(disk.program.current.content);
      } else {
        ok := false;
      }
    }

    /** Removes both directories at one position; the second removal is attempted whatever the first did. */
    method RemoveBoth(position: Position) returns (ok: bool)
      modifies `disk, `alive, `faults, `clock
      ensures faults == old(faults) <==> ok
      ensures Later() && (!old(alive) ==> disk == old(disk))
      ensures ok ==> alive && !Present(disk, Program, position) && !Present(disk, Config, position)
      ensures Removal(At(old(disk), Program, position), At(disk, Program, position))
      ensures Removal(At(old(disk), Config, position), At(disk, Config, position))
      ensures disk == With(With(old(disk), Program, position, At(disk, Program, position)),
                           Config, position, At(disk, Config, position))
      ensures clock == old(clock) + 2 && (ok <==> old(alive && GrantedThrough(script, clock, clock + 2)))
      ensures alive <==> old(alive && Survives(script, clock, clock + 2))
    {
      var first := RemoveAll(Program, position);
      var second := RemoveAll(Config, position);
      ok := first && second;
    }

    method RestartCurrentGeneration() returns (ok: bool)
      modifies `alive, `faults, `clock
      ensures faults == old(faults) <==> ok
      ensures Later()
      ensures ok ==> alive && clock == old(clock) + 3
      ensures ok <==> old(alive && GrantedThrough(script, clock, clock + 3))
    {
      ok := Ask();
      if ok { ok := Ask(); }
      if ok { ok := Ask(); }
    }
  }
}
