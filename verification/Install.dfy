/** `tess install` and `tess install --uninstall`: ordered effects on three files, with any call failing
    and the process dying anywhere. */
module Install {
  import opened Faults
  import opened PamText
  import opened PamBlock
  import PamStack
  import PamMachine

  /** What stands at a path; `Other` is a directory or a symbolic link. */
  datatype Node = Missing | Regular(content: string) | Other

  class Disk {
    const world: nat -> Verdict
    var service: Node
    var pamModule: Node
    var backup: Node
    var now: nat
    var crashed: bool

    constructor (world: nat -> Verdict, service: Node, pamModule: Node, backup: Node)
      ensures this.world == world && this.service == service && this.pamModule == pamModule && this.backup == backup
      ensures now == 0 && !crashed
    {
      this.world, this.service, this.pamModule, this.backup := world, service, pamModule, backup;
      now, crashed := 0, false;
    }

    ghost predicate Calm(from: nat) {
      forall i: nat :: from <= i ==> world(i).Done?
    }

    /** The next call: whether it takes effect, and whether it reports success. */
    method Call() returns (acts: bool, ok: bool)
      modifies `now, `crashed
      ensures now == old(now) + (if old(crashed) then 0 else 1)
      ensures old(crashed) ==> crashed && !acts
      ensures ok ==> acts && !crashed
      ensures !old(crashed) && world(old(now)).Done? ==> ok
    {
      if crashed { return false, false; }
      var v := world(now);
      now := now + 1;
      crashed := Dies(v);
      acts, ok := Lands(v), v.Done?;
    }

    /** `atomic_write_preserving_mode`: the file is replaced whole or not at all. */
    method ReplaceService(content: string) returns (ok: bool)
      modifies `service, `now, `crashed
      ensures old(crashed) ==> crashed && service == old(service)
      ensures service == old(service) || service == Regular(content)
      ensures ok ==> !crashed && service == Regular(content)
      ensures old(Calm(now)) && !old(crashed) ==> ok
      ensures now >= old(now)
    {
      var acts;
      acts, ok := Call();
      if acts { service := Regular(content); }
    }

    /** `install_module`, from an existing source into an existing directory; a symlink is refused. */
    method InstallModule(sourceIsFile: bool, dirExists: bool, bytes: string) returns (ok: bool)
      modifies `pamModule, `now, `crashed
      ensures old(crashed) ==> crashed && pamModule == old(pamModule)
      ensures pamModule == old(pamModule) || pamModule == Regular(bytes)
      ensures ok ==> !crashed && sourceIsFile && dirExists && pamModule == Regular(bytes)
      ensures old(Calm(now)) && !old(crashed) && sourceIsFile && dirExists && !old(pamModule).Other? ==> ok
      ensures now >= old(now)
    {
      if !sourceIsFile || !dirExists || pamModule.Other? { return false; }
      var acts;
      acts, ok := Call();
      if acts { pamModule := Regular(bytes); }
    }

    /** The one-time backup: created exclusively, then written, then synced. Dying in between leaves a
        regular file with only a part of the bytes. */
    method BackUp(content: string) returns (ok: bool)
      modifies `backup, `now, `crashed
      ensures old(crashed) ==> crashed && backup == old(backup) && !ok
      ensures old(backup).Regular? || old(backup).Other? ==> backup == old(backup)
      ensures ok ==> !crashed && backup.Regular?
      ensures ok && old(backup).Missing? ==> backup == Regular(content)
      ensures old(Calm(now)) && !old(crashed) && !old(backup).Other? ==> ok
      ensures now >= old(now)
    {
      if crashed { return false; }
      if backup.Regular? { return true; }
      if backup.Other? { return false; }
      var acts;
      acts, ok := Call();
      if acts { backup := Regular(""); }
      if !ok { return; }
      acts, ok := Call();
      if ok {
        backup := Regular(content);
      } else if acts {
        var written: nat :| written <= |content|;
        backup := Regular(content[..written]);
      }
      if !ok { return; }
      acts, ok := Call();
    }

    /** `install`. */
    method Install(sourceIsFile: bool, dirExists: bool, bytes: string, ghost original: string) returns (ok: bool)
      requires !crashed
      modifies `service, `pamModule, `backup, `now, `crashed
      ensures old(Sound(original)) && Restorable(original) ==> Sound(original)
      ensures ok ==> !crashed && old(service).Regular? && service == Regular(Added(old(service).content))
                     && PamStack.ValidStack(service.content) && pamModule == Regular(bytes) && backup.Regular?
      ensures ok && old(backup).Missing? ==> backup == old(service)
      ensures (old(Calm(now)) && sourceIsFile && dirExists && !old(pamModule).Other? && !old(backup).Other?) ==>
                (ok <==> old(service).Regular? && PamStack.ValidStack(Added(old(service).content)))
      ensures !old(service).Regular? ==> !ok && service == old(service) && pamModule == old(pamModule) && backup == old(backup)
      ensures old(service).Regular? && !PamStack.ValidStack(Added(old(service).content)) ==>
                !ok && service == old(service) && pamModule == old(pamModule) && backup == old(backup)
      ensures now >= old(now)
    {
      hide PamStack.ValidStack, Added, HasPair, WithNewline;
      if !service.Regular? { return false; }
      var _, read := Call();
      if !read { return false; }
      var content := service.content;
      var edited := AddBlock(content);
      var valid := PamStack.ValidateStack(edited);
      if valid.Err? { return false; }
      ok := InstallModule(sourceIsFile, dirExists, bytes);
      if !ok { return; }
      ok := BackUp(content);
      if !ok { return; }
      AddIsIdempotent(original);
      ok := ReplaceService(edited);
    }

    /** `uninstall`, its edit of the stack: `removed` says that a block stood there and is gone. */
    method Unwire() returns (ok: bool, removed: bool)
      requires !crashed
      modifies `service, `now, `crashed
      ensures service == old(service) || (old(Wired()) && service == Regular(OnePass(old(service).content)))
      ensures ok ==> !crashed && !old(service).Other? && (removed <==> old(Wired()))
      ensures ok && old(service).Regular? ==> service == Regular(OnePass(old(service).content))
      ensures old(service).Other? || (old(Wired()) && !PamStack.ValidStack(OnePass(old(service).content))) ==>
                !ok && service == old(service)
      ensures (old(Calm(now)) && !old(service).Other?
               && (old(Wired()) ==> PamStack.ValidStack(OnePass(old(service).content)))) ==> ok
      ensures now >= old(now)
    {
      hide PamStack.ValidStack, OnePass, HasPair;
      removed := false;
      if service.Other? { return false, false; }
      if service.Missing? { return true, false; }
      var _, read := Call();
      if !read { return false, false; }
      var content := service.content;
      UnchangedWithoutBlock(content);
      var wired := HasBlock(content);
      if !wired { return true, false; }
      var restored := RemoveBlock(content);
      var valid := PamStack.ValidateStack(restored);
      if valid.Err? { return false, false; }
      ok := ReplaceService(restored);
      removed := ok;
    }

    /** `uninstall`; with an unknown module directory the stack is unwired all the same, and a backup goes
        only when a block went. */
    method Uninstall(dirKnown: bool, ghost original: string) returns (ok: bool)
      requires !crashed
      modifies `service, `pamModule, `backup, `now, `crashed
      ensures old(Sound(original)) && Restorable(original) ==> Sound(original)
      ensures ok && old(service).Regular? ==> service == Regular(OnePass(old(service).content))
      ensures ok && dirKnown ==> pamModule.Missing?
      ensures ok && old(Wired()) ==> backup.Missing?
      ensures !old(Wired()) ==> backup == old(backup) && service == old(service)
      ensures (old(Calm(now)) && !old(service).Other? && !old(pamModule).Other? && !old(backup).Other?
               && (old(Wired()) ==> PamStack.ValidStack(OnePass(old(service).content)))) ==> ok
      ensures now >= old(now)
    {
      hide PamStack.ValidStack, OnePass, HasPair, Added, WithNewline;
      RestoredText(original);
      var removed;
      ok, removed := Unwire();
      if !ok { return; }
      if dirKnown {
        ok := RemoveModule();
        if !ok { return; }
      }
      if removed {
        ok := RemoveBackup();
      }
    }

    /** A marker pair stands in the stack. */
    ghost predicate Wired()
      reads `service
    {
      service.Regular? && HasPair(service.content)
    }

    method RemoveModule() returns (ok: bool)
      modifies `pamModule, `now, `crashed
      ensures old(crashed) ==> crashed && pamModule == old(pamModule)
      ensures pamModule == old(pamModule) || pamModule.Missing?
      ensures ok ==> !crashed && pamModule.Missing?
      ensures old(Calm(now)) && !old(crashed) && !old(pamModule).Other? ==> ok
      ensures now >= old(now)
    {
      var acts;
      acts, ok := Call();
      if pamModule.Other? { return false; }
      if acts { pamModule := Missing; }
    }

    method RemoveBackup() returns (ok: bool)
      modifies `backup, `now, `crashed
      ensures old(crashed) ==> crashed && backup == old(backup)
      ensures backup == old(backup) || backup.Missing?
      ensures ok ==> !crashed && backup.Missing?
      ensures old(Calm(now)) && !old(crashed) && !old(backup).Other? ==> ok
      ensures now >= old(now)
    {
      var acts;
      acts, ok := Call();
      if backup.Other? { return false; }
      if acts { backup := Missing; }
    }

    /** The service file is the original or the original with the block, and a wired stack has its module
        and a backup. */
    ghost predicate Sound(original: string)
      reads `service, `pamModule, `backup
    {
      service == Regular(original)
      || (service == Regular(Added(original)) && pamModule.Regular? && backup.Regular?)
    }

    method Boot()
      modifies `crashed
      ensures !crashed
    {
      crashed := false;
    }
  }

  /** A text that uninstalling restores: block-free and ended by a newline, or empty. */
  ghost predicate Restorable(original: string) {
    !HasPair(original) && WithNewline(original) == original
  }

  lemma RestoredText(original: string)
    ensures Restorable(original) ==> OnePass(Added(original)) == original
    ensures Restorable(original) ==> !HasPair(original) && OnePass(original) == original
  {
    RoundTrip(original);
    UnchangedWithoutBlock(original);
  }

  datatype Command = DoInstall(sourceIsFile: bool, dirExists: bool, bytes: string) | DoUninstall(dirKnown: bool)

  /** Any history of installs and uninstalls, each possibly cut short, keeps the stack one of the two texts
      that both pass the check. */
  method Replay(d: Disk, commands: seq<Command>, ghost original: string)
    requires Restorable(original) && PamStack.ValidStack(original)
    requires d.Sound(original)
    modifies d`service, d`pamModule, d`backup, d`now, d`crashed
    ensures d.Sound(original) && d.service.Regular? && PamStack.ValidStack(d.service.content)
  {
    PamMachine.AddedIsValid(original);
    UnchangedWithoutBlock(original);
    for i := 0 to |commands|
      invariant d.Sound(original)
    {
      d.Boot();
      match commands[i] {
        case DoInstall(sourceIsFile, dirExists, bytes) =>
          var _ := d.Install(sourceIsFile, dirExists, bytes, original);
        case DoUninstall(dirKnown) =>
          var _ := d.Uninstall(dirKnown, original);
      }
    }
  }

  /** Installing and uninstalling without faults leaves no trace. */
  method InstallThenUninstall(d: Disk, bytes: string)
    requires !d.crashed && d.Calm(d.now)
    requires d.service.Regular? && Restorable(d.service.content) && PamStack.ValidStack(d.service.content)
    requires d.pamModule.Missing? && d.backup.Missing?
    modifies d`service, d`pamModule, d`backup, d`now, d`crashed
    ensures d.service == old(d.service) && d.pamModule.Missing? && d.backup.Missing?
  {
    ghost var original := d.service.content;
    PamMachine.AddedIsValid(original);
    UnchangedWithoutBlock(original);
    RoundTrip(original);
    AddedHasBlock(original);
    var _ := d.Install(true, true, bytes, original);
    var _ := d.Uninstall(true, original);
  }
}
