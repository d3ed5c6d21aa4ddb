/** The Linux redirector as a machine of atomic steps over the file system and the
    systemd-resolved links, with process death possible between any two of them. */
module LinuxSteps {
  import opened Base

  /** `/etc/resolv.conf`: missing, a file, or a symbolic link (dangling when its target is `None`). */
  datatype Conf = Absent | Regular(text: string) | Symlink(target: Option<string>) {

    /** What reading the path gives; `None` is also when `Path::exists` says no. */
    function Contents(): Option<string> {
      match this
      case Absent => None
      case Regular(text) => Some(text)
      case Symlink(target) => target
    }

    /** After writing or copying to the path, which follows a link. */
    function Written(text: string): Conf {
      if Symlink? then Symlink(Some(text)) else Regular(text)
    }
  }

  datatype Disk = Disk(conf: Conf, backup: Option<string>) {

    /** The contents a restore should bring back: the backup if there is one. */
    function Original(): Option<string> {
      if backup.Some? then backup else conf.Contents()
    }
  }

  /** The text the redirector writes. */
  function Managed(proxy: string): string {
    "# voidns managed\nnameserver " + proxy + "\n"
  }

  /** Runtime overrides of one link; a link without any is not in the map. */
  datatype Link = Link(dns: Option<string>, defaultRoute: Option<bool>)

  function LinkOf(links: map<int, Link>, ifindex: int): Link {
    if ifindex in links then links[ifindex] else Link(None, None)
  }

  datatype System = System(disk: Disk, links: map<int, Link>)

  datatype Active = Idle | Resolved(ifindex: int) | ResolvConf

  /** The next operation of `apply` or `restore`; `Rest` between calls. */
  datatype Pc =
    | Rest
    | LookingUp(proxy: string)
    | SettingDns(proxy: string, ifindex: int)
    | SettingRoute(proxy: string, ifindex: int)
    | Probing(proxy: string)
    | Copying(proxy: string)
    | Unlinking(proxy: string)
    | Writing(proxy: string)
    | Reverting(ifindex: int)
    | ProbingBackup
    | CopyingBack
    | Removing

  datatype Mach = Mach(pc: Pc, active: Active, sys: System)

  datatype Label =
    | Apply(to: string, stub: bool)
    | LookUp(index: Option<int>)
    | SetDns(ok: bool)
    | SetRoute(ok: bool)
    | Probe
    | Copy(ok: bool)
    | Unlink(meta: bool, ok: bool)
    | Write(ok: bool)
    | Restore
    | Revert(ok: bool)
    | ProbeBackup
    | CopyBack(ok: bool)
    | Remove(ok: bool)
    | Crash
    | Edit(conf: Conf)

  predicate Enabled(m: Mach, l: Label) {
    match l
    case Apply(_, _) => m.pc.Rest?
    case LookUp(_) => m.pc.LookingUp?
    case SetDns(_) => m.pc.SettingDns?
    case SetRoute(_) => m.pc.SettingRoute?
    case Probe => m.pc.Probing?
    case Copy(ok) => m.pc.Copying? && (ok ==> m.sys.disk.conf.Contents().Some?)
    case Unlink(_, _) => m.pc.Unlinking?
    case Write(_) => m.pc.Writing?
    case Restore => m.pc.Rest?
    case Revert(_) => m.pc.Reverting?
    case ProbeBackup => m.pc.ProbingBackup?
    case CopyBack(ok) => m.pc.CopyingBack? && (ok ==> m.sys.disk.backup.Some?)
    case Remove(_) => m.pc.Removing?
    case Crash => true
    case Edit(_) => true
  }

  function Next(m: Mach, l: Label): Mach
    requires Enabled(m, l)
  {
    var disk, links := m.sys.disk, m.sys.links;
    match l
    case Apply(to, stub) => m.(pc := if stub then LookingUp(to) else Probing(to))
    case LookUp(index) =>
      m.(pc := if index.Some? then SettingDns(m.pc.proxy, index.value) else Probing(m.pc.proxy))
    case SetDns(ok) =>
      if ok then
        var i := m.pc.ifindex;
        m.(pc := SettingRoute(m.pc.proxy, i),
           sys := System(disk, links[i := LinkOf(links, i).(dns := Some(m.pc.proxy))]))
      else
        m.(pc := Probing(m.pc.proxy))
    case SetRoute(ok) =>
      if ok then
        var i := m.pc.ifindex;
        Mach(Rest, Resolved(i), System(disk, links[i := LinkOf(links, i).(defaultRoute := Some(true))]))
      else
        m.(pc := Probing(m.pc.proxy))
    case Probe =>
      m.(pc := if disk.conf.Contents().Some? && disk.backup.None? then Copying(m.pc.proxy) else Unlinking(m.pc.proxy))
    case Copy(ok) =>
      if ok then
        m.(pc := Unlinking(m.pc.proxy), sys := System(disk.(backup := disk.conf.Contents()), links))
      else
        m.(pc := Rest)
    case Unlink(meta, ok) =>
      if !meta || !disk.conf.Symlink? then
        m.(pc := Writing(m.pc.proxy))
      else if ok then
        m.(pc := Writing(m.pc.proxy), sys := System(disk.(conf := Absent), links))
      else
        m.(pc := Rest)
    case Write(ok) =>
      if ok then
        Mach(Rest, ResolvConf, System(disk.(conf := disk.conf.Written(Managed(m.pc.proxy))), links))
      else
        m.(pc := Rest)
    case Restore =>
      Mach(match m.active case Idle => Rest case Resolved(i) => Reverting(i) case ResolvConf => ProbingBackup,
           Idle, m.sys)
    case Revert(ok) =>
      m.(pc := Rest, sys := if ok then System(disk, links - {m.pc.ifindex}) else m.sys)
    case ProbeBackup => m.(pc := if disk.backup.Some? then CopyingBack else Rest)
    case CopyBack(ok) =>
      if ok then
        m.(pc := Removing, sys := System(disk.(conf := disk.conf.Written(disk.backup.value)), links))
      else
        m.(pc := Rest)
    case Remove(ok) =>
      m.(pc := Rest, sys := if ok then System(disk.(backup := None), links) else m.sys)
    case Crash => Mach(Rest, Idle, m.sys)
    case Edit(conf) => m.(sys := System(disk.(conf := conf), links))
  }

  // --- runs ---

  /** The state after a run; a label that is not enabled changes nothing. */
  ghost function Run(boot: Mach, log: seq<Label>): Mach {
    if log == [] then boot
    else
      var m := Run(boot, log[..|log| - 1]);
      if Enabled(m, Last(log)) then Next(m, Last(log)) else m
  }

  /** Every label was enabled when it was taken. */
  ghost predicate Allowed(boot: Mach, log: seq<Label>) {
    log != [] ==> Allowed(boot, log[..|log| - 1]) && Enabled(Run(boot, log[..|log| - 1]), Last(log))
  }

  lemma RunOneMore(boot: Mach, log: seq<Label>, l: Label)
    requires Allowed(boot, log) && Enabled(Run(boot, log), l)
    ensures Allowed(boot, log + [l]) && Run(boot, log + [l]) == Next(Run(boot, log), l)
  {
    assert (log + [l])[..|log + [l]| - 1] == log;
  }

  /** Nobody else writes `resolv.conf` while a backup exists, and an outside edit leaves a
      readable file. */
  ghost predicate PoliteEdits(boot: Mach, log: seq<Label>) {
    log == [] ||
    (&& PoliteEdits(boot, log[..|log| - 1])
     && (Last(log).Edit? ==>
           && Run(boot, log[..|log| - 1]).sys.disk.backup.None?
           && Last(log).conf.Contents().Some?))
  }

  /** The user's own contents after a run: those of the last outside edit, or those at boot. */
  ghost function UsersText(boot: Mach, log: seq<Label>): Option<string> {
    if log == [] then boot.sys.disk.Original()
    else if Last(log).Edit? then Last(log).conf.Contents()
    else UsersText(boot, log[..|log| - 1])
  }

  // --- crash consistency ---

  /** The user's contents are in `resolv.conf` when there is no backup, and in the backup when
      there is one. */
  ghost predicate Kept(disk: Disk, text: string) {
    disk.Original() == Some(text)
  }

  /** What makes `Kept` survive every step: an existing backup is never overwritten, the backup is
      in place before the file is touched, and the file is back before the backup goes. */
  ghost predicate Safe(m: Mach, text: string) {
    && Kept(m.sys.disk, text)
    && (m.pc.Copying? ==> m.sys.disk.backup.None?)
    && (m.pc.Unlinking? || m.pc.Writing? || m.pc.CopyingBack? ==> m.sys.disk.backup.Some?)
    && (m.pc.Removing? ==> m.sys.disk.conf.Contents() == Some(text))
  }

  lemma SafeStep(m: Mach, l: Label, text: string)
    requires Safe(m, text) && Enabled(m, l)
    requires l.Edit? ==> m.sys.disk.backup.None? && l.conf.Contents().Some?
    ensures Safe(Next(m, l), if l.Edit? then l.conf.Contents().value else text)
  {
  }

  /** Crash consistency, over every run of single file steps with any failures, any crashes
      and any outside edits made while no backup exists. */
  lemma {:induction false} CrashConsistent(boot: Mach, log: seq<Label>)
    requires boot.pc.Rest? && boot.sys.disk.Original().Some?
    requires Allowed(boot, log) && PoliteEdits(boot, log)
    ensures UsersText(boot, log).Some? && Safe(Run(boot, log), UsersText(boot, log).value)
    ensures var disk := Run(boot, log).sys.disk;
            if disk.backup.None? then disk.conf.Contents() == UsersText(boot, log)
            else disk.backup == UsersText(boot, log)
  {
    if log != [] {
      var before := log[..|log| - 1];
      CrashConsistent(boot, before);
      SafeStep(Run(boot, before), Last(log), UsersText(boot, before).value);
    }
  }

  lemma {:induction false} PrefixAllowed(boot: Mach, log: seq<Label>, k: nat)
    requires k <= |log| && Allowed(boot, log) && PoliteEdits(boot, log)
    ensures Allowed(boot, log[..k]) && PoliteEdits(boot, log[..k])
  {
    if k < |log| {
      assert log[..|log| - 1][..k] == log[..k];
      PrefixAllowed(boot, log[..|log| - 1], k);
    } else {
      assert log[..k] == log;
    }
  }

  /** The same at every point of a run, also those between two operations of one call. */
  lemma KeptAtEveryPoint(boot: Mach, log: seq<Label>, k: nat)
    requires boot.pc.Rest? && boot.sys.disk.Original().Some?
    requires Allowed(boot, log) && PoliteEdits(boot, log) && k <= |log|
    ensures UsersText(boot, log[..k]).Some? && Kept(Run(boot, log[..k]).sys.disk, UsersText(boot, log[..k]).value)
  {
    PrefixAllowed(boot, log, k);
    CrashConsistent(boot, log[..k]);
  }
}
