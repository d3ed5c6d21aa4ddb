/** `LinuxRedirector`: what apply and restore do as functions of the outside outcomes, the
    theorems about them, and the class that performs them step by step. */
module Linux {
  import opened Base
  import opened LinuxSteps
  import Parse
  import Text

  datatype State = State(active: Active, sys: System)

  datatype Reply = Reply(state: State, result: Outcome)

  /** Everything an apply meets outside: whether the stub file exists, the text of
      `/proc/net/route` if it can be read, the interface indices, whether the metadata of
      `resolv.conf` can be read, and how each operation goes. */
  datatype ApplyEnv = ApplyEnv(
    stub: bool, routes: Option<string>, indices: map<string, int>, setDns: Outcome, setRoute: Outcome,
    copy: Outcome, meta: bool, unlink: Outcome, write: Outcome)

  datatype RestoreEnv = RestoreEnv(revert: Outcome, copyBack: Outcome, remove: Outcome)

  // --- apply ---

  /** The link that `apply_resolved` targets, if there is one. */
  function TargetLink(env: ApplyEnv): Option<int> {
    if env.routes.None? then None
    else
      var iface := Parse.DefaultRouteIface(env.routes.value);
      if iface.Some? && iface.value in env.indices then Some(env.indices[iface.value]) else None
  }

  /** The link whose servers were changed. */
  function Touched(env: ApplyEnv): Option<int> {
    if env.stub && env.setDns.Done? then TargetLink(env) else None
  }

  /** Servers set but the default route refused: nothing reverts the link. */
  predicate HalfLinked(env: ApplyEnv) {
    Touched(env).Some? && env.setRoute.Failed?
  }

  /** The overrides after the two calls on link `i`. */
  function LinkSet(links: map<int, Link>, i: int, proxy: string, env: ApplyEnv): map<int, Link> {
    if env.setDns.Failed? then links
    else links[i := Link(Some(proxy), if env.setRoute.Done? then Some(true) else LinkOf(links, i).defaultRoute)]
  }

  function LinkApply(links: map<int, Link>, proxy: string, env: ApplyEnv): map<int, Link> {
    if env.stub && TargetLink(env).Some? then LinkSet(links, TargetLink(env).value, proxy, env) else links
  }

  datatype FileReply = FileReply(disk: Disk, result: Outcome)

  function FileApply(disk: Disk, proxy: string, env: ApplyEnv): FileReply {
    var copying := disk.conf.Contents().Some? && disk.backup.None?;
    if copying && env.copy.Failed? then FileReply(disk, InContext("backup resolv.conf", env.copy))
    else
      var saved := if copying then disk.(backup := disk.conf.Contents()) else disk;
      var unlinking := env.meta && saved.conf.Symlink?;
      if unlinking && env.unlink.Failed? then
        FileReply(saved, InContext("unlink resolv.conf symlink", env.unlink))
      else
        var bare := if unlinking then saved.(conf := Absent) else saved;
        if env.write.Failed? then FileReply(bare, InContext("write resolv.conf", env.write))
        else FileReply(bare.(conf := bare.conf.Written(Managed(proxy))), Done)
  }

  function Applied(st: State, proxy: string, env: ApplyEnv): Reply {
    var links := LinkApply(st.sys.links, proxy, env);
    if Touched(env).Some? && env.setRoute.Done? then
      Reply(State(Resolved(Touched(env).value), System(st.sys.disk, links)), Done)
    else
      var f := FileApply(st.sys.disk, proxy, env);
      Reply(State(if f.result.Done? then ResolvConf else st.active, System(f.disk, links)), f.result)
  }

  // --- what apply does ---

  /** The route table could be read, its first default route is through an interface, and that has index
      `i`. */
  ghost predicate RoutesThrough(env: ApplyEnv, i: int) {
    env.routes.Some? && exists iface ::
      && Parse.RoutedVia(Parse.SkipOne(Text.Lines(env.routes.value)), iface)
      && iface in env.indices && env.indices[iface] == i
  }

  lemma TargetLinkExactly(env: ApplyEnv)
    ensures forall i :: TargetLink(env) == Some(i) <==> RoutesThrough(env, i)
  {
    hide Parse.RoutedVia;
    if env.routes.Some? {
      var rows := Parse.SkipOne(Text.Lines(env.routes.value));
      forall iface ensures Parse.DefaultRouteIn(rows) == Some(iface) <==> Parse.RoutedVia(rows, iface) {
        Parse.DefaultRouteExactly(rows, iface);
      }
    }
  }

  /** The file path, operation by operation: it makes a backup only of readable contents and over no
      earlier one, replaces a symbolic link whose metadata it can read, and ends with the two lines that
      name the proxy. */
  lemma FileApplyExactly(disk: Disk, proxy: string, env: ApplyEnv)
    ensures var f := FileApply(disk, proxy, env);
            var contents := disk.conf.Contents();
            var copies, unlinks := contents.Some? && disk.backup.None?, disk.conf.Symlink? && env.meta;
            var saved := if copies then contents else disk.backup;
            f == if copies && env.copy.Failed? then
                   FileReply(disk, Failed("backup resolv.conf: " + env.copy.why))
                 else if unlinks && env.unlink.Failed? then
                   FileReply(Disk(disk.conf, saved), Failed("unlink resolv.conf symlink: " + env.unlink.why))
                 else if env.write.Failed? then
                   FileReply(Disk(if unlinks then Absent else disk.conf, saved),
                             Failed("write resolv.conf: " + env.write.why))
                 else
                   var text := "# voidns managed\nnameserver " + proxy + "\n";
                   var conf := if disk.conf.Symlink? && !env.meta then Symlink(Some(text)) else Regular(text);
                   FileReply(Disk(conf, saved), Done)
  {
    assert "backup resolv.conf" + ": " == "backup resolv.conf: ";
    assert "unlink resolv.conf symlink" + ": " == "unlink resolv.conf symlink: ";
    assert "write resolv.conf" + ": " == "write resolv.conf: ";
    assert "# voidns managed\nnameserver " + proxy + "\n" == Managed(proxy);
  }

  /** With systemd-resolved running, a default route through link `i`, and both calls working, apply
      redirects that link and nothing else. */
  lemma AppliedToLink(st: State, proxy: string, env: ApplyEnv, i: int)
    requires env.stub && RoutesThrough(env, i) && env.setDns.Done? && env.setRoute.Done?
    ensures Applied(st, proxy, env) ==
            Reply(State(Resolved(i), System(st.sys.disk, st.sys.links[i := Link(Some(proxy), Some(true))])), Done)
  {
    TargetLinkExactly(env);
  }

  /** With the second call failing it leaves the servers of that link set, and goes on with the file. */
  lemma AppliedHalfWay(st: State, proxy: string, env: ApplyEnv, i: int)
    requires env.stub && RoutesThrough(env, i) && env.setDns.Done? && env.setRoute.Failed?
    ensures var r, f := Applied(st, proxy, env), FileApply(st.sys.disk, proxy, env);
            && r.state.sys == System(f.disk, st.sys.links[i := LinkOf(st.sys.links, i).(dns := Some(proxy))])
            && r.result == f.result && r.state.active == if f.result.Done? then ResolvConf else st.active
  {
    TargetLinkExactly(env);
  }

  /** Without systemd-resolved, without a link to redirect, or with the first call failing, no link changes
      and the file decides: a success is recorded as one of the file. */
  lemma AppliedToFile(st: State, proxy: string, env: ApplyEnv)
    requires !env.stub || env.setDns.Failed? || forall i :: !RoutesThrough(env, i)
    ensures var r, f := Applied(st, proxy, env), FileApply(st.sys.disk, proxy, env);
            && r.state.sys == System(f.disk, st.sys.links)
            && r.result == f.result && r.state.active == if f.result.Done? then ResolvConf else st.active
  {
    TargetLinkExactly(env);
  }

  // --- restore ---

  function FileRestore(disk: Disk, env: RestoreEnv): FileReply {
    if disk.backup.None? then FileReply(disk, Done)
    else if env.copyBack.Failed? then FileReply(disk, InContext("restore resolv.conf", env.copyBack))
    else
      FileReply(Disk(disk.conf.Written(disk.backup.value), if env.remove.Done? then None else disk.backup), Done)
  }

  function Restored(st: State, env: RestoreEnv): Reply {
    match st.active
    case Idle => Reply(st, Done)
    case Resolved(i) =>
      if env.revert.Done? then Reply(State(Idle, System(st.sys.disk, st.sys.links - {i})), Done)
      else Reply(State(Idle, st.sys), InContext("RevertLink", env.revert))
    case ResolvConf =>
      var f := FileRestore(st.sys.disk, env);
      Reply(State(Idle, System(f.disk, st.sys.links)), f.result)
  }

  /** What restore does by record: nothing, one revert, or the copy back followed by the removal of the
      backup, if there is one; the record is gone in every case. */
  lemma RestoredExactly(st: State, env: RestoreEnv)
    ensures var r := Restored(st, env);
            r == match st.active
                 case Idle => Reply(State(Idle, st.sys), Done)
                 case Resolved(i) =>
                   if env.revert.Done? then Reply(State(Idle, System(st.sys.disk, st.sys.links - {i})), Done)
                   else Reply(State(Idle, st.sys), Failed("RevertLink: " + env.revert.why))
                 case ResolvConf =>
                   if st.sys.disk.backup.None? then Reply(State(Idle, st.sys), Done)
                   else if env.copyBack.Failed? then
                     Reply(State(Idle, st.sys), Failed("restore resolv.conf: " + env.copyBack.why))
                   else
                     var text := st.sys.disk.backup.value;
                     var conf := if st.sys.disk.conf.Symlink? then Symlink(Some(text)) else Regular(text);
                     var backup := if env.remove.Done? then None else st.sys.disk.backup;
                     Reply(State(Idle, System(Disk(conf, backup), st.sys.links)), Done)
  {
    assert "RevertLink" + ": " == "RevertLink: ";
    assert "restore resolv.conf" + ": " == "restore resolv.conf: ";
  }

  // --- contract shared with the other redirectors ---

  /** Some resolver of the system is the proxy. */
  ghost predicate Points(sys: System, proxy: string) {
    || (exists i :: i in sys.links && sys.links[i].dns == Some(proxy))
    || sys.disk.conf.Contents() == Some(Managed(proxy))
  }

  /** Whatever points at the proxy is covered by the record, and restore has the way back. */
  ghost predicate Tidy(st: State, proxy: string) {
    && (forall i | i in st.sys.links :: st.sys.links[i].dns == Some(proxy) ==> st.active == Resolved(i))
    && st.sys.disk.backup != Some(Managed(proxy))
    && (st.sys.disk.conf.Contents() == Some(Managed(proxy)) ==> st.active == ResolvConf && st.sys.disk.backup.Some?)
  }

  /** No link left half set, and contents to go back to if the file path got as far as writing. */
  ghost predicate CleanApply(st: State, env: ApplyEnv) {
    && !HalfLinked(env)
    && (Touched(env).None? && st.sys.disk.Original().None? ==> StopsBeforeWrite(st.sys.disk, env))
  }

  /** The unlinking or the write itself fails. */
  predicate StopsBeforeWrite(disk: Disk, env: ApplyEnv) {
    env.write.Failed? || (disk.conf.Symlink? && env.meta && env.unlink.Failed?)
  }

  /** The one operation that undoes the redirect succeeded. */
  ghost predicate CleanRestore(st: State, env: RestoreEnv) {
    && (st.active.Resolved? ==> env.revert.Done?)
    && (st.active.ResolvConf? ==> env.copyBack.Done?)
  }

  lemma ApplyContract(st: State, proxy: string, env: ApplyEnv)
    requires st.active == Idle
    ensures var r := Applied(st, proxy, env);
            && (r.result.Done? <==> r.state.active != Idle)
            && (r.result.Done? ==> Points(r.state.sys, proxy))
            && (Tidy(st, proxy) ==> (CleanApply(st, env) <==> Tidy(r.state, proxy)))
  {
    var r := Applied(st, proxy, env);
    if Touched(env).Some? {
      var i := Touched(env).value;
      assert i in r.state.sys.links && r.state.sys.links[i].dns == Some(proxy);
    }
  }

  lemma RestoreContract(st: State, proxy: string, env: RestoreEnv)
    ensures var r := Restored(st, env);
            && r.state.active == Idle
            && (Tidy(st, proxy) && CleanRestore(st, env) ==> Tidy(r.state, proxy) && !Points(r.state.sys, proxy))
            && (forall again: RestoreEnv :: Restored(r.state, again) == Reply(r.state, Done))
  {
  }

  /** The outcomes that leave something on the proxy: a link left half set, an undoing operation
      that failed, or a file rewritten without any contents to go back to. */
  ghost predicate LeftPointing(st: State, proxy: string, a: ApplyEnv, b: RestoreEnv) {
    var r := Applied(st, proxy, a).state;
    || HalfLinked(a)
    || (r.active.Resolved? && b.revert.Failed?)
    || (r.active.ResolvConf? && (st.sys.disk.Original().None? || b.copyBack.Failed?))
  }

  /** From a system that does not use the proxy, over all outcomes of a connect and a disconnect: the
      system is left pointing at the proxy exactly under `LeftPointing`. */
  lemma LeftPointingExactly(st: State, proxy: string, a: ApplyEnv, b: RestoreEnv)
    requires st.active == Idle && Tidy(st, proxy)
    ensures Points(Restored(Applied(st, proxy, a).state, b).state.sys, proxy) <==> LeftPointing(st, proxy, a, b)
  {
    var r := Applied(st, proxy, a).state;
    if Touched(a).Some? {
      var i := Touched(a).value;
      assert i in r.sys.links && r.sys.links[i].dns == Some(proxy);
      if HalfLinked(a) || b.revert.Failed? {
        assert i in Restored(r, b).state.sys.links;
      }
    }
  }

  /** The overrides come back: no link was touched, or the one touched ends as it was before. */
  ghost predicate LinksComeBack(links: map<int, Link>, proxy: string, a: ApplyEnv, b: RestoreEnv) {
    Touched(a).Some? ==>
      var i := Touched(a).value;
      if a.setRoute.Failed? then i in links && links[i].dns == Some(proxy)
      else if b.revert.Done? then i !in links
      else i in links && links[i] == Link(Some(proxy), Some(true))
  }

  /** The file path leaves the disk as it was. With a backup of this apply's own: it failed to make it, or
      everything worked and no symbolic link was removed. With a backup left by an earlier process:
      nothing was changed, or what was written last is what `resolv.conf` already held and the backup
      stayed. Without contents: nothing was changed. */
  ghost predicate FileComesBack(disk: Disk, proxy: string, a: ApplyEnv, b: RestoreEnv) {
    var unlinking := disk.conf.Symlink? && a.meta;
    if disk.backup.Some? then
      if unlinking then a.unlink.Failed?
      else if a.write.Failed? then true
      else if b.copyBack.Failed? then disk.conf.Contents() == Some(Managed(proxy))
      else b.remove.Failed? && disk.conf.Contents() == disk.backup
    else if disk.conf.Contents().Some? then
      a.copy.Failed? || (a.write.Done? && b.copyBack.Done? && b.remove.Done? && !unlinking)
    else
      if unlinking then a.unlink.Failed? else a.write.Failed?
  }

  /** Over all outcomes and from every idle state, leftovers of earlier processes included: connect
      then disconnect gives back the whole system, links, file, kind of file and backup, exactly when
      the links come back and the file path, if it was taken, leaves the disk as it was. */
  lemma SameSystemExactly(st: State, proxy: string, a: ApplyEnv, b: RestoreEnv)
    requires st.active == Idle
    ensures Restored(Applied(st, proxy, a).state, b).state.sys == st.sys <==>
            && LinksComeBack(st.sys.links, proxy, a, b)
            && (Touched(a).None? || a.setRoute.Failed? ==> FileComesBack(st.sys.disk, proxy, a, b))
  {
    var r := Applied(st, proxy, a).state;
    LinksComeBackExactly(st, proxy, a, b);
    if Touched(a).None? || a.setRoute.Failed? {
      DiskComesBackExactly(st, proxy, a, b);
    }
  }

  lemma LinksComeBackExactly(st: State, proxy: string, a: ApplyEnv, b: RestoreEnv)
    requires st.active == Idle
    ensures Restored(Applied(st, proxy, a).state, b).state.sys.links == st.sys.links <==>
            LinksComeBack(st.sys.links, proxy, a, b)
  {
    hide FileApply;
    hide FileRestore;
    var end := Restored(Applied(st, proxy, a).state, b).state.sys.links;
    if Touched(a).Some? {
      var i := Touched(a).value;
      if LinksComeBack(st.sys.links, proxy, a, b) {
        assert forall j :: j in end <==> j in st.sys.links;
        assert forall j | j in end :: end[j] == st.sys.links[j];
      } else if a.setRoute.Failed? || b.revert.Failed? {
        assert i in end && end[i].dns == Some(proxy);
      } else {
        assert i !in end;
      }
    }
  }

  lemma DiskComesBackExactly(st: State, proxy: string, a: ApplyEnv, b: RestoreEnv)
    requires st.active == Idle && (Touched(a).None? || a.setRoute.Failed?)
    ensures Restored(Applied(st, proxy, a).state, b).state.sys.disk == st.sys.disk <==>
            FileComesBack(st.sys.disk, proxy, a, b)
  {
  }

  /** The same when apply and every undoing operation succeed: the exact prior state comes back
      exactly when the links do, and the file path was only taken with readable contents, not
      behind a symbolic link whose metadata could be read, and with no backup left behind. */
  lemma RoundTripExactly(st: State, proxy: string, a: ApplyEnv, b: RestoreEnv)
    requires st.active == Idle
    requires Applied(st, proxy, a).result.Done?
    requires b.revert.Done? && b.copyBack.Done? && b.remove.Done?
    ensures var r := Applied(st, proxy, a).state;
            Restored(r, b).state.sys == st.sys <==>
            && LinksComeBack(st.sys.links, proxy, a, b)
            && (r.active.ResolvConf? ==>
                  && st.sys.disk.conf.Contents().Some? && st.sys.disk.backup.None?
                  && !(st.sys.disk.conf.Symlink? && a.meta))
  {
    SameSystemExactly(st, proxy, a, b);
  }

  /** The contents alone come back also through a symbolic link, and then it is the link that is lost;
      a backup left behind comes back in their place, and is gone. */
  lemma ContentsComeBackExactly(st: State, proxy: string, a: ApplyEnv, b: RestoreEnv)
    requires st.active == Idle
    requires Applied(st, proxy, a).result.Done?
    requires b.revert.Done? && b.copyBack.Done? && b.remove.Done?
    ensures var r := Applied(st, proxy, a).state;
            var disk, end := st.sys.disk, Restored(r, b).state.sys;
            && (end.links == st.sys.links <==> LinksComeBack(st.sys.links, proxy, a, b))
            && (r.active.Resolved? ==> end.disk == disk)
            && (r.active.ResolvConf? ==>
                  && end.disk.backup.None?
                  && (end.disk.conf.Contents() == disk.conf.Contents() <==>
                        disk.conf.Contents().Some? && disk.Original() == disk.conf.Contents())
                  && (disk.Original().Some? ==>
                        end.disk.conf == if disk.conf.Symlink? && a.meta then Regular(disk.Original().value)
                                         else disk.conf.Written(disk.Original().value)))
  {
    LinksComeBackExactly(st, proxy, a, b);
  }

  /** The link overrides a complete link apply and restore disturb: those of its own link only. */
  lemma OtherLinksUntouched(st: State, proxy: string, a: ApplyEnv, b: RestoreEnv, i: int)
    requires st.active == Idle && Touched(a) != Some(i)
    ensures var end := Restored(Applied(st, proxy, a).state, b).state.sys;
            (i in end.links <==> i in st.sys.links) && LinkOf(end.links, i) == LinkOf(st.sys.links, i)
  {
  }

  /** A symbolic link is replaced, so that its target is not written, exactly when its metadata
      could be read; otherwise the proxy's text goes through the link. */
  lemma LinkTargetSparedExactly(disk: Disk, proxy: string, env: ApplyEnv)
    requires FileApply(disk, proxy, env).result.Done?
    ensures var conf := FileApply(disk, proxy, env).disk.conf;
            && conf.Contents() == Some(Managed(proxy))
            && (conf.Symlink? <==> disk.conf.Symlink? && !env.meta)
  {
  }

  // --- recovery after crashes ---

  /** An apply on the file path in which nothing fails. */
  ghost predicate SucceedsOnFile(env: ApplyEnv) {
    Touched(env).None? && env.copy.Done? && env.unlink.Done? && env.write.Done?
  }

  /** Applying and restoring over any leftovers brings back the kept text if and only if there
      is one; without it the file goes on naming the proxy. */
  lemma FileRecovery(sys: System, proxy: string, a: ApplyEnv, b: RestoreEnv)
    requires SucceedsOnFile(a) && b.copyBack.Done? && b.remove.Done?
    ensures var end := Restored(Applied(State(Idle, sys), proxy, a).state, b).state.sys.disk;
            && end.backup.None?
            && (sys.disk.Original().Some? ==> end.conf.Contents() == sys.disk.Original())
            && (sys.disk.Original().None? ==> end.conf.Contents() == Some(Managed(proxy)))
  {
  }

  /** Why outside edits must wait for the backup to go: whatever `resolv.conf` is edited to while a
      backup exists, the next restore writes the backup over it, both in this process and, after
      a crash, through another apply; the edit survives exactly when it repeats the backup. */
  lemma EditOverBackupIsLost(m: Mach, edit: Conf, proxy: string, a: ApplyEnv, b: RestoreEnv)
    requires m.sys.disk.backup.Some? && edit.Contents().Some?
    requires SucceedsOnFile(a) && b.copyBack.Done? && b.remove.Done?
    ensures var edited := Next(m, Edit(edit));
            var crashed := Next(edited, Crash);
            var end := Restored(Applied(State(crashed.active, crashed.sys), proxy, a).state, b).state.sys.disk.conf;
            && end.Contents() == m.sys.disk.backup
            && (end.Contents() == edit.Contents() <==> edit.Contents() == m.sys.disk.backup)
            && (m.active == ResolvConf ==>
                  Restored(State(m.active, edited.sys), b).state.sys.disk.conf.Contents() == m.sys.disk.backup)
  {
    FileRecovery(System(m.sys.disk.(conf := edit), m.sys.links), proxy, a, b);
  }

  /** From wherever any run of steps, failures and crashes has led, one successful file apply
      and one successful restore leave the user's text in `resolv.conf` and no backup. */
  lemma RecoversFromAnyRun(boot: Mach, log: seq<Label>, proxy: string, a: ApplyEnv, b: RestoreEnv)
    requires boot.pc.Rest? && boot.sys.disk.Original().Some?
    requires Allowed(boot, log) && PoliteEdits(boot, log)
    requires SucceedsOnFile(a) && b.copyBack.Done? && b.remove.Done?
    ensures var crashed := Next(Run(boot, log), Crash);
            var end := Restored(Applied(State(crashed.active, crashed.sys), proxy, a).state, b).state;
            end.active == Idle && end.sys.disk.backup.None? && end.sys.disk.conf.Contents() == UsersText(boot, log)
  {
    CrashConsistent(boot, log);
    FileRecovery(Run(boot, log).sys, proxy, a, b);
  }

  /** After a crash the record is gone: if the next connect takes the link path, its disconnect
      leaves the file and the backup as the crash left them, and clears any override the crash
      left on that same link. */
  lemma LinkPathDoesNotRecover(sys: System, proxy: string, a: ApplyEnv, b: RestoreEnv)
    requires Touched(a).Some? && a.setRoute.Done?
    ensures var end := Restored(Applied(State(Idle, sys), proxy, a).state, b).state.sys;
            && end.disk == sys.disk
            && (b.revert.Done? ==> end.links == sys.links - {Touched(a).value})
  {
  }

  /** Without readable contents at first, a second redirect takes the proxy's own text for the
      original: from then on every restore writes it back. */
  lemma MissingFileIsNotRecovered(sys: System, proxy: string, a: ApplyEnv, b: RestoreEnv, a2: ApplyEnv)
    requires sys.disk.Original().None? && SucceedsOnFile(a) && SucceedsOnFile(a2)
    ensures var once := Restored(Applied(State(Idle, sys), proxy, a).state, b).state;
            Applied(once, proxy, a2).state.sys.disk.Original() == Some(Managed(proxy))
  {
  }

  /** A restore that could not delete the backup still reports success. An edit made afterwards
      survives the next connect and disconnect exactly when the deletion had worked (or the edit
      changed nothing). */
  lemma EditAfterRestoreSurvivesExactly(
      st: State, b: RestoreEnv, edit: Conf, proxy: string, a2: ApplyEnv, b2: RestoreEnv)
    requires st.active == ResolvConf && st.sys.disk.backup.Some? && b.copyBack.Done? && edit.Contents().Some?
    requires SucceedsOnFile(a2) && b2.copyBack.Done? && b2.remove.Done?
    ensures var r := Restored(st, b);
            var edited := State(Idle, System(r.state.sys.disk.(conf := edit), r.state.sys.links));
            var end := Restored(Applied(edited, proxy, a2).state, b2).state.sys.disk.conf;
            && r.result.Done?
            && (end.Contents() == edit.Contents() <==> b.remove.Done? || edit.Contents() == st.sys.disk.backup)
  {
  }

  // --- the class ---

  /** The part of the machine the redirector changes. `mach` follows every operation as a step
      of the machine; `log` is all of them since `boot`. */
  class LinuxSystem {
    var disk: Disk
    var links: map<int, Link>
    ghost const boot: Mach
    ghost var mach: Mach
    ghost var log: seq<Label>

    ghost predicate Valid()
      reads this
    {
      && mach.sys == System(disk, links)
      && Allowed(boot, log) && mach == Run(boot, log)
    }

    constructor (disk: Disk, links: map<int, Link>)
      ensures Valid() && log == [] && mach == boot
      ensures this.disk == disk && this.links == links
    {
      this.disk, this.links := disk, links;
      boot := Mach(Rest, Idle, System(disk, links));
      mach, log := Mach(Rest, Idle, System(disk, links)), [];
    }

    /** Take one step of the machine; `disk` and `links` follow it. */
    method Step(ghost l: Label, disk: Disk, links: map<int, Link>)
      requires Valid() && Enabled(mach, l) && Next(mach, l).sys == System(disk, links)
      modifies this
      ensures Valid() && mach == Next(old(mach), l) && log == old(log) + [l]
      ensures this.disk == disk && this.links == links
    {
      RunOneMore(boot, log, l);
      mach, log := Next(mach, l), log + [l];
      this.disk, this.links := disk, links;
    }
  }

  class LinuxRedirector {
    var active: Active
    const system: LinuxSystem

    ghost predicate Valid()
      reads this, system
    {
      system.Valid() && system.mach.pc.Rest? && system.mach.active == active
    }

    ghost function View(): State
      reads this, system
    {
      State(active, System(system.disk, system.links))
    }

    /** A fresh process: whatever an earlier one was doing has been cut off. */
    constructor (system: LinuxSystem)
      requires system.Valid()
      modifies system
      ensures Valid() && this.system == system
      ensures View() == State(Idle, old(System(system.disk, system.links)))
      ensures system.log == old(system.log) + [Crash]
    {
      this.system := system;
      active := Idle;
      new;
      system.Step(Crash, system.disk, system.links);
    }

    /** `apply`: the link path first, the file path if that fails. */
    method Apply(proxy: string, env: ApplyEnv) returns (r: Outcome)
      requires Valid()
      modifies this, system
      ensures Valid() && old(system.log) <= system.log
      ensures Reply(View(), r) == Applied(old(View()), proxy, env)
    {
      system.Step(LinuxSteps.Label.Apply(proxy, env.stub), system.disk, system.links);
      if env.stub {
        var linked := ApplyResolved(proxy, env);
        if linked.Some? {
          active := Resolved(linked.value);
          return Done;
        }
      }
      r := ResolvConfApply(proxy, env);
      if r.Done? {
        active := ResolvConf;
      }
    }

    /** `default_route_iface` and `if_nametoindex`. */
    method FindLink(env: ApplyEnv) returns (target: Option<int>)
      ensures target == TargetLink(env)
      ensures forall i :: target == Some(i) <==> RoutesThrough(env, i)
    {
      TargetLinkExactly(env);
      if env.routes.Some? {
        var iface := Parse.ParseDefaultRouteIface(env.routes.value);
        if iface.Some? && iface.value in env.indices {
          return Some(env.indices[iface.value]);
        }
      }
      return None;
    }

    /** `apply_resolved`: the targeted link on success. */
    method ApplyResolved(proxy: string, env: ApplyEnv) returns (r: Option<int>)
      requires system.Valid() && system.mach.pc == LookingUp(proxy) && env.stub
      modifies system
      ensures system.Valid() && old(system.log) <= system.log
      ensures system.disk == old(system.disk) && system.links == LinkApply(old(system.links), proxy, env)
      ensures r == if env.setRoute.Done? then Touched(env) else None
      ensures r.Some? ==> system.mach.pc == Rest && system.mach.active == Resolved(r.value)
      ensures r.None? ==> system.mach.pc == Probing(proxy) && system.mach.active == old(system.mach.active)
    {
      hide TargetLink;
      hide LinkSet;
      var target := FindLink(env);
      system.Step(LookUp(target), system.disk, system.links);
      if target.Some? {
        var ok := SetLink(target.value, proxy, env);
        return if ok then target else None;
      }
      return None;
    }

    /** `set_link_dns`, then `set_link_default_route`; a failure of the second leaves the first. */
    method SetLink(i: int, proxy: string, env: ApplyEnv) returns (ok: bool)
      requires system.Valid() && system.mach.pc == SettingDns(proxy, i)
      modifies system
      ensures system.Valid() && old(system.log) <= system.log && system.disk == old(system.disk)
      ensures system.links == LinkSet(old(system.links), i, proxy, env)
      ensures ok <==> env.setDns.Done? && env.setRoute.Done?
      ensures system.mach.pc == if ok then Rest else Probing(proxy)
      ensures system.mach.active == if ok then Resolved(i) else old(system.mach.active)
    {
      if env.setDns.Failed? {
        system.Step(SetDns(false), system.disk, system.links);
        return false;
      }
      system.Step(SetDns(true), system.disk,
                  system.links[i := LinkOf(system.links, i).(dns := Some(proxy))]);
      system.Step(SetRoute(env.setRoute.Done?), system.disk,
                  if env.setRoute.Done?
                  then system.links[i := LinkOf(system.links, i).(defaultRoute := Some(true))] else system.links);
      return env.setRoute.Done?;
    }

    /** The backup step of `resolvconf_apply`: an existing backup is kept. */
    method BackUp(proxy: string, env: ApplyEnv) returns (r: Outcome)
      requires system.Valid() && system.mach.pc == Probing(proxy)
      modifies system
      ensures system.Valid() && old(system.log) <= system.log
      ensures system.links == old(system.links) && system.mach.active == old(system.mach.active)
      ensures var copying := old(system.disk.conf.Contents().Some? && system.disk.backup.None?);
              && r == (if copying then InContext("backup resolv.conf", env.copy) else Done)
              && system.disk == (if copying && r.Done? then old(system.disk.(backup := system.disk.conf.Contents()))
                                 else old(system.disk))
      ensures system.mach.pc == if r.Done? then Unlinking(proxy) else Rest
    {
      var copying := system.disk.conf.Contents().Some? && system.disk.backup.None?;
      system.Step(Probe, system.disk, system.links);
      if copying {
        system.Step(Copy(env.copy.Done?),
                    if env.copy.Done? then system.disk.(backup := system.disk.conf.Contents()) else system.disk,
                    system.links);
        return InContext("backup resolv.conf", env.copy);
      }
      return Done;
    }

    /** The unlink step of `resolvconf_apply`: a symbolic link is removed, not written through. */
    method RemoveLink(proxy: string, env: ApplyEnv) returns (r: Outcome)
      requires system.Valid() && system.mach.pc == Unlinking(proxy)
      modifies system
      ensures system.Valid() && old(system.log) <= system.log
      ensures system.links == old(system.links) && system.mach.active == old(system.mach.active)
      ensures var unlinking := env.meta && old(system.disk).conf.Symlink?;
              && r == (if unlinking then InContext("unlink resolv.conf symlink", env.unlink) else Done)
              && system.disk == (if unlinking && r.Done? then old(system.disk).(conf := Absent) else old(system.disk))
      ensures system.mach.pc == if r.Done? then Writing(proxy) else Rest
    {
      var unlinking := env.meta && system.disk.conf.Symlink?;
      system.Step(Unlink(env.meta, env.unlink.Done?),
                  if unlinking && env.unlink.Done? then system.disk.(conf := Absent) else system.disk, system.links);
      return if unlinking then InContext("unlink resolv.conf symlink", env.unlink) else Done;
    }

    /** `resolvconf_apply`. */
    method ResolvConfApply(proxy: string, env: ApplyEnv) returns (r: Outcome)
      requires system.Valid() && system.mach.pc == Probing(proxy)
      modifies system
      ensures system.Valid() && old(system.log) <= system.log
      ensures system.links == old(system.links)
      ensures FileReply(system.disk, r) == FileApply(old(system.disk), proxy, env)
      ensures system.mach.pc == Rest
      ensures system.mach.active == if r.Done? then ResolvConf else old(system.mach.active)
    {
      r := BackUp(proxy, env);
      if r.Done? {
        r := RemoveLink(proxy, env);
      }
      if r.Done? {
        system.Step(Write(env.write.Done?),
                    if env.write.Done? then system.disk.(conf := system.disk.conf.Written(Managed(proxy)))
                    else system.disk,
                    system.links);
        r := InContext("write resolv.conf", env.write);
      }
    }

    /** `restore`: the record is taken first, whatever the outcome. */
    method Restore(env: RestoreEnv) returns (r: Outcome)
      requires Valid()
      modifies this, system
      ensures Valid() && old(system.log) <= system.log
      ensures Reply(View(), r) == Restored(old(View()), env)
    {
      var was := active;
      active := Idle;
      system.Step(LinuxSteps.Label.Restore, system.disk, system.links);
      match was {
        case Idle => r := Done;
        case Resolved(i) =>
          system.Step(Revert(env.revert.Done?), system.disk,
                      if env.revert.Done? then system.links - {i} else system.links);
          r := InContext("RevertLink", env.revert);
        case ResolvConf => r := ResolvConfRestore(env);
      }
    }

    /** `resolvconf_restore`. */
    method ResolvConfRestore(env: RestoreEnv) returns (r: Outcome)
      requires system.Valid() && system.mach.pc == ProbingBackup
      modifies system
      ensures system.Valid() && old(system.log) <= system.log
      ensures system.links == old(system.links)
      ensures FileReply(system.disk, r) == FileRestore(old(system.disk), env)
      ensures system.mach.pc == Rest && system.mach.active == old(system.mach.active)
    {
      var found := system.disk.backup;
      system.Step(ProbeBackup, system.disk, system.links);
      if found.None? {
        return Done;
      }
      if env.copyBack.Failed? {
        system.Step(CopyBack(false), system.disk, system.links);
        return InContext("restore resolv.conf", env.copyBack);
      }
      system.Step(CopyBack(true), system.disk.(conf := system.disk.conf.Written(found.value)), system.links);
      system.Step(Remove(env.remove.Done?),
                  if env.remove.Done? then system.disk.(backup := None) else system.disk, system.links);
      return Done;
    }
  }

  /** However the classes are used, by any number of processes one after the other and cut off
      anywhere, the user's text is where it should be at the current moment. */
  lemma UsersTextIsKept(system: LinuxSystem)
    requires system.Valid() && system.boot.pc.Rest? && system.boot.sys.disk.Original().Some?
    requires PoliteEdits(system.boot, system.log)
    ensures var text := UsersText(system.boot, system.log);
            text.Some? && Kept(system.disk, text.value)
  {
    CrashConsistent(system.boot, system.log);
  }
}
