/** `DnsRedirector`: one contract, three implementations. */
module Redirect {
  import opened Base
  import L = Linux
  import M = Macos
  import W = Windows

  datatype Redirector = OnLinux(l: L.State) | OnMacos(m: M.State) | OnWindows(w: W.State)

  /** What an apply or a restore meets outside, on whichever system it runs. */
  datatype ApplyEnv = ApplyEnv(l: L.ApplyEnv, m: M.ApplyEnv, w: W.ApplyEnv)

  datatype RestoreEnv = RestoreEnv(l: L.RestoreEnv, m: M.RestoreEnv, w: W.RestoreEnv)

  datatype Reply = Reply(state: Redirector, result: Outcome)

  function Applied(r: Redirector, proxy: string, env: ApplyEnv): Reply {
    match r
    case OnLinux(l) => var a := L.Applied(l, proxy, env.l); Reply(OnLinux(a.state), a.result)
    case OnMacos(m) => var a := M.Applied(m, proxy, env.m); Reply(OnMacos(a.state), a.result)
    case OnWindows(w) => var a := W.Applied(w, proxy, env.w); Reply(OnWindows(a.state), a.result)
  }

  function Restored(r: Redirector, env: RestoreEnv): Reply {
    match r
    case OnLinux(l) => var a := L.Restored(l, env.l); Reply(OnLinux(a.state), a.result)
    case OnMacos(m) => var a := M.Restored(m, env.m); Reply(OnMacos(a.state), a.result)
    case OnWindows(w) => var a := W.Restored(w, env.w); Reply(OnWindows(a.state), a.result)
  }

  /** The record of an active redirect is not idle. */
  predicate Recorded(r: Redirector) {
    match r
    case OnLinux(l) => !l.active.Idle?
    case OnMacos(m) => !m.applied.Nothing?
    case OnWindows(w) => !w.applied.Nothing?
  }

  /** Some resolver of the system is the proxy. */
  ghost predicate Points(r: Redirector, proxy: string) {
    match r
    case OnLinux(l) => L.Points(l.sys, proxy)
    case OnMacos(m) => M.Points(m.sys, proxy)
    case OnWindows(w) => W.Points(w.adapters, proxy)
  }

  /** Everything that points at the proxy is covered by the record, which can undo it. */
  ghost predicate Tidy(r: Redirector, proxy: string) {
    match r
    case OnLinux(l) => L.Tidy(l, proxy)
    case OnMacos(m) => M.Tidy(m, proxy)
    case OnWindows(w) => W.Tidy(w, proxy)
  }

  /** The apply did not stop half way with something changed, and what it recorded leads away from
      the proxy. */
  ghost predicate CleanApply(r: Redirector, proxy: string, env: ApplyEnv) {
    match r
    case OnLinux(l) => L.CleanApply(l, env.l)
    case OnMacos(m) => M.CleanApply(m, proxy, env.m)
    case OnWindows(w) => W.CleanApply(w, proxy, env.w)
  }

  /** No undoing operation failed. */
  ghost predicate CleanRestore(r: Redirector, env: RestoreEnv) {
    match r
    case OnLinux(l) => L.CleanRestore(l, env.l)
    case OnMacos(m) => M.CleanRestore(m, env.m)
    case OnWindows(_) => W.CleanRestore(env.w)
  }

  /** Apply succeeds exactly when it leaves a record, a success redirects the system, and a clean
      apply leaves nothing outside the record. */
  lemma ApplyContract(r: Redirector, proxy: string, env: ApplyEnv)
    requires !Recorded(r)
    ensures var a := Applied(r, proxy, env);
            && (a.result.Done? <==> Recorded(a.state))
            && (a.result.Done? ==> Points(a.state, proxy))
            && (Tidy(r, proxy) ==> (CleanApply(r, proxy, env) <==> Tidy(a.state, proxy)))
  {
    match r
    case OnLinux(l) => L.ApplyContract(l, proxy, env.l);
    case OnMacos(m) => M.ApplyContract(m, proxy, env.m);
    case OnWindows(w) => W.ApplyContract(w, proxy, env.w);
  }

  /** Restore always clears the record, so that a second restore changes nothing; a clean one
      leaves no resolver on the proxy. */
  lemma RestoreContract(r: Redirector, proxy: string, env: RestoreEnv)
    ensures var a := Restored(r, env);
            && !Recorded(a.state)
            && (Tidy(r, proxy) && CleanRestore(r, env) ==> Tidy(a.state, proxy) && !Points(a.state, proxy))
            && (forall again: RestoreEnv :: Restored(a.state, again) == Reply(a.state, Done))
  {
    match r
    case OnLinux(l) => L.RestoreContract(l, proxy, env.l);
    case OnMacos(m) => M.RestoreContract(m, proxy, env.m);
    case OnWindows(w) => W.RestoreContract(w, proxy, env.w);
  }

  /** With no record, a tidy system does not use the proxy. */
  lemma TidyWithoutRecord(r: Redirector, proxy: string)
    requires Tidy(r, proxy) && !Recorded(r)
    ensures !Points(r, proxy)
  {
  }

  /** The outcomes of an apply and a restore that leave some resolver on the proxy. */
  ghost predicate LeftPointing(r: Redirector, proxy: string, a: ApplyEnv, b: RestoreEnv) {
    match r
    case OnLinux(l) => L.LeftPointing(l, proxy, a.l, b.l)
    case OnMacos(m) => M.LeftPointing(m, proxy, a.m, b.m)
    case OnWindows(w) => W.LeftPointing(w, proxy, a.w, b.w)
  }

  /** On every system, from one that does not use the proxy: what an apply, successful or not, and a
      restore leave on the proxy is decided exactly by `LeftPointing`. */
  lemma LeftPointingExactly(r: Redirector, proxy: string, a: ApplyEnv, b: RestoreEnv)
    requires !Recorded(r) && Tidy(r, proxy)
    ensures Points(Restored(Applied(r, proxy, a).state, b).state, proxy) <==> LeftPointing(r, proxy, a, b)
  {
    hide L.LeftPointing;
    hide M.LeftPointing;
    hide W.LeftPointing;
    hide L.Applied;
    hide M.Applied;
    hide W.Applied;
    hide L.Restored;
    hide M.Restored;
    hide W.Restored;
    match r
    case OnLinux(l) => L.LeftPointingExactly(l, proxy, a.l, b.l);
    case OnMacos(m) => M.LeftPointingExactly(m, proxy, a.m, b.m);
    case OnWindows(w) => W.LeftPointingExactly(w, proxy, a.w, b.w);
  }

  // --- the class: `Box<dyn DnsRedirector>` ---

  datatype Backend =
    | LinuxBackend(linux: L.LinuxRedirector)
    | MacosBackend(macos: M.MacosRedirector)
    | WindowsBackend(windows: W.WindowsRedirector)

  class SystemRedirector {
    const backend: Backend

    ghost function Objects(): set<object> {
      match backend
      case LinuxBackend(l) => {l, l.system}
      case MacosBackend(m) => {m, m.system}
      case WindowsBackend(w) => {w, w.system}
    }

    ghost predicate Valid()
      reads Objects()
    {
      backend.LinuxBackend? ==> backend.linux.Valid()
    }

    ghost function View(): Redirector
      reads Objects()
    {
      match backend
      case LinuxBackend(l) => OnLinux(l.View())
      case MacosBackend(m) => OnMacos(m.View())
      case WindowsBackend(w) => OnWindows(w.View())
    }

    constructor (backend: Backend)
      requires backend.LinuxBackend? ==> backend.linux.Valid()
      ensures this.backend == backend && Valid()
    {
      this.backend := backend;
    }

    method Apply(proxy: string, env: ApplyEnv) returns (r: Outcome)
      requires Valid()
      modifies Objects()
      ensures Valid()
      ensures Reply(View(), r) == Applied(old(View()), proxy, env)
    {
      match backend {
        case LinuxBackend(l) => r := l.Apply(proxy, env.l);
        case MacosBackend(m) => r := m.Apply(proxy, env.m);
        case WindowsBackend(w) => r := w.Apply(proxy, env.w);
      }
    }

    method Restore(env: RestoreEnv) returns (r: Outcome)
      requires Valid()
      modifies Objects()
      ensures Valid()
      ensures Reply(View(), r) == Restored(old(View()), env)
    {
      match backend {
        case LinuxBackend(l) => r := l.Restore(env.l);
        case MacosBackend(m) => r := m.Restore(env.m);
        case WindowsBackend(w) => r := w.Restore(env.w);
      }
    }
  }
}
