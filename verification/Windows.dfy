/** `WindowsRedirector`: the native settings first, netsh only if they failed on every adapter,
    and a record of what was set. */
module Windows {
  import opened Base
  import opened Text
  import opened Parse

  /** The IPv4 DNS settings of one adapter; the empty string means none, that is DHCP. */
  datatype Adapter = Adapter(server: string, search: string)

  const DHCP := Adapter("", "")

  type Adapters = map<string, Adapter>

  datatype Record = Nothing | Native(names: seq<string>) | Netsh(names: seq<string>)

  datatype State = State(applied: Record, adapters: Adapters)

  datatype Reply = Reply(state: State, result: Outcome)

  /** The printed interface table, and the numbers of the calls that fail. A call also fails when
      there is no adapter of that name. */
  datatype ApplyEnv = ApplyEnv(table: Output, nativeFails: set<nat>, netshFails: set<nat>, why: string)

  datatype RestoreEnv = RestoreEnv(fails: set<nat>)

  // --- apply ---

  datatype NativeProgress = NativeProgress(adapters: Adapters, ok: seq<string>)

  /** After the first `k` adapters; a failing one is skipped. */
  function NativeLoop(adapters: Adapters, proxy: string, names: seq<string>, fails: set<nat>, k: nat): NativeProgress
    requires k <= |names|
    decreases k
  {
    if k == 0 then NativeProgress(adapters, [])
    else
      var p := NativeLoop(adapters, proxy, names, fails, k - 1);
      var name := names[k - 1];
      if k - 1 in fails || name !in p.adapters then p
      else NativeProgress(p.adapters[name := Adapter(proxy, ".")], p.ok + [name])
  }

  datatype NetshProgress = NetshProgress(adapters: Adapters, count: nat)

  /** After the first `k` turns; the first failing adapter ends the loop. */
  function NetshLoop(adapters: Adapters, proxy: string, names: seq<string>, fails: set<nat>, k: nat)
    : (p: NetshProgress)
    requires k <= |names|
    ensures p.count <= k
    decreases k
  {
    if k == 0 then NetshProgress(adapters, 0)
    else
      var p := NetshLoop(adapters, proxy, names, fails, k - 1);
      var name := names[k - 1];
      if p.count < k - 1 || k - 1 in fails || name !in p.adapters then p
      else NetshProgress(p.adapters[name := p.adapters[name].(server := proxy)], k)
  }

  function Applied(st: State, proxy: string, env: ApplyEnv): Reply {
    match env.table
    case Broke(why) => Reply(st, Failed(why))
    case Out(text) =>
      var names := NetshInterfaces(text);
      if names == [] then Reply(st, Failed("no connected network interfaces found"))
      else
        var native := NativeLoop(st.adapters, proxy, names, env.nativeFails, |names|);
        if native.ok != [] then Reply(State(Native(native.ok), native.adapters), Done)
        else
          var netsh := NetshLoop(native.adapters, proxy, names, env.netshFails, |names|);
          if netsh.count == |names| then Reply(State(Netsh(names), netsh.adapters), Done)
          else Reply(State(st.applied, netsh.adapters), Failed(env.why))
  }

  // --- restore ---

  /** After clearing the first `k` recorded adapters on the path they were set on. */
  function ClearLoop(adapters: Adapters, native: bool, names: seq<string>, fails: set<nat>, k: nat): Adapters
    requires k <= |names|
    decreases k
  {
    if k == 0 then adapters
    else
      var a := ClearLoop(adapters, native, names, fails, k - 1);
      var name := names[k - 1];
      if k - 1 in fails || name !in a then a
      else a[name := if native then DHCP else a[name].(server := "")]
  }

  function Restored(st: State, env: RestoreEnv): Reply {
    var adapters := match st.applied
      case Nothing => st.adapters
      case Native(names) => ClearLoop(st.adapters, true, names, env.fails, |names|)
      case Netsh(names) => ClearLoop(st.adapters, false, names, env.fails, |names|);
    Reply(State(Nothing, adapters), Done)
  }

  // --- what the loops do ---

  lemma {:induction false} NativeLoopSets(
      adapters: Adapters, proxy: string, names: seq<string>, fails: set<nat>, k: nat)
    requires k <= |names|
    ensures var p := NativeLoop(adapters, proxy, names, fails, k);
            && p.adapters.Keys == adapters.Keys
            && (forall n | n in p.ok :: n in names && n in adapters)
            && (forall n | n in adapters :: p.adapters[n] == if n in p.ok then Adapter(proxy, ".") else adapters[n])
            && (p.ok == [] ==> p.adapters == adapters)
    decreases k
  {
    if k > 0 {
      NativeLoopSets(adapters, proxy, names, fails, k - 1);
    }
  }

  ghost predicate NetshWorks(adapters: Adapters, names: seq<string>, fails: set<nat>, k: nat)
    requires k <= |names|
  {
    forall i | 0 <= i < k :: i !in fails && names[i] in adapters
  }

  lemma {:induction false} NetshLoopSets(adapters: Adapters, proxy: string, names: seq<string>, fails: set<nat>, k: nat)
    requires k <= |names| && NetshWorks(adapters, names, fails, k)
    ensures var p := NetshLoop(adapters, proxy, names, fails, k);
            && p.count == k
            && p.adapters.Keys == adapters.Keys
            && (forall n | n in adapters ::
                  p.adapters[n] == if n in names[..k] then adapters[n].(server := proxy) else adapters[n])
    decreases k
  {
    if k > 0 {
      NetshLoopSets(adapters, proxy, names, fails, k - 1);
      assert names[..k] == names[..k - 1] + [names[k - 1]];
    }
  }

  lemma {:induction false} NetshLoopStays(adapters: Adapters, proxy: string, names: seq<string>, fails: set<nat>,
                                          j: nat, k: nat)
    requires j < k <= |names|
    requires j in fails || names[j] !in NetshLoop(adapters, proxy, names, fails, j).adapters
    ensures NetshLoop(adapters, proxy, names, fails, k) == NetshLoop(adapters, proxy, names, fails, j)
    decreases k
  {
    if j + 1 < k {
      NetshLoopStays(adapters, proxy, names, fails, j, k - 1);
    }
  }

  /** Whatever fails, the netsh loop changes only named adapters. */
  lemma {:induction false} NetshLoopFrame(
      adapters: Adapters, proxy: string, names: seq<string>, fails: set<nat>, k: nat)
    requires k <= |names|
    ensures var p := NetshLoop(adapters, proxy, names, fails, k);
            && p.adapters.Keys == adapters.Keys
            && (forall n | n in adapters && n !in names :: p.adapters[n] == adapters[n])
            && (p.count == k ==> forall n | n in names[..k] :: n in adapters)
    decreases k
  {
    if k > 0 {
      NetshLoopFrame(adapters, proxy, names, fails, k - 1);
      assert names[..k] == names[..k - 1] + [names[k - 1]];
    }
  }

  /** An adapter as the clearing call of a path leaves it. */
  function Cleared(a: Adapter, native: bool): Adapter {
    if native then DHCP else a.(server := "")
  }

  lemma {:induction false} ClearLoopKeys(adapters: Adapters, native: bool, names: seq<string>, fails: set<nat>, k: nat)
    requires k <= |names|
    ensures ClearLoop(adapters, native, names, fails, k).Keys == adapters.Keys
    decreases k
  {
    if k > 0 {
      ClearLoopKeys(adapters, native, names, fails, k - 1);
    }
  }

  lemma {:induction false} ClearLoopAt(adapters: Adapters, native: bool, names: seq<string>, fails: set<nat>, k: nat,
                                       n: string)
    requires k <= |names| && n in adapters
    ensures n in ClearLoop(adapters, native, names, fails, k)
    ensures ClearLoop(adapters, native, names, fails, k)[n] ==
            if AllFail(names[..k], fails, n) then adapters[n] else Cleared(adapters[n], native)
    decreases k
  {
    if k > 0 {
      ClearLoopAt(adapters, native, names, fails, k - 1, n);
      AllFailOneMore(names, fails, k, n);
    }
  }

  /** A recorded adapter is cleared on its path unless every call for it failed; nothing else changes. */
  lemma {:induction false} ClearLoopClears(adapters: Adapters, native: bool, names: seq<string>, fails: set<nat>)
    ensures var a := ClearLoop(adapters, native, names, fails, |names|);
            && a.Keys == adapters.Keys
            && (forall n | n in adapters ::
                  a[n] == if AllFail(names, fails, n) then adapters[n] else Cleared(adapters[n], native))
  {
    hide ClearLoop;
    hide AllFail;
    ClearLoopKeys(adapters, native, names, fails, |names|);
    assert names[..|names|] == names;
    forall n | n in adapters
      ensures ClearLoop(adapters, native, names, fails, |names|)[n] ==
              if AllFail(names, fails, n) then adapters[n] else Cleared(adapters[n], native)
    {
      ClearLoopAt(adapters, native, names, fails, |names|, n);
    }
  }

  // --- restore touches exactly what apply recorded ---

  /** The adapters that a record will restore. */
  function Recorded(r: Record): seq<string> {
    match r
    case Nothing => []
    case Native(names) => names
    case Netsh(names) => names
  }

  /** Whatever fails, an adapter outside the record is the same before and after restore, and one
      that is not among the connected interfaces is untouched by apply as well. */
  lemma UnrecordedUnchanged(st: State, proxy: string, a: ApplyEnv, b: RestoreEnv, n: string)
    requires st.applied == Nothing && n in st.adapters
    ensures var r := Applied(st, proxy, a).state;
            var end := Restored(r, b).state;
            && n in r.adapters && n in end.adapters
            && (n !in Recorded(r.applied) ==> end.adapters[n] == r.adapters[n])
            && (r.applied.Native? && n !in Recorded(r.applied) ==> r.adapters[n] == st.adapters[n])
            && (a.table.Broke? || n !in NetshInterfaces(a.table.text) ==> end.adapters[n] == st.adapters[n])
  {
    hide NetshInterfaces;
    var r := Applied(st, proxy, a).state;
    if a.table.Out? {
      var names := NetshInterfaces(a.table.text);
      NativeLoopSets(st.adapters, proxy, names, a.nativeFails, |names|);
      NetshLoopFrame(st.adapters, proxy, names, a.netshFails, |names|);
    }
    var names := Recorded(r.applied);
    Unlisted(names, b.fails);
    ClearLoopClears(r.adapters, r.applied.Native?, names, b.fails);
  }

  /** Clearing the recorded adapters gives the adapters back that there were before `put`, exactly
      when each one cleared had no settings of the kind cleared, and each one that no call cleared
      had been put to what it was. */
  lemma ClearsExactly(before: Adapters, put: Adapters, native: bool, record: seq<string>, fails: set<nat>)
    requires put.Keys == before.Keys && forall n | n in record :: n in before
    requires forall n | n in before && n !in record :: put[n] == before[n]
    requires !native ==> forall n | n in record :: put[n].search == before[n].search
    ensures ClearLoop(put, native, record, fails, |record|) == before <==>
            forall n | n in record ::
              before[n] == if AllFail(record, fails, n) then put[n] else Cleared(before[n], native)
  {
    Unlisted(record, fails);
    ClearLoopClears(put, native, record, fails);
    hide AllFail;
    hide ClearLoop;
    var end := ClearLoop(put, native, record, fails, |record|);
    assert forall n | n in before && n !in record :: end[n] == before[n];
    assert forall n | n in record :: Cleared(put[n], native) == Cleared(before[n], native);
  }

  /** Connect then disconnect gives all adapters back exactly when each recorded one that some
      clearing call reached was on DHCP, on the native path without a search list, and each other
      recorded one was on the proxy already. */
  lemma RoundTripExactly(st: State, proxy: string, a: ApplyEnv, b: RestoreEnv)
    requires st.applied == Nothing && Applied(st, proxy, a).result.Done?
    ensures var r := Applied(st, proxy, a).state;
            var names := Recorded(r.applied);
            && (forall n | n in names :: n in st.adapters)
            && (Restored(r, b).state.adapters == st.adapters <==>
                  forall n | n in names ::
                    if r.applied.Native? then
                      st.adapters[n] == if AllFail(names, b.fails, n) then Adapter(proxy, ".") else Adapter("", "")
                    else
                      st.adapters[n].server == if AllFail(names, b.fails, n) then proxy else "")
  {
    hide NetshInterfaces;
    hide ClearLoop;
    hide AllFail;
    var r := Applied(st, proxy, a).state;
    SetAsRecorded(st, proxy, a);
    ClearsExactly(st.adapters, r.adapters, r.applied.Native?, Recorded(r.applied), b.fails);
  }

  /** A recorded adapter as the setting call of a path leaves it. */
  function Put(a: Adapter, proxy: string, native: bool): Adapter {
    if native then Adapter(proxy, ".") else a.(server := proxy)
  }

  /** A successful apply has set exactly the recorded adapters. */
  lemma SetAsRecorded(st: State, proxy: string, a: ApplyEnv)
    requires st.applied == Nothing && Applied(st, proxy, a).result.Done?
    ensures var r := Applied(st, proxy, a).state;
            && Recorded(r.applied) != []
            && r.adapters.Keys == st.adapters.Keys
            && (forall n | n in Recorded(r.applied) :: n in st.adapters)
            && (forall n | n in st.adapters ::
                  r.adapters[n] == if n in Recorded(r.applied) then Put(st.adapters[n], proxy, r.applied.Native?)
                                   else st.adapters[n])
  {
    hide NetshInterfaces;
    var r := Applied(st, proxy, a).state;
    var names := NetshInterfaces(a.table.text);
    NativeLoopSets(st.adapters, proxy, names, a.nativeFails, |names|);
    if r.applied.Netsh? {
      assert names[..|names|] == names;
      NetshAllWorked(st.adapters, proxy, names, a.netshFails, |names|);
      NetshLoopSets(st.adapters, proxy, names, a.netshFails, |names|);
    }
  }

  lemma {:induction false} NetshAllWorked(
      adapters: Adapters, proxy: string, names: seq<string>, fails: set<nat>, k: nat)
    requires k <= |names| && NetshLoop(adapters, proxy, names, fails, k).count == k
    ensures NetshWorks(adapters, names, fails, k)
    decreases k
  {
    if k > 0 {
      NetshAllWorked(adapters, proxy, names, fails, k - 1);
      NetshLoopFrame(adapters, proxy, names, fails, k - 1);
    }
  }

  /** When netsh first fails on the `j`-th interface, apply fails, exactly the interfaces before it
      use the proxy, and nothing is recorded. */
  lemma NetshPrefixLeftBehind(st: State, proxy: string, env: ApplyEnv, j: nat)
    requires st.applied == Nothing && env.table.Out? && j < |NetshInterfaces(env.table.text)|
    requires var names := NetshInterfaces(env.table.text);
             && NativeLoop(st.adapters, proxy, names, env.nativeFails, |names|).ok == []
             && NetshWorks(st.adapters, names, env.netshFails, j)
             && (j in env.netshFails || names[j] !in st.adapters)
    ensures var names := NetshInterfaces(env.table.text);
            var r := Applied(st, proxy, env);
            && r.result == Failed(env.why) && r.state.applied == Nothing
            && r.state.adapters.Keys == st.adapters.Keys
            && (forall n | n in st.adapters ::
                  r.state.adapters[n] ==
                  if n in names[..j] then st.adapters[n].(server := proxy) else st.adapters[n])
  {
    hide NetshInterfaces;
    var names := NetshInterfaces(env.table.text);
    NativeLoopSets(st.adapters, proxy, names, env.nativeFails, |names|);
    NetshLoopSets(st.adapters, proxy, names, env.netshFails, j);
    NetshLoopStays(st.adapters, proxy, names, env.netshFails, j, |names|);
  }

  /** End to end through the printed table: an adapter whose name is not that of a connected row
      keeps its settings through any connect and disconnect. */
  lemma {:induction false} OnlyConnectedRowsTouched(
      st: State, proxy: string, preamble: seq<string>, rows: seq<NetshRow>, layout: seq<Layout>,
      texts: seq<string>, ends: seq<LineEnd>, a: ApplyEnv, b: RestoreEnv, n: string)
    requires IsPreamble(preamble) && |rows| == |layout| == |texts| && |ends| == |preamble| + |texts|
    requires forall i | 0 <= i < |rows| ::
               rows[i].Printable() && Fits(rows[i], layout[i]) && texts[i] == RowText(rows[i], layout[i])
    requires a.table == Out(Printed(preamble + texts, ends))
    requires st.applied == Nothing && n in st.adapters && n !in NamesOfRows(rows)
    ensures var end := Restored(Applied(st, proxy, a).state, b).state;
            n in end.adapters && end.adapters[n] == st.adapters[n]
  {
    hide Applied;
    hide Restored;
    NetshInvertsTable(preamble, rows, layout, texts, ends);
    UnrecordedUnchanged(st, proxy, a, b, n);
  }

  /** The rows of the table with the aliases behind them, each an adapter of the system. */
  ghost predicate RowsOf(adapters: Adapters, rows: seq<NetshRow>, aliases: seq<string>) {
    |aliases| == |rows| &&
    forall i | 0 <= i < |rows| :: rows[i].name == Words(aliases[i]) && aliases[i] in adapters
  }

  /** What is recorded: every listed adapter for which some call worked, and no other; a failing call does
      not end the loop. */
  lemma {:induction false} NativeLoopRecords(
      adapters: Adapters, proxy: string, names: seq<string>, fails: set<nat>, k: nat, n: string)
    requires k <= |names|
    ensures n in NativeLoop(adapters, proxy, names, fails, k).ok <==>
            n in adapters && exists i: nat :: i < k && i !in fails && names[i] == n
    decreases k
  {
    if k > 0 {
      NativeLoopRecords(adapters, proxy, names, fails, k - 1, n);
      NativeLoopSets(adapters, proxy, names, fails, k - 1);
    }
  }

  /** Some call on a connected adapter worked natively. */
  ghost predicate NativeWorks(adapters: Adapters, names: seq<string>, fails: set<nat>) {
    exists i: nat :: i < |names| && i !in fails && names[i] in adapters
  }

  /** If some native call works, apply is native: exactly the adapters with a call that worked are
      recorded and have the proxy as their server and `.` as their search list; netsh is not used. */
  lemma AppliedNatively(st: State, proxy: string, env: ApplyEnv)
    requires env.table.Out? && NativeWorks(st.adapters, NetshInterfaces(env.table.text), env.nativeFails)
    ensures var names := NetshInterfaces(env.table.text);
            var r := Applied(st, proxy, env);
            && r.result == Done && r.state.applied.Native?
            && (forall n :: n in r.state.applied.names <==>
                  n in st.adapters && exists i: nat :: i < |names| && i !in env.nativeFails && names[i] == n)
            && r.state.adapters.Keys == st.adapters.Keys
            && (forall n | n in st.adapters :: r.state.adapters[n] ==
                  if n in r.state.applied.names then Adapter(proxy, ".") else st.adapters[n])
  {
    hide NetshInterfaces;
    var names := NetshInterfaces(env.table.text);
    forall n ensures n in NativeLoop(st.adapters, proxy, names, env.nativeFails, |names|).ok <==>
                     n in st.adapters && exists i: nat :: i < |names| && i !in env.nativeFails && names[i] == n
    {
      NativeLoopRecords(st.adapters, proxy, names, env.nativeFails, |names|, n);
    }
    NativeLoopSets(st.adapters, proxy, names, env.nativeFails, |names|);
    var i: nat :| i < |names| && i !in env.nativeFails && names[i] in st.adapters;
    assert names[i] in NativeLoop(st.adapters, proxy, names, env.nativeFails, |names|).ok;
  }

  /** If none does and every netsh call works, apply is by netsh: exactly the connected adapters have the
      proxy as their server, their search lists unchanged. */
  lemma AppliedByNetsh(st: State, proxy: string, env: ApplyEnv)
    requires env.table.Out? && !NativeWorks(st.adapters, NetshInterfaces(env.table.text), env.nativeFails)
    requires NetshInterfaces(env.table.text) != []
    requires NetshWorks(st.adapters, NetshInterfaces(env.table.text), env.netshFails, |NetshInterfaces(env.table.text)|)
    ensures var names := NetshInterfaces(env.table.text);
            var r := Applied(st, proxy, env);
            && r.result == Done && r.state.applied == Netsh(names)
            && r.state.adapters.Keys == st.adapters.Keys
            && (forall n | n in st.adapters :: r.state.adapters[n] ==
                  Adapter(if n in names then proxy else st.adapters[n].server, st.adapters[n].search))
  {
    hide NetshInterfaces;
    var names := NetshInterfaces(env.table.text);
    NativeNothing(st.adapters, proxy, names, env.nativeFails);
    NetshLoopSets(st.adapters, proxy, names, env.netshFails, |names|);
    assert names[..|names|] == names;
  }

  lemma NativeNothing(adapters: Adapters, proxy: string, names: seq<string>, fails: set<nat>)
    requires !NativeWorks(adapters, names, fails)
    ensures NativeLoop(adapters, proxy, names, fails, |names|) == NativeProgress(adapters, [])
  {
    var p := NativeLoop(adapters, proxy, names, fails, |names|);
    NativeLoopSets(adapters, proxy, names, fails, |names|);
    if p.ok != [] {
      NativeLoopRecords(adapters, proxy, names, fails, |names|, p.ok[0]);
    }
  }

  /** Without a table, or a connected adapter in it, nothing changes. */
  lemma NothingConnected(st: State, proxy: string, env: ApplyEnv)
    requires env.table.Out? ==> NetshInterfaces(env.table.text) == []
    ensures Applied(st, proxy, env) ==
            Reply(st, Failed(if env.table.Broke? then env.table.why else "no connected network interfaces found"))
  {
    hide NetshInterfaces;
  }

  /** When no native call fails, exactly the adapters with a parsed name are set. */
  lemma NativeSetsNamed(st: State, proxy: string, env: ApplyEnv, names: seq<string>)
    requires st.applied == Nothing && env.nativeFails == {}
    requires env.table.Out? && names == NetshInterfaces(env.table.text)
    ensures var r := Applied(st, proxy, env);
            && r.state.adapters.Keys == st.adapters.Keys
            && (forall n | n in st.adapters ::
                  r.state.adapters[n] == if n in names then Adapter(proxy, ".") else st.adapters[n])
            && (forall n :: n in Recorded(r.state.applied) <==> n in names && n in st.adapters)
            && (r.result.Done? <==> exists n :: n in names && n in st.adapters)
            && (r.result.Done? ==> r.state.applied.Native?)
  {
    hide NetshInterfaces;
    forall n ensures n in NativeLoop(st.adapters, proxy, names, {}, |names|).ok <==> n in names && n in st.adapters {
      NativeLoopRecords(st.adapters, proxy, names, {}, |names|, n);
      if n in names {
        var i: nat :| i < |names| && names[i] == n;
      }
    }
    NativeLoopSets(st.adapters, proxy, names, {}, |names|);
    var ok := NativeLoop(st.adapters, proxy, names, {}, |names|).ok;
    if ok != [] {
      assert ok[0] in ok;
    } else if names != [] {
      assert names[0] in names && names[0] !in ok;
      NetshPrefixLeftBehind(st, proxy, env, 0);
    }
  }

  /** End to end through the printed table: when no native call fails, a connected adapter is
      redirected exactly when its alias is space-normalised. */
  lemma {:induction false} ConnectedRowsRedirectedExactly(
      st: State, proxy: string, preamble: seq<string>, rows: seq<NetshRow>, layout: seq<Layout>,
      texts: seq<string>, ends: seq<LineEnd>, aliases: seq<string>, a: ApplyEnv, i: nat)
    requires IsPreamble(preamble) && |rows| == |layout| == |texts| && |ends| == |preamble| + |texts|
    requires forall i | 0 <= i < |rows| ::
               rows[i].Printable() && Fits(rows[i], layout[i]) && texts[i] == RowText(rows[i], layout[i])
    requires a.table == Out(Printed(preamble + texts, ends)) && a.nativeFails == {}
    requires st.applied == Nothing && Tidy(st, proxy) && RowsOf(st.adapters, rows, aliases)
    requires i < |rows| && IsConnected(rows[i])
    ensures var r := Applied(st, proxy, a).state;
            && aliases[i] in r.adapters
            && (r.adapters[aliases[i]].server == proxy <==> IsSpaced(aliases[i]))
  {
    hide Applied;
    var names := NamesOfRows(rows);
    NetshInvertsTable(preamble, rows, layout, texts, ends);
    NativeSetsNamed(st, proxy, a, names);
    NamesOfRowsHas(rows, aliases[i]);
    if j :| 0 <= j < |rows| && IsConnected(rows[j]) && JoinSpaced(rows[j].name) == aliases[i] {
      WordsOfJoined(rows[j].name);
    }
  }

  /** The round trip through the printed table, when no native call fails and some connected alias is
      space-normalised: apply succeeds, and restore gives all adapters back exactly when every
      adapter named by a connected row was on DHCP without a search list (or, if no clearing call
      reaches it, set like the proxy). */
  lemma {:induction false} ConnectedRowsRoundTripExactly(
      st: State, proxy: string, preamble: seq<string>, rows: seq<NetshRow>, layout: seq<Layout>,
      texts: seq<string>, ends: seq<LineEnd>, aliases: seq<string>, a: ApplyEnv, b: RestoreEnv)
    requires IsPreamble(preamble) && |rows| == |layout| == |texts| && |ends| == |preamble| + |texts|
    requires forall i | 0 <= i < |rows| ::
               rows[i].Printable() && Fits(rows[i], layout[i]) && texts[i] == RowText(rows[i], layout[i])
    requires a.table == Out(Printed(preamble + texts, ends)) && a.nativeFails == {}
    requires st.applied == Nothing && RowsOf(st.adapters, rows, aliases)
    requires exists i :: 0 <= i < |rows| && IsConnected(rows[i]) && IsSpaced(aliases[i])
    ensures var r := Applied(st, proxy, a);
            && r.result == Done
            && (Restored(r.state, b).state.adapters == st.adapters <==>
                  forall n | n in NamesOfRows(rows) && n in st.adapters ::
                    st.adapters[n] == if AllFail(Recorded(r.state.applied), b.fails, n) then Adapter(proxy, ".")
                                      else Adapter("", ""))
  {
    var i: nat :| i < |rows| && IsConnected(rows[i]) && IsSpaced(aliases[i]);
    NetshInvertsTable(preamble, rows, layout, texts, ends);
    NamesOfRowsHas(rows, aliases[i]);
    NamedRoundTripExactly(st, proxy, NamesOfRows(rows), a, b, aliases[i]);
  }

  lemma NamedRoundTripExactly(st: State, proxy: string, names: seq<string>, a: ApplyEnv, b: RestoreEnv, some: string)
    requires st.applied == Nothing && a.nativeFails == {}
    requires a.table.Out? && names == NetshInterfaces(a.table.text)
    requires some in names && some in st.adapters
    ensures var r := Applied(st, proxy, a);
            && r.result == Done
            && (Restored(r.state, b).state.adapters == st.adapters <==>
                  forall n | n in names && n in st.adapters ::
                    st.adapters[n] == if AllFail(Recorded(r.state.applied), b.fails, n) then Adapter(proxy, ".")
                                      else Adapter("", ""))
  {
    hide NetshInterfaces;
    hide Applied;
    hide Restored;
    hide Recorded;
    hide AllFail;
    NativeSetsNamed(st, proxy, a, names);
    RoundTripExactly(st, proxy, a, b);
  }

  // --- contract shared with the other redirectors ---

  ghost predicate Points(adapters: Adapters, proxy: string) {
    exists n :: n in adapters && adapters[n].server == proxy
  }

  ghost predicate Tidy(st: State, proxy: string) {
    && proxy != ""
    && (forall n | n in st.adapters && st.adapters[n].server == proxy :: n in Recorded(st.applied))
  }

  /** If netsh is used, it does not fail after it has set some interface. */
  ghost predicate CleanApply(st: State, proxy: string, env: ApplyEnv) {
    env.table.Out? ==>
      var names := NetshInterfaces(env.table.text);
      names != [] && NativeLoop(st.adapters, proxy, names, env.nativeFails, |names|).ok == [] ==>
        || NetshWorks(st.adapters, names, env.netshFails, |names|)
        || 0 in env.netshFails || names[0] !in st.adapters
  }

  ghost predicate CleanRestore(env: RestoreEnv) {
    env.fails == {}
  }

  lemma ApplyContract(st: State, proxy: string, env: ApplyEnv)
    requires st.applied == Nothing
    ensures var r := Applied(st, proxy, env);
            && (r.result.Done? <==> r.state.applied != Nothing)
            && (r.result.Done? ==> Points(r.state.adapters, proxy))
            && (Tidy(st, proxy) ==> (CleanApply(st, proxy, env) <==> Tidy(r.state, proxy)))
  {
    hide NetshInterfaces;
    if env.table.Out? && NetshInterfaces(env.table.text) != [] {
      var names := NetshInterfaces(env.table.text);
      var native := NativeLoop(st.adapters, proxy, names, env.nativeFails, |names|);
      NativeLoopSets(st.adapters, proxy, names, env.nativeFails, |names|);
      assert names[..|names|] == names;
      if native.ok != [] {
        assert native.ok[0] in native.ok && native.adapters[native.ok[0]].server == proxy;
      } else {
        var netsh := NetshLoop(st.adapters, proxy, names, env.netshFails, |names|);
        if netsh.count == |names| {
          assert netsh.adapters[names[|names| - 1]].server == proxy;
          NetshAllWorked(st.adapters, proxy, names, env.netshFails, |names|);
          NetshLoopFrame(st.adapters, proxy, names, env.netshFails, |names|);
        } else if CleanApply(st, proxy, env) {
          if NetshWorks(st.adapters, names, env.netshFails, |names|) {
            NetshLoopSets(st.adapters, proxy, names, env.netshFails, |names|);
            assert false;
          }
          NetshPrefixLeftBehind(st, proxy, env, 0);
        } else {
          var j := FirstFailure(st.adapters, names, env.netshFails, |names|);
          NetshPrefixLeftBehind(st, proxy, env, j);
          assert names[0] in names[..j];
        }
      }
    }
  }

  lemma RestoreContract(st: State, proxy: string, env: RestoreEnv)
    ensures var r := Restored(st, env);
            && r.state.applied == Nothing
            && (Tidy(st, proxy) && CleanRestore(env) ==> Tidy(r.state, proxy) && !Points(r.state.adapters, proxy))
            && (forall again: RestoreEnv :: Restored(r.state, again) == Reply(r.state, Done))
  {
    var names := Recorded(st.applied);
    NoneFail(names);
    ClearLoopClears(st.adapters, st.applied.Native?, names, env.fails);
  }

  // --- when something is left on the proxy ---

  /** The outcomes that leave an adapter on the proxy: a recorded one that no clearing call reaches,
      or, if apply failed, a first netsh call that worked. */
  ghost predicate LeftPointing(st: State, proxy: string, a: ApplyEnv, b: RestoreEnv) {
    var r := Applied(st, proxy, a).state;
    if r.applied != Nothing then
      exists n | n in Recorded(r.applied) :: AllFail(Recorded(r.applied), b.fails, n)
    else
      a.table.Out? &&
      var names := NetshInterfaces(a.table.text);
      names != [] && 0 !in a.netshFails && names[0] in st.adapters
  }

  /** Over all outcomes: connect then disconnect gives all adapters back exactly when, after a
      successful apply, each recorded one that a clearing call reached had no settings of that kind
      and each other one was set like the proxy; and, after a failed one, each interface that netsh had
      set was on the proxy before. */
  lemma SameSystemExactly(st: State, proxy: string, a: ApplyEnv, b: RestoreEnv)
    requires st.applied == Nothing
    ensures var r := Applied(st, proxy, a);
            var names := Recorded(r.state.applied);
            && (r.result.Done? ==> forall n | n in names :: n in st.adapters)
            && (Restored(r.state, b).state.adapters == st.adapters <==>
                  if r.result.Done? then
                    forall n | n in names ::
                      if r.state.applied.Native? then
                        st.adapters[n] == if AllFail(names, b.fails, n) then Adapter(proxy, ".") else Adapter("", "")
                      else
                        st.adapters[n].server == if AllFail(names, b.fails, n) then proxy else ""
                  else
                    a.table.Out? ==>
                      var listed := NetshInterfaces(a.table.text);
                      forall i: nat | i < |listed| && NetshWorks(st.adapters, listed, a.netshFails, i + 1) ::
                        st.adapters[listed[i]].server == proxy)
  {
    hide NetshInterfaces;
    hide ClearLoop;
    hide AllFail;
    if Applied(st, proxy, a).result.Done? {
      RoundTripExactly(st, proxy, a, b);
    } else {
      ApplyContract(st, proxy, a);
      FailedComesBackExactly(st, proxy, a);
    }
  }

  lemma FailedComesBackExactly(st: State, proxy: string, a: ApplyEnv)
    requires st.applied == Nothing && Applied(st, proxy, a).result.Failed?
    ensures Applied(st, proxy, a).state.adapters == st.adapters <==>
            (a.table.Out? ==>
               var listed := NetshInterfaces(a.table.text);
               forall i: nat | i < |listed| && NetshWorks(st.adapters, listed, a.netshFails, i + 1) ::
                 st.adapters[listed[i]].server == proxy)
  {
    hide NetshInterfaces;
    if a.table.Out? && NetshInterfaces(a.table.text) != [] {
      var names := NetshInterfaces(a.table.text);
      NativeLoopSets(st.adapters, proxy, names, a.nativeFails, |names|);
      if NetshWorks(st.adapters, names, a.netshFails, |names|) {
        NetshLoopSets(st.adapters, proxy, names, a.netshFails, |names|);
        assert false;
      }
      var j := FirstFailure(st.adapters, names, a.netshFails, |names|);
      NetshPrefixLeftBehind(st, proxy, a, j);
      forall k: nat | k <= |names| ensures NetshWorks(st.adapters, names, a.netshFails, k) <==> k <= j {
        PrefixWorks(st.adapters, names, a.netshFails, j, k);
      }
      PrefixComesBack(st.adapters, proxy, names, j, Applied(st, proxy, a).state.adapters);
    }
  }

  lemma PrefixWorks(adapters: Adapters, names: seq<string>, fails: set<nat>, j: nat, k: nat)
    requires j < |names| && NetshWorks(adapters, names, fails, j) && (j in fails || names[j] !in adapters)
    requires k <= |names|
    ensures NetshWorks(adapters, names, fails, k) <==> k <= j
  {
  }

  lemma PrefixComesBack(before: Adapters, proxy: string, names: seq<string>, j: nat, end: Adapters)
    requires j <= |names| && end.Keys == before.Keys && forall i | 0 <= i < j :: names[i] in before
    requires forall n | n in before :: end[n] == if n in names[..j] then before[n].(server := proxy) else before[n]
    ensures end == before <==> forall i | 0 <= i < j :: before[names[i]].server == proxy
  {
    forall i | 0 <= i < j ensures names[i] in names[..j] {
      assert names[..j][i] == names[i];
    }
  }

  /** From adapters that do not use the proxy, over all outcomes of a connect and a disconnect: some
      adapter is left on the proxy exactly under `LeftPointing`. */
  lemma LeftPointingExactly(st: State, proxy: string, a: ApplyEnv, b: RestoreEnv)
    requires st.applied == Nothing && Tidy(st, proxy)
    ensures Points(Restored(Applied(st, proxy, a).state, b).state.adapters, proxy) <==> LeftPointing(st, proxy, a, b)
  {
    hide NetshInterfaces;
    ApplyContract(st, proxy, a);
    if Applied(st, proxy, a).result.Done? {
      RecordedLeftPointing(st, proxy, a, b);
    } else {
      FailedLeftPointing(st, proxy, a, b);
    }
  }

  lemma RecordedLeftPointing(st: State, proxy: string, a: ApplyEnv, b: RestoreEnv)
    requires st.applied == Nothing && Tidy(st, proxy) && Applied(st, proxy, a).result.Done?
    ensures Points(Restored(Applied(st, proxy, a).state, b).state.adapters, proxy) <==>
            var names := Recorded(Applied(st, proxy, a).state.applied);
            exists n | n in names :: AllFail(names, b.fails, n)
  {
    hide Applied;
    hide AllFail;
    hide ClearLoop;
    SetAsRecorded(st, proxy, a);
    var r := Applied(st, proxy, a).state;
    var names := Recorded(r.applied);
    ClearLoopClears(r.adapters, r.applied.Native?, names, b.fails);
  }

  lemma FailedLeftPointing(st: State, proxy: string, a: ApplyEnv, b: RestoreEnv)
    requires st.applied == Nothing && Tidy(st, proxy) && Applied(st, proxy, a).state.applied == Nothing
    ensures Points(Restored(Applied(st, proxy, a).state, b).state.adapters, proxy) <==> LeftPointing(st, proxy, a, b)
  {
    hide NetshInterfaces;
    if a.table.Out? && NetshInterfaces(a.table.text) != [] {
      var names := NetshInterfaces(a.table.text);
      NativeLoopSets(st.adapters, proxy, names, a.nativeFails, |names|);
      if NetshWorks(st.adapters, names, a.netshFails, |names|) {
        NetshLoopSets(st.adapters, proxy, names, a.netshFails, |names|);
        assert false;
      }
      var j := FirstFailure(st.adapters, names, a.netshFails, |names|);
      NetshPrefixLeftBehind(st, proxy, a, j);
      var end := Applied(st, proxy, a).state.adapters;
      if j > 0 {
        assert names[0] in names[..j] && end[names[0]].server == proxy;
      } else {
        assert forall n | n in st.adapters :: n !in names[..j];
      }
    }
  }

  lemma {:induction false} FirstFailure(adapters: Adapters, names: seq<string>, fails: set<nat>, k: nat)
    returns (j: nat)
    requires k <= |names| && !NetshWorks(adapters, names, fails, k)
    ensures j < k && NetshWorks(adapters, names, fails, j) && (j in fails || names[j] !in adapters)
    decreases k
  {
    if NetshWorks(adapters, names, fails, k - 1) {
      j := k - 1;
    } else {
      j := FirstFailure(adapters, names, fails, k - 1);
    }
  }

  // --- the class ---

  class WindowsSystem {
    var adapters: Adapters

    constructor (adapters: Adapters)
      ensures this.adapters == adapters
    {
      this.adapters := adapters;
    }
  }

  class WindowsRedirector {
    var applied: Record
    const system: WindowsSystem

    ghost function View(): State
      reads this, system
    {
      State(applied, system.adapters)
    }

    constructor (system: WindowsSystem)
      ensures this.system == system && applied == Nothing
    {
      this.system, applied := system, Nothing;
    }

    method Apply(proxy: string, env: ApplyEnv) returns (r: Outcome)
      modifies this, system
      ensures Reply(View(), r) == Applied(old(View()), proxy, env)
    {
      if env.table.Broke? {
        return Failed(env.table.why);
      }
      var names := ParseNetshInterfaces(env.table.text);
      if names == [] {
        return Failed("no connected network interfaces found");
      }
      // Native first.
      var nativeOk: seq<string> := [];
      for k := 0 to |names|
        invariant applied == old(applied)
        invariant NativeProgress(system.adapters, nativeOk) ==
                  NativeLoop(old(system.adapters), proxy, names, env.nativeFails, k)
      {
        if k !in env.nativeFails && names[k] in system.adapters {
          system.adapters := system.adapters[names[k] := Adapter(proxy, ".")];
          nativeOk := nativeOk + [names[k]];
        }
      }
      if nativeOk != [] {
        applied := Native(nativeOk);
        return Done;
      }
      // Fallback: netsh.
      ghost var start := system.adapters;
      for k := 0 to |names|
        invariant applied == old(applied)
        invariant NetshProgress(system.adapters, k) == NetshLoop(start, proxy, names, env.netshFails, k)
      {
        if k in env.netshFails || names[k] !in system.adapters {
          NetshLoopStays(start, proxy, names, env.netshFails, k, |names|);
          return Failed(env.why);
        }
        system.adapters := system.adapters[names[k] := system.adapters[names[k]].(server := proxy)];
      }
      applied := Netsh(names);
      return Done;
    }

    method Restore(env: RestoreEnv) returns (r: Outcome)
      modifies this, system
      ensures Reply(View(), r) == Restored(old(View()), env)
    {
      var was := applied;
      applied := Nothing;
      match was {
        case Nothing =>
        case Native(names) => Clear(true, names, env);
        case Netsh(names) => Clear(false, names, env);
      }
      return Done;
    }

    /** The clearing loop of `restore`; failures are only logged. */
    method Clear(native: bool, names: seq<string>, env: RestoreEnv)
      modifies system
      ensures system.adapters == ClearLoop(old(system.adapters), native, names, env.fails, |names|)
    {
      for k := 0 to |names|
        invariant system.adapters == ClearLoop(old(system.adapters), native, names, env.fails, k)
      {
        if k !in env.fails && names[k] in system.adapters {
          system.adapters := system.adapters[names[k] := if native then DHCP
                                                         else system.adapters[names[k]].(server := "")];
        }
      }
    }
  }
}
