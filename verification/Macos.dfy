/** `MacosRedirector`: the dynamic-store path, the networksetup fallback, and what they save
    and give back. */
module Macos {
  import opened Base
  import opened Text
  import opened Parse

  /** `dynamic`: the `State:/…/DNS` keys with their server lists. `services`: the stored servers of
      every network service, empty when none are set. */
  datatype System = System(dynamic: map<string, seq<string>>, services: map<string, seq<string>>)

  datatype Saved = Saved(service: string, servers: seq<string>)

  datatype Record = Nothing | Native(paths: seq<string>) | Shell(saved: seq<Saved>)

  datatype State = State(applied: Record, sys: System)

  datatype Reply = Reply(state: State, result: Outcome)

  /** What an apply meets outside. Set and get calls are numbered in call order; the sets hold
      the numbers of those that fail. `isAddress` is the success of `parse::<IpAddr>()`. */
  datatype ApplyEnv = ApplyEnv(
    store: bool, keys: Option<seq<string>>, rawFails: set<nat>, listing: Output, readFails: set<nat>,
    setFails: set<nat>, why: string, isAddress: string -> bool)

  datatype RestoreEnv = RestoreEnv(store: bool, removeFails: set<nat>, setFails: set<nat>)

  // --- native apply and restore ---

  /** `rsplit('/').next()`. */
  function LastSegment(s: string): string {
    if s == "" || s[|s| - 1] == '/' then "" else LastSegment(s[..|s| - 1]) + [s[|s| - 1]]
  }

  function StatePath(key: string): string {
    "State:/Network/Service/" + LastSegment(key) + "/DNS"
  }

  datatype NativeProgress = NativeProgress(dynamic: map<string, seq<string>>, paths: seq<string>)

  /** After the first `k` keys. */
  function NativeLoop(dynamic: map<string, seq<string>>, proxy: string, keys: seq<string>, fails: set<nat>, k: nat)
    : NativeProgress
    requires k <= |keys|
    decreases k
  {
    if k == 0 then NativeProgress(dynamic, [])
    else
      var p := NativeLoop(dynamic, proxy, keys, fails, k - 1);
      if k - 1 in fails then p
      else
        var path := StatePath(keys[k - 1]);
        NativeProgress(p.dynamic[path := [proxy]], p.paths + [path])
  }

  function NativeApply(dynamic: map<string, seq<string>>, proxy: string, env: ApplyEnv): NativeProgress {
    if !env.store || env.keys.None? then NativeProgress(dynamic, [])
    else NativeLoop(dynamic, proxy, env.keys.value, env.rawFails, |env.keys.value|)
  }

  /** After the first `k` removals, some of which may fail unnoticed. */
  function RemoveLoop(dynamic: map<string, seq<string>>, paths: seq<string>, fails: set<nat>, k: nat)
    : map<string, seq<string>>
    requires k <= |paths|
    decreases k
  {
    if k == 0 then dynamic
    else
      var d := RemoveLoop(dynamic, paths, fails, k - 1);
      if k - 1 in fails then d else d - {paths[k - 1]}
  }

  // --- shell apply and restore ---

  datatype SetProgress = SetProgress(services: map<string, seq<string>>, count: nat)

  /** After the first `k` turns: the loop ends at the first set command that fails, or whose service
      does not exist; `count` set commands have succeeded. */
  function SetLoop(services: map<string, seq<string>>, proxy: string, names: seq<string>, fails: set<nat>, k: nat)
    : (p: SetProgress)
    requires k <= |names|
    ensures p.count <= k
    decreases k
  {
    if k == 0 then SetProgress(services, 0)
    else
      var p := SetLoop(services, proxy, names, fails, k - 1);
      if p.count < k - 1 || k - 1 in fails || names[k - 1] !in p.services then p
      else SetProgress(p.services[names[k - 1] := [proxy]], k)
  }

  /** The servers read back for a service through the text that the command prints. */
  function CurrentDns(services: map<string, seq<string>>, service: string, fails: bool, isAddress: string -> bool)
    : seq<string>
  {
    if fails || service !in services then []
    else DnsServers(DnsListing(service, services[service]), isAddress)
  }

  /** What is saved for the first `k` services: each read just before it is set. */
  function SavedLoop(services: map<string, seq<string>>, proxy: string, names: seq<string>, env: ApplyEnv, k: nat)
    : (saved: seq<Saved>)
    requires k <= |names|
    ensures |saved| == k && forall i | 0 <= i < k :: saved[i].service == names[i]
    decreases k
  {
    if k == 0 then []
    else
      var now := SetLoop(services, proxy, names, env.setFails, k - 1).services;
      SavedLoop(services, proxy, names, env, k - 1)
      + [Saved(names[k - 1], CurrentDns(now, names[k - 1], k - 1 in env.readFails, env.isAddress))]
  }

  datatype ShellProgress = ShellProgress(services: map<string, seq<string>>, saved: seq<Saved>, result: Outcome)

  function ShellApply(services: map<string, seq<string>>, proxy: string, env: ApplyEnv): ShellProgress {
    match env.listing
    case Broke(why) => ShellProgress(services, [], Failed(why))
    case Out(text) =>
      var names := NetworkServices(text);
      if names == [] then ShellProgress(services, [], Failed("no network services found"))
      else
        var p := SetLoop(services, proxy, names, env.setFails, |names|);
        ShellProgress(p.services, SavedLoop(services, proxy, names, env, p.count),
                      if p.count == |names| then Done else Failed(env.why))
  }

  /** After giving back the first `k` saved entries; failures are only logged. */
  function GiveBack(services: map<string, seq<string>>, saved: seq<Saved>, fails: set<nat>, k: nat)
    : map<string, seq<string>>
    requires k <= |saved|
    decreases k
  {
    if k == 0 then services
    else
      var s := GiveBack(services, saved, fails, k - 1);
      var entry := saved[k - 1];
      if k - 1 in fails || entry.service !in s then s else s[entry.service := entry.servers]
  }

  // --- the whole ---

  function Applied(st: State, proxy: string, env: ApplyEnv): Reply {
    var native := NativeApply(st.sys.dynamic, proxy, env);
    if native.paths != [] then Reply(State(Native(native.paths), st.sys.(dynamic := native.dynamic)), Done)
    else
      var shell := ShellApply(st.sys.services, proxy, env);
      Reply(State(if shell.result.Done? then Shell(shell.saved) else st.applied,
                  System(native.dynamic, shell.services)), shell.result)
  }

  function Restored(st: State, env: RestoreEnv): Reply {
    match st.applied
    case Nothing => Reply(st, Done)
    case Native(paths) =>
      if env.store then
        Reply(State(Nothing, st.sys.(dynamic := RemoveLoop(st.sys.dynamic, paths, env.removeFails, |paths|))), Done)
      else
        Reply(State(Nothing, st.sys), Failed("SCDynamicStoreCreate failed"))
    case Shell(saved) =>
      Reply(State(Nothing, st.sys.(services := GiveBack(st.sys.services, saved, env.setFails, |saved|))), Done)
  }

  // --- native: only recorded keys change ---

  lemma {:induction false} NativeLoopTouchesRecorded(dynamic: map<string, seq<string>>, proxy: string,
                                                     keys: seq<string>, fails: set<nat>, k: nat)
    requires k <= |keys|
    ensures var p := NativeLoop(dynamic, proxy, keys, fails, k);
            && (p.paths == [] ==> p.dynamic == dynamic)
            && p.dynamic.Keys == dynamic.Keys + (set path | path in p.paths)
            && (forall path | path in p.dynamic ::
                  p.dynamic[path] == if path in p.paths then [proxy] else dynamic[path])
    decreases k
  {
    if k > 0 {
      NativeLoopTouchesRecorded(dynamic, proxy, keys, fails, k - 1);
      var before, p := NativeLoop(dynamic, proxy, keys, fails, k - 1), NativeLoop(dynamic, proxy, keys, fails, k);
      if k - 1 !in fails {
        var path := StatePath(keys[k - 1]);
        assert forall q :: q in p.paths <==> q in before.paths || q == path;
      }
    }
  }

  /** What is recorded: the `State:` key of every listed service whose call worked, and no other. */
  lemma {:induction false} NativeLoopRecords(dynamic: map<string, seq<string>>, proxy: string, keys: seq<string>,
                                             fails: set<nat>, k: nat)
    requires k <= |keys|
    ensures var p := NativeLoop(dynamic, proxy, keys, fails, k);
            && (forall i: nat | i < k && i !in fails :: StatePath(keys[i]) in p.paths)
            && (forall path | path in p.paths :: exists i: nat :: i < k && i !in fails && path == StatePath(keys[i]))
    decreases k
  {
    hide StatePath;
    if k > 0 {
      NativeLoopRecords(dynamic, proxy, keys, fails, k - 1);
      var before := NativeLoop(dynamic, proxy, keys, fails, k - 1);
      forall path | path in before.paths
        ensures exists i: nat :: i < k && i !in fails && path == StatePath(keys[i])
      {
        var i: nat :| i < k - 1 && i !in fails && path == StatePath(keys[i]);
        assert i < k;
      }
    }
  }

  /** Some listed service's call worked. */
  ghost predicate NativeWorks(env: ApplyEnv) {
    env.store && env.keys.Some? && exists i: nat :: i < |env.keys.value| && i !in env.rawFails
  }

  /** With the store working and some call on it, apply is native: exactly the listed services whose calls
      worked end on the proxy and are recorded, all other keys and every stored server unchanged. */
  lemma AppliedNatively(st: State, proxy: string, env: ApplyEnv)
    requires NativeWorks(env)
    ensures var r := Applied(st, proxy, env);
            var worked := set i: nat | i < |env.keys.value| && i !in env.rawFails :: StatePath(env.keys.value[i]);
            && r.result == Done && r.state.applied.Native? && (set path | path in r.state.applied.paths) == worked
            && r.state.sys.services == st.sys.services
            && r.state.sys.dynamic.Keys == st.sys.dynamic.Keys + worked
            && (forall path | path in r.state.sys.dynamic ::
                  r.state.sys.dynamic[path] == if path in worked then [proxy] else st.sys.dynamic[path])
  {
    hide StatePath;
    var keys := env.keys.value;
    NativeLoopRecords(st.sys.dynamic, proxy, keys, env.rawFails, |keys|);
    NativeLoopTouchesRecorded(st.sys.dynamic, proxy, keys, env.rawFails, |keys|);
    var i: nat :| i < |keys| && i !in env.rawFails;
    assert StatePath(keys[i]) in NativeLoop(st.sys.dynamic, proxy, keys, env.rawFails, |keys|).paths;
  }

  /** Otherwise no key changes and the commands decide. */
  lemma AppliedByCommands(st: State, proxy: string, env: ApplyEnv)
    requires !NativeWorks(env)
    ensures var r, s := Applied(st, proxy, env), ShellApply(st.sys.services, proxy, env);
            && r.state.sys == System(st.sys.dynamic, s.services) && r.result == s.result
            && r.state.applied == if s.result.Done? then Shell(s.saved) else st.applied
  {
    hide StatePath;
    hide ShellApply;
    if env.store && env.keys.Some? {
      var keys := env.keys.value;
      NativeLoopRecords(st.sys.dynamic, proxy, keys, env.rawFails, |keys|);
      NativeLoopTouchesRecorded(st.sys.dynamic, proxy, keys, env.rawFails, |keys|);
      var paths := NativeLoop(st.sys.dynamic, proxy, keys, env.rawFails, |keys|).paths;
      if paths != [] {
        FirstIn(paths);
      }
    }
  }

  lemma FirstIn(paths: seq<string>)
    requires paths != []
    ensures exists path :: path in paths
  {
    assert paths[0] in paths;
  }

  /** With no listing, or no service in it, nothing changes. */
  lemma NothingListed(services: map<string, seq<string>>, proxy: string, env: ApplyEnv)
    requires env.listing.Out? ==> NetworkServices(env.listing.text) == []
    ensures ShellApply(services, proxy, env) ==
            ShellProgress(services, [],
                          Failed(if env.listing.Broke? then env.listing.why else "no network services found"))
  {
    hide NetworkServices;
  }

  /** A recorded key is gone unless every removal of it failed; the others keep their values. */
  lemma {:induction false} RemoveLoopRemoves(dynamic: map<string, seq<string>>, paths: seq<string>, fails: set<nat>,
                                             k: nat)
    requires k <= |paths|
    ensures var d := RemoveLoop(dynamic, paths, fails, k);
            && (forall path :: path in d <==> path in dynamic && AllFail(paths[..k], fails, path))
            && (forall path | path in d :: d[path] == dynamic[path])
    decreases k
  {
    if k > 0 {
      RemoveLoopRemoves(dynamic, paths, fails, k - 1);
      forall path ensures AllFail(paths[..k], fails, path) <==>
                          AllFail(paths[..k - 1], fails, path) && (path == paths[k - 1] ==> k - 1 in fails)
      {
        AllFailOneMore(paths, fails, k, path);
      }
    }
  }

  lemma {:induction false} LastSegmentWhole(s: string)
    requires '/' !in s
    ensures LastSegment(s) == s
  {
    if s != "" {
      assert s[|s| - 1] in s && forall c | c in s[..|s| - 1] :: c in s;
      LastSegmentWhole(s[..|s| - 1]);
    }
  }

  lemma {:induction false} LastSegmentIs(before: string, last: string)
    requires '/' !in last
    ensures LastSegment(before + "/" + last) == last
  {
    var s := before + "/" + last;
    if last != "" {
      var shorter := last[..|last| - 1];
      assert s[..|s| - 1] == before + "/" + shorter;
      assert last[|last| - 1] in last && s[|s| - 1] == last[|last| - 1];
      LastSegmentIs(before, shorter);
    }
  }

  /** For the key of a service the native path writes that service's runtime key, never its stored one. */
  lemma StatePathOfService(uuid: string)
    requires '/' !in uuid
    ensures StatePath("Setup:/Network/Service" + "/" + uuid) == "State:/Network/Service/" + uuid + "/DNS"
  {
    LastSegmentIs("Setup:/Network/Service", uuid);
  }

  /** A native apply followed by a restore with any outcomes brings the dynamic keys back exactly
      when every recorded key that could be removed did not exist before, and every other one held
      the proxy already; the stored servers are never written. */
  lemma NativeRoundTripExactly(st: State, proxy: string, a: ApplyEnv, b: RestoreEnv)
    requires st.applied == Nothing && Applied(st, proxy, a).state.applied.Native?
    ensures var r := Applied(st, proxy, a).state;
            var end := Restored(r, b).state.sys;
            var paths := r.applied.paths;
            && r.sys.services == end.services == st.sys.services
            && (end.dynamic == st.sys.dynamic <==>
                  forall path | path in paths ::
                    if b.store && !AllFail(paths, b.removeFails, path) then path !in st.sys.dynamic
                    else path in st.sys.dynamic && st.sys.dynamic[path] == [proxy])
  {
    hide NativeLoop;
    hide RemoveLoop;
    hide AllFail;
    var r := Applied(st, proxy, a).state;
    var paths := r.applied.paths;
    NativeLoopTouchesRecorded(st.sys.dynamic, proxy, a.keys.value, a.rawFails, |a.keys.value|);
    RemoveLoopRemoves(r.sys.dynamic, paths, b.removeFails, |paths|);
    assert paths[..|paths|] == paths;
    var end := Restored(r, b).state.sys;
    Unlisted(paths, b.removeFails);
    forall path | path in paths
      ensures path in r.sys.dynamic && r.sys.dynamic[path] == [proxy]
      ensures path in end.dynamic <==> !(b.store && !AllFail(paths, b.removeFails, path))
    {
    }
    if forall path | path in paths ::
         if b.store && !AllFail(paths, b.removeFails, path) then path !in st.sys.dynamic
         else path in st.sys.dynamic && st.sys.dynamic[path] == [proxy] {
      assert forall path :: path in end.dynamic <==> path in st.sys.dynamic;
      assert forall path | path in end.dynamic :: end.dynamic[path] == st.sys.dynamic[path];
    }
  }

  // --- shell: save and give back ---

  /** No set command before the `k`-th fails, and every named service exists. */
  ghost predicate SetsWork(services: map<string, seq<string>>, names: seq<string>, fails: set<nat>, k: nat)
    requires k <= |names|
  {
    forall i | 0 <= i < k :: i !in fails && names[i] in services
  }

  /** Every stored server is a word, as the command prints it; the parser may still not accept it. */
  ghost predicate WordServers(services: map<string, seq<string>>) {
    forall n | n in services :: forall a | a in services[n] :: IsWord(a)
  }

  lemma {:induction false} SetLoopCounts(services: map<string, seq<string>>, proxy: string, names: seq<string>,
                                         fails: set<nat>, k: nat)
    requires k <= |names| && SetsWork(services, names, fails, k)
    ensures SetLoop(services, proxy, names, fails, k).count == k
    ensures SetLoop(services, proxy, names, fails, k).services.Keys == services.Keys
    decreases k
  {
    if k > 0 {
      SetLoopCounts(services, proxy, names, fails, k - 1);
    }
  }

  lemma {:induction false} SetLoopAt(services: map<string, seq<string>>, proxy: string, names: seq<string>,
                                     fails: set<nat>, k: nat, n: string)
    requires k <= |names| && SetsWork(services, names, fails, k) && n in services
    ensures n in SetLoop(services, proxy, names, fails, k).services
    ensures SetLoop(services, proxy, names, fails, k).services[n] == if n in names[..k] then [proxy] else services[n]
    decreases k
  {
    if k > 0 {
      SetLoopAt(services, proxy, names, fails, k - 1, n);
      SetLoopCounts(services, proxy, names, fails, k - 1);
      assert names[..k] == names[..k - 1] + [names[k - 1]];
    }
  }

  /** Exactly the services before the first failure are set to the proxy. */
  lemma SetLoopSetsPrefix(
      services: map<string, seq<string>>, proxy: string, names: seq<string>, fails: set<nat>, k: nat)
    requires k <= |names| && SetsWork(services, names, fails, k)
    ensures var p := SetLoop(services, proxy, names, fails, k);
            && p.count == k
            && p.services.Keys == services.Keys
            && (forall n | n in services :: p.services[n] == if n in names[..k] then [proxy] else services[n])
  {
    hide SetLoop;
    SetLoopCounts(services, proxy, names, fails, k);
    forall n | n in services
      ensures SetLoop(services, proxy, names, fails, k).services[n] == if n in names[..k] then [proxy] else services[n]
    {
      SetLoopAt(services, proxy, names, fails, k, n);
    }
  }

  lemma SetLoopStops(services: map<string, seq<string>>, proxy: string, names: seq<string>,
                     fails: set<nat>, j: nat, k: nat)
    requires j < k <= |names| && SetsWork(services, names, fails, j)
    requires j in fails || names[j] !in services
    ensures SetLoop(services, proxy, names, fails, k) == SetLoop(services, proxy, names, fails, j)
  {
    SetLoopSetsPrefix(services, proxy, names, fails, j);
    SetLoopStays(services, proxy, names, fails, j, k);
  }

  /** When the `j`-th set command is the first to fail, apply fails, exactly the services before
      it use the proxy, and nothing is recorded to give them back. */
  lemma ShellPrefixLeftBehind(st: State, proxy: string, env: ApplyEnv, j: nat)
    requires st.applied == Nothing && NativeApply(st.sys.dynamic, proxy, env).paths == []
    requires env.listing.Out? && j < |NetworkServices(env.listing.text)|
    requires var names := NetworkServices(env.listing.text);
             SetsWork(st.sys.services, names, env.setFails, j) && (j in env.setFails || names[j] !in st.sys.services)
    ensures var names := NetworkServices(env.listing.text);
            var r := Applied(st, proxy, env);
            && r.result == Failed(env.why) && r.state.applied == Nothing
            && r.state.sys.services.Keys == st.sys.services.Keys
            && (forall n | n in st.sys.services ::
                  r.state.sys.services[n] == if n in names[..j] then [proxy] else st.sys.services[n])
  {
    var names := NetworkServices(env.listing.text);
    SetLoopSetsPrefix(st.sys.services, proxy, names, env.setFails, j);
    SetLoopStops(st.sys.services, proxy, names, env.setFails, j, |names|);
  }

  /** Reading a service back through the printed text gives its servers exactly when all of them
      are addresses. */
  lemma {:induction false} CurrentDnsReads(
      services: map<string, seq<string>>, service: string, isAddress: string -> bool)
    requires service in services && forall a | a in services[service] :: IsWord(a)
    ensures CurrentDns(services, service, false, isAddress) == services[service] <==>
            forall a | a in services[service] :: isAddress(a)
  {
    DnsServersInvertListing(service, services[service], isAddress);
  }

  /** What is read of a service's servers are those the parser accepts, in order; of a failed read, none. */
  lemma {:induction false} CurrentDnsExactly(
      services: map<string, seq<string>>, service: string, fails: bool, isAddress: string -> bool)
    requires service in services && forall a | a in services[service] :: IsWord(a)
    ensures CurrentDns(services, service, fails, isAddress) ==
            if fails then [] else AddressesIn(services[service], isAddress)
  {
    DnsServersOfListing(service, services[service], isAddress);
  }

  ghost predicate SavedFor(saved: seq<Saved>, name: string) {
    exists i :: 0 <= i < |saved| && saved[i].service == name
  }

  /** What is saved for the `i`-th name: nothing if its read failed, the proxy if the name was set
      before, and otherwise the earlier servers as far as the parser accepts them. */
  function SavedAt(services: map<string, seq<string>>, proxy: string, names: seq<string>, env: ApplyEnv, i: nat)
    : seq<string>
    requires i < |names|
  {
    if i in env.readFails then []
    else if names[i] in names[..i] then [proxy]
    else CurrentDns(services, names[i], false, env.isAddress)
  }

  lemma {:induction false} SavedLoopSaves(services: map<string, seq<string>>, proxy: string, names: seq<string>,
                                          env: ApplyEnv, k: nat, i: nat)
    requires i < k <= |names| && SetsWork(services, names, env.setFails, k)
    requires IsWord(proxy) && env.isAddress(proxy)
    ensures SavedLoop(services, proxy, names, env, k)[i] ==
            Saved(names[i], SavedAt(services, proxy, names, env, i))
    decreases k
  {
    hide SetLoop;
    hide CurrentDns;
    if i < k - 1 {
      SavedLoopSaves(services, proxy, names, env, k - 1, i);
    } else if i !in env.readFails {
      var now := SetLoop(services, proxy, names, env.setFails, i).services;
      SetLoopSetsPrefix(services, proxy, names, env.setFails, i);
      CurrentDnsSame(services, now, names[i], env.isAddress);
      if names[i] in names[..i] {
        CurrentDnsReads(now, names[i], env.isAddress);
      }
    } else {
      CurrentDnsFails(SetLoop(services, proxy, names, env.setFails, i).services, names[i], env.isAddress);
    }
  }

  /** What is read depends on the service's own servers only. */
  lemma CurrentDnsSame(services: map<string, seq<string>>, now: map<string, seq<string>>, service: string,
                       isAddress: string -> bool)
    requires service in services && service in now
    ensures services[service] == now[service] ==>
              CurrentDns(services, service, false, isAddress) == CurrentDns(now, service, false, isAddress)
  {
  }

  lemma CurrentDnsFails(services: map<string, seq<string>>, service: string, isAddress: string -> bool)
    ensures CurrentDns(services, service, true, isAddress) == []
  {
  }

  // --- giving back ---

  /** The `i`-th entry is the last of its service that is given back. */
  ghost predicate GivesLast(names: seq<string>, fails: set<nat>, i: nat)
    requires i < |names|
  {
    i !in fails && forall j: nat | i < j < |names| && names[j] == names[i] :: j in fails
  }

  /** A service with some entry given back has a last one. */
  lemma {:induction false} LastGiven(names: seq<string>, fails: set<nat>, k: nat, n: string) returns (i: nat)
    requires k <= |names| && forall j: nat | k <= j < |names| && names[j] == n :: j in fails
    requires !AllFail(names, fails, n)
    ensures i < |names| && names[i] == n && GivesLast(names, fails, i)
    decreases k
  {
    if k == 0 || (names[k - 1] == n && k - 1 !in fails) {
      i := k - 1;
    } else {
      i := LastGiven(names, fails, k - 1, n);
    }
  }

  lemma {:induction false} GiveBackKeeps(services: map<string, seq<string>>, saved: seq<Saved>, fails: set<nat>, k: nat,
                                         n: string)
    requires k <= |saved| && forall i: nat | i < k && saved[i].service == n :: i in fails
    ensures n in GiveBack(services, saved, fails, k) <==> n in services
    ensures n in services ==> GiveBack(services, saved, fails, k)[n] == services[n]
    decreases k
  {
    if k > 0 {
      GiveBackKeeps(services, saved, fails, k - 1, n);
    }
  }

  lemma {:induction false} GiveBackKeys(services: map<string, seq<string>>, saved: seq<Saved>, fails: set<nat>, k: nat)
    requires k <= |saved|
    ensures GiveBack(services, saved, fails, k).Keys == services.Keys
    decreases k
  {
    if k > 0 {
      GiveBackKeys(services, saved, fails, k - 1);
    }
  }

  /** A saved service gets the servers of its last entry that is given back. */
  lemma {:induction false} GiveBackSets(services: map<string, seq<string>>, saved: seq<Saved>, fails: set<nat>, k: nat,
                                        i: nat)
    requires i < k <= |saved| && saved[i].service in services && i !in fails
    requires forall j: nat | i < j < k && saved[j].service == saved[i].service :: j in fails
    ensures saved[i].service in GiveBack(services, saved, fails, k)
    ensures GiveBack(services, saved, fails, k)[saved[i].service] == saved[i].servers
    decreases k
  {
    if i < k - 1 {
      GiveBackSets(services, saved, fails, k - 1, i);
    } else {
      GiveBackKeys(services, saved, fails, i);
    }
  }

  // --- apply and restore on a list of names ---

  /** Every service after setting all of `names` and giving back what was saved, with the
      give-backs in `fails` failing. */
  function SaveAndGiveBack(services: map<string, seq<string>>, proxy: string, names: seq<string>, env: ApplyEnv,
                           fails: set<nat>)
    : map<string, seq<string>>
  {
    GiveBack(SetLoop(services, proxy, names, env.setFails, |names|).services,
             SavedLoop(services, proxy, names, env, |names|), fails, |names|)
  }

  lemma SaveAndGiveBackKeys(services: map<string, seq<string>>, proxy: string, names: seq<string>, env: ApplyEnv,
                            fails: set<nat>)
    requires SetsWork(services, names, env.setFails, |names|)
    ensures SaveAndGiveBack(services, proxy, names, env, fails).Keys == services.Keys
  {
    SetLoopSetsPrefix(services, proxy, names, env.setFails, |names|);
    GiveBackKeys(SetLoop(services, proxy, names, env.setFails, |names|).services,
                 SavedLoop(services, proxy, names, env, |names|), fails, |names|);
  }

  /** A service none of whose entries is given back: on the proxy if listed, untouched if not. */
  lemma {:induction false} NotGivenBack(services: map<string, seq<string>>, proxy: string, names: seq<string>,
                                        env: ApplyEnv, fails: set<nat>, n: string)
    requires SetsWork(services, names, env.setFails, |names|) && n in services && AllFail(names, fails, n)
    ensures var end := SaveAndGiveBack(services, proxy, names, env, fails);
            n in end && end[n] == if n in names then [proxy] else services[n]
  {
    hide CurrentDns;
    SetLoopSetsPrefix(services, proxy, names, env.setFails, |names|);
    assert names[..|names|] == names;
    GiveBackKeeps(SetLoop(services, proxy, names, env.setFails, |names|).services,
                  SavedLoop(services, proxy, names, env, |names|), fails, |names|, n);
  }

  /** A service gets what was saved in its last entry that is given back. */
  lemma {:induction false} GivenBack(services: map<string, seq<string>>, proxy: string, names: seq<string>,
                                     env: ApplyEnv, fails: set<nat>, i: nat)
    requires SetsWork(services, names, env.setFails, |names|) && i < |names| && GivesLast(names, fails, i)
    ensures var end := SaveAndGiveBack(services, proxy, names, env, fails);
            names[i] in end && end[names[i]] == SavedLoop(services, proxy, names, env, |names|)[i].servers
  {
    hide CurrentDns;
    SetLoopSetsPrefix(services, proxy, names, env.setFails, |names|);
    GiveBackSets(SetLoop(services, proxy, names, env.setFails, |names|).services,
                 SavedLoop(services, proxy, names, env, |names|), fails, |names|, i);
  }

  /** The entry that decides about a service holds its earlier servers: if its read failed there
      were none, if it repeats a name they were the proxy already, and otherwise the parser
      accepts all of them. */
  predicate HoldsEarlier(services: map<string, seq<string>>, proxy: string, names: seq<string>, env: ApplyEnv, i: nat)
    requires i < |names| && names[i] in services
  {
    var servers := services[names[i]];
    if i in env.readFails then servers == []
    else if names[i] in names[..i] then servers == [proxy]
    else forall a | a in servers :: env.isAddress(a)
  }

  lemma HoldsEarlierExactly(services: map<string, seq<string>>, proxy: string, names: seq<string>, env: ApplyEnv,
                            i: nat)
    requires i < |names| && names[i] in services && WordServers(services)
    ensures SavedAt(services, proxy, names, env, i) == services[names[i]] <==>
            HoldsEarlier(services, proxy, names, env, i)
  {
    CurrentDnsReads(services, names[i], env.isAddress);
  }

  /** When all sets work, and whatever reads and give-backs fail, saving and giving back returns
      the whole map exactly when every service never given back used the proxy before, and every
      other one's deciding entry holds its earlier servers. */
  lemma {:induction false} SaveAndGiveBackExactly(
      services: map<string, seq<string>>, proxy: string, names: seq<string>, env: ApplyEnv, fails: set<nat>)
    requires SetsWork(services, names, env.setFails, |names|) && WordServers(services)
    requires IsWord(proxy) && env.isAddress(proxy)
    ensures SaveAndGiveBack(services, proxy, names, env, fails) == services <==>
            && (forall n | n in names && AllFail(names, fails, n) :: services[n] == [proxy])
            && (forall i: nat | i < |names| && GivesLast(names, fails, i) ::
                  HoldsEarlier(services, proxy, names, env, i))
  {
    hide SaveAndGiveBack;
    hide SavedAt;
    hide HoldsEarlier;
    hide GivesLast;
    hide AllFail;
    var end := SaveAndGiveBack(services, proxy, names, env, fails);
    SaveAndGiveBackKeys(services, proxy, names, env, fails);
    forall n | n in services && AllFail(names, fails, n)
      ensures end[n] == if n in names then [proxy] else services[n]
    {
      NotGivenBack(services, proxy, names, env, fails, n);
    }
    forall i: nat | i < |names| && GivesLast(names, fails, i)
      ensures end[names[i]] == services[names[i]] <==> HoldsEarlier(services, proxy, names, env, i)
    {
      GivenBack(services, proxy, names, env, fails, i);
      SavedLoopSaves(services, proxy, names, env, |names|, i);
      HoldsEarlierExactly(services, proxy, names, env, i);
    }
    forall n | n in services && !AllFail(names, fails, n)
      ensures exists i: nat :: i < |names| && names[i] == n && GivesLast(names, fails, i)
    {
      var i := LastGiven(names, fails, |names|, n);
    }
  }

  /** With every set working on the listed names, and whatever reads and give-backs fail, apply
      makes exactly those services use the proxy, and restore returns the whole system exactly
      under the condition of `SaveAndGiveBackExactly`. */
  lemma {:induction false} ShellRoundTrip(st: State, proxy: string, names: seq<string>, a: ApplyEnv, b: RestoreEnv)
    requires st.applied == Nothing && NativeApply(st.sys.dynamic, proxy, a).paths == []
    requires a.listing.Out? && NetworkServices(a.listing.text) == names && names != []
    requires SetsWork(st.sys.services, names, a.setFails, |names|) && WordServers(st.sys.services)
    requires IsWord(proxy) && a.isAddress(proxy)
    ensures var r := Applied(st, proxy, a);
            && r.result == Done
            && r.state.sys.services.Keys == st.sys.services.Keys
            && (forall n | n in st.sys.services ::
                  r.state.sys.services[n] == if n in names then [proxy] else st.sys.services[n])
            && (Restored(r.state, b).state == st <==>
                  && (forall n | n in names && AllFail(names, b.setFails, n) :: st.sys.services[n] == [proxy])
                  && (forall i: nat | i < |names| && GivesLast(names, b.setFails, i) ::
                        HoldsEarlier(st.sys.services, proxy, names, a, i)))
  {
    hide NetworkServices;
    hide SavedLoop;
    hide Applied;
    hide HoldsEarlier;
    hide GivesLast;
    hide AllFail;
    ShellApplied(st, proxy, a, names);
    SaveAndGiveBackExactly(st.sys.services, proxy, names, a, b.setFails);
  }

  /** Save and restore through text: for every printed list of distinct, well-formed names, apply
      makes exactly the listed services use the proxy; and with the give-backs working restore
      returns the whole map of services to servers exactly when the listed services whose read
      failed had none, and the parser accepts every server of the others. */
  lemma {:induction false} ShellRoundTripThroughText(
      st: State, proxy: string, header: string, listed: seq<Service>, a: ApplyEnv, b: RestoreEnv)
    requires st.applied == Nothing && NativeApply(st.sys.dynamic, proxy, a).paths == []
    requires IsLine(header) && listed != [] && a.listing == Out(ServiceListing(header, listed))
    requires forall s | s in listed :: IsServiceName(s.name) && s.name in st.sys.services
    requires Distinct(NamesOf(listed)) && WordServers(st.sys.services)
    requires a.setFails == {} && b.setFails == {}
    requires IsWord(proxy) && a.isAddress(proxy)
    ensures var r := Applied(st, proxy, a);
            && r.result == Done
            && r.state.sys.services.Keys == st.sys.services.Keys
            && (forall n | n in st.sys.services ::
                  r.state.sys.services[n] == if n in NamesOf(listed) then [proxy] else st.sys.services[n])
            && (Restored(r.state, b).state == st <==>
                  forall i: nat | i < |listed| ::
                    if i in a.readFails then st.sys.services[listed[i].name] == []
                    else forall s | s in st.sys.services[listed[i].name] :: a.isAddress(s))
  {
    hide Applied;
    hide Restored;
    hide NativeApply;
    hide HoldsEarlier;
    hide NetworkServices;
    hide GivesLast;
    hide AllFail;
    var names := NamesOf(listed);
    ServicesInvertListing(header, listed);
    forall i | 0 <= i < |names| ensures names[i] in st.sys.services {
      assert listed[i] in listed;
    }
    ShellRoundTrip(st, proxy, names, a, b);
    EachGivenOnce(names);
    forall i: nat | i < |names|
      ensures HoldsEarlier(st.sys.services, proxy, names, a, i) <==>
              if i in a.readFails then st.sys.services[listed[i].name] == []
              else forall s | s in st.sys.services[listed[i].name] :: a.isAddress(s)
    {
      HoldsEarlierOnce(st.sys.services, proxy, names, a, i);
    }
  }

  lemma HoldsEarlierOnce(services: map<string, seq<string>>, proxy: string, names: seq<string>, env: ApplyEnv, i: nat)
    requires i < |names| && names[i] in services && names[i] !in names[..i]
    ensures HoldsEarlier(services, proxy, names, env, i) <==>
            if i in env.readFails then services[names[i]] == []
            else forall s | s in services[names[i]] :: env.isAddress(s)
  {
  }

  lemma EachGivenOnce(names: seq<string>)
    requires Distinct(names)
    ensures forall n | n in names :: !AllFail(names, {}, n)
    ensures forall i: nat | i < |names| :: GivesLast(names, {}, i) && names[i] !in names[..i]
  {
    NoneFail(names);
  }

  // --- contract shared with the other redirectors ---

  ghost predicate Points(sys: System, proxy: string) {
    || (exists p :: p in sys.dynamic && sys.dynamic[p] == [proxy])
    || (exists n :: n in sys.services && sys.services[n] == [proxy])
  }

  function ServicesOf(saved: seq<Saved>): (names: seq<string>)
    ensures |names| == |saved| && forall i | 0 <= i < |names| :: names[i] == saved[i].service
  {
    seq(|saved|, i requires 0 <= i < |saved| => saved[i].service)
  }

  /** Whatever points at the proxy is covered by the record, whose deciding entries lead away from it. */
  ghost predicate Tidy(st: State, proxy: string) {
    && (forall p | p in st.sys.dynamic && st.sys.dynamic[p] == [proxy] :: st.applied.Native? && p in st.applied.paths)
    && (forall n | n in st.sys.services && st.sys.services[n] == [proxy] ::
          st.applied.Shell? && SavedFor(st.applied.saved, n))
    && (st.applied.Shell? ==>
          var saved := st.applied.saved;
          forall i: nat | i < |saved| && GivesLast(ServicesOf(saved), {}, i) :: saved[i].servers != [proxy])
  }

  /** If the fallback is taken, no set command fails once another has succeeded, and no service's last
      saved entry is the proxy itself. */
  ghost predicate CleanApply(st: State, proxy: string, env: ApplyEnv) {
    NativeApply(st.sys.dynamic, proxy, env).paths == [] && env.listing.Out? ==>
      var names := NetworkServices(env.listing.text);
      if SetsWork(st.sys.services, names, env.setFails, |names|) then
        forall i: nat | i < |names| && GivesLast(names, {}, i) ::
          SavedLoop(st.sys.services, proxy, names, env, |names|)[i].servers != [proxy]
      else
        0 in env.setFails || names[0] !in st.sys.services
  }

  ghost predicate CleanRestore(st: State, env: RestoreEnv) {
    && (st.applied.Native? ==> env.store && env.removeFails == {})
    && (st.applied.Shell? ==> env.setFails == {})
  }

  lemma ApplyContract(st: State, proxy: string, env: ApplyEnv)
    requires st.applied == Nothing
    ensures var r := Applied(st, proxy, env);
            && (r.result.Done? <==> r.state.applied != Nothing)
            && (r.result.Done? ==> Points(r.state.sys, proxy))
            && (Tidy(st, proxy) ==> (CleanApply(st, proxy, env) <==> Tidy(r.state, proxy)))
  {
    hide SavedLoop;
    hide NetworkServices;
    var native := NativeApply(st.sys.dynamic, proxy, env);
    if env.store && env.keys.Some? {
      NativeLoopTouchesRecorded(st.sys.dynamic, proxy, env.keys.value, env.rawFails, |env.keys.value|);
    }
    if native.paths != [] {
      assert native.paths[0] in native.paths && native.dynamic[native.paths[0]] == [proxy];
    } else if env.listing.Out? && NetworkServices(env.listing.text) != [] {
      var names := NetworkServices(env.listing.text);
      var p := SetLoop(st.sys.services, proxy, names, env.setFails, |names|);
      assert p.count == |names| ==> p.services[names[|names| - 1]] == [proxy];
      if Tidy(st, proxy) {
        if CleanApply(st, proxy, env) {
          ShellApplyTidy(st, proxy, env, names);
        } else {
          ShellApplyUntidy(st, proxy, env, names);
        }
      }
    }
  }

  lemma ShellApplyTidy(st: State, proxy: string, env: ApplyEnv, names: seq<string>)
    requires st.applied == Nothing && NativeApply(st.sys.dynamic, proxy, env).paths == []
    requires env.listing.Out? && names == NetworkServices(env.listing.text) && names != []
    requires CleanApply(st, proxy, env) && Tidy(st, proxy)
    ensures Tidy(Applied(st, proxy, env).state, proxy)
  {
    hide NetworkServices;
    hide SavedLoop;
    if SetsWork(st.sys.services, names, env.setFails, |names|) {
      hide Applied;
      ShellApplied(st, proxy, env, names);
      var saved := SavedLoop(st.sys.services, proxy, names, env, |names|);
      assert ServicesOf(saved) == names;
      forall n | n in names ensures SavedFor(saved, n) {
        var i :| 0 <= i < |names| && names[i] == n;
        assert saved[i].service == n;
      }
    } else {
      ShellPrefixLeftBehind(st, proxy, env, 0);
      NativeNothing(st.sys.dynamic, proxy, env);
    }
  }

  lemma ShellApplyUntidy(st: State, proxy: string, env: ApplyEnv, names: seq<string>)
    requires st.applied == Nothing && NativeApply(st.sys.dynamic, proxy, env).paths == []
    requires env.listing.Out? && names == NetworkServices(env.listing.text) && names != []
    requires !CleanApply(st, proxy, env) && Tidy(st, proxy)
    ensures !Tidy(Applied(st, proxy, env).state, proxy)
  {
    hide NetworkServices;
    hide SavedLoop;
    hide Applied;
    if SetsWork(st.sys.services, names, env.setFails, |names|) {
      ShellApplied(st, proxy, env, names);
      var saved := SavedLoop(st.sys.services, proxy, names, env, |names|);
      assert ServicesOf(saved) == names;
    } else {
      var j := FirstFailure(st.sys.services, names, env.setFails, |names|);
      ShellPrefixLeftBehind(st, proxy, env, j);
      assert names[0] in names[..j];
    }
  }

  lemma NativeNothing(dynamic: map<string, seq<string>>, proxy: string, env: ApplyEnv)
    requires NativeApply(dynamic, proxy, env).paths == []
    ensures NativeApply(dynamic, proxy, env).dynamic == dynamic
  {
    if env.store && env.keys.Some? {
      NativeLoopTouchesRecorded(dynamic, proxy, env.keys.value, env.rawFails, |env.keys.value|);
    }
  }

  /** The fallback when no set command fails. */
  lemma {:induction false} ShellApplied(st: State, proxy: string, env: ApplyEnv, names: seq<string>)
    requires NativeApply(st.sys.dynamic, proxy, env).paths == []
    requires env.listing.Out? && names == NetworkServices(env.listing.text) && names != []
    requires SetsWork(st.sys.services, names, env.setFails, |names|)
    ensures var r := Applied(st, proxy, env);
            && r.result == Done
            && r.state.applied == Shell(SavedLoop(st.sys.services, proxy, names, env, |names|))
            && r.state.sys.dynamic == st.sys.dynamic
            && r.state.sys.services == SetLoop(st.sys.services, proxy, names, env.setFails, |names|).services
            && r.state.sys.services.Keys == st.sys.services.Keys
            && (forall n | n in st.sys.services ::
                  r.state.sys.services[n] == if n in names then [proxy] else st.sys.services[n])
  {
    hide NetworkServices;
    hide SavedLoop;
    NativeNothing(st.sys.dynamic, proxy, env);
    assert names[..|names|] == names;
    SetLoopSetsPrefix(st.sys.services, proxy, names, env.setFails, |names|);
  }

  lemma RestoreContract(st: State, proxy: string, env: RestoreEnv)
    ensures var r := Restored(st, env);
            && r.state.applied == Nothing
            && (Tidy(st, proxy) && CleanRestore(st, env) ==> Tidy(r.state, proxy) && !Points(r.state.sys, proxy))
            && (forall again: RestoreEnv :: Restored(r.state, again) == Reply(r.state, Done))
  {
    if Tidy(st, proxy) && CleanRestore(st, env) {
      if st.applied.Native? {
        var paths := st.applied.paths;
        RemoveLoopRemoves(st.sys.dynamic, paths, {}, |paths|);
        assert paths[..|paths|] == paths;
        NoneFail(paths);
      } else if st.applied.Shell? {
        var services, saved := st.sys.services, st.applied.saved;
        GiveBackKeys(services, saved, env.setFails, |saved|);
        var names := ServicesOf(saved);
        forall n | n in services ensures GiveBack(services, saved, {}, |saved|)[n] != [proxy] {
          if SavedFor(saved, n) {
            var j: nat :| j < |saved| && saved[j].service == n;
            assert names[j] == n;
            NoneFail(names);
            var i := LastGiven(names, {}, |names|, n);
            GiveBackSets(services, saved, {}, |saved|, i);
          } else {
            GiveBackKeeps(services, saved, {}, |saved|, n);
          }
        }
      }
    }
  }

  // --- when something is left on the proxy ---

  /** The outcomes that leave something on the proxy: a recorded key that is never removed, a service
      never given back or whose deciding entry is the proxy itself, or, if apply failed, a first
      set command that worked. */
  ghost predicate LeftPointing(st: State, proxy: string, a: ApplyEnv, b: RestoreEnv) {
    match Applied(st, proxy, a).state.applied
    case Native(paths) => !b.store || exists path | path in paths :: AllFail(paths, b.removeFails, path)
    case Shell(saved) =>
      var names := ServicesOf(saved);
      || (exists n | n in names :: AllFail(names, b.setFails, n))
      || (exists i: nat | i < |names| :: GivesLast(names, b.setFails, i) && saved[i].servers == [proxy])
    case Nothing =>
      a.listing.Out? &&
      var names := NetworkServices(a.listing.text);
      names != [] && 0 !in a.setFails && names[0] in st.sys.services
  }

  lemma NativeLeftPointing(st: State, proxy: string, a: ApplyEnv, b: RestoreEnv)
    requires st.applied == Nothing && Tidy(st, proxy) && Applied(st, proxy, a).state.applied.Native?
    ensures Points(Restored(Applied(st, proxy, a).state, b).state.sys, proxy) <==> LeftPointing(st, proxy, a, b)
  {
    hide NativeLoop;
    hide RemoveLoop;
    hide AllFail;
    var r := Applied(st, proxy, a).state;
    var paths := r.applied.paths;
    NativeLoopTouchesRecorded(st.sys.dynamic, proxy, a.keys.value, a.rawFails, |a.keys.value|);
    RemoveLoopRemoves(r.sys.dynamic, paths, b.removeFails, |paths|);
    assert paths[..|paths|] == paths;
    var end := Restored(r, b).state.sys;
    Unlisted(paths, b.removeFails);
    if b.store {
      if path :| path in paths && AllFail(paths, b.removeFails, path) {
        assert path in end.dynamic && end.dynamic[path] == [proxy];
      }
    } else {
      assert paths[0] in paths;
      assert end.dynamic[paths[0]] == [proxy];
    }
  }

  lemma {:induction false} ShellLeftPointing(st: State, proxy: string, names: seq<string>, a: ApplyEnv, b: RestoreEnv)
    requires st.applied == Nothing && Tidy(st, proxy) && NativeApply(st.sys.dynamic, proxy, a).paths == []
    requires a.listing.Out? && NetworkServices(a.listing.text) == names && names != []
    requires SetsWork(st.sys.services, names, a.setFails, |names|)
    ensures Points(Restored(Applied(st, proxy, a).state, b).state.sys, proxy) <==> LeftPointing(st, proxy, a, b)
  {
    hide NetworkServices;
    hide SavedLoop;
    hide Applied;
    hide GivesLast;
    hide AllFail;
    hide GiveBack;
    ShellApplied(st, proxy, a, names);
    var services := st.sys.services;
    var saved := SavedLoop(services, proxy, names, a, |names|);
    assert ServicesOf(saved) == names;
    var end := SaveAndGiveBack(services, proxy, names, a, b.setFails);
    SaveAndGiveBackKeys(services, proxy, names, a, b.setFails);
    forall n | n in services && AllFail(names, b.setFails, n)
      ensures end[n] == if n in names then [proxy] else services[n]
    {
      NotGivenBack(services, proxy, names, a, b.setFails, n);
    }
    forall i: nat | i < |names| && GivesLast(names, b.setFails, i) ensures end[names[i]] == saved[i].servers {
      GivenBack(services, proxy, names, a, b.setFails, i);
    }
    forall n | n in services && !AllFail(names, b.setFails, n)
      ensures exists i: nat :: i < |names| && names[i] == n && GivesLast(names, b.setFails, i)
    {
      var i := LastGiven(names, b.setFails, |names|, n);
    }
  }

  lemma ShellFailedLeftPointing(st: State, proxy: string, names: seq<string>, a: ApplyEnv, b: RestoreEnv)
    requires st.applied == Nothing && Tidy(st, proxy) && NativeApply(st.sys.dynamic, proxy, a).paths == []
    requires a.listing.Out? && NetworkServices(a.listing.text) == names && names != []
    requires !SetsWork(st.sys.services, names, a.setFails, |names|)
    ensures Points(Restored(Applied(st, proxy, a).state, b).state.sys, proxy) <==> LeftPointing(st, proxy, a, b)
  {
    hide NetworkServices;
    hide Applied;
    var j := FirstFailure(st.sys.services, names, a.setFails, |names|);
    ShellPrefixLeftBehind(st, proxy, a, j);
    ShellFailedFrame(st, proxy, a, j);
    var end := Restored(Applied(st, proxy, a).state, b).state.sys;
    if j > 0 {
      assert names[0] in names[..j];
      assert end.services[names[0]] == [proxy];
    } else {
      assert forall n | n in st.sys.services :: n !in names[..j];
    }
  }

  lemma ShellFailedFrame(st: State, proxy: string, env: ApplyEnv, j: nat)
    requires NativeApply(st.sys.dynamic, proxy, env).paths == []
    ensures Applied(st, proxy, env).state.sys.dynamic == st.sys.dynamic
  {
    hide NetworkServices;
    NativeNothing(st.sys.dynamic, proxy, env);
  }

  lemma {:induction false} FirstFailure(services: map<string, seq<string>>, names: seq<string>, fails: set<nat>,
                                        k: nat) returns (j: nat)
    requires k <= |names| && !SetsWork(services, names, fails, k)
    ensures j < k && SetsWork(services, names, fails, j) && (j in fails || names[j] !in services)
    decreases k
  {
    if SetsWork(services, names, fails, k - 1) {
      j := k - 1;
    } else {
      j := FirstFailure(services, names, fails, k - 1);
    }
  }

  /** Over all outcomes: connect then disconnect gives the whole system back exactly when, after a native
      apply, no removable recorded key existed before and every other one held the proxy; after the
      fallback, every service never given back was on the proxy and each other one's deciding entry
      holds its earlier servers; and, after a failed apply, every service set was on the proxy. */
  lemma SameSystemExactly(st: State, proxy: string, a: ApplyEnv, b: RestoreEnv)
    requires st.applied == Nothing && WordServers(st.sys.services)
    requires IsWord(proxy) && a.isAddress(proxy)
    ensures Restored(Applied(st, proxy, a).state, b).state.sys == st.sys <==> ComesBack(st, proxy, a, b)
  {
    hide NetworkServices;
    hide ComesBack;
    hide Applied;
    hide Restored;
    hide SetsWork;
    if NativeApply(st.sys.dynamic, proxy, a).paths != [] {
      NativeComesBack(st, proxy, a, b);
    } else if a.listing.Out? && NetworkServices(a.listing.text) != [] {
      var names := NetworkServices(a.listing.text);
      if SetsWork(st.sys.services, names, a.setFails, |names|) {
        ShellComesBack(st, proxy, names, a, b);
      } else {
        ShellFailedComesBack(st, proxy, names, a, b);
      }
    } else {
      NothingComesBack(st, proxy, a, b);
    }
  }

  ghost predicate ComesBack(st: State, proxy: string, a: ApplyEnv, b: RestoreEnv) {
    match Applied(st, proxy, a).state.applied
    case Native(paths) =>
      forall path | path in paths ::
        if b.store && !AllFail(paths, b.removeFails, path) then path !in st.sys.dynamic
        else path in st.sys.dynamic && st.sys.dynamic[path] == [proxy]
    case Shell(saved) =>
      var names := ServicesOf(saved);
      && (forall n | n in names && AllFail(names, b.setFails, n) ::
            n in st.sys.services && st.sys.services[n] == [proxy])
      && (forall i: nat | i < |names| && GivesLast(names, b.setFails, i) ::
            names[i] in st.sys.services && HoldsEarlier(st.sys.services, proxy, names, a, i))
    case Nothing =>
      a.listing.Out? ==>
        var names := NetworkServices(a.listing.text);
        forall i: nat | i < |names| && SetsWork(st.sys.services, names, a.setFails, i + 1) ::
          st.sys.services[names[i]] == [proxy]
  }

  lemma NativeComesBack(st: State, proxy: string, a: ApplyEnv, b: RestoreEnv)
    requires st.applied == Nothing && NativeApply(st.sys.dynamic, proxy, a).paths != []
    ensures Restored(Applied(st, proxy, a).state, b).state.sys == st.sys <==> ComesBack(st, proxy, a, b)
  {
    hide NativeApply;
    hide RemoveLoop;
    hide AllFail;
    NativeRoundTripExactly(st, proxy, a, b);
  }

  lemma ShellComesBack(st: State, proxy: string, names: seq<string>, a: ApplyEnv, b: RestoreEnv)
    requires st.applied == Nothing && NativeApply(st.sys.dynamic, proxy, a).paths == []
    requires a.listing.Out? && NetworkServices(a.listing.text) == names && names != []
    requires SetsWork(st.sys.services, names, a.setFails, |names|) && WordServers(st.sys.services)
    requires IsWord(proxy) && a.isAddress(proxy)
    ensures Restored(Applied(st, proxy, a).state, b).state.sys == st.sys <==> ComesBack(st, proxy, a, b)
  {
    hide NetworkServices;
    hide SavedLoop;
    hide Applied;
    hide HoldsEarlier;
    hide GivesLast;
    hide AllFail;
    hide GiveBack;
    ShellApplied(st, proxy, a, names);
    ShellRoundTrip(st, proxy, names, a, b);
    assert ServicesOf(SavedLoop(st.sys.services, proxy, names, a, |names|)) == names;
  }

  lemma ShellFailedComesBack(st: State, proxy: string, names: seq<string>, a: ApplyEnv, b: RestoreEnv)
    requires st.applied == Nothing && NativeApply(st.sys.dynamic, proxy, a).paths == []
    requires a.listing.Out? && NetworkServices(a.listing.text) == names && names != []
    requires !SetsWork(st.sys.services, names, a.setFails, |names|)
    ensures Restored(Applied(st, proxy, a).state, b).state.sys == st.sys <==> ComesBack(st, proxy, a, b)
  {
    hide NetworkServices;
    hide Applied;
    var j := FirstFailure(st.sys.services, names, a.setFails, |names|);
    ShellPrefixLeftBehind(st, proxy, a, j);
    ShellFailedFrame(st, proxy, a, j);
    forall k: nat | k <= |names| ensures SetsWork(st.sys.services, names, a.setFails, k) <==> k <= j {
      PrefixWorks(st.sys.services, names, a.setFails, j, k);
    }
    PrefixComesBack(st.sys.services, proxy, names, j, Applied(st, proxy, a).state.sys.services);
  }

  lemma PrefixWorks(services: map<string, seq<string>>, names: seq<string>, fails: set<nat>, j: nat, k: nat)
    requires j < |names| && SetsWork(services, names, fails, j) && (j in fails || names[j] !in services)
    requires k <= |names|
    ensures SetsWork(services, names, fails, k) <==> k <= j
  {
  }

  lemma PrefixComesBack(before: map<string, seq<string>>, proxy: string, names: seq<string>, j: nat,
                        end: map<string, seq<string>>)
    requires j <= |names| && end.Keys == before.Keys && forall i | 0 <= i < j :: names[i] in before
    requires forall n | n in before :: end[n] == if n in names[..j] then [proxy] else before[n]
    ensures end == before <==> forall i | 0 <= i < j :: before[names[i]] == [proxy]
  {
    forall i | 0 <= i < j ensures names[i] in names[..j] {
      assert names[..j][i] == names[i];
    }
  }

  lemma NothingComesBack(st: State, proxy: string, a: ApplyEnv, b: RestoreEnv)
    requires st.applied == Nothing && NativeApply(st.sys.dynamic, proxy, a).paths == []
    requires a.listing.Broke? || NetworkServices(a.listing.text) == []
    ensures Restored(Applied(st, proxy, a).state, b).state.sys == st.sys <==> ComesBack(st, proxy, a, b)
  {
    hide NetworkServices;
    NativeNothing(st.sys.dynamic, proxy, a);
  }

  /** From a system that does not use the proxy, over all outcomes of a connect and a disconnect:
      the system is left pointing at the proxy exactly under `LeftPointing`. */
  lemma LeftPointingExactly(st: State, proxy: string, a: ApplyEnv, b: RestoreEnv)
    requires st.applied == Nothing && Tidy(st, proxy)
    ensures Points(Restored(Applied(st, proxy, a).state, b).state.sys, proxy) <==> LeftPointing(st, proxy, a, b)
  {
    hide NetworkServices;
    hide Points;
    hide Tidy;
    hide LeftPointing;
    if NativeApply(st.sys.dynamic, proxy, a).paths != [] {
      NativeLeftPointing(st, proxy, a, b);
    } else if a.listing.Out? && NetworkServices(a.listing.text) != [] {
      var names := NetworkServices(a.listing.text);
      if SetsWork(st.sys.services, names, a.setFails, |names|) {
        ShellLeftPointing(st, proxy, names, a, b);
      } else {
        ShellFailedLeftPointing(st, proxy, names, a, b);
      }
    } else {
      NothingLeftPointing(st, proxy, a, b);
    }
  }

  lemma NothingLeftPointing(st: State, proxy: string, a: ApplyEnv, b: RestoreEnv)
    requires st.applied == Nothing && Tidy(st, proxy) && NativeApply(st.sys.dynamic, proxy, a).paths == []
    requires a.listing.Broke? || NetworkServices(a.listing.text) == []
    ensures Points(Restored(Applied(st, proxy, a).state, b).state.sys, proxy) <==> LeftPointing(st, proxy, a, b)
  {
    hide NetworkServices;
    NativeNothing(st.sys.dynamic, proxy, a);
  }

  // --- the class ---

  class MacosSystem {
    var dynamic: map<string, seq<string>>
    var services: map<string, seq<string>>

    constructor (dynamic: map<string, seq<string>>, services: map<string, seq<string>>)
      ensures this.dynamic == dynamic && this.services == services
    {
      this.dynamic, this.services := dynamic, services;
    }
  }

  class MacosRedirector {
    var applied: Record
    const system: MacosSystem

    ghost function View(): State
      reads this, system
    {
      State(applied, System(system.dynamic, system.services))
    }

    constructor (system: MacosSystem)
      ensures this.system == system && applied == Nothing
    {
      this.system, applied := system, Nothing;
    }

    method Apply(proxy: string, env: ApplyEnv) returns (r: Outcome)
      modifies this, system
      ensures Reply(View(), r) == Applied(old(View()), proxy, env)
    {
      var paths := ApplyNative(proxy, env);
      if paths != [] {
        applied := Native(paths);
        return Done;
      }
      var saved;
      saved, r := ApplyShell(proxy, env);
      if r.Done? {
        applied := Shell(saved);
      }
    }

    /** `apply_native`: the paths that were set; none is the error case. */
    method ApplyNative(proxy: string, env: ApplyEnv) returns (paths: seq<string>)
      modifies system
      ensures NativeProgress(system.dynamic, paths) == NativeApply(old(system.dynamic), proxy, env)
      ensures system.services == old(system.services)
    {
      paths := [];
      if !env.store || env.keys.None? {
        return;
      }
      var keys := env.keys.value;
      for k := 0 to |keys|
        invariant NativeProgress(system.dynamic, paths) == NativeLoop(old(system.dynamic), proxy, keys, env.rawFails, k)
        invariant system.services == old(system.services)
      {
        var path := StatePath(keys[k]);
        if k !in env.rawFails {
          system.dynamic := system.dynamic[path := [proxy]];
          paths := paths + [path];
        }
      }
    }

    /** `apply_shell`: set commands stop at the first failure. */
    method ApplyShell(proxy: string, env: ApplyEnv) returns (saved: seq<Saved>, r: Outcome)
      modifies system
      ensures system.dynamic == old(system.dynamic)
      ensures ShellProgress(system.services, saved, r) == ShellApply(old(system.services), proxy, env)
    {
      hide SetLoop;
      hide SavedLoop;
      hide CurrentDns;
      hide NetworkServices;
      saved := [];
      if env.listing.Broke? {
        return saved, Failed(env.listing.why);
      }
      var names := NetworkServices(env.listing.text);
      if names == [] {
        return saved, Failed("no network services found");
      }
      LoopsStart(system.services, proxy, names, env);
      for k := 0 to |names|
        invariant system.dynamic == old(system.dynamic)
        invariant SetProgress(system.services, k) == SetLoop(old(system.services), proxy, names, env.setFails, k)
        invariant saved == SavedLoop(old(system.services), proxy, names, env, k)
      {
        var prev := CurrentDns(system.services, names[k], k in env.readFails, env.isAddress);
        if k in env.setFails || names[k] !in system.services {
          SetLoopStays(old(system.services), proxy, names, env.setFails, k, |names|);
          return saved, Failed(env.why);
        }
        LoopsOneMore(old(system.services), proxy, names, env, k);
        system.services := system.services[names[k] := [proxy]];
        saved := saved + [Saved(names[k], prev)];
      }
      return saved, Done;
    }

    method Restore(env: RestoreEnv) returns (r: Outcome)
      modifies this, system
      ensures Reply(View(), r) == Restored(old(View()), env)
    {
      var was := applied;
      applied := Nothing;
      match was {
        case Nothing => r := Done;
        case Native(paths) => r := RestoreNative(paths, env);
        case Shell(saved) =>
          RestoreShell(saved, env);
          r := Done;
      }
    }

    /** `restore_native`: the results of the removals are ignored. */
    method RestoreNative(paths: seq<string>, env: RestoreEnv) returns (r: Outcome)
      modifies system
      ensures system.services == old(system.services)
      ensures r == if env.store then Done else Failed("SCDynamicStoreCreate failed")
      ensures system.dynamic == if env.store then RemoveLoop(old(system.dynamic), paths, env.removeFails, |paths|)
                                else old(system.dynamic)
    {
      if !env.store {
        return Failed("SCDynamicStoreCreate failed");
      }
      for k := 0 to |paths|
        invariant system.services == old(system.services)
        invariant system.dynamic == RemoveLoop(old(system.dynamic), paths, env.removeFails, k)
      {
        if k !in env.removeFails {
          system.dynamic := system.dynamic - {paths[k]};
        }
      }
      return Done;
    }

    /** `restore_shell`. */
    method RestoreShell(saved: seq<Saved>, env: RestoreEnv)
      modifies system
      ensures system.dynamic == old(system.dynamic)
      ensures system.services == GiveBack(old(system.services), saved, env.setFails, |saved|)
    {
      for k := 0 to |saved|
        invariant system.dynamic == old(system.dynamic)
        invariant system.services == GiveBack(old(system.services), saved, env.setFails, k)
      {
        if k !in env.setFails && saved[k].service in system.services {
          system.services := system.services[saved[k].service := saved[k].servers];
        }
      }
    }
  }

  lemma LoopsStart(services: map<string, seq<string>>, proxy: string, names: seq<string>, env: ApplyEnv)
    ensures SetLoop(services, proxy, names, env.setFails, 0) == SetProgress(services, 0)
    ensures SavedLoop(services, proxy, names, env, 0) == []
  {
  }

  lemma LoopsOneMore(services: map<string, seq<string>>, proxy: string, names: seq<string>, env: ApplyEnv, k: nat)
    requires k < |names| && k !in env.setFails
    requires SetLoop(services, proxy, names, env.setFails, k).count == k
    requires names[k] in SetLoop(services, proxy, names, env.setFails, k).services
    ensures var now := SetLoop(services, proxy, names, env.setFails, k).services;
            && SetLoop(services, proxy, names, env.setFails, k + 1) == SetProgress(now[names[k] := [proxy]], k + 1)
            && SavedLoop(services, proxy, names, env, k + 1) ==
               SavedLoop(services, proxy, names, env, k)
               + [Saved(names[k], CurrentDns(now, names[k], k in env.readFails, env.isAddress))]
  {
    hide CurrentDns;
  }

  lemma {:induction false} SetLoopStays(services: map<string, seq<string>>, proxy: string, names: seq<string>,
                                        fails: set<nat>, j: nat, k: nat)
    requires j < k <= |names|
    requires var p := SetLoop(services, proxy, names, fails, j); j in fails || names[j] !in p.services
    ensures SetLoop(services, proxy, names, fails, k) == SetLoop(services, proxy, names, fails, j)
    decreases k
  {
    if j + 1 < k {
      SetLoopStays(services, proxy, names, fails, j, k - 1);
    }
  }
}
