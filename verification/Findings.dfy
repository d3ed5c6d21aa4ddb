/** Concrete inputs on which the code does not do what its comments promise. Each belongs to an
    exact condition proved elsewhere. */
module Findings {
  import opened Base
  import opened Proto
  import LinuxSteps
  import L = Linux
  import M = Macos
  import W = Windows
  import R = Redirect
  import C = Controller
  import P = Parse
  import T = Text
  import F = Framing

  const USER := "nameserver 9.9.9.9\n"

  /** No systemd-resolved, and every file operation works. */
  const FILE_APPLY := L.ApplyEnv(false, None, map[], Done, Done, Done, true, Done, Done)
  const RESTORE := L.RestoreEnv(Done, Done, Done)

  function Machine(disk: LinuxSteps.Disk): L.State {
    L.State(LinuxSteps.Idle, LinuxSteps.System(disk, map[]))
  }

  /** `restore` does not bring back a missing `resolv.conf`: the file goes on naming the stopped proxy,
      though apply and restore both succeed. */
  lemma MissingFileStaysRedirected()
    ensures var a := L.Applied(Machine(LinuxSteps.Disk(LinuxSteps.Absent, None)), C.PROXY, FILE_APPLY);
            var b := L.Restored(a.state, RESTORE);
            && a.result == Done && b.result == Done
            && b.state.sys.disk.conf == LinuxSteps.Regular(LinuxSteps.Managed(C.PROXY))
  {
  }

  /** A backup that could not be deleted wins over what the user writes later. */
  lemma StaleBackupOverwritesEdit()
    ensures var st := Machine(LinuxSteps.Disk(LinuxSteps.Regular(USER), None));
            var on := L.Applied(st, C.PROXY, FILE_APPLY).state;
            var off := L.Restored(on, RESTORE.(remove := Failed("busy")));
            var edited := Machine(off.state.sys.disk.(conf := LinuxSteps.Regular("nameserver 1.1.1.1\n")));
            var end := L.Restored(L.Applied(edited, C.PROXY, FILE_APPLY).state, RESTORE).state;
            off.result == Done && end.sys.disk == LinuxSteps.Disk(LinuxSteps.Regular(USER), None)
  {
  }

  /** A symbolic link comes back as a file of its own, though every operation succeeds. */
  lemma SymlinkIsLost()
    ensures var st := Machine(LinuxSteps.Disk(LinuxSteps.Symlink(Some(USER)), None));
            var a := L.Applied(st, C.PROXY, FILE_APPLY);
            var b := L.Restored(a.state, RESTORE);
            && a.result == Done && b.result == Done
            && b.state.sys.disk == LinuxSteps.Disk(LinuxSteps.Regular(USER), None)
  {
  }

  const ROUTES := "Iface Destination\nwlan0 00000000\n"

  lemma {:induction false} RoutesLines()
    ensures T.Lines(ROUTES) == ["Iface Destination", "wlan0 00000000"]
  {
    hide T.Lines;
    PrintedTwo("Iface Destination", "wlan0 00000000");
    assert "Iface Destination" + "\n" + "wlan0 00000000" + "\n" == ROUTES;
  }

  lemma {:induction false} RoutesName()
    ensures P.DefaultRouteIface(ROUTES) == Some("wlan0")
  {
    hide T.Words;
    hide T.Lines;
    RoutesLines();
    RouteRowWords();
    assert P.SkipOne(["Iface Destination", "wlan0 00000000"]) == ["wlan0 00000000"];
  }

  lemma {:induction false} PrintedTwo(a: string, b: string)
    requires T.IsLine(a) && T.IsLine(b)
    ensures T.Lines(a + "\n" + b + "\n") == [a, b]
  {
    var ends := [T.Lf, T.Lf];
    T.LinesOfPrinted([a, b], ends, "");
    assert T.Printed([a, b][1..], ends[1..]) == b + "\n" by {
      assert T.Printed([b][1..], [T.Lf][1..]) == "";
      assert [a, b][1..] == [b] && ends[1..] == [T.Lf];
    }
    assert T.Printed([a, b], ends) + "" == a + "\n" + b + "\n";
  }

  /** systemd-resolved runs, the default route is through `wlan0`, link 2, and every call works. */
  const LINK_APPLY := L.ApplyEnv(true, Some(ROUTES), map["wlan0" := 2], Done, Done, Done, true, Done, Done)

  /** A link override that was there before is gone after connect and disconnect. */
  lemma EarlierOverrideIsLost()
    ensures var links := map[2 := LinuxSteps.Link(Some("10.0.0.1"), None)];
            var disk := LinuxSteps.Disk(LinuxSteps.Regular(USER), None);
            var st := L.State(LinuxSteps.Idle, LinuxSteps.System(disk, links));
            var a := L.Applied(st, C.PROXY, LINK_APPLY);
            var b := L.Restored(a.state, RESTORE);
            a.result == Done && b.result == Done && b.state.sys.links == map[]
  {
    hide P.DefaultRouteIface;
    RoutesName();
  }

  /** A dead redirect: when the copy back fails, disconnect answers `Disconnected` while the file
      names a proxy that no longer listens, and a second disconnect does nothing about it. */
  lemma FailedRestoreLeavesDeadRedirect(m: M.ApplyEnv, w: W.ApplyEnv, mr: M.RestoreEnv, wr: W.RestoreEnv)
    ensures var red := R.OnLinux(Machine(LinuxSteps.Disk(LinuxSteps.Regular(USER), None)));
            var boot := C.Ctl(DISCONNECTED, false, false, red, 53, [], false);
            var bad := C.Env(Done, R.ApplyEnv(FILE_APPLY, m, w),
                             R.RestoreEnv(RESTORE.(copyBack := Failed("read-only")), mr, wr));
            var good := bad.(restore := R.RestoreEnv(RESTORE, mr, wr));
            var on := C.Serve(boot, Connect(Cloudflare), good);
            var off := C.Serve(on.ctl, Disconnect, bad);
            var again := C.Serve(off.ctl, Disconnect, good);
            && C.Fresh(boot) && on.reply.state.Connected?
            && off.reply == DISCONNECTED && !C.NoDeadRedirect(off.ctl)
            && again.reply == DISCONNECTED && !C.NoDeadRedirect(again.ctl)
  {
    var red := R.OnLinux(Machine(LinuxSteps.Disk(LinuxSteps.Regular(USER), None)));
    assert LinuxSteps.Managed(C.PROXY)[0] == '#' && USER[0] == 'n';
    assert R.Tidy(red, C.PROXY);
  }

  const ROW := "E Connected D Ethernet"
  const TABLE := "E Connected D Ethernet\r\n"

  lemma {:induction false} TableLines()
    ensures T.Lines(TABLE) == [ROW]
  {
    hide T.Lines;
    T.LinesFirst(ROW, T.CrLf, "");
    T.OpenLine("");
    assert ROW + T.EndText(T.CrLf) + "" == TABLE;
    assert [ROW] + [] == [ROW];
  }

  lemma {:induction false} TableNames()
    ensures P.NetshInterfaces(TABLE) == ["Ethernet"]
  {
    hide T.Words;
    hide T.Lines;
    TableLines();
    TableRowWords();
    assert [ROW][1..] == [];
    assert ["E", "Connected", "D", "Ethernet"][3..] == ["Ethernet"];
  }

  lemma {:induction false} TableRowWords()
    ensures T.Words(ROW) == ["E", "Connected", "D", "Ethernet"]
  {
    hide T.Words;
    var words, pads := ["E", "Connected", "D", "Ethernet"], [" ", " ", " ", ""];
    T.WordsOfSpread("", words, pads);
    RowIsSpread(words, pads);
  }

  lemma {:induction false} RowIsSpread(words: seq<string>, pads: seq<string>)
    requires words == ["E", "Connected", "D", "Ethernet"] && pads == [" ", " ", " ", ""]
    ensures "" + T.Spread(words, pads) == ROW
  {
    hide T.Spread;
    SpreadOnce(words, pads);
    SpreadOnce(words[1..], pads[1..]);
    SpreadOnce(words[2..], pads[2..]);
    SpreadOnce(words[3..], pads[3..]);
    SpreadNone(words[4..], pads[4..]);
  }

  lemma SpreadOnce(words: seq<string>, pads: seq<string>)
    requires |pads| == |words| && words != []
    ensures T.Spread(words, pads) == words[0] + pads[0] + T.Spread(words[1..], pads[1..])
  {
  }

  lemma SpreadNone(words: seq<string>, pads: seq<string>)
    requires |pads| == |words| && words == []
    ensures T.Spread(words, pads) == ""
  {
  }

  /** The one connected adapter has a static server and comes back without one. */
  lemma StaticServerIsLost()
    ensures var st := W.State(W.Nothing, map["Ethernet" := W.Adapter("9.9.9.9", "")]);
            var a := W.Applied(st, C.PROXY, W.ApplyEnv(Out(TABLE), {}, {}, ""));
            var b := W.Restored(a.state, W.RestoreEnv({}));
            a.result == Done && b.result == Done && b.state.adapters == map["Ethernet" := W.Adapter("", "")]
  {
    hide P.NetshInterfaces;
    hide W.Applied;
    hide W.ClearLoop;
    hide AllFail;
    TableNames();
    var st := W.State(W.Nothing, map["Ethernet" := W.Adapter("9.9.9.9", "")]);
    var env := W.ApplyEnv(Out(TABLE), {}, {}, "");
    W.NativeSetsNamed(st, C.PROXY, env, ["Ethernet"]);
    assert "Ethernet" in ["Ethernet"] && "Ethernet" in st.adapters;
    var r := W.Applied(st, C.PROXY, env).state;
    var names := W.Recorded(r.applied);
    NoneFail(names);
    W.ClearLoopClears(r.adapters, true, names, {});
    assert W.Restored(r, W.RestoreEnv({})).state.adapters.Keys == {"Ethernet"};
  }

  const KEY := "Setup:/Network/Service/AB-1"
  const STATE_KEY := "State:/Network/Service/AB-1/DNS"

  /** The store works and has the one service. */
  const STORE_APPLY := M.ApplyEnv(true, Some([KEY]), {}, Broke(""), {}, {}, "", _ => true)

  /** A `State:` DNS key that a DHCP client had set is removed by connect and disconnect. */
  lemma EarlierStateKeyIsLost()
    ensures var st := M.State(M.Nothing, M.System(map[STATE_KEY := ["10.0.0.1"]], map[]));
            var a := M.Applied(st, C.PROXY, STORE_APPLY);
            var b := M.Restored(a.state, M.RestoreEnv(true, {}, {}));
            a.result == Done && b.result == Done && b.state.sys.dynamic == map[]
  {
    hide M.StatePath;
    KeyLeadsTo();
    var dynamic := map[STATE_KEY := ["10.0.0.1"]];
    assert M.NativeLoop(dynamic, C.PROXY, [KEY], {}, 0) == M.NativeProgress(dynamic, []);
    var p := M.NativeLoop(dynamic, C.PROXY, [KEY], {}, 1);
    assert p.paths == [STATE_KEY];
    assert M.RemoveLoop(p.dynamic, [STATE_KEY], {}, 0) == p.dynamic;
  }

  lemma KeyLeadsTo()
    ensures M.StatePath(KEY) == STATE_KEY
  {
    hide M.StatePath;
    M.StatePathOfService("AB-1");
    assert "Setup:/Network/Service" + "/" + "AB-1" == KEY;
    assert "State:/Network/Service/" + "AB-1" + "/DNS" == STATE_KEY;
  }

  const SERVICES := "Services:\nWi-Fi\n"

  /** No store, one service, whose `-getdnsservers` fails. */
  const READ_FAILS := M.ApplyEnv(false, None, {}, Out(SERVICES), {0}, {}, "", _ => true)

  lemma {:induction false} ServicesName()
    ensures P.NetworkServices(SERVICES) == ["Wi-Fi"]
  {
    hide P.NetworkServices;
    var listed := [P.Service("Wi-Fi", false)];
    P.ServicesInvertListing("Services:", listed);
    ServicesListing(listed);
    assert P.NamesOf(listed) == ["Wi-Fi"];
  }

  lemma {:induction false} ServicesListing(listed: seq<P.Service>)
    requires listed == [P.Service("Wi-Fi", false)]
    ensures P.ServiceListing("Services:", listed) == SERVICES
  {
    assert P.ServiceRows(listed[1..]) == "";
    assert listed[0].Line() == "Wi-Fi";
    assert P.ServiceRows(listed) == "Wi-Fi\n";
  }

  /** A service whose servers could not be read comes back without any, though apply and restore succeed. */
  lemma UnreadServersAreLost()
    ensures var st := M.State(M.Nothing, M.System(map[], map["Wi-Fi" := ["9.9.9.9"]]));
            var a := M.Applied(st, C.PROXY, READ_FAILS);
            var b := M.Restored(a.state, M.RestoreEnv(true, {}, {}));
            a.result == Done && b.result == Done && b.state.sys.services == map["Wi-Fi" := []]
  {
    hide P.NetworkServices;
    ServicesName();
    var services, names := map["Wi-Fi" := ["9.9.9.9"]], ["Wi-Fi"];
    M.LoopsStart(services, C.PROXY, names, READ_FAILS);
    M.LoopsOneMore(services, C.PROXY, names, READ_FAILS, 0);
    var put := map["Wi-Fi" := [C.PROXY]];
    assert M.SetLoop(services, C.PROXY, names, {}, 1) == M.SetProgress(put, 1);
    assert M.SavedLoop(services, C.PROXY, names, READ_FAILS, 1) == [M.Saved("Wi-Fi", [])];
    assert M.GiveBack(put, [M.Saved("Wi-Fi", [])], {}, 0) == put;
    assert M.GiveBack(put, [M.Saved("Wi-Fi", [])], {}, 1) == map["Wi-Fi" := []];
  }

  /** A payload of exactly 2^32 bytes is announced as empty. */
  lemma HugeFrameReadsEmpty(payload: F.Bytes)
    requires |payload| == F.TWO_32
    ensures F.ReadFrame(F.Frame(payload)) == F.Message([], payload)
  {
    var s := F.Frame(payload);
    assert s[..4] == F.Be32(0) && s[4..4] == [] && s[4..] == payload;
  }

  /** Losing one byte of a frame turns a good stream into a broken one. */
  lemma OneLostByteBreaksStream()
    ensures F.ReadAll(F.Frames([[7]])) == F.Reading([[7]], false)
    ensures F.ReadAll(F.Frames([[7]])[1..]) == F.Reading([], true)
  {
    F.FramesRoundTrip([[7]]);
    var s := F.Frames([[7]]);
    assert s == [0, 0, 0, 1, 7] by {
      assert F.Frames([[7]][1..]) == [];
    }
    assert s[1..] == [0, 0, 1, 7] && s[1..][..4] == [0, 0, 1, 7];
  }

  /** A short row hides the default route behind it. */
  lemma {:induction false} ShortRowHidesRoute()
    ensures P.DefaultRouteIn(["wlan0 00000000"]) == Some("wlan0")
    ensures P.DefaultRouteIn(["lo", "wlan0 00000000"]) == None
  {
    hide T.Words;
    ShortRowWords();
    RouteRowWords();
  }

  lemma ShortRowWords()
    ensures T.Words("lo") == ["lo"]
  {
    hide T.Words;
    T.WordsOfSpread("", ["lo"], [""]);
    assert "" + T.Spread(["lo"], [""]) == "lo";
  }

  lemma {:induction false} RouteRowWords()
    ensures T.Words("wlan0 00000000") == ["wlan0", "00000000"]
  {
    hide T.Words;
    T.WordsOfSpread("", ["wlan0", "00000000"], [" ", ""]);
    assert T.Spread(["00000000"], [""]) == "00000000";
    assert "" + T.Spread(["wlan0", "00000000"], [" ", ""]) == "wlan0 00000000";
  }
}
