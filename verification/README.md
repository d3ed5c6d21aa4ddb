# voidns service: a verified model

The voidns service runs a local DNS proxy, points the system resolver at it on connect and puts
the earlier settings back on disconnect, and is driven by any number of clients over a local
socket. This project models that service in Dafny and proves what its clients and its users rely
on: that the user's `resolv.conf` survives crashes, that system DNS is not left pointing at a proxy
that no longer runs, that concurrent clients see a sequential service, that status subscribers end
up with the current status, and that the text and byte formats are read back as written. Where the
code does less than its comments promise, the exact condition is proved, and `Findings.dfy` holds
concrete inputs that show the failure.

## Layout

| file | what it holds |
|---|---|
| `Base.dfy`, `Text.dfy` | small datatypes; the string operations the parsers use |
| `Parse.dfy` | the four output parsers and the printers they invert |
| `LinuxSteps.dfy` | the Linux redirector as atomic steps, with crashes and outside edits |
| `Linux.dfy`, `Macos.dfy`, `Windows.dfy` | the three redirectors: effect as functions, theorems, class |
| `Redirect.dfy` | the contract all three meet, and the boxed redirector |
| `Proto.dfy` | messages and their JSON form |
| `Broadcast.dfy` | the 16-slot status channel |
| `Controller.dfy` | connect and disconnect: whole commands, single steps, class |
| `Server.dfy`, `ServerClaims.dfy` | connection tasks around the shared lock, and what holds in every run |
| `Framing.dfy`, `Ipc.dfy` | frames over chunked bytes, the connection loop, dispatch, the client's subscription |
| `Connection.dfy` | the server's connections as runs of the connection loop, from bytes to bytes |
| `Watch.dfy` | a status client from the server's runs through bytes to the statuses it hands on |
| `Findings.dfy` | concrete failing inputs |
| `Examples.dfy` | literal inputs with their outputs, after the repository's own unit tests |

## How outcomes are modelled

Every outside operation either succeeds or changes nothing; its outcome is data (`Outcome`, or the
set of failing call numbers in a loop), and the theorems quantify over all of it. Code that updates
state is a class whose methods are proved equal to a function of the old state and those outcomes;
the properties are proved about the functions. The Linux class also takes a labelled step of the
machine in `LinuxSteps.dfy` for every operation, so "between any two operations" is a point of that
machine; the controller class returns the trail of states after each of its operations, proved to be
the trail of the step machine that the server interleaves.

`dirty` in the controller's state marks that DNS may be left on the proxy. It is set from the start
when the daemon boots on a system that is not tidy, as after a crash. It is set by an apply that
stopped after it had changed something, by a Linux apply that rewrote `resolv.conf` without contents
to go back to, by a macOS fallback apply in which the last entry saved for some service is the proxy
itself (a repeated name whose read worked, or a service of whose servers the parser accepts only the
proxy), and by an undoing operation that failed. A failed read of a macOS service's servers does not
set it: that loses the servers, but leaves nothing on the proxy. It is cleared by the first apply or
restore that leaves the system tidy again. Where DNS points after a connect and a disconnect is decided
exactly by `LeftPointing`, in terms of the outcomes alone.

## Where the code and its comments differ

- `crates/voidns-core/src/redirect/mod.rs:2-3` promises the exact prior state on disconnect. What comes
  back, and when, is in `Linux.SameSystemExactly`, `Macos.SameSystemExactly` and
  `Windows.SameSystemExactly`, each over all outcomes, failed applies included. Among what is lost:
  a symbolic link at `resolv.conf` (`Findings.SymlinkIsLost`), and the static servers of a macOS
  service that could not be read (`Findings.UnreadServersAreLost`).
- `crates/voidns-core/src/controller.rs:94-95` promises no window with a dead proxy. That holds unless
  `dirty` (`ServerClaims.EveryMoment`), and `Controller.DeadRedirectExactly` says for all three systems
  exactly when a connect and a disconnect end in a dead redirect; a restore error is dropped and
  cannot be retried, because the record is gone (`Findings.FailedRestoreLeavesDeadRedirect`).
- `crates/voidns-core/src/redirect/parse.rs:24-25` speaks of interface aliases; the parser returns them
  space-normalised, and an adapter with another alias is not redirected
  (`Windows.ConnectedRowsRedirectedExactly`).
- `crates/voidns-service/src/main.rs:144-147` promises that DNS is restored at the end. A connect that
  waits behind the shutdown's disconnect can still be served before the process is gone
  (`ServerClaims.StaysTornDown`, `ServerClaims.ExitExactly`).
- `README.md:63` of the repository calls netsh and networksetup the redirect paths; the code tries
  the native interfaces first, and the model follows the code.

## Model

| member | source | states |
|---|---|---|
| LinuxSteps.CrashConsistent | crates/voidns-core/src/redirect/linux.rs:213-238 | over every run of single file steps with failures, crashes and outside edits while no backup exists: the user's text is in `resolv.conf` when there is no backup and in the backup otherwise |
| LinuxSteps.KeptAtEveryPoint | crates/voidns-core/src/redirect/linux.rs:213-238 | the same at every prefix of a run, so also between two operations of one call |
| LinuxSteps.SafeStep | crates/voidns-core/src/redirect/linux.rs:213-238 | the step invariant: backup before the file is touched, never overwritten, removed only after the file is back |
| Linux.EditOverBackupIsLost | crates/voidns-core/src/redirect/linux.rs:214-219 | an edit made at any point while a backup exists is overwritten by the backup at the next restore, in the same process or after a crash and another apply; it survives if and only if it repeats the backup |
| Linux.UsersTextIsKept | crates/voidns-core/src/redirect/linux.rs:213-238 | the same for the real disk of the system object, however its operations were called and cut off |
| Linux.RecoversFromAnyRun | crates/voidns-core/src/redirect/linux.rs:213-238 | from any reachable state and after a crash, one successful file apply and one successful restore leave the user's text and no backup |
| Linux.FileRecovery | crates/voidns-core/src/redirect/linux.rs:213-238 | apply then restore over any leftovers brings the kept text back exactly when there is one |
| Linux.LinkPathDoesNotRecover | crates/voidns-core/src/redirect/linux.rs:102-133 | after a crash, a connect that takes the link path leaves file and backup as they were and clears only its own link |
| Linux.MissingFileIsNotRecovered | crates/voidns-core/src/redirect/linux.rs:214-219 | without readable contents at first, the next redirect takes the proxy's text for the original |
| Linux.EditAfterRestoreSurvivesExactly | crates/voidns-core/src/redirect/linux.rs:232-238 | restore succeeds even if the backup stays; a later edit survives exactly when the backup was deleted (or the edit equals it) |
| Linux.LinkTargetSparedExactly | crates/voidns-core/src/redirect/linux.rs:220-229 | the target of a symbolic link is written exactly when the link's metadata could not be read |
| Linux.RoundTripExactly | crates/voidns-core/src/redirect/linux.rs:96-133 | with apply and the undoing calls succeeding: exactly when the links come back and the file path found readable contents, no removable symbolic link and no backup left behind |
| Linux.SameSystemExactly | crates/voidns-core/src/redirect/linux.rs:96-133 | from every idle state, leftover backups and overrides included, and over all outcomes of every call: connect then disconnect gives the exact system back exactly when the touched link ends as it was and the file path, if taken, leaves file, kind of file and backup as they were |
| Linux.ContentsComeBackExactly | crates/voidns-core/src/redirect/linux.rs:96-133 | contents alone: the file ends with the original contents, as a file of its own exactly when it was a symbolic link with readable metadata; a backup left behind comes back in place of the contents |
| Linux.OtherLinksUntouched | crates/voidns-core/src/redirect/linux.rs:151-159 | overrides of every link but the targeted one are unchanged |
| Linux.TargetLinkExactly | crates/voidns-core/src/redirect/linux.rs:152-165 | the targeted link is `i` exactly if the first default route is through an interface with index `i` |
| Linux.AppliedToLink | crates/voidns-core/src/redirect/linux.rs:96-118 | with that route, systemd-resolved and both calls working: this link is redirected, nothing else changes, and it is recorded |
| Linux.AppliedHalfWay | crates/voidns-core/src/redirect/linux.rs:151-159 | with the second call failing: the servers of that link stay set and the file path decides |
| Linux.AppliedToFile | crates/voidns-core/src/redirect/linux.rs:96-118 | without systemd-resolved, without such a route or with the first call failing: no link changes and the file path decides |
| Linux.FileApplyExactly | crates/voidns-core/src/redirect/linux.rs:213-230 | file, backup, result and error text after each possible course of the file path; the file written names the proxy |
| Linux.RestoredExactly | crates/voidns-core/src/redirect/linux.rs:120-133 | system, record and error text after restore, by record and outcome |
| Linux.LeftPointingExactly | crates/voidns-core/src/redirect/linux.rs:96-133 | over all outcomes, after connect and disconnect the system still points at the proxy exactly when the link was half set, the undoing call failed, or there were no contents to go back to |
| Linux.ApplyContract | crates/voidns-core/src/redirect/linux.rs:96-118 | a record exactly on success, success redirects, and a tidy system stays tidy exactly if the apply was clean |
| Linux.RestoreContract | crates/voidns-core/src/redirect/linux.rs:120-133 | the record is cleared whatever happens, a clean restore leaves nothing on the proxy, a second one does nothing |
| Linux.LinuxSystem.Step | crates/voidns-core/src/redirect/linux.rs:169-238 | one operation is one enabled step of the machine and the system follows it |
| Linux.LinuxRedirector.constructor | crates/voidns-core/src/redirect/linux.rs:87-93 | a new process starts with an idle record over whatever system it finds |
| Linux.LinuxRedirector.Apply | crates/voidns-core/src/redirect/linux.rs:96-118 | state and result are those of `Applied`, each operation an enabled machine step |
| Linux.LinuxRedirector.Restore | crates/voidns-core/src/redirect/linux.rs:120-133 | state and result are those of `Restored`, each operation an enabled machine step |
| Linux.LinuxRedirector.FindLink | crates/voidns-core/src/redirect/linux.rs:152-165 | index `i` is answered exactly if the route table was read and the interface of its first default route has index `i` |
| Linux.LinuxRedirector.ApplyResolved | crates/voidns-core/src/redirect/linux.rs:151-159 | a link is returned exactly if both calls worked; a failure of the second leaves the first in place |
| Linux.LinuxRedirector.SetLink | crates/voidns-core/src/redirect/linux.rs:155-156 | the two calls on one link with their intermediate state |
| Linux.LinuxRedirector.BackUp | crates/voidns-core/src/redirect/linux.rs:214-219 | contents are copied exactly if readable and no backup exists; an existing backup is kept |
| Linux.LinuxRedirector.RemoveLink | crates/voidns-core/src/redirect/linux.rs:220-224 | a symbolic link with readable metadata is removed, anything else is left |
| Linux.LinuxRedirector.ResolvConfApply | crates/voidns-core/src/redirect/linux.rs:213-230 | disk and result after the three file operations, with their early returns |
| Linux.LinuxRedirector.ResolvConfRestore | crates/voidns-core/src/redirect/linux.rs:232-238 | copy back then remove, the removal's failure ignored |
| Macos.ShellRoundTripThroughText | crates/voidns-core/src/redirect/macos.rs:184-220 | for every printed list of distinct well-formed names, apply makes exactly the listed services the proxy, and restore returns the whole map exactly when each service whose read failed had no servers and every server of the others is accepted by the parser |
| Macos.ShellRoundTrip | crates/voidns-core/src/redirect/macos.rs:184-210 | for any failing reads and give-backs: the map returns exactly when each service never given back was on the proxy, and each other one's last given-back entry holds its earlier servers (none if the read failed, the proxy for a repeated name) |
| Macos.SaveAndGiveBackExactly | crates/voidns-core/src/redirect/macos.rs:189-210 | the same for the two loops alone |
| Macos.SavedLoopSaves | crates/voidns-core/src/redirect/macos.rs:190-194 | what is saved for a name: nothing if its read failed, the proxy if it was set before, otherwise what the parser accepts of its printed servers |
| Macos.SetLoopSetsPrefix | crates/voidns-core/src/redirect/macos.rs:189-195 | exactly the services before the first failure use the proxy |
| Macos.ShellPrefixLeftBehind | crates/voidns-core/src/redirect/macos.rs:184-196 | when the j-th set fails first, apply fails, exactly the services before it have changed, and nothing is recorded |
| Macos.NativeRoundTripExactly | crates/voidns-core/src/redirect/macos.rs:141-180 | stored servers are never written, and for any failing removals the `State:` keys come back exactly when no removable recorded key existed before and every other one held the proxy |
| Macos.StatePathOfService | crates/voidns-core/src/redirect/macos.rs:159-161 | the key of a stored service leads to that service's `State:` key |
| Macos.NativeLoopTouchesRecorded | crates/voidns-core/src/redirect/macos.rs:157-169 | exactly the recorded keys hold the proxy, all others are unchanged |
| Macos.NativeLoopRecords | crates/voidns-core/src/redirect/macos.rs:157-165 | recorded are exactly the `State:` keys of the listed services whose call worked |
| Macos.AppliedNatively | crates/voidns-core/src/redirect/macos.rs:141-170 | with the store and some call working: every listed service whose call worked ends on the proxy and is recorded, all else unchanged |
| Macos.AppliedByCommands | crates/voidns-core/src/redirect/macos.rs:101-121 | otherwise no key changes and the command fallback decides |
| Macos.NothingListed | crates/voidns-core/src/redirect/macos.rs:184-188 | without a listing or a service in it nothing changes, with the error text |
| Macos.CurrentDnsExactly | crates/voidns-core/src/redirect/macos.rs:217-220 | what is read of a service: its servers that are addresses, in order; nothing if the read failed |
| Macos.RemoveLoopRemoves | crates/voidns-core/src/redirect/macos.rs:172-180 | a recorded key is removed exactly when some removal of it works; all else is unchanged |
| Macos.ApplyContract | crates/voidns-core/src/redirect/macos.rs:101-121 | a record exactly on success, success redirects, and a tidy system stays tidy exactly if the apply was clean |
| Macos.RestoreContract | crates/voidns-core/src/redirect/macos.rs:123-130 | the record is cleared whatever happens, a clean restore leaves nothing on the proxy, a second one does nothing |
| Macos.LeftPointingExactly | crates/voidns-core/src/redirect/macos.rs:101-130 | over all outcomes, after connect and disconnect something is left on the proxy exactly when a recorded key is never removed, a service is never given back or its deciding entry is the proxy, or a failed apply had set its first service |
| Macos.SameSystemExactly | crates/voidns-core/src/redirect/macos.rs:101-130 | over all outcomes, failed applies included: the whole system comes back exactly when no removable recorded key existed before, every service's deciding entry holds its earlier servers, and what was set and not undone was on the proxy before |
| Macos.MacosRedirector.Apply | crates/voidns-core/src/redirect/macos.rs:101-121 | state and result are those of `Applied`: native first, networksetup if that set nothing |
| Macos.MacosRedirector.ApplyNative | crates/voidns-core/src/redirect/macos.rs:141-170 | the keys set and recorded by the loop, failing ones skipped |
| Macos.MacosRedirector.ApplyShell | crates/voidns-core/src/redirect/macos.rs:184-196 | services, saved entries and result of the loop with its early return |
| Macos.MacosRedirector.Restore | crates/voidns-core/src/redirect/macos.rs:123-130 | state and result are those of `Restored`, the record taken first |
| Macos.MacosRedirector.RestoreNative | crates/voidns-core/src/redirect/macos.rs:172-180 | the removals, whose results are ignored |
| Macos.MacosRedirector.RestoreShell | crates/voidns-core/src/redirect/macos.rs:198-210 | each saved entry given back in order, failures skipped |
| Windows.RoundTripExactly | crates/voidns-core/src/redirect/windows.rs:101-151 | for any failing clears the adapters come back exactly when each recorded one that a clear reaches was on DHCP (natively also without search list) and each other one was set like the proxy |
| Windows.LeftPointingExactly | crates/voidns-core/src/redirect/windows.rs:101-151 | over all outcomes, after connect and disconnect an adapter is left on the proxy exactly when no clear reaches some recorded one, or a failed apply had set its first interface |
| Windows.SameSystemExactly | crates/voidns-core/src/redirect/windows.rs:101-151 | over all outcomes, failed applies included: all adapters come back exactly when each cleared one was on DHCP, and each one set and not cleared was on the proxy before |
| Windows.UnrecordedUnchanged | crates/voidns-core/src/redirect/windows.rs:101-151 | restore leaves every unrecorded adapter alone, and one that is not connected is never touched |
| Windows.OnlyConnectedRowsTouched | crates/voidns-core/src/redirect/windows.rs:101-151 | through the printed table: adapters not named by a connected row keep their settings |
| Windows.ConnectedRowsRedirectedExactly | crates/voidns-core/src/redirect/windows.rs:101-119 | through the printed table, no native call failing: a connected adapter is redirected exactly when its alias is space-normalised |
| Windows.ConnectedRowsRoundTripExactly | crates/voidns-core/src/redirect/windows.rs:101-151 | through the printed table: apply succeeds and restore gives all adapters back exactly when those named by connected rows were on DHCP without a search list |
| Windows.NetshPrefixLeftBehind | crates/voidns-core/src/redirect/windows.rs:125-131 | when netsh fails first on the j-th interface, exactly those before it have changed and nothing is recorded |
| Windows.NativeLoopSets | crates/voidns-core/src/redirect/windows.rs:108-115 | exactly the recorded adapters get the proxy and the `.` search list |
| Windows.NativeLoopRecords | crates/voidns-core/src/redirect/windows.rs:107-115 | recorded is exactly every listed adapter with a call that worked; a failing call does not end the loop |
| Windows.AppliedNatively | crates/voidns-core/src/redirect/windows.rs:101-124 | if some native call works: exactly those adapters are recorded and on the proxy, and netsh is not used |
| Windows.AppliedByNetsh | crates/voidns-core/src/redirect/windows.rs:125-132 | if none does and every netsh call works: exactly the connected adapters are on the proxy, search lists unchanged |
| Windows.NothingConnected | crates/voidns-core/src/redirect/windows.rs:102-105 | without a table or a connected adapter in it nothing changes, with the error text |
| Windows.ClearLoopClears | crates/voidns-core/src/redirect/windows.rs:136-147 | every recorded adapter is cleared on the path it was set on unless all calls for it fail; all others are unchanged |
| Windows.ApplyContract | crates/voidns-core/src/redirect/windows.rs:101-132 | a record exactly on success, success redirects, and a tidy system stays tidy exactly if the apply was clean |
| Windows.RestoreContract | crates/voidns-core/src/redirect/windows.rs:134-151 | the record is cleared whatever happens, a clean restore leaves nothing on the proxy, a second one does nothing |
| Windows.WindowsRedirector.Apply | crates/voidns-core/src/redirect/windows.rs:101-132 | state and result are those of `Applied`: netsh only if the native call failed on every adapter |
| Windows.WindowsRedirector.Restore | crates/voidns-core/src/redirect/windows.rs:134-151 | state and result are those of `Restored` |
| Windows.WindowsRedirector.Clear | crates/voidns-core/src/redirect/windows.rs:136-147 | the clearing loop, failures skipped |
| Redirect.ApplyContract | crates/voidns-core/src/redirect/mod.rs:13-15 | the contract of apply for all three implementations, with the exact condition for staying tidy |
| Redirect.RestoreContract | crates/voidns-core/src/redirect/mod.rs:16-17 | the contract of restore, with idempotence, for all three implementations |
| Redirect.LeftPointingExactly | crates/voidns-core/src/redirect/mod.rs:13-17 | for all three implementations and all outcomes of an apply and a restore, the exact condition under which a resolver is left on the proxy |
| Redirect.SystemRedirector.Apply | crates/voidns-core/src/redirect/mod.rs:15 | dispatch to the implementation of the system |
| Redirect.SystemRedirector.Restore | crates/voidns-core/src/redirect/mod.rs:17 | dispatch to the implementation of the system |
| Parse.DefaultRouteExactly | crates/voidns-core/src/redirect/parse.rs:12-22 | an interface is found exactly when some data row is the first default route with only complete rows before it |
| Parse.ParseDefaultRouteIface | crates/voidns-core/src/redirect/parse.rs:12-22 | the loop with its early returns computes exactly that |
| Parse.NetshInvertsTable | crates/voidns-core/src/redirect/parse.rs:26-35 | for every rendered table with any padding and line endings: the space-normalised names of exactly the connected rows, in order |
| Parse.ParseNetshInterfaces | crates/voidns-core/src/redirect/parse.rs:26-35 | the loop that grows the names computes the specified list |
| Parse.ConnectedRowExactly | crates/voidns-core/src/redirect/parse.rs:30 | a row counts exactly if it has four columns and its second is the word "connected", letter by letter in either case |
| Parse.ServicesInvertListing | crates/voidns-core/src/redirect/parse.rs:39-46 | the listed names come back if and only if each is non-empty, single-line, trimmed and does not start with a star |
| Parse.ServiceNamesAppend | crates/voidns-core/src/redirect/parse.rs:39-46 | the names of a listing are those of its parts in order |
| Parse.ServiceNameExactly | crates/voidns-core/src/redirect/parse.rs:39-46 | a line gives its text behind the stars without the white space around it, or nothing |
| Parse.DnsServersInvertListing | crates/voidns-core/src/redirect/parse.rs:50-59 | the printed servers of a service come back exactly when all are addresses, none set giving the empty list |
| Parse.DnsServersExactly | crates/voidns-core/src/redirect/parse.rs:50-53 | the notice anywhere in the text means none, otherwise the addresses of the lines |
| Parse.AddressesAppend | crates/voidns-core/src/redirect/parse.rs:54-58 | the addresses of a listing are those of its parts in order |
| Parse.AddressExactly | crates/voidns-core/src/redirect/parse.rs:54-58 | a line gives its trimmed text exactly if that is an address |
| Text.WhiteSpaceIs | crates/voidns-core/src/redirect/parse.rs:14-29 | the code points at which columns end, tab included |
| Text.JoinSpacedExactly | crates/voidns-core/src/redirect/parse.rs:31 | one space between two words of a name, none around them |
| Text.LinesFirstRaw | crates/voidns-core/src/redirect/parse.rs:13-27 | a line ends at its line feed and loses one carriage return before it |
| Text.DecimalExactly | crates/voidns-core/src/controller.rs:63-89 | the port in `listen`: the digits that stand for it, none too many |
| Proto.CommandRoundTrip | crates/voidns-proto/src/lib.rs:59-72 | decoding undoes encoding for every command, whatever the member order and with unknown members added |
| Proto.EventRoundTrip | crates/voidns-proto/src/lib.rs:75-84 | decoding undoes encoding for every event, in the same generality |
| Proto.UpstreamRoundTrip | crates/voidns-proto/src/lib.rs:17-36 | decoding undoes encoding for every upstream selection |
| Proto.StatusRoundTrip | crates/voidns-proto/src/lib.rs:96-106 | decoding undoes encoding for every status |
| Proto.CustomWithoutPort | crates/voidns-proto/src/lib.rs:29-43 | a custom upstream without a port decodes as port 443 |
| Proto.UpstreamDecodesExactly | crates/voidns-proto/src/lib.rs:17-43 | which objects decode to an upstream, by their literal kind and fields, a missing port being 443 |
| Proto.StatusDecodesExactly | crates/voidns-proto/src/lib.rs:86-106 | which members decode to a status, by its literal state name and optional fields |
| Proto.CommandDecodesExactly | crates/voidns-proto/src/lib.rs:59-72 | which objects decode to a command, by the literal type |
| Proto.EventDecodesExactly | crates/voidns-proto/src/lib.rs:75-84 | which objects decode to an event, by the literal type |
| Proto.CommandHasKeys | crates/voidns-proto/src/lib.rs:59-72 | the member names of every encoded command, in order |
| Proto.EventHasKeys | crates/voidns-proto/src/lib.rs:75-84 | the member names of every encoded event, in order |
| Proto.PermutationReorders | crates/voidns-proto/src/lib.rs:16-106 | every permutation of an object's members is one of the orders covered |
| Proto.ShuffledCommandDecodes | crates/voidns-proto/src/lib.rs:59-72 | a command with shuffled members decodes to itself |
| Proto.ShuffledEventDecodes | crates/voidns-proto/src/lib.rs:75-84 | an event with shuffled members decodes to itself |
| Broadcast.ReceivedFaithful | crates/voidns-core/src/ipc.rs:186-191 | a receive keeps delivered entries ordered, duplicate-free, after the subscription, and complete up to the cursor once nothing waits |
| Broadcast.ReceivedExactly | crates/voidns-core/src/controller.rs:25 | a receiver at most 16 behind gets the next entry and skips nothing; one further behind moves to the 16th newest |
| Broadcast.DrainsExactly | crates/voidns-core/src/controller.rs:25 | at most 17 receives drain any receiver and deliver exactly the waiting entries among the newest 16 |
| Broadcast.ReceivedAccounted | crates/voidns-core/src/ipc.rs:186-191 | one receive: every entry up to the cursor stays delivered or counted as skipped |
| Controller.StepsServe | crates/voidns-core/src/controller.rs:48-103 | the steps of a command run to the end are the command taken as a whole |
| Controller.AdvanceKeeps | crates/voidns-core/src/controller.rs:48-103 | every single step keeps the invariant of its point, for any outcome |
| Controller.NoDeadRedirectAt | crates/voidns-core/src/controller.rs:66-99 | at every point between steps, if DNS points at the proxy the proxy listens, unless `dirty` |
| Controller.TrailKeeps | crates/voidns-core/src/controller.rs:48-103 | no dead redirect along the whole trail of a command, and the invariant at its end |
| Controller.ServeKeeps | crates/voidns-core/src/controller.rs:48-103 | every command keeps the free-lock invariant, never answers `Connecting`, and passes no dead redirect |
| Controller.RunsKeepFree | crates/voidns-core/src/controller.rs:48-103 | in every run, also over the leftovers of a crash: Connected exactly when a proxy is held exactly when there is a record, and the broadcast trace follows its grammar |
| Controller.SetGrammar | crates/voidns-core/src/controller.rs:43-46 | broadcasting a status that may follow keeps grammar and currency |
| Controller.ShutdownTearsDown | crates/voidns-service/src/main.rs:164-169 | after any run and whatever fails, the shutdown disconnect returns with no proxy and no record |
| Controller.InForceExactly | crates/voidns-core/src/controller.rs:48-103 | from a torn-down place in any run: still torn down exactly if no connect since was answered `Connected` without a later disconnect |
| Controller.ConnectThenDisconnect | crates/voidns-core/src/controller.rs:48-103 | a successful connect and a disconnect do to the system exactly one apply and one restore |
| Controller.ConnectSays | crates/voidns-core/src/controller.rs:48-91 | reply and broadcasts of a connect word by word: the name of each upstream, the address of the proxy, the cause of a failure |
| Controller.DisconnectSays | crates/voidns-core/src/controller.rs:93-103 | reply, broadcast and restored system of a disconnect, whatever fails |
| Controller.OthersOnlyRead | crates/voidns-core/src/controller.rs:39-54 | status, subscribe and a connect while connected answer the status and change nothing |
| Controller.DeadRedirectExactly | crates/voidns-core/src/controller.rs:48-103 | from a tidy system, over all outcomes of a connect and a disconnect: it ends with a dead redirect exactly if the proxy had started and `Redirect.LeftPointing` holds |
| Controller.RestartRecovers | crates/voidns-core/src/controller.rs:48-103 | a daemon restarted over whatever a crash left brings the user's `resolv.conf` back with one connect by file and one disconnect; then no redirect is dead, and the controller not dirty, exactly if the crash left no link on the proxy |
| Controller.ConnectIsIdempotent | crates/voidns-core/src/controller.rs:49-54 | connecting while connected changes and broadcasts nothing |
| Controller.Controller.constructor | crates/voidns-core/src/controller.rs:24-33 | a new controller is disconnected, without proxy and with nothing broadcast, over whatever system it finds |
| Controller.Controller.Publish | crates/voidns-core/src/controller.rs:43-46 | status and broadcast change together |
| Controller.Controller.Connect | crates/voidns-core/src/controller.rs:48-91 | state, reply and the trail of points are those of the specified command |
| Controller.Controller.Redirected | crates/voidns-core/src/controller.rs:74-91 | the same for the part after the proxy listens |
| Controller.Controller.Failed | crates/voidns-core/src/controller.rs:76-79 | the same for the part after a failed redirect: the proxy is stopped, then the error published |
| Controller.Controller.Kept | crates/voidns-core/src/controller.rs:81-90 | the same for the part after a redirect: the proxy is kept, then `Connected` published |
| Controller.Controller.Disconnect | crates/voidns-core/src/controller.rs:93-103 | state, reply and the trail of points are those of the specified command |
| Controller.Controller.Stopped | crates/voidns-core/src/controller.rs:97-102 | the same for the part after the restore: the proxy is stopped, then `Disconnected` published |
| Server.LockKept | crates/voidns-core/src/ipc.rs:165-183 | the queue holds exactly the waiting tasks once each, and only the holder works |
| Server.WorkKept | crates/voidns-core/src/ipc.rs:165-183 | every step keeps the controller equal to a sequential one: now if the lock is free, at the holder's end if not |
| Server.ConnsKept | crates/voidns-core/src/ipc.rs:140-191 | every step keeps all replies sequential and all subscriptions faithful |
| Server.ForwardsDrain | crates/voidns-core/src/ipc.rs:155-160 | at most 17 forwards in a row drain a listening subscriber and put exactly the waiting entries among the newest 16 on its wire, in order |
| Server.RunsAreGood | crates/voidns-core/src/ipc.rs:85-183 | all of this in every interleaving of any number of connections |
| ServerClaims.RepliesAreSequential | crates/voidns-core/src/ipc.rs:165-183 | every reply equals that of the commands run one at a time in lock order, never says `Connecting`, and replies of a connection keep that order |
| ServerClaims.FreeLockIsSequential | crates/voidns-core/src/ipc.rs:165-183 | with the lock free the controller is that of the served commands |
| ServerClaims.ServedInArrivalOrder | crates/voidns-core/src/ipc.rs:165-183 | lock order is arrival order: served, serving and waiting clients together are the clients in the order they asked |
| ServerClaims.EveryMoment | crates/voidns-core/src/controller.rs:43-103 | at every moment of every run: trace grammar, status is the last broadcast, no dead redirect unless `dirty` |
| ServerClaims.SubscriberConverges | crates/voidns-core/src/ipc.rs:155-189 | a subscription delivers its snapshot, then ordered distinct later statuses, and when drained the last delivered one is the controller's |
| ServerClaims.ForwardedOrSkipped | crates/voidns-core/src/ipc.rs:155-191 | in every run each status broadcast between subscription and cursor was forwarded or skipped, and the counts add up |
| ServerClaims.LosslessExactly | crates/voidns-core/src/ipc.rs:155-191 | a subscription delivers every status up to its cursor exactly when none of its forwards skipped one |
| ServerClaims.SubscriberCatchesUp | crates/voidns-core/src/ipc.rs:155-189 | from every reachable state at most 17 forwards bring a listening subscriber to the controller's status |
| ServerClaims.WireCarriesSubscription | crates/voidns-core/src/ipc.rs:145-160 | since the last Subscribe reply the wire holds that snapshot and one update per delivered entry |
| ServerClaims.ClientSeesSubscription | crates/voidns-core/src/ipc.rs:204-226 | the events on a subscription connection are exactly what the subscription delivered |
| ServerClaims.DisconnectReturnsTornDown | crates/voidns-service/src/main.rs:164-169 | in every interleaving the step that ends a disconnect leaves everything torn down |
| ServerClaims.StaysTornDown | crates/voidns-service/src/main.rs:164-169 | after the shutdown's disconnect everything stays torn down at every moment while no connect is granted the lock |
| ServerClaims.ExitExactly | crates/voidns-service/src/main.rs:164-169 | at an exit with the lock free: torn down exactly if no connect served after that disconnect was answered `Connected` without a later disconnect |
| ServerClaims.ExitDuringWork | crates/voidns-service/src/main.rs:164-169 | at an exit while a command works: torn down or not by the next operation of that command |
| ServerClaims.NeverStuck | crates/voidns-core/src/ipc.rs:165-183 | while a command is unanswered some lock step is possible |
| ServerClaims.StepsApproach | crates/voidns-core/src/ipc.rs:165-183 | lock steps bring an answer nearer, other steps never push it away |
| ServerClaims.AnsweredWithinBound | crates/voidns-core/src/ipc.rs:165-183 | a run that keeps a command unanswered has at most a bounded number of lock steps and can always make one more |
| ServerClaims.AnswerCanBeWritten | crates/voidns-core/src/ipc.rs:151-152 | once the holder is done its reply can be written at once |
| Framing.FrameReadsExactly | crates/voidns-core/src/ipc.rs:54-79 | a frame reads back as its payload if and only if the payload is shorter than 2^32 bytes |
| Framing.FramesRoundTrip | crates/voidns-core/src/ipc.rs:54-79 | any list of such payloads reads back exactly, then the end |
| Framing.CutStreamReads | crates/voidns-core/src/ipc.rs:66-79 | a stream cut anywhere reads as the whole frames before the cut, then the end below four bytes, an error above |
| Framing.LostBytesBreakFraming | crates/voidns-core/src/ipc.rs:66-79 | after losing k leading bytes the messages read as sent exactly when k is 0 |
| Framing.Be32RoundTrip | crates/voidns-core/src/ipc.rs:60 | the big-endian length header reads back |
| Framing.Be32Exactly | crates/voidns-core/src/ipc.rs:60-70 | the first of the four bytes is the most significant, written and read |
| Framing.ByteSource.ReadExact | crates/voidns-core/src/ipc.rs:71-77 | the buffer is filled from the concatenated pieces, or everything is consumed and it fails |
| Framing.ByteSource.ReadMsg | crates/voidns-core/src/ipc.rs:66-79 | one frame of the concatenated stream, for any chunking |
| Framing.ByteSource.Drop | crates/voidns-core/src/ipc.rs:145-160 | a dropped half-finished read loses the bytes it had taken |
| Framing.ByteSink.WriteMsg | crates/voidns-core/src/ipc.rs:54-64 | one whole frame on success; on failure its first part, or all of it when only the flush fails |
| Ipc.Dispatch | crates/voidns-core/src/ipc.rs:165-183 | reply and controller are those of the command; Subscribe takes its receiver at the end of the broadcast log together with the snapshot |
| Ipc.HandleConn | crates/voidns-core/src/ipc.rs:140-163 | bytes written are the whole frames of the events sent and part of at most one more; the events sent are exactly the replies and, after Subscribe, the updates due in the completed rounds, in order; without lost bytes the commands are those of the first frames |
| Ipc.EventsInOrder | crates/voidns-core/src/ipc.rs:140-163 | however a connection ends it has sent exactly the events due, and a partial frame belongs to the next one due |
| Ipc.OnlyRepliesDue | crates/voidns-core/src/ipc.rs:148-153 | without a Subscribe exactly one reply per command is due, in order |
| Ipc.ReadsItsFrames | crates/voidns-core/src/ipc.rs:140-163 | a connection that never subscribed or lost no bytes has read exactly the commands of its first frames and is right behind them |
| Ipc.LostBytesBreakConnection | crates/voidns-core/src/ipc.rs:145-160 | after an update a subscribed connection still reads the frames it has coming exactly when the update dropped no read bytes |
| Connection.WrittenIsDue | crates/voidns-core/src/ipc.rs:140-183 | for every connection of every run of the server: the events written are those due in its rounds, with the replies the served commands get one at a time in lock order |
| Connection.LoopSendsDue | crates/voidns-core/src/ipc.rs:140-163 | the loop fed the frames of commands reads as many as its rounds do and sends exactly what is due |
| Connection.LoopSendsWritten | crates/voidns-core/src/ipc.rs:140-183 | from bytes to bytes: the loop fed the frames of a connection's commands sends exactly the events the server has written on it |
| Ipc.WrittenBytesDecode | crates/voidns-core/src/ipc.rs:140-163 | the peer decodes exactly the events sent, and the one whose write failed only if its whole frame was out, then the end or a cut frame |
| Ipc.NextUpdate | crates/voidns-core/src/ipc.rs:216-226 | the first status of the stream, everything else skipped, the frames behind it untouched; with none left the end, or an error at a cut frame |
| Ipc.NextStatusExactly | crates/voidns-core/src/ipc.rs:216-226 | it is the first status, with everything before it something else, and leaves the events behind it |
| Ipc.StatusesAppend | crates/gui/src-tauri/src/ipc.rs:106-119 | the statuses of a list are those of its parts in order |
| Ipc.Follow | crates/gui/src-tauri/src/ipc.rs:106-119 | the client's loop hands on every status of the stream, in order, until it ends |
| Watch.BytesOfDelivered | crates/voidns-core/src/ipc.rs:204-226 | in every run, the whole events within any first part of a subscription connection's bytes carry exactly the beginning of what the subscription delivered |
| Watch.FollowSubscription | crates/voidns-core/src/ipc.rs:204-226 | what the client has handed on when its connection breaks anywhere is the beginning of what its subscription delivered, and all of it if all bytes came |
| Findings.MissingFileStaysRedirected | crates/voidns-core/src/redirect/linux.rs:214-237 | concrete: with no `resolv.conf` at first, connect and disconnect leave the proxy's file |
| Findings.StaleBackupOverwritesEdit | crates/voidns-core/src/redirect/linux.rs:233-237 | concrete: an undeleted backup overwrites a later edit |
| Findings.EarlierOverrideIsLost | crates/voidns-core/src/redirect/linux.rs:199-202 | concrete: with `wlan0` as default route, an earlier override of its link is reverted too |
| Findings.SymlinkIsLost | crates/voidns-core/src/redirect/linux.rs:220-229 | concrete: a symbolic link comes back as a regular file though every call succeeds |
| Findings.FailedRestoreLeavesDeadRedirect | crates/voidns-core/src/controller.rs:93-103 | concrete: a failed copy back leaves a dead redirect that a second disconnect does not repair |
| Findings.StaticServerIsLost | crates/voidns-core/src/redirect/windows.rs:198-214 | concrete: the static server of the one connected adapter is cleared by restore |
| Findings.EarlierStateKeyIsLost | crates/voidns-core/src/redirect/macos.rs:172-180 | concrete: an earlier `State:` DNS key is removed by restore |
| Findings.UnreadServersAreLost | crates/voidns-core/src/redirect/macos.rs:190-194 | concrete: a service whose read failed comes back without its static server though every call reports success |
| Findings.HugeFrameReadsEmpty | crates/voidns-core/src/ipc.rs:60 | concrete: 2^32 payload bytes are announced as none |
| Findings.OneLostByteBreaksStream | crates/voidns-core/src/ipc.rs:145-160 | concrete: one lost byte breaks a good stream |
| Findings.ShortRowHidesRoute | crates/voidns-core/src/redirect/parse.rs:15-16 | concrete: a one-column row hides the default route behind it |
| Examples.DisconnectedRow | crates/voidns-core/src/redirect/parse.rs:107-110 | literal: a disconnected adapter parses to no name |
| Examples.ConnectedRow | crates/voidns-core/src/redirect/parse.rs:86-98 | literal: a connected one parses to its name, in any case of the word |
| Examples.RouteTable | crates/voidns-core/src/redirect/parse.rs:68-76 | literal: a route table with tabs gives the interface of its default route |
| Examples.ServiceList | crates/voidns-core/src/redirect/parse.rs:115-131 | literal: a listing with a disabled service and an open last line |
| Examples.ServerList | crates/voidns-core/src/redirect/parse.rs:50-58 | literal: entries that are no addresses are left out |
| Examples.SmallAndLargeLag | crates/voidns-core/src/controller.rs:25 | literal: two or sixteen entries behind nothing is lost, seventeen behind one is |
| Examples.FrameOfOneByte | crates/voidns-core/src/ipc.rs:54-64 | literal: a frame and a length header byte by byte |

## Left out

- Partial effects of one file call: each `fs::*` call succeeds or changes nothing, so a crash in the middle of a copy or a write is not covered.
- `Path::exists` is taken to tell the truth; a metadata error that makes it answer "no" is not modelled. The `symlink_metadata` error is.
- `flush_cache` and the result of stopping a proxy: the code ignores both, and a stopped proxy is taken to release its sockets.
- DoH forwarding, TLS and resolver options (`proxy.rs`): the proxy is something that starts listening or fails, and stops.
- D-Bus, dynamic store, Win32 and subprocess bindings: each is a map from link, key, service or adapter to its DNS setting, with failing calls named by number.
- `IpAddr` parsing: `parse_dns_servers` takes the predicate as a parameter, and the results hold for every such predicate on entries without white space; that every entry is an address is not assumed.
- JSON text: messages are JSON values, and at the byte level payload encoding and decoding are parameters.
- Crashes of the macOS and Windows service in the middle of a call: those redirectors keep nothing to recover from. A restart over whatever they leave is covered, as a boot on an untidy system (`Controller.Fresh`).
- Server.RunsAreGood: an apply or restore is one step of the server's interleaving; its own file steps are in `LinuxSteps`.
- The channel's closed state: the sender lives as long as the controller, which every task shares.
- Socket creation, permissions, endpoint names, accept errors, logging, environment variables, the Windows service glue, the command-line tools and the user interface.
- Encodings serde also accepts for tagged enums as arrays.
