/** The connect and disconnect state machine: its steps one by one, the whole of a command as one
    function, and the class. */
module Controller {
  import opened Base
  import opened Proto
  import opened Redirect
  import Linux
  import LinuxSteps
  import Text

  /** `127.0.0.1`, where the proxy listens and where system DNS is sent. */
  const PROXY := "127.0.0.1"

  /** The controller and what it acts on. `held` is whether it keeps a proxy, `up` whether a proxy
      listens, `log` every status broadcast so far. `dirty` records that DNS may be left on the proxy:
      the system was found so at the start, or some apply or restore was not clean, and it has not
      been tidy since. */
  datatype Ctl = Ctl(
    status: Status, held: bool, up: bool, red: Redirector, port: nat, log: seq<Status>, dirty: bool)

  /** How the operations of one command go. Results of stopping a proxy and of flushing caches are
      ignored by the code, and a stopped proxy is gone whatever its result. */
  datatype Env = Env(start: Outcome, apply: ApplyEnv, restore: RestoreEnv)

  function Listen(port: nat): string {
    PROXY + ":" + Text.Decimal(port)
  }

  function ConnectingTo(u: UpstreamSel): Status {
    Status(Connecting, Some(Label(u)), None, None)
  }

  function ConnectedTo(u: UpstreamSel, port: nat): Status {
    Status(Connected, Some(Label(u)), Some(Listen(port)), None)
  }

  function ErrorStatus(why: string): Status {
    Status(ConnState.Error, None, None, Some(why))
  }

  function Set(c: Ctl, s: Status): Ctl {
    c.(status := s, log := c.log + [s])
  }

  // --- a whole command ---

  datatype Answer = Answer(ctl: Ctl, reply: Status)

  /** After an apply: dirty if it was not clean, until the system is tidy again. */
  ghost function AfterApply(c: Ctl, env: Env): Ctl {
    var red := Redirect.Applied(c.red, PROXY, env.apply).state;
    c.(red := red, dirty := (c.dirty || !CleanApply(c.red, PROXY, env.apply)) && !Tidy(red, PROXY))
  }

  ghost function AfterRestore(c: Ctl, env: Env): Ctl {
    var red := Redirect.Restored(c.red, env.restore).state;
    c.(red := red, dirty := (c.dirty || !CleanRestore(c.red, env.restore)) && !Tidy(red, PROXY))
  }

  /** What one command does to the controller and answers, taken as a whole. */
  ghost function Serve(c: Ctl, cmd: Command, env: Env): Answer {
    match cmd
    case Connect(u) =>
      if c.status.state.Connected? || c.status.state.Connecting? then Answer(c, c.status)
      else
        var trying := Set(c, ConnectingTo(u));
        if env.start.Failed? then
          var end := ErrorStatus(env.start.why);
          Answer(Set(trying, end), end)
        else
          var tried := AfterApply(trying.(up := true), env);
          var result := Redirect.Applied(c.red, PROXY, env.apply).result;
          if result.Failed? then
            var end := ErrorStatus(result.why);
            Answer(Set(tried.(up := false), end), end)
          else
            var end := ConnectedTo(u, c.port);
            Answer(Set(tried.(held := true), end), end)
    case Disconnect =>
      var restored := AfterRestore(c, env);
      var stopped := if c.held then restored.(held := false, up := false) else restored;
      Answer(Set(stopped, DISCONNECTED), DISCONNECTED)
    case _ => Answer(c, c.status)
  }

  // --- step by step ---

  /** The next operation of a command, between two of which the lock holder can be observed. */
  datatype Pc =
    | Reading
    | Checking(u: UpstreamSel)
    | Starting(u: UpstreamSel)
    | Redirecting(u: UpstreamSel)
    | Flushing(u: UpstreamSel)
    | Keeping(u: UpstreamSel)
    | Publishing(u: UpstreamSel)
    | Stopping(why: string)
    | Failing(why: string)
    | Restoring
    | StoppingHeld
    | FlushingAfter
    | Clearing
    | Return(reply: Status)

  datatype Point = Point(ctl: Ctl, pc: Pc)

  function Entry(cmd: Command): Pc {
    match cmd
    case Connect(u) => Checking(u)
    case Disconnect => Restoring
    case _ => Reading
  }

  ghost function Advance(p: Point, env: Env): Point {
    var c := p.ctl;
    match p.pc
    case Reading => Point(c, Return(c.status))
    case Checking(u) =>
      if c.status.state.Connected? || c.status.state.Connecting? then Point(c, Return(c.status))
      else Point(Set(c, ConnectingTo(u)), Starting(u))
    case Starting(u) =>
      if env.start.Failed? then Point(c, Failing(env.start.why)) else Point(c.(up := true), Redirecting(u))
    case Redirecting(u) =>
      var result := Redirect.Applied(c.red, PROXY, env.apply).result;
      Point(AfterApply(c, env), if result.Failed? then Stopping(result.why) else Flushing(u))
    case Flushing(u) => Point(c, Keeping(u))
    case Keeping(u) => Point(c.(held := true), Publishing(u))
    case Publishing(u) => var end := ConnectedTo(u, c.port); Point(Set(c, end), Return(end))
    case Stopping(why) => Point(c.(up := false), Failing(why))
    case Failing(why) => Point(Set(c, ErrorStatus(why)), Return(ErrorStatus(why)))
    case Restoring => Point(AfterRestore(c, env), StoppingHeld)
    case StoppingHeld => Point(if c.held then c.(held := false, up := false) else c, FlushingAfter)
    case FlushingAfter => Point(c, Clearing)
    case Clearing => Point(Set(c, DISCONNECTED), Return(DISCONNECTED))
    case Return(_) => p
  }

  /** Steps left before the answer, at most. */
  function Rank(pc: Pc): nat {
    match pc
    case Reading => 1
    case Checking(_) => 7
    case Starting(_) => 6
    case Redirecting(_) => 5
    case Flushing(_) => 4
    case Keeping(_) => 3
    case Publishing(_) => 2
    case Stopping(_) => 2
    case Failing(_) => 1
    case Restoring => 4
    case StoppingHeld => 3
    case FlushingAfter => 2
    case Clearing => 1
    case Return(_) => 0
  }

  lemma AdvanceRanks(p: Point, env: Env)
    ensures Rank(Advance(p, env).pc) < Rank(p.pc) || p.pc.Return?
  {
  }

  /** All the points a command passes through after `p`. */
  ghost function Trail(p: Point, env: Env): seq<Ctl>
    decreases Rank(p.pc)
  {
    if p.pc.Return? then []
    else
      AdvanceRanks(p, env);
      var q := Advance(p, env);
      [q.ctl] + Trail(q, env)
  }

  /** Where a command ends when run from `p` on. */
  ghost function Finish(p: Point, env: Env): Point
    decreases Rank(p.pc)
  {
    if p.pc.Return? then p
    else
      AdvanceRanks(p, env);
      Finish(Advance(p, env), env)
  }

  lemma FinishOnce(p: Point, env: Env)
    requires !p.pc.Return?
    ensures Finish(p, env) == Finish(Advance(p, env), env)
    ensures Trail(p, env) == [Advance(p, env).ctl] + Trail(Advance(p, env), env)
  {
  }

  /** One step on: `done` grows by the point just reached. */
  lemma Ticked(p: Point, env: Env, done: seq<Ctl>)
    requires !p.pc.Return?
    ensures var q := Advance(p, env);
            && Finish(p, env) == Finish(q, env)
            && done + Trail(p, env) == (done + [q.ctl]) + Trail(q, env)
  {
    hide Advance;
    hide Trail;
    hide Finish;
    FinishOnce(p, env);
  }

  /** At the answer, `done` is the whole trail. */
  lemma TrailDone(p: Point, env: Env, done: seq<Ctl>, whole: seq<Ctl>)
    requires p.pc.Return? && done + Trail(p, env) == [] + whole
    ensures Finish(p, env) == p && done == whole
  {
    assert done + Trail(p, env) == done && [] + whole == whole;
  }

  lemma ConnectSteps(c: Ctl, u: UpstreamSel, env: Env)
    ensures var a := Serve(c, Connect(u), env); Finish(Point(c, Checking(u)), env) == Point(a.ctl, Return(a.reply))
  {
    hide Redirect.Applied;
    hide CleanApply;
    hide Finish;
    hide Trail;
    var p := Point(c, Checking(u));
    FinishOnce(p, env);
    var p1 := Advance(p, env);
    if p1.pc.Return? {
      FinishesHere(p1, env);
    } else {
      FinishOnce(p1, env);
      var p2 := Advance(p1, env);
      FinishOnce(p2, env);
      var p3 := Advance(p2, env);
      if p3.pc.Return? {
        FinishesHere(p3, env);
      } else {
        RedirectingSteps(p2, u, env);
      }
    }
  }

  lemma RedirectingSteps(p: Point, u: UpstreamSel, env: Env)
    requires p.pc == Redirecting(u)
    ensures var result := Redirect.Applied(p.ctl.red, PROXY, env.apply).result;
            var tried := AfterApply(p.ctl, env);
            Finish(p, env) ==
            if result.Failed? then
              var end := ErrorStatus(result.why);
              Point(Set(tried.(up := false), end), Return(end))
            else
              var end := ConnectedTo(u, p.ctl.port);
              Point(Set(tried.(held := true), end), Return(end))
  {
    hide Redirect.Applied;
    hide CleanApply;
    hide Finish;
    hide Trail;
    FinishOnce(p, env);
    var p1 := Advance(p, env);
    FinishOnce(p1, env);
    var p2 := Advance(p1, env);
    FinishOnce(p2, env);
    var p3 := Advance(p2, env);
    if p3.pc.Return? {
      FinishesHere(p3, env);
    } else {
      FinishOnce(p3, env);
      FinishesHere(Advance(p3, env), env);
    }
  }

  lemma DisconnectSteps(c: Ctl, env: Env)
    ensures var a := Serve(c, Disconnect, env); Finish(Point(c, Restoring), env) == Point(a.ctl, Return(a.reply))
  {
    hide Redirect.Restored;
    hide CleanRestore;
    hide Finish;
    hide Trail;
    var p := Point(c, Restoring);
    FinishOnce(p, env);
    var p1 := Advance(p, env);
    FinishOnce(p1, env);
    var p2 := Advance(p1, env);
    FinishOnce(p2, env);
    var p3 := Advance(p2, env);
    FinishOnce(p3, env);
    FinishesHere(Advance(p3, env), env);
  }

  lemma FinishesHere(p: Point, env: Env)
    requires p.pc.Return?
    ensures Finish(p, env) == p
  {
  }

  /** Running the steps of a command to the end is the command taken as a whole. */
  lemma StepsServe(c: Ctl, cmd: Command, env: Env)
    requires !cmd.Ping?
    ensures var a := Serve(c, cmd, env); Finish(Point(c, Entry(cmd)), env) == Point(a.ctl, Return(a.reply))
  {
    match cmd
    case Connect(u) =>
      hide Serve;
      hide Finish;
      ConnectSteps(c, u, env);
    case Disconnect =>
      hide Serve;
      hide Finish;
      DisconnectSteps(c, env);
    case _ =>
      FinishOnce(Point(c, Reading), env);
  }

  // --- what every point keeps ---

  /** A status has the optional fields its state calls for. */
  ghost predicate FieldsFit(s: Status) {
    match s.state
    case Disconnected => s == DISCONNECTED
    case Connecting => s.upstream.Some? && s.listen.None? && s.error.None?
    case Connected => s.upstream.Some? && s.listen.Some? && s.error.None?
    case Error => s.upstream.None? && s.listen.None? && s.error.Some?
  }

  predicate IsOutcome(s: Status) {
    s.state.Connected? || s.state.Error?
  }

  /** `b` may be broadcast right after `a`. */
  ghost predicate Follows(a: Status, b: Status) {
    && (a.state.Connecting? <==> IsOutcome(b))
    && (a.state.Connected? ==> !b.state.Connecting?)
    && (b.state.Connected? ==> b.upstream == a.upstream)
  }

  /** The grammar of the broadcast trace: each `Connecting` directly followed by its outcome, each
      outcome directly preceded by its `Connecting`, never `Connected` then `Connecting`. */
  ghost predicate Grammar(log: seq<Status>) {
    && (forall i | 0 <= i < |log| :: FieldsFit(log[i]))
    && (log != [] ==> !IsOutcome(log[0]))
    && (forall i | 0 <= i < |log| - 1 :: Follows(log[i], log[i + 1]))
  }

  /** The status is the last one broadcast. */
  ghost predicate Current(c: Ctl) {
    c.status == if c.log == [] then DISCONNECTED else Last(c.log)
  }

  /** Connected, holding a proxy, listening and having a record are one and the same. */
  ghost predicate Agreed(c: Ctl) {
    && !c.status.state.Connecting?
    && (c.status.state.Connected? <==> c.held)
    && (c.held <==> c.up)
    && (c.held <==> Recorded(c.red))
  }

  /** What holds whenever the lock is free. */
  ghost predicate Free(c: Ctl) {
    Grammar(c.log) && Current(c) && Agreed(c) && (!c.dirty ==> Tidy(c.red, PROXY))
  }

  ghost predicate AtPc(c: Ctl, pc: Pc) {
    match pc
    case Reading => Agreed(c)
    case Checking(_) => Agreed(c)
    case Starting(u) => c.status == ConnectingTo(u) && !c.held && !c.up && !Recorded(c.red)
    case Redirecting(u) => c.status == ConnectingTo(u) && !c.held && c.up && !Recorded(c.red)
    case Flushing(u) => c.status == ConnectingTo(u) && !c.held && c.up && Recorded(c.red)
    case Keeping(u) => c.status == ConnectingTo(u) && !c.held && c.up && Recorded(c.red)
    case Publishing(u) => c.status == ConnectingTo(u) && c.held && c.up && Recorded(c.red)
    case Stopping(_) => c.status.state.Connecting? && !c.held && c.up && !Recorded(c.red)
    case Failing(_) => c.status.state.Connecting? && !c.held && !c.up && !Recorded(c.red)
    case Restoring => Agreed(c)
    case StoppingHeld => !c.status.state.Connecting? && (c.held <==> c.up) && !Recorded(c.red)
    case FlushingAfter => !c.status.state.Connecting? && !c.held && !c.up && !Recorded(c.red)
    case Clearing => !c.status.state.Connecting? && !c.held && !c.up && !Recorded(c.red)
    case Return(reply) => Agreed(c) && reply == c.status
  }

  ghost predicate Inv(p: Point) {
    && Grammar(p.ctl.log) && Current(p.ctl) && AtPc(p.ctl, p.pc)
    && (!p.ctl.dirty ==> Tidy(p.ctl.red, PROXY))
  }

  lemma SetGrammar(c: Ctl, s: Status)
    requires Grammar(c.log) && Current(c) && FieldsFit(s) && Follows(c.status, s)
    ensures Grammar(Set(c, s).log) && Current(Set(c, s))
  {
    var log := c.log + [s];
    forall i | 0 <= i < |log| - 1 ensures Follows(log[i], log[i + 1]) {
      if i < |c.log| - 1 {
        assert log[i] == c.log[i] && log[i + 1] == c.log[i + 1];
      }
    }
  }

  lemma {:induction false} AdvanceKeeps(p: Point, env: Env)
    requires Inv(p)
    ensures Inv(Advance(p, env))
  {
    hide Redirect.Applied;
    hide Redirect.Restored;
    hide CleanApply;
    hide CleanRestore;
    hide Tidy;
    var c := p.ctl;
    match p.pc
    case Checking(u) =>
      if !c.status.state.Connected? {
        SetGrammar(c, ConnectingTo(u));
      }
    case Redirecting(_) => ApplyContract(c.red, PROXY, env.apply);
    case Publishing(u) => SetGrammar(c, ConnectedTo(u, c.port));
    case Failing(why) => SetGrammar(c, ErrorStatus(why));
    case Restoring => RestoreContract(c.red, PROXY, env.restore);
    case Clearing => SetGrammar(c, DISCONNECTED);
    case _ =>
  }

  /** Broadcasting only ever appends. */
  lemma AdvanceGrows(p: Point, env: Env)
    ensures p.ctl.log <= Advance(p, env).ctl.log
  {
    hide Redirect.Applied;
    hide Redirect.Restored;
    hide CleanApply;
    hide CleanRestore;
  }

  /** If the system sends its queries to the proxy, a proxy listens. */
  ghost predicate NoDeadRedirect(c: Ctl) {
    Points(c.red, PROXY) ==> c.up
  }

  /** No dead redirect at any point of any command, unless dirty. */
  lemma NoDeadRedirectAt(p: Point)
    requires Inv(p) && !p.ctl.dirty
    ensures NoDeadRedirect(p.ctl)
  {
    if !Recorded(p.ctl.red) {
      TidyWithoutRecord(p.ctl.red, PROXY);
    }
  }

  lemma {:induction false} TrailKeeps(p: Point, env: Env)
    requires Inv(p)
    ensures Inv(Finish(p, env))
    ensures forall c | c in Trail(p, env) :: !c.dirty ==> NoDeadRedirect(c)
    decreases Rank(p.pc)
  {
    if !p.pc.Return? {
      var q := Advance(p, env);
      AdvanceRanks(p, env);
      AdvanceKeeps(p, env);
      if !q.ctl.dirty {
        NoDeadRedirectAt(q);
      }
      TrailKeeps(q, env);
    }
  }

  lemma ServeGrows(c: Ctl, cmd: Command, env: Env)
    ensures c.log <= Serve(c, cmd, env).ctl.log
  {
    hide Redirect.Applied;
    hide Redirect.Restored;
    hide CleanApply;
    hide CleanRestore;
  }

  /** Every command, with any outcomes, keeps what holds when the lock is free, never answers
      `Connecting`, and passes only through points without a dead redirect. */
  lemma ServeKeeps(c: Ctl, cmd: Command, env: Env)
    requires Free(c) && !cmd.Ping?
    ensures var a := Serve(c, cmd, env);
            && Free(a.ctl) && a.reply == a.ctl.status && !a.reply.state.Connecting?
            && c.log <= a.ctl.log
    ensures forall d | d in Trail(Point(c, Entry(cmd)), env) :: !d.dirty ==> NoDeadRedirect(d)
  {
    hide Advance;
    hide Tidy;
    hide Points;
    hide Serve;
    ServeGrows(c, cmd, env);
    StepsServe(c, cmd, env);
    TrailKeeps(Point(c, Entry(cmd)), env);
  }

  // --- runs of whole commands ---

  datatype Turn = Turn(cmd: Command, env: Env)

  /** The controller after a list of commands served one at a time. */
  ghost function After(boot: Ctl, turns: seq<Turn>): Ctl {
    if turns == [] then boot else Serve(After(boot, turns[..|turns| - 1]), Last(turns).cmd, Last(turns).env).ctl
  }

  ghost predicate NoPing(turns: seq<Turn>) {
    forall t | t in turns :: !t.cmd.Ping?
  }

  /** A fresh controller on any system; if that is not tidy, as after a crash, it is dirty from the start. */
  ghost predicate Fresh(c: Ctl) {
    && c.status == DISCONNECTED && !c.held && !c.up && c.log == [] && !Recorded(c.red)
    && (!c.dirty ==> Tidy(c.red, PROXY))
  }

  /** In every run with any outcomes the invariant holds between commands: Connected exactly when
      a proxy is held, exactly when the redirector has a record, and the broadcast trace follows
      the grammar. */
  lemma {:induction false} RunsKeepFree(boot: Ctl, turns: seq<Turn>)
    requires Fresh(boot) && NoPing(turns)
    ensures Free(After(boot, turns))
  {
    if turns != [] {
      RunsKeepFree(boot, turns[..|turns| - 1]);
      assert Last(turns) in turns;
      ServeKeeps(After(boot, turns[..|turns| - 1]), Last(turns).cmd, Last(turns).env);
    }
  }

  /** Nothing is left of a connect. */
  ghost predicate TornDown(c: Ctl) {
    !c.held && !c.up && !Recorded(c.red)
  }

  /** The daemon's shutdown: whatever happened before and whatever fails now, disconnect returns
      with no proxy held or listening and no record. */
  lemma ShutdownTearsDown(boot: Ctl, turns: seq<Turn>, env: Env)
    requires Fresh(boot) && NoPing(turns)
    ensures var a := Serve(After(boot, turns), Disconnect, env);
            a.reply == a.ctl.status == DISCONNECTED && TornDown(a.ctl)
  {
    RunsKeepFree(boot, turns);
    RestoreContract(After(boot, turns).red, PROXY, env.restore);
  }

  /** The operations of commands other than connect. */
  predicate ApartFromConnect(pc: Pc) {
    pc.Reading? || pc.Restoring? || pc.StoppingHeld? || pc.FlushingAfter? || pc.Clearing? || pc.Return?
  }

  /** Only a connect ends being torn down. */
  lemma AdvanceTornDown(p: Point, env: Env)
    requires TornDown(p.ctl) && ApartFromConnect(p.pc)
    ensures TornDown(Advance(p, env).ctl) && ApartFromConnect(Advance(p, env).pc)
  {
    hide Redirect.Applied;
    hide CleanApply;
    hide CleanRestore;
    hide Tidy;
    RestoreContract(p.ctl.red, PROXY, env.restore);
  }

  /** Some connect served from place `n` on was answered `Connected`, and no disconnect came after it. */
  ghost predicate InForce(boot: Ctl, turns: seq<Turn>, n: nat) {
    exists i: nat ::
      && n <= i < |turns| && turns[i].cmd.Connect? && ReplyAt(boot, turns, i).state.Connected?
      && forall j: nat | i < j < |turns| :: !turns[j].cmd.Disconnect?
  }

  /** The reply of the `k`-th command in a run of the commands one at a time. */
  ghost function ReplyAt(boot: Ctl, turns: seq<Turn>, k: nat): Status
    requires k < |turns|
  {
    Serve(After(boot, turns[..k]), turns[k].cmd, turns[k].env).reply
  }

  lemma InForceOneMore(boot: Ctl, turns: seq<Turn>, n: nat)
    requires n < |turns|
    ensures var before, t := turns[..|turns| - 1], Last(turns);
            InForce(boot, turns, n) <==>
            || (t.cmd.Connect? && ReplyAt(boot, turns, |turns| - 1).state.Connected?)
            || (InForce(boot, before, n) && !t.cmd.Disconnect?)
  {
    hide Serve;
    hide After;
    var before, t := turns[..|turns| - 1], Last(turns);
    forall i: nat | i < |before| ensures turns[i] == before[i] && turns[..i] == before[..i] {
    }
    if i: nat :| && n <= i < |before| && before[i].cmd.Connect? && ReplyAt(boot, before, i).state.Connected?
                 && forall j: nat | i < j < |before| :: !before[j].cmd.Disconnect? {
      assert ReplyAt(boot, turns, i) == ReplyAt(boot, before, i);
    }
    if i: nat :| && n <= i < |turns| && turns[i].cmd.Connect? && ReplyAt(boot, turns, i).state.Connected?
                 && forall j: nat | i < j < |turns| :: !turns[j].cmd.Disconnect? {
      if i < |before| {
        assert ReplyAt(boot, turns, i) == ReplyAt(boot, before, i);
        assert turns[|turns| - 1] == t;
      }
    }
  }

  /** Between commands, after everything was torn down at place `n`: it still is exactly if no connect
      since is in force. */
  lemma {:induction false} InForceExactly(boot: Ctl, turns: seq<Turn>, n: nat)
    requires Fresh(boot) && NoPing(turns) && n <= |turns| && TornDown(After(boot, turns[..n]))
    ensures TornDown(After(boot, turns)) <==> !InForce(boot, turns, n)
    decreases |turns|
  {
    hide Serve;
    hide InForce;
    if n == |turns| {
      assert turns[..n] == turns;
      NoneInForce(boot, turns);
    } else {
      var before, t := turns[..|turns| - 1], Last(turns);
      assert before[..n] == turns[..n];
      assert forall x | x in before :: x in turns;
      assert t in turns;
      InForceExactly(boot, before, n);
      InForceOneMore(boot, turns, n);
      RunsKeepFree(boot, before);
      HeldAfter(After(boot, before), t.cmd, t.env);
    }
  }

  lemma NoneInForce(boot: Ctl, turns: seq<Turn>)
    ensures !InForce(boot, turns, |turns|)
  {
  }

  lemma HeldAfter(c: Ctl, cmd: Command, env: Env)
    requires Free(c) && !cmd.Ping?
    ensures var a := Serve(c, cmd, env);
            TornDown(a.ctl) <==>
            match cmd
            case Connect(_) => !a.reply.state.Connected?
            case Disconnect => true
            case _ => TornDown(c)
    ensures cmd.Connect? && !Serve(c, cmd, env).reply.state.Connected? ==> TornDown(c)
  {
    hide Advance;
    hide Trail;
    hide Tidy;
    hide Redirect.Applied;
    hide Redirect.Restored;
    hide CleanApply;
    hide CleanRestore;
    ServeKeeps(c, cmd, env);
    RestoreContract(c.red, PROXY, env.restore);
  }

  /** A successful connect then a disconnect do to the system exactly one apply then one restore,
      so the round trips of the three redirectors are those of the whole service. */
  lemma ConnectThenDisconnect(c: Ctl, u: UpstreamSel, env: Env, env2: Env)
    requires Free(c) && !c.held
    ensures var up := Serve(c, Connect(u), env);
            var down := Serve(up.ctl, Disconnect, env2);
            && (up.reply.state.Connected? <==>
                  env.start.Done? && Redirect.Applied(c.red, PROXY, env.apply).result.Done?)
            && (up.reply.state.Connected? ==>
                  && up.reply == ConnectedTo(u, c.port)
                  && Points(up.ctl.red, PROXY)
                  && down.ctl.red ==
                     Redirect.Restored(Redirect.Applied(c.red, PROXY, env.apply).state, env2.restore).state)
            && (env.start.Failed? ==> down.ctl.red == Redirect.Restored(c.red, env2.restore).state == c.red)
  {
    ApplyContract(c.red, PROXY, env.apply);
    RestoreContract(c.red, PROXY, env2.restore);
    NothingToRestore(c.red, env2.restore);
  }

  /** The reply to a connect and what it broadcasts, word by word: the upstream's name, the address of the
      proxy, and the cause of a failure. */
  lemma ConnectSays(c: Ctl, u: UpstreamSel, env: Env)
    requires Free(c) && !c.held
    ensures var a := Serve(c, Connect(u), env);
            var name := match u
              case Voidns => "voidns"
              case Cloudflare => "Cloudflare"
              case Google => "Google"
              case Quad9 => "Quad9"
              case Custom(_, hostname, _, _) => hostname;
            var applied := Redirect.Applied(c.red, "127.0.0.1", env.apply);
            && a.ctl.status == a.reply
            && a.ctl.log == c.log + [Status(Connecting, Some(name), None, None), a.reply]
            && a.reply == (if env.start.Failed? then Status(ConnState.Error, None, None, Some(env.start.why))
                           else if applied.result.Failed? then
                             Status(ConnState.Error, None, None, Some(applied.result.why))
                           else
                             Status(Connected, Some(name), Some("127.0.0.1:" + Text.Decimal(c.port)), None))
            && a.ctl.red == if env.start.Failed? then c.red else applied.state
  {
    hide Redirect.Applied;
    hide CleanApply;
    hide Tidy;
    assert "127.0.0.1" + ":" == "127.0.0.1:";
    assert c.log + [ConnectingTo(u)] + [Serve(c, Connect(u), env).reply] ==
           c.log + [ConnectingTo(u), Serve(c, Connect(u), env).reply];
  }

  /** The reply to a disconnect and what it broadcasts and restores, whatever fails. */
  lemma DisconnectSays(c: Ctl, env: Env)
    ensures var a := Serve(c, Disconnect, env);
            && a.reply == a.ctl.status == Status(Disconnected, None, None, None)
            && a.ctl.log == c.log + [a.reply] && !a.ctl.held
            && a.ctl.red == Redirect.Restored(c.red, env.restore).state
  {
    hide Redirect.Restored;
    hide CleanRestore;
    hide Tidy;
  }

  /** The other commands answer the current status and change nothing; so does a connect while
      connected. */
  lemma OthersOnlyRead(c: Ctl, cmd: Command, env: Env)
    requires cmd.GetStatus? || cmd.Subscribe? || (cmd.Connect? && c.status.state.Connected?)
    ensures Serve(c, cmd, env) == Answer(c, c.status)
  {
  }

  /** Over all outcomes of a connect, successful or not, and a disconnect: the system ends with a dead
      redirect exactly if the proxy had started and `LeftPointing` holds. */
  lemma DeadRedirectExactly(c: Ctl, u: UpstreamSel, env: Env, env2: Env)
    requires Free(c) && !c.held && Tidy(c.red, PROXY)
    ensures var end := Serve(Serve(c, Connect(u), env).ctl, Disconnect, env2);
            && end.reply == DISCONNECTED && !end.ctl.up
            && (NoDeadRedirect(end.ctl) <==>
                  !(env.start.Done? && LeftPointing(c.red, PROXY, env.apply, env2.restore)))
  {
    hide Redirect.Applied;
    hide Redirect.Restored;
    hide CleanApply;
    hide CleanRestore;
    hide Tidy;
    hide Points;
    hide LeftPointing;
    ApplyContract(c.red, PROXY, env.apply);
    NothingToRestore(c.red, env2.restore);
    TidyWithoutRecord(c.red, PROXY);
    LeftPointingExactly(c.red, PROXY, env.apply, env2.restore);
  }

  /** The daemon restarted over whatever a crash at any point left: a connect whose file operations
      work, and a disconnect, bring back the user's `resolv.conf`; there is no dead redirect any more,
      and the controller is not dirty, exactly if the crash left no link on the proxy (and the user's
      own text is not that of a redirect). */
  lemma RestartRecovers(
      boot: LinuxSteps.Mach, log: seq<LinuxSteps.Label>, c: Ctl, u: UpstreamSel, env: Env, env2: Env)
    requires boot.pc.Rest? && boot.sys.disk.Original().Some?
    requires LinuxSteps.Allowed(boot, log) && LinuxSteps.PoliteEdits(boot, log)
    requires Fresh(c) && c.red == OnLinux(Linux.State(LinuxSteps.Idle, LinuxSteps.Run(boot, log).sys))
    requires env.start.Done? && Linux.SucceedsOnFile(env.apply.l)
    requires env2.restore.l.copyBack.Done? && env2.restore.l.remove.Done?
    ensures var on := Serve(c, Connect(u), env);
            var off := Serve(on.ctl, Disconnect, env2);
            && on.reply.state.Connected? && off.reply == DISCONNECTED
            && off.ctl.red.OnLinux?
            && off.ctl.red.l.sys.disk.backup.None?
            && off.ctl.red.l.sys.disk.conf.Contents() == LinuxSteps.UsersText(boot, log)
            && (NoDeadRedirect(off.ctl) <==>
                  && (forall i | i in c.red.l.sys.links :: c.red.l.sys.links[i].dns != Some(PROXY))
                  && LinuxSteps.UsersText(boot, log) != Some(LinuxSteps.Managed(PROXY)))
            && (off.ctl.dirty <==> !NoDeadRedirect(off.ctl))
  {
    hide CleanApply;
    hide CleanRestore;
    hide LinuxSteps.Managed;
    hide LinuxSteps.Run;
    hide LinuxSteps.UsersText;
    LinuxSteps.CrashConsistent(boot, log);
    Linux.FileRecovery(LinuxSteps.Run(boot, log).sys, PROXY, env.apply.l, env2.restore.l);
  }

  lemma NothingToRestore(r: Redirector, env: RestoreEnv)
    requires !Recorded(r)
    ensures Redirect.Restored(r, env) == Redirect.Reply(r, Done)
  {
  }

  /** Connecting while connected changes nothing and broadcasts nothing. */
  lemma ConnectIsIdempotent(c: Ctl, u: UpstreamSel, v: UpstreamSel, env: Env, env2: Env)
    requires Serve(c, Connect(u), env).reply.state.Connected?
    ensures Serve(Serve(c, Connect(u), env).ctl, Connect(v), env2) == Serve(c, Connect(u), env)
  {
  }

  // --- the class ---

  /** A started proxy; dropping or stopping it releases its sockets. */
  datatype DohProxy = DohProxy(listen: string)

  class Controller {
    var status: Status
    var proxy: Option<DohProxy>
    const redirector: SystemRedirector
    const port: nat
    var tx: seq<Status>

    // Whether a proxy listens, and whether DNS may be left on the proxy.
    ghost var up: bool
    ghost var dirty: bool

    ghost predicate Valid()
      reads this, redirector.Objects()
    {
      this !in redirector.Objects() && redirector.Valid()
    }

    ghost function View(): Ctl
      reads this, redirector.Objects()
    {
      Ctl(status, proxy.Some?, up, redirector.View(), port, tx, dirty)
    }

    constructor (port: nat, redirector: SystemRedirector)
      requires redirector.Valid()
      ensures this.redirector == redirector && this.port == port
      ensures Valid()
      ensures View() ==
              Ctl(DISCONNECTED, false, false, redirector.View(), port, [], !Tidy(redirector.View(), PROXY))
      ensures !Recorded(redirector.View()) ==> Fresh(View())
    {
      this.port, this.redirector := port, redirector;
      status, proxy, tx := DISCONNECTED, None, [];
      up, dirty := false, !Tidy(redirector.View(), PROXY);
    }

    /** `set`: the only way a status changes, and every change is broadcast. */
    method Publish(s: Status)
      requires Valid()
      modifies this`status, this`tx
      ensures Valid() && View() == Set(old(View()), s)
    {
      status := s;
      tx := tx + [s];
    }

    method GetStatus() returns (s: Status)
      ensures s == status
    {
      s := status;
    }

    /** `connect`; `trail` is the controller after each of its operations. */
    method Connect(u: UpstreamSel, env: Env) returns (r: Status, ghost trail: seq<Ctl>)
      requires Valid()
      modifies this, redirector.Objects()
      ensures Valid()
      ensures Answer(View(), r) == Serve(old(View()), Command.Connect(u), env)
      ensures trail == Trail(Point(old(View()), Checking(u)), env)
    {
      hide Trail;
      hide Finish;
      hide SystemRedirector.View;
      hide SystemRedirector.Valid;
      hide SystemRedirector.Objects;
      hide Redirect.Applied;
      hide Redirect.Restored;
      hide CleanApply;
      hide CleanRestore;
      hide Tidy;
      ghost var at := Point(View(), Checking(u));
      ghost var whole := Trail(at, env);
      trail := [];
      StepsServe(View(), Command.Connect(u), env);
      if status.state.Connected? || status.state.Connecting? {
        Ticked(at, env, trail);
        at, trail := Advance(at, env), trail + [View()];
        assert at.ctl == View();
        TrailDone(at, env, trail, whole);
        return status, trail;
      }
      Publish(ConnectingTo(u));
      Ticked(at, env, trail);
      at, trail := Advance(at, env), trail + [View()];
      assert at.ctl == View();
      // 1. Start the local proxy.
      if env.start.Failed? {
        Ticked(at, env, trail);
        at, trail := Advance(at, env), trail + [View()];
        assert at.ctl == View();
        Publish(ErrorStatus(env.start.why));
        Ticked(at, env, trail);
        at, trail := Advance(at, env), trail + [View()];
        assert at.ctl == View();
        TrailDone(at, env, trail, whole);
        return status, trail;
      }
      var started := DohProxy(Listen(port));
      up := true;
      Ticked(at, env, trail);
      at, trail := Advance(at, env), trail + [View()];
      assert at.ctl == View();
      // 2. Redirect system DNS to it.
      ghost var tail;
      r, tail := Redirected(started, u, env);
      trail := trail + tail;
    }

    /** The second half of `connect`, once the proxy listens. */
    method Redirected(started: DohProxy, u: UpstreamSel, env: Env) returns (r: Status, ghost trail: seq<Ctl>)
      requires Valid()
      modifies this, redirector.Objects()
      ensures Valid()
      ensures Finish(Point(old(View()), Redirecting(u)), env) == Point(View(), Return(r))
      ensures trail == Trail(Point(old(View()), Redirecting(u)), env)
    {
      hide Trail;
      hide Finish;
      hide SystemRedirector.View;
      hide SystemRedirector.Valid;
      hide SystemRedirector.Objects;
      hide Redirect.Applied;
      hide Redirect.Restored;
      hide CleanApply;
      hide CleanRestore;
      hide Tidy;
      ghost var at := Point(View(), Redirecting(u));
      trail := [];
      ghost var clean := CleanApply(redirector.View(), PROXY, env.apply);
      var result := redirector.Apply(PROXY, env.apply);
      dirty := (dirty || !clean) && !Tidy(redirector.View(), PROXY);
      Ticked(at, env, trail);
      at, trail := Advance(at, env), trail + [View()];
      assert at.ctl == View();
      ghost var tail;
      if result.Failed? {
        r, tail := Failed(result.why, env);
      } else {
        r, tail := Kept(started, u, env);
      }
      trail := trail + tail;
    }

    /** The end of `connect` when the redirect failed: the proxy is stopped. */
    method Failed(why: string, env: Env) returns (r: Status, ghost trail: seq<Ctl>)
      requires Valid()
      modifies this
      ensures Valid() && redirector.View() == old(redirector.View())
      ensures Finish(Point(old(View()), Stopping(why)), env) == Point(View(), Return(r))
      ensures trail == Trail(Point(old(View()), Stopping(why)), env)
    {
      hide Trail;
      hide Finish;
      hide SystemRedirector.View;
      hide SystemRedirector.Valid;
      hide SystemRedirector.Objects;
      ghost var at := Point(View(), Stopping(why));
      ghost var whole := Trail(at, env);
      trail := [];
      up := false;
      Ticked(at, env, trail);
      at, trail := Advance(at, env), trail + [View()];
      assert at.ctl == View();
      Publish(ErrorStatus(why));
      Ticked(at, env, trail);
      at, trail := Advance(at, env), trail + [View()];
      assert at.ctl == View();
      TrailDone(at, env, trail, whole);
      return status, trail;
    }

    /** The end of `connect` when the redirect is in place: the proxy is kept. */
    method Kept(started: DohProxy, u: UpstreamSel, env: Env) returns (r: Status, ghost trail: seq<Ctl>)
      requires Valid()
      modifies this
      ensures Valid() && redirector.View() == old(redirector.View())
      ensures Finish(Point(old(View()), Flushing(u)), env) == Point(View(), Return(r))
      ensures trail == Trail(Point(old(View()), Flushing(u)), env)
    {
      hide Trail;
      hide Finish;
      hide SystemRedirector.View;
      hide SystemRedirector.Valid;
      hide SystemRedirector.Objects;
      ghost var at := Point(View(), Flushing(u));
      ghost var whole := Trail(at, env);
      trail := [];
      Ticked(at, env, trail);
      at, trail := Advance(at, env), trail + [View()];
      assert at.ctl == View();
      proxy := Some(started);
      Ticked(at, env, trail);
      at, trail := Advance(at, env), trail + [View()];
      assert at.ctl == View();
      Publish(ConnectedTo(u, port));
      Ticked(at, env, trail);
      at, trail := Advance(at, env), trail + [View()];
      assert at.ctl == View();
      TrailDone(at, env, trail, whole);
      return status, trail;
    }

    /** `disconnect`: DNS is restored before the proxy is stopped. */
    method Disconnect(env: Env) returns (r: Status, ghost trail: seq<Ctl>)
      requires Valid()
      modifies this, redirector.Objects()
      ensures Valid()
      ensures Answer(View(), r) == Serve(old(View()), Command.Disconnect, env)
      ensures trail == Trail(Point(old(View()), Restoring), env)
    {
      hide Trail;
      hide Finish;
      hide SystemRedirector.View;
      hide SystemRedirector.Valid;
      hide SystemRedirector.Objects;
      hide Redirect.Applied;
      hide Redirect.Restored;
      hide CleanApply;
      hide CleanRestore;
      hide Tidy;
      ghost var at := Point(View(), Restoring);
      trail := [];
      StepsServe(View(), Command.Disconnect, env);
      ghost var clean := CleanRestore(redirector.View(), env.restore);
      var ignored := redirector.Restore(env.restore);
      dirty := (dirty || !clean) && !Tidy(redirector.View(), PROXY);
      Ticked(at, env, trail);
      at, trail := Advance(at, env), trail + [View()];
      assert at.ctl == View();
      ghost var tail;
      r, tail := Stopped(env);
      trail := trail + tail;
    }

    /** The end of `disconnect`, once DNS is restored. */
    method Stopped(env: Env) returns (r: Status, ghost trail: seq<Ctl>)
      requires Valid()
      modifies this
      ensures Valid() && redirector.View() == old(redirector.View())
      ensures Finish(Point(old(View()), StoppingHeld), env) == Point(View(), Return(r))
      ensures trail == Trail(Point(old(View()), StoppingHeld), env)
    {
      hide Trail;
      hide Finish;
      hide SystemRedirector.View;
      hide SystemRedirector.Valid;
      hide SystemRedirector.Objects;
      ghost var at := Point(View(), StoppingHeld);
      ghost var whole := Trail(at, env);
      trail := [];
      if proxy.Some? {
        proxy := None;
        up := false;
      }
      Ticked(at, env, trail);
      at, trail := Advance(at, env), trail + [View()];
      assert at.ctl == View();
      Ticked(at, env, trail);
      at, trail := Advance(at, env), trail + [View()];
      assert at.ctl == View();
      Publish(DISCONNECTED);
      Ticked(at, env, trail);
      at, trail := Advance(at, env), trail + [View()];
      assert at.ctl == View();
      TrailDone(at, env, trail, whole);
      return status, trail;
    }
  }
}
