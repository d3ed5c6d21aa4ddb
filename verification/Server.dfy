/** The IPC server: any number of connection tasks that share one controller behind a FIFO
    lock, each with an optional broadcast receiver. */
module Server {
  import opened Base
  import opened Proto
  import opened Broadcast
  import opened Controller

  /** What a connection task is doing: waiting for input (or an update), queued for the lock,
      holding it, or about to write a reply. `turn` is the reply's place in the lock order. */
  datatype Phase =
    | Listening
    | Waiting(cmd: Command, env: Env)
    | Working(cmd: Command, env: Env, pc: Pc)
    | Replying(cmd: Command, reply: Event, turn: nat)

  /** An event written to the peer: the reply to a command, or the forwarded broadcast entry. */
  datatype Wire = Reply(cmd: Command, reply: Event, turn: nat) | Update(entry: nat)

  datatype Subscription = Subscription(receiver: Receiver, snapshot: Status)

  datatype Conn = Conn(phase: Phase, sub: Option<Subscription>, wire: seq<Wire>)

  /** `history` lists the served commands in lock order, `clients` who sent each. */
  datatype State = State(
    ctl: Ctl, queue: seq<nat>, holder: Option<nat>, conns: map<nat, Conn>, history: seq<Turn>, clients: seq<nat>)

  datatype Step =
    | Accept(id: nat)
    | Receive(id: nat, cmd: Command, env: Env)
    | Grant
    | Work
    | Release
    | Write(id: nat)
    | Forward(id: nat)
    | Close(id: nat)
    | Shutdown(id: nat, env: Env)

  ghost predicate Enabled(s: State, l: Step) {
    match l
    case Accept(id) => id !in s.conns
    case Receive(id, _, _) => id in s.conns && s.conns[id].phase.Listening?
    case Grant => s.holder.None? && s.queue != [] && s.queue[0] in s.conns && s.conns[s.queue[0]].phase.Waiting?
    case Work => HolderWorks(s) && !HolderPhase(s).pc.Return?
    case Release => HolderWorks(s) && HolderPhase(s).pc.Return?
    case Write(id) => id in s.conns && s.conns[id].phase.Replying?
    case Forward(id) =>
      && id in s.conns && s.conns[id].phase.Listening? && s.conns[id].sub.Some?
      && s.conns[id].sub.value.receiver.cursor < |s.ctl.log|
    case Close(id) => id in s.conns && (s.conns[id].phase.Listening? || s.conns[id].phase.Replying?)
    case Shutdown(id, _) => id !in s.conns
  }

  predicate HolderWorks(s: State) {
    s.holder.Some? && s.holder.value in s.conns && s.conns[s.holder.value].phase.Working?
  }

  function HolderPhase(s: State): Phase
    requires HolderWorks(s)
  {
    s.conns[s.holder.value].phase
  }

  ghost function Next(s: State, l: Step): State
    requires Enabled(s, l)
  {
    match l
    case Accept(id) => s.(conns := s.conns[id := Conn(Listening, None, [])])
    case Receive(id, cmd, env) =>
      var c := s.conns[id];
      if cmd.Ping? then s.(conns := s.conns[id := c.(phase := Replying(cmd, Pong, 0))])
      else s.(conns := s.conns[id := c.(phase := Waiting(cmd, env))], queue := s.queue + [id])
    case Grant =>
      var id := s.queue[0];
      var c := s.conns[id];
      s.(conns := s.conns[id := c.(phase := Working(c.phase.cmd, c.phase.env, Entry(c.phase.cmd)))],
         queue := s.queue[1..], holder := Some(id))
    case Work =>
      var id, c := s.holder.value, s.conns[s.holder.value];
      var p := Advance(Point(s.ctl, c.phase.pc), c.phase.env);
      s.(ctl := p.ctl, conns := s.conns[id := c.(phase := c.phase.(pc := p.pc))])
    case Release =>
      var id, c := s.holder.value, s.conns[s.holder.value];
      var w := c.phase;
      s.(holder := None,
         conns := s.conns[id := c.(
           phase := Replying(w.cmd, StatusEvent(w.pc.reply), |s.history|),
           sub := if w.cmd.Subscribe? then Some(Subscription(Subscribed(|s.ctl.log|), w.pc.reply)) else c.sub)],
         history := s.history + [Turn(w.cmd, w.env)], clients := s.clients + [id])
    case Write(id) =>
      var c := s.conns[id];
      s.(conns := s.conns[id := c.(phase := Listening, wire := Pending(c))])
    case Forward(id) => s.(conns := s.conns[id := Forwarded(s.conns[id], |s.ctl.log|)])
    case Close(id) => s.(conns := s.conns - {id})
    case Shutdown(id, env) =>
      s.(conns := s.conns[id := Conn(Waiting(Disconnect, env), None, [])], queue := s.queue + [id])
  }

  /** After one receive: what it delivers is written. */
  function Forwarded(c: Conn, length: nat): Conn
    requires c.sub.Some?
  {
    var r, r' := c.sub.value.receiver, Received(c.sub.value.receiver, length);
    c.(sub := Some(c.sub.value.(receiver := r')),
       wire := if r'.seen == r.seen then c.wire else c.wire + [Update(r.cursor)])
  }

  /** What has been or is about to be written. */
  function Pending(c: Conn): seq<Wire> {
    if c.phase.Replying? then c.wire + [Reply(c.phase.cmd, c.phase.reply, c.phase.turn)] else c.wire
  }

  // --- runs ---

  ghost predicate Start(s: State) {
    Fresh(s.ctl) && s == State(s.ctl, [], None, map[], [], [])
  }

  ghost function Run(s: State, steps: seq<Step>): State {
    if steps == [] then s
    else
      var t := Run(s, steps[..|steps| - 1]);
      if Enabled(t, Last(steps)) then Next(t, Last(steps)) else t
  }

  ghost predicate Allowed(s: State, steps: seq<Step>) {
    steps != [] ==> Allowed(s, steps[..|steps| - 1]) && Enabled(Run(s, steps[..|steps| - 1]), Last(steps))
  }

  // --- the lock ---

  /** A task waits exactly when it is queued, and works exactly when it holds the lock. */
  ghost predicate TaskOk(queue: seq<nat>, holder: Option<nat>, id: nat, phase: Phase) {
    && (phase.Waiting? <==> id in queue)
    && (phase.Working? <==> holder == Some(id))
    && (phase.Waiting? || phase.Working? ==> !phase.cmd.Ping?)
  }

  /** No task is queued twice, and only open connections are queued or hold the lock. */
  ghost predicate LockInv(s: State) {
    && Distinct(s.queue)
    && (forall id | id in s.queue :: id in s.conns)
    && (s.holder.Some? ==> s.holder.value in s.conns)
    && (forall id | id in s.conns :: TaskOk(s.queue, s.holder, id, s.conns[id].phase))
  }

  lemma Pushed(queue: seq<nat>, id: nat)
    requires Distinct(queue) && id !in queue
    ensures Distinct(queue + [id]) && forall x :: x in queue + [id] <==> x in queue || x == id
  {
  }

  lemma Popped(queue: seq<nat>)
    requires Distinct(queue) && queue != []
    ensures Distinct(queue[1..]) && forall x :: x in queue[1..] <==> x in queue && x != queue[0]
  {
    assert queue == [queue[0]] + queue[1..];
  }

  lemma LockKept(s: State, l: Step)
    requires LockInv(s) && Enabled(s, l)
    ensures LockInv(Next(s, l))
  {
    hide Advance;
    hide Received;
    hide Pending;
    hide Distinct;
    match l
    case Receive(id, cmd, _) =>
      if !cmd.Ping? {
        Pushed(s.queue, id);
      }
    case Shutdown(id, _) => Pushed(s.queue, id);
    case Grant => Popped(s.queue);
    case _ =>
  }

  // --- the controller behind the lock is a sequential one ---

  /** With the lock free the controller is that of the commands served one at a time; while it is
      held, letting the holder finish gives what serving its command as a whole would. */
  ghost predicate WorkInv(boot: Ctl, s: State) {
    && |s.clients| == |s.history| && NoPing(s.history)
    && (s.holder.None? ==> s.ctl == After(boot, s.history))
    && (HolderWorks(s) ==>
          var w := HolderPhase(s);
          var a := Serve(After(boot, s.history), w.cmd, w.env);
          && !w.cmd.Ping? && Inv(Point(s.ctl, w.pc))
          && Finish(Point(s.ctl, w.pc), w.env) == Point(a.ctl, Return(a.reply)))
  }

  lemma AfterOneMore(boot: Ctl, history: seq<Turn>, t: Turn)
    ensures After(boot, history + [t]) == Serve(After(boot, history), t.cmd, t.env).ctl
  {
    assert (history + [t])[..|history|] == history;
  }

  lemma WorkKept(boot: Ctl, s: State, l: Step)
    requires Fresh(boot) && LockInv(s) && WorkInv(boot, s) && Enabled(s, l)
    ensures WorkInv(boot, Next(s, l))
  {
    hide Advance;
    hide Serve;
    hide Inv;
    match l
    case Grant =>
      var w := s.conns[s.queue[0]].phase;
      RunsKeepFree(boot, s.history);
      EntryInv(s.ctl, w.cmd);
      StepsServe(s.ctl, w.cmd, w.env);
    case Work =>
      var w := HolderPhase(s);
      AdvanceKeeps(Point(s.ctl, w.pc), w.env);
      FinishOnce(Point(s.ctl, w.pc), w.env);
    case Release =>
      var w := HolderPhase(s);
      AfterOneMore(boot, s.history, Turn(w.cmd, w.env));
    case _ =>
  }

  lemma EntryInv(c: Ctl, cmd: Command)
    requires Free(c) && !cmd.Ping?
    ensures Inv(Point(c, Entry(cmd)))
  {
  }

  // --- replies and subscriptions of one connection ---

  /** The status after the first `n` broadcasts. */
  function StatusAt(log: seq<Status>, n: nat): Status
    requires n <= |log|
  {
    if n == 0 then DISCONNECTED else log[n - 1]
  }

  ghost predicate ReplyOk(boot: Ctl, history: seq<Turn>, clients: seq<nat>, id: nat, w: Wire)
    requires w.Reply? && |clients| == |history|
  {
    if w.cmd.Ping? then w.reply == Pong
    else
      && w.turn < |history| && clients[w.turn] == id && history[w.turn].cmd == w.cmd
      && w.reply == StatusEvent(ReplyAt(boot, history, w.turn))
  }

  /** The entries forwarded since the last Subscribe reply. */
  function Stream(wire: seq<Wire>): seq<nat> {
    if wire == [] then []
    else
      var before := Stream(wire[..|wire| - 1]);
      match Last(wire)
      case Update(entry) => before + [entry]
      case Reply(cmd, _, _) => if cmd.Subscribe? then [] else before
  }

  /** The last Subscribe reply. */
  function Snapshot(wire: seq<Wire>): Option<Event> {
    if wire == [] then None
    else if Last(wire).Reply? && Last(wire).cmd.Subscribe? then Some(Last(wire).reply)
    else Snapshot(wire[..|wire| - 1])
  }

  ghost predicate WireOk(boot: Ctl, history: seq<Turn>, clients: seq<nat>, id: nat, wire: seq<Wire>)
    requires |clients| == |history|
  {
    && (forall k | 0 <= k < |wire| && wire[k].Reply? :: ReplyOk(boot, history, clients, id, wire[k]))
    && (forall j, k | 0 <= j < k < |wire| && InTurn(wire[j]) && InTurn(wire[k]) :: wire[j].turn < wire[k].turn)
  }

  predicate InTurn(w: Wire) {
    w.Reply? && !w.cmd.Ping?
  }

  ghost predicate SubOk(log: seq<Status>, c: Conn) {
    c.sub.Some? ==>
      var r := c.sub.value.receiver;
      && Faithful(r, |log|)
      && c.sub.value.snapshot == StatusAt(log, r.start)
      && Stream(Pending(c)) == r.seen
      && Snapshot(Pending(c)) == Some(StatusEvent(c.sub.value.snapshot))
  }

  ghost predicate ConnsOk(boot: Ctl, s: State)
    requires |s.clients| == |s.history|
  {
    forall id | id in s.conns ::
      WireOk(boot, s.history, s.clients, id, Pending(s.conns[id])) && SubOk(s.ctl.log, s.conns[id])
  }

  lemma WireOkGrows(boot: Ctl, history: seq<Turn>, clients: seq<nat>, id: nat, wire: seq<Wire>, t: Turn, client: nat)
    requires |clients| == |history| && WireOk(boot, history, clients, id, wire)
    ensures WireOk(boot, history + [t], clients + [client], id, wire)
  {
    hide Serve;
    hide After;
    forall k | 0 <= k < |wire| && InTurn(wire[k])
      ensures ReplyOk(boot, history + [t], clients + [client], id, wire[k])
    {
      assert (history + [t])[..wire[k].turn] == history[..wire[k].turn];
    }
  }

  lemma {:induction false} WireOkReply(
      boot: Ctl, history: seq<Turn>, clients: seq<nat>, id: nat, wire: seq<Wire>, t: Turn, r: Wire)
    requires |clients| == |history| && WireOk(boot, history, clients, id, wire)
    requires r.Reply? && r.cmd == t.cmd && !t.cmd.Ping? && r.turn == |history|
    requires r.reply == StatusEvent(Serve(After(boot, history), t.cmd, t.env).reply)
    ensures WireOk(boot, history + [t], clients + [id], id, wire + [r])
  {
    hide Serve;
    hide After;
    WireOkGrows(boot, history, clients, id, wire, t, id);
    assert (history + [t])[..|history|] == history;
  }

  lemma StreamOneMore(wire: seq<Wire>, w: Wire)
    ensures Stream(wire + [w]) ==
            if w.Update? then Stream(wire) + [w.entry] else if w.cmd.Subscribe? then [] else Stream(wire)
    ensures Snapshot(wire + [w]) == if w.Reply? && w.cmd.Subscribe? then Some(w.reply) else Snapshot(wire)
  {
    assert (wire + [w])[..|wire|] == wire;
  }

  lemma SubOkGrows(log: seq<Status>, longer: seq<Status>, c: Conn)
    requires SubOk(log, c) && log <= longer
    ensures SubOk(longer, c)
  {
    if c.sub.Some? {
      LongerFaithful(c.sub.value.receiver, |log|, |longer|);
    }
  }

  lemma {:induction false} ConnsKept(boot: Ctl, s: State, l: Step)
    requires LockInv(s) && WorkInv(boot, s) && ConnsOk(boot, s) && Enabled(s, l)
    ensures |Next(s, l).clients| == |Next(s, l).history| && ConnsOk(boot, Next(s, l))
  {
    hide Advance;
    hide Serve;
    hide After;
    hide ReplyOk;
    hide Faithful;
    hide Inv;
    hide LockInv;
    var t := Next(s, l);
    match l
    case Work =>
      AdvanceGrows(Point(s.ctl, HolderPhase(s).pc), HolderPhase(s).env);
      forall id | id in s.conns ensures SubOk(t.ctl.log, s.conns[id]) {
        SubOkGrows(s.ctl.log, t.ctl.log, s.conns[id]);
      }
    case Release => ReleaseKept(boot, s);
    case Receive(id, cmd, env) =>
      if cmd.Ping? {
        PingKept(boot, s, id, cmd, env);
      }
    case Forward(id) => ForwardKept(boot, s, id);
    case _ =>
  }

  lemma PingKept(boot: Ctl, s: State, id: nat, cmd: Command, env: Env)
    requires |s.clients| == |s.history| && ConnsOk(boot, s) && Enabled(s, Receive(id, cmd, env)) && cmd.Ping?
    ensures ConnsOk(boot, Next(s, Receive(id, cmd, env)))
  {
    hide Faithful;
    StreamOneMore(s.conns[id].wire, Reply(cmd, Pong, 0));
  }

  lemma ReplyIsCurrent(c: Ctl, reply: Status)
    requires Inv(Point(c, Return(reply)))
    ensures reply == StatusAt(c.log, |c.log|)
  {
  }

  lemma {:induction false} ReleaseKept(boot: Ctl, s: State)
    requires LockInv(s) && WorkInv(boot, s) && ConnsOk(boot, s) && Enabled(s, Release)
    ensures |Next(s, Release).clients| == |Next(s, Release).history| && ConnsOk(boot, Next(s, Release))
  {
    hide WireOk;
    hide Faithful;
    hide Inv;
    hide Advance;
    hide Serve;
    hide After;
    var t := Next(s, Release);
    var h, w := s.holder.value, HolderPhase(s);
    var turn := Turn(w.cmd, w.env);
    var r := Reply(w.cmd, StatusEvent(w.pc.reply), |s.history|);
    forall id | id in t.conns ensures WireOk(boot, t.history, t.clients, id, Pending(t.conns[id])) {
      if id == h {
        WireOkReply(boot, s.history, s.clients, id, s.conns[id].wire, turn, r);
      } else {
        WireOkGrows(boot, s.history, s.clients, id, Pending(s.conns[id]), turn, h);
      }
    }
    StreamOneMore(s.conns[h].wire, r);
    ReplyIsCurrent(s.ctl, w.pc.reply);
    SubscribedFaithful(|s.ctl.log|);
  }

  lemma WireOkUpdate(boot: Ctl, history: seq<Turn>, clients: seq<nat>, id: nat, wire: seq<Wire>, entry: nat)
    requires |clients| == |history| && WireOk(boot, history, clients, id, wire)
    ensures WireOk(boot, history, clients, id, wire + [Update(entry)])
  {
    hide ReplyOk;
    var more := wire + [Update(entry)];
    assert forall k | 0 <= k < |more| && more[k].Reply? :: k < |wire| && more[k] == wire[k];
  }

  lemma SubOkForward(log: seq<Status>, c: Conn)
    requires SubOk(log, c) && c.phase.Listening? && c.sub.Some? && c.sub.value.receiver.cursor < |log|
    ensures SubOk(log, Forwarded(c, |log|))
  {
    hide Faithful;
    hide Stream;
    hide Snapshot;
    var r := c.sub.value.receiver;
    ReceivedFaithful(r, |log|);
    StreamOneMore(c.wire, Update(r.cursor));
  }

  lemma ForwardKept(boot: Ctl, s: State, id: nat)
    requires |s.clients| == |s.history| && ConnsOk(boot, s) && Enabled(s, Forward(id))
    ensures ConnsOk(boot, Next(s, Forward(id)))
  {
    hide WireOk;
    hide SubOk;
    var c := s.conns[id];
    SubOkForward(s.ctl.log, c);
    WireOkUpdate(boot, s.history, s.clients, id, c.wire, c.sub.value.receiver.cursor);
  }

  // --- the whole invariant, over every run ---

  ghost predicate Good(boot: Ctl, s: State) {
    LockInv(s) && WorkInv(boot, s) && ConnsOk(boot, s)
  }

  lemma {:induction false} RunsAreGood(start: State, steps: seq<Step>)
    requires Start(start) && Allowed(start, steps)
    ensures Good(start.ctl, Run(start, steps))
  {
    hide Next;
    hide Enabled;
    hide LockInv;
    hide WorkInv;
    hide ConnsOk;
    if steps == [] {
      StartIsGood(start);
    } else {
      var s := Run(start, steps[..|steps| - 1]);
      RunsAreGood(start, steps[..|steps| - 1]);
      LockKept(s, Last(steps));
      WorkKept(start.ctl, s, Last(steps));
      ConnsKept(start.ctl, s, Last(steps));
      GoodFrom(start.ctl, Next(s, Last(steps)));
    }
  }

  lemma StartIsGood(start: State)
    requires Start(start)
    ensures Good(start.ctl, start)
  {
  }

  lemma GoodFrom(boot: Ctl, s: State)
    requires LockInv(s) && WorkInv(boot, s) && ConnsOk(boot, s)
    ensures Good(boot, s)
  {
  }

  // --- catching up ---

  function Forwards(id: nat, n: nat): (steps: seq<Step>)
    ensures |steps| == n
  {
    seq(n, _ => Forward(id))
  }

  /** The receives that deliver nothing but move a lagging receiver to the oldest entry held. */
  function Skips(r: Receiver, length: nat): nat {
    if r.cursor + CAPACITY < length then 1 else 0
  }

  /** `t` is `s` after forwarding the entries from the oldest one held up to `high`. */
  ghost predicate ForwardedTo(s: State, t: State, id: nat, high: nat)
    requires id in s.conns && s.conns[id].sub.Some?
  {
    var c := s.conns[id];
    var r := c.sub.value.receiver;
    var low := Oldest(r, |s.ctl.log|);
    && low <= high && t.ctl == s.ctl
    && id in t.conns && t.conns[id].phase == c.phase
    && t.conns[id].sub == Some(Subscription(Receiver(r.start, high, r.seen + Range(low, high)), c.sub.value.snapshot))
    && Stream(t.conns[id].wire) == Stream(c.wire) + Range(low, high)
  }

  lemma ForwardsOneMore(s: State, id: nat, n: nat)
    requires Allowed(s, Forwards(id, n)) && Enabled(Run(s, Forwards(id, n)), Forward(id))
    ensures Allowed(s, Forwards(id, n + 1))
    ensures Run(s, Forwards(id, n + 1)) == Next(Run(s, Forwards(id, n)), Forward(id))
  {
    hide Next;
    hide Enabled;
    assert Forwards(id, n + 1)[..n] == Forwards(id, n);
  }

  lemma NothingForwarded(s: State, id: nat)
    ensures Allowed(s, Forwards(id, 0)) && Run(s, Forwards(id, 0)) == s
  {
  }

  lemma ForwardSkips(s: State, id: nat)
    requires Enabled(s, Forward(id)) && Skips(s.conns[id].sub.value.receiver, |s.ctl.log|) == 1
    ensures ForwardedTo(s, Next(s, Forward(id)), id, Oldest(s.conns[id].sub.value.receiver, |s.ctl.log|))
  {
    var c := s.conns[id];
    var low := Oldest(c.sub.value.receiver, |s.ctl.log|);
    assert c.sub.value.receiver.seen + Range(low, low) == c.sub.value.receiver.seen;
    assert Stream(c.wire) + Range(low, low) == Stream(c.wire);
  }

  lemma ForwardsOne(c: Conn, length: nat)
    requires c.sub.Some?
    requires var r := c.sub.value.receiver; r.cursor < length <= r.cursor + CAPACITY
    ensures var r := c.sub.value.receiver;
            && Forwarded(c, length).phase == c.phase
            && Forwarded(c, length).wire == c.wire + [Update(r.cursor)]
            && Forwarded(c, length).sub ==
               Some(Subscription(Receiver(r.start, r.cursor + 1, r.seen + [r.cursor]), c.sub.value.snapshot))
  {
  }

  lemma ForwardDelivers(s: State, t: State, id: nat, high: nat)
    requires id in s.conns && s.conns[id].sub.Some? && s.conns[id].phase.Listening?
    requires ForwardedTo(s, t, id, high) && high < |s.ctl.log| && |s.ctl.log| <= high + CAPACITY
    ensures Enabled(t, Forward(id)) && ForwardedTo(s, Next(t, Forward(id)), id, high + 1)
  {
    hide Oldest;
    hide Range;
    hide Forwarded;
    hide Stream;
    var low := Oldest(s.conns[id].sub.value.receiver, |s.ctl.log|);
    var seen := s.conns[id].sub.value.receiver.seen;
    ForwardsOne(t.conns[id], |s.ctl.log|);
    RangeOneMore(low, high);
    StreamOneMore(t.conns[id].wire, Update(high));
    Regroup(seen, Range(low, high), [high]);
    Regroup(Stream(s.conns[id].wire), Range(low, high), [high]);
  }

  /** A listening subscriber's next forwards skip what the channel has dropped, then deliver one entry
      each. */
  lemma {:induction false} ForwardsDeliver(s: State, id: nat, n: nat)
    requires id in s.conns && s.conns[id].sub.Some? && s.conns[id].phase.Listening?
    requires var r := s.conns[id].sub.value.receiver;
             r.cursor <= |s.ctl.log| && Oldest(r, |s.ctl.log|) + n <= |s.ctl.log|
    ensures var r := s.conns[id].sub.value.receiver;
            var steps := Forwards(id, Skips(r, |s.ctl.log|) + n);
            Allowed(s, steps) && ForwardedTo(s, Run(s, steps), id, Oldest(r, |s.ctl.log|) + n)
    decreases n
  {
    hide Next;
    hide Run;
    hide Allowed;
    hide ForwardedTo;
    var r := s.conns[id].sub.value.receiver;
    var low, skips := Oldest(r, |s.ctl.log|), Skips(r, |s.ctl.log|);
    if n > 0 {
      ForwardsDeliver(s, id, n - 1);
      ForwardDelivers(s, Run(s, Forwards(id, skips + n - 1)), id, low + n - 1);
      ForwardsOneMore(s, id, skips + n - 1);
    } else {
      NothingForwarded(s, id);
      if skips == 1 {
        ForwardSkips(s, id);
        ForwardsOneMore(s, id, 0);
      } else {
        ForwardedNothing(s, id);
      }
    }
  }

  lemma ForwardedNothing(s: State, id: nat)
    requires id in s.conns && s.conns[id].sub.Some?
    requires Skips(s.conns[id].sub.value.receiver, |s.ctl.log|) == 0
    ensures ForwardedTo(s, s, id, Oldest(s.conns[id].sub.value.receiver, |s.ctl.log|))
  {
    var c := s.conns[id];
    var low := c.sub.value.receiver.cursor;
    assert c.sub.value.receiver.seen + Range(low, low) == c.sub.value.receiver.seen;
    assert Stream(c.wire) + Range(low, low) == Stream(c.wire);
  }

  /** At most 17 forwards in a row drain a listening subscriber, however far behind, and put exactly
      the waiting entries among the newest 16 on its wire, in order. */
  lemma ForwardsDrain(s: State, id: nat) returns (n: nat)
    requires id in s.conns && s.conns[id].sub.Some? && s.conns[id].phase.Listening?
    requires s.conns[id].sub.value.receiver.cursor <= |s.ctl.log|
    ensures n <= 17 && Allowed(s, Forwards(id, n))
    ensures var t := Run(s, Forwards(id, n));
            ForwardedTo(s, t, id, |s.ctl.log|) && Drained(t.conns[id].sub.value.receiver, |t.ctl.log|)
    ensures var length, cursor := |s.ctl.log|, s.conns[id].sub.value.receiver.cursor;
            var low := if length - cursor <= 16 then cursor else length - 16;
            Stream(Run(s, Forwards(id, n)).conns[id].wire) == Stream(s.conns[id].wire) + Range(low, length)
  {
    hide Run;
    hide Allowed;
    var r := s.conns[id].sub.value.receiver;
    var low := Oldest(r, |s.ctl.log|);
    ForwardsDeliver(s, id, |s.ctl.log| - low);
    n := Skips(r, |s.ctl.log|) + (|s.ctl.log| - low);
  }

  lemma RunOn(s: State, steps: seq<Step>, more: seq<Step>)
    requires Allowed(s, steps) && Allowed(Run(s, steps), more)
    ensures Allowed(s, steps + more) && Run(s, steps + more) == Run(Run(s, steps), more)
    decreases |more|
  {
    hide Next;
    hide Enabled;
    if more == [] {
      assert steps + more == steps;
    } else {
      var before := more[..|more| - 1];
      RunOn(s, steps, before);
      assert (steps + more)[..|steps + more| - 1] == steps + before;
      assert Last(steps + more) == Last(more);
    }
  }
}
