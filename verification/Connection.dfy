/** The server's connections at the byte level: what a connection of the interleaved server has written
    is what the connection loop sends for the same rounds, with the replies of the sequential
    controller. */
module Connection {
  import opened Base
  import opened Proto
  import opened Framing
  import opened Ipc
  import Broadcast
  import opened C = Controller
  import S = Server
  import Claims = ServerClaims

  // --- the rounds of a connection ---

  /** What a connection of a server run has done since it was opened: the rounds it completed, the
      commands it answered, and their places in the lock order. */
  datatype Trace = Trace(rounds: seq<Round>, commands: seq<Command>, turns: seq<nat>)

  /** One more step of the server, seen from connection `id`: answering is a round that read the
      command, forwarding one that an update won. */
  ghost function TraceOn(t: Trace, s: S.State, l: S.Step, id: nat): Trace
    requires S.Enabled(s, l)
  {
    match l
    case Accept(other) => if other == id then Trace([], [], []) else t
    case Close(other) => if other == id then Trace([], [], []) else t
    case Shutdown(other, _) => if other == id then Trace([], [], []) else t
    case Write(other) =>
      if other != id then t
      else
        var w := s.conns[id].phase;
        Trace(t.rounds + [Input(None)], t.commands + [w.cmd], t.turns + [w.turn])
    case Forward(other) =>
      if other != id then t
      else
        var r := s.conns[id].sub.value.receiver;
        var item := if S.Skips(r, |s.ctl.log|) == 1 then None else Some(s.ctl.log[r.cursor]);
        t.(rounds := t.rounds + [Round.Pushed(item, 0, None)])
    case _ => t
  }

  ghost function Traced(start: S.State, steps: seq<S.Step>, id: nat): Trace
    decreases |steps|
  {
    if steps == [] then Trace([], [], [])
    else
      var before := steps[..|steps| - 1];
      var s, t := S.Run(start, before), Traced(start, before, id);
      if S.Enabled(s, Last(steps)) then TraceOn(t, s, Last(steps), id) else t
  }

  /** The answer to a command at its place in the lock order, the commands being served one at a time. */
  ghost function AnswerTo(boot: Ctl, history: seq<Turn>, cmd: Command, turn: nat): Event
    requires cmd.Ping? || turn < |history|
  {
    if cmd.Ping? then Pong else StatusEvent(ReplyAt(boot, history, turn))
  }

  /** Every answered command has a place in the lock order, where it was this connection's. */
  ghost predicate Placed(s: S.State, t: Trace, id: nat) {
    && |t.turns| == |t.commands| == Inputs(t.rounds) && |s.clients| == |s.history|
    && forall n | 0 <= n < |t.commands| && !t.commands[n].Ping? ::
         && t.turns[n] < |s.history| && s.clients[t.turns[n]] == id
         && s.history[t.turns[n]].cmd == t.commands[n]
  }

  /** Every forwarded entry has been broadcast. */
  ghost predicate EntriesOk(log: seq<Status>, wire: seq<S.Wire>) {
    forall k | 0 <= k < |wire| && wire[k].Update? :: wire[k].entry < |log|
  }

  /** A subscription answers a Subscribe of this connection. */
  ghost predicate Asked(c: S.Conn, t: Trace) {
    c.sub.Some? ==> Subscribe in t.commands || (c.phase.Replying? && c.phase.cmd.Subscribe?)
  }

  // --- what a connection writes is what is due ---

  lemma WireOneMore(log: seq<Status>, wire: seq<S.Wire>, w: S.Wire)
    requires EntriesOk(log, wire) && (w.Update? ==> w.entry < |log|)
    ensures EntriesOk(log, wire + [w])
    ensures Claims.Events(log, wire + [w]) ==
            Claims.Events(log, wire) + [match w case Reply(_, reply, _) => reply case Update(e) => StatusEvent(log[e])]
  {
  }

  lemma LogGrows(log: seq<Status>, longer: seq<Status>, wire: seq<S.Wire>)
    requires EntriesOk(log, wire) && log <= longer
    ensures EntriesOk(longer, wire) && Claims.Events(longer, wire) == Claims.Events(log, wire)
  {
  }

  lemma RoundOneMore(codec: Codec, rounds: seq<Round>, r: Round, commands: seq<Command>)
    requires Inputs(rounds) + (if r.Input? then 1 else 0) <= |commands|
    ensures Inputs(rounds + [r]) == Inputs(rounds) + if r.Input? then 1 else 0
    ensures Due(codec, rounds + [r], commands) ==
            Due(codec, rounds, commands) + DueIn(codec, r, commands, Inputs(rounds))
  {
    assert (rounds + [r])[..|rounds|] == rounds;
  }

  ghost predicate Matches(codec: Codec, s: S.State, id: nat, t: Trace) {
    id in s.conns ==>
      var c := s.conns[id];
      && EntriesOk(s.ctl.log, c.wire) && Asked(c, t)
      && Inputs(t.rounds) == |t.commands|
      && Claims.Events(s.ctl.log, c.wire) == Due(codec, t.rounds, t.commands)
  }

  lemma WriteMatches(codec: Codec, s: S.State, id: nat, t: Trace)
    requires id in s.conns && Matches(codec, s, id, t) && S.Enabled(s, S.Write(id))
    requires var w := s.conns[id].phase; codec.dispatch(w.cmd, |t.commands|) == w.reply
    ensures Matches(codec, S.Next(s, S.Write(id)), id, TraceOn(t, s, S.Write(id), id))
  {
    hide Due;
    hide DueIn;
    hide Inputs;
    var c := s.conns[id];
    var w := c.phase;
    var commands := t.commands + [w.cmd];
    WireOneMore(s.ctl.log, c.wire, S.Reply(w.cmd, w.reply, w.turn));
    RoundOneMore(codec, t.rounds, Input(None), commands);
    DueSoFar(codec, t.rounds, t.commands, commands);
    ReplyDue(codec, commands, |t.commands|);
  }

  lemma ReplyDue(codec: Codec, commands: seq<Command>, n: nat)
    requires n < |commands|
    ensures DueIn(codec, Input(None), commands, n) == [codec.dispatch(commands[n], n)]
  {
  }

  lemma ForwardMatches(codec: Codec, s: S.State, id: nat, t: Trace)
    requires Matches(codec, s, id, t) && S.Enabled(s, S.Forward(id))
    ensures Matches(codec, S.Next(s, S.Forward(id)), id, TraceOn(t, s, S.Forward(id), id))
  {
    hide Due;
    hide Inputs;
    var c := s.conns[id];
    var r := c.sub.value.receiver;
    var t' := TraceOn(t, s, S.Forward(id), id);
    RoundOneMore(codec, t.rounds, Last(t'.rounds), t.commands);
    assert t.commands[..|t.commands|] == t.commands;
    if S.Skips(r, |s.ctl.log|) == 0 {
      WireOneMore(s.ctl.log, c.wire, S.Update(r.cursor));
    } else {
      assert Due(codec, t.rounds, t.commands) + [] == Due(codec, t.rounds, t.commands);
    }
  }

  lemma OtherMatches(codec: Codec, s: S.State, l: S.Step, id: nat, t: Trace)
    requires Matches(codec, s, id, t) && S.Enabled(s, l) && !(l == S.Write(id) || l == S.Forward(id))
    ensures Matches(codec, S.Next(s, l), id, TraceOn(t, s, l, id))
  {
    hide Advance;
    hide Due;
    if l.Work? {
      AdvanceGrows(Point(s.ctl, S.HolderPhase(s).pc), S.HolderPhase(s).env);
      if id in s.conns {
        LogGrows(s.ctl.log, S.Next(s, l).ctl.log, s.conns[id].wire);
      }
    }
    if l.Accept? || l.Shutdown? {
      NothingDue(codec);
    }
  }

  lemma NothingDue(codec: Codec)
    ensures Inputs([]) == 0 && Due(codec, [], []) == []
  {
  }

  // --- over every run ---

  lemma {:induction false} PlacedInRuns(start: S.State, steps: seq<S.Step>, id: nat)
    requires S.Start(start) && S.Allowed(start, steps)
    ensures Placed(S.Run(start, steps), Traced(start, steps, id), id)
    decreases |steps|
  {
    hide S.Next;
    hide S.Enabled;
    hide Placed;
    hide TraceOn;
    if steps == [] {
      NothingPlaced(start, id);
    } else {
      var before := steps[..|steps| - 1];
      PlacedInRuns(start, before, id);
      S.RunsAreGood(start, before);
      StepPlaced(start.ctl, S.Run(start, before), Last(steps), id, Traced(start, before, id));
    }
  }

  lemma NothingPlaced(start: S.State, id: nat)
    requires S.Start(start)
    ensures Placed(start, Trace([], [], []), id)
  {
  }

  lemma {:induction false} StepPlaced(boot: Ctl, s: S.State, l: S.Step, id: nat, t: Trace)
    requires S.Good(boot, s) && S.Enabled(s, l) && Placed(s, t, id)
    ensures Placed(S.Next(s, l), TraceOn(t, s, l, id), id)
  {
    hide Advance;
    hide Serve;
    hide C.After;
    hide Inv;
    hide Broadcast.Faithful;
    hide Inputs;
    NoInputs();
    match l
    case Write(other) =>
      if other == id {
        InputsOneMore(t.rounds, Input(None));
        var c := s.conns[id];
        assert S.Pending(c)[|c.wire|] == S.Reply(c.phase.cmd, c.phase.reply, c.phase.turn);
        assert S.ReplyOk(boot, s.history, s.clients, id, S.Pending(c)[|c.wire|]);
      }
    case Forward(other) =>
      if other == id {
        InputsOneMore(t.rounds, Last(TraceOn(t, s, l, id).rounds));
      }
    case _ =>
  }

  lemma InputsOneMore(rounds: seq<Round>, r: Round)
    ensures Inputs(rounds + [r]) == Inputs(rounds) + if r.Input? then 1 else 0
  {
    assert (rounds + [r])[..|rounds|] == rounds;
  }

  lemma NoInputs()
    ensures Inputs([]) == 0
  {
  }

  /** The loop's replies are those that the served commands get one at a time, in lock order. */
  ghost predicate Answers(codec: Codec, start: S.State, steps: seq<S.Step>, id: nat)
    requires S.Start(start) && S.Allowed(start, steps)
  {
    PlacedInRuns(start, steps, id);
    var t := Traced(start, steps, id);
    forall n | 0 <= n < |t.commands| ::
      codec.dispatch(t.commands[n], n) == AnswerTo(start.ctl, S.Run(start, steps).history, t.commands[n], t.turns[n])
  }

  lemma {:induction false} AnswersBefore(codec: Codec, start: S.State, steps: seq<S.Step>, id: nat)
    requires S.Start(start) && S.Allowed(start, steps) && steps != [] && Answers(codec, start, steps, id)
    requires Traced(start, steps[..|steps| - 1], id).commands <= Traced(start, steps, id).commands
    requires Traced(start, steps[..|steps| - 1], id).turns <= Traced(start, steps, id).turns
    ensures Answers(codec, start, steps[..|steps| - 1], id)
  {
    hide S.Next;
    hide S.Enabled;
    hide Traced;
    hide Serve;
    hide C.After;
    var before := steps[..|steps| - 1];
    PlacedInRuns(start, before, id);
    PlacedInRuns(start, steps, id);
    HistoryGrows(S.Run(start, before), Last(steps));
    var t, h, later := Traced(start, before, id), S.Run(start, before).history, S.Run(start, steps).history;
    forall n | 0 <= n < |t.commands| && !t.commands[n].Ping?
      ensures ReplyAt(start.ctl, h, t.turns[n]) == ReplyAt(start.ctl, later, t.turns[n])
    {
      assert h[..t.turns[n]] == later[..t.turns[n]];
    }
  }

  lemma HistoryGrows(s: S.State, l: S.Step)
    requires S.Enabled(s, l)
    ensures s.history <= S.Next(s, l).history
  {
    hide Advance;
  }

  /** The step opens or closes the connection. */
  predicate Resets(l: S.Step, id: nat) {
    l == S.Accept(id) || l == S.Close(id) || (l.Shutdown? && l.id == id)
  }

  lemma TraceGrows(t: Trace, s: S.State, l: S.Step, id: nat)
    requires S.Enabled(s, l) && !Resets(l, id)
    ensures t.commands <= TraceOn(t, s, l, id).commands && t.turns <= TraceOn(t, s, l, id).turns
  {
  }

  lemma {:induction false} WriteAnswers(codec: Codec, start: S.State, steps: seq<S.Step>, id: nat)
    requires S.Start(start) && S.Allowed(start, steps) && steps != [] && Last(steps) == S.Write(id)
    requires Answers(codec, start, steps, id)
    ensures var s := S.Run(start, steps[..|steps| - 1]);
            && id in s.conns && s.conns[id].phase.Replying?
            && codec.dispatch(s.conns[id].phase.cmd, |Traced(start, steps[..|steps| - 1], id).commands|) ==
               s.conns[id].phase.reply
  {
    hide Serve;
    hide C.After;
    hide Advance;
    hide Inv;
    hide Broadcast.Faithful;
    hide Inputs;
    var before := steps[..|steps| - 1];
    var s, t := S.Run(start, before), Traced(start, before, id);
    PlacedInRuns(start, before, id);
    PlacedInRuns(start, steps, id);
    S.RunsAreGood(start, before);
    var c := s.conns[id];
    assert S.Pending(c)[|c.wire|] == S.Reply(c.phase.cmd, c.phase.reply, c.phase.turn);
    assert S.ReplyOk(start.ctl, s.history, s.clients, id, S.Pending(c)[|c.wire|]);
    assert Traced(start, steps, id).commands[|t.commands|] == c.phase.cmd;
  }

  /** In every run and for every connection, the events written are exactly those due in the
      connection's rounds: the sequential controller's replies to its commands, interleaved with the
      updates that came between them. */
  lemma {:induction false} WrittenIsDue(codec: Codec, start: S.State, steps: seq<S.Step>, id: nat)
    requires S.Start(start) && S.Allowed(start, steps) && Answers(codec, start, steps, id)
    ensures Matches(codec, S.Run(start, steps), id, Traced(start, steps, id))
    decreases |steps|
  {
    hide S.Next;
    hide S.Enabled;
    hide Answers;
    hide Matches;
    hide TraceOn;
    if steps == [] {
      NothingMatches(codec, start, id);
    } else {
      var before, l := steps[..|steps| - 1], Last(steps);
      var s, t := S.Run(start, before), Traced(start, before, id);
      S.RunsAreGood(start, before);
      if Resets(l, id) {
        ResetMatches(codec, s, l, id, t);
      } else {
        TraceGrows(t, s, l, id);
        AnswersBefore(codec, start, steps, id);
        WrittenIsDue(codec, start, before, id);
        if l == S.Write(id) {
          WriteAnswers(codec, start, steps, id);
          WriteMatches(codec, s, id, t);
        } else if l == S.Forward(id) {
          ForwardMatches(codec, s, id, t);
        } else {
          OtherMatches(codec, s, l, id, t);
        }
      }
    }
  }

  lemma NothingMatches(codec: Codec, start: S.State, id: nat)
    requires S.Start(start)
    ensures Matches(codec, start, id, Trace([], [], []))
  {
  }

  lemma ResetMatches(codec: Codec, s: S.State, l: S.Step, id: nat, t: Trace)
    requires S.Enabled(s, l) && Resets(l, id)
    ensures Matches(codec, S.Next(s, l), id, TraceOn(t, s, l, id))
  {
    NothingDue(codec);
  }

  // --- down to bytes ---

  /** Nothing fails or is lost in these rounds. */
  ghost predicate Smooth(rounds: seq<Round>) {
    forall r | r in rounds :: r.cut.None? && (r.Pushed? ==> r.lost == 0)
  }

  /** The connection loop, fed the frames of some commands, answers as many of them as its rounds read
      and sends exactly what is due. */
  lemma {:induction false} LoopSendsDue(
      codec: Codec, payloads: seq<Bytes>, rest: Bytes, rounds: seq<Round>, commands: seq<Command>)
    requires |payloads| == |commands| && Sendable(payloads) && Smooth(rounds) && Inputs(rounds) <= |commands|
    requires forall i | 0 <= i < |commands| :: codec.command(payloads[i]) == Some(commands[i])
    ensures var n := Inputs(rounds);
            Talked(codec, Frames(payloads) + rest, rounds) ==
            Talk(Open, Frames(payloads[n..]) + rest, commands[..n], Due(codec, rounds, commands), [])
    decreases |rounds|
  {
    hide OneRound;
    hide DueIn;
    if rounds == [] {
      assert payloads[0..] == payloads;
    } else {
      var before := rounds[..|rounds| - 1];
      assert forall r | r in before :: r in rounds;
      LoopSendsDue(codec, payloads, rest, before, commands);
      LoopRound(codec, payloads, rest, Last(rounds), commands, Inputs(before), Due(codec, before, commands));
    }
  }

  lemma LoopRound(codec: Codec, payloads: seq<Bytes>, rest: Bytes, r: Round, commands: seq<Command>, n: nat,
                  sent: seq<Event>)
    requires |payloads| == |commands| && Sendable(payloads) && Smooth([r])
    requires n + (if r.Input? then 1 else 0) <= |commands|
    requires forall i | 0 <= i < |commands| :: codec.command(payloads[i]) == Some(commands[i])
    ensures var n' := n + if r.Input? then 1 else 0;
            OneRound(codec, Talk(Open, Frames(payloads[n..]) + rest, commands[..n], sent, []), r) ==
            Talk(Open, Frames(payloads[n'..]) + rest, commands[..n'], sent + DueIn(codec, r, commands, n), [])
  {
    assert r in [r];
    if r.Input? {
      FrameReadsExactly(payloads[n], Frames(payloads[n + 1..]) + rest);
      assert payloads[n..][1..] == payloads[n + 1..];
      assert Frames(payloads[n..]) + rest == Frame(payloads[n]) + (Frames(payloads[n + 1..]) + rest);
      assert commands[..n + 1] == commands[..n] + [commands[n]];
    } else {
      var coming := Frames(payloads[n..]) + rest;
      assert coming[0..] == coming;
      assert sent + [] == sent;
    }
  }

  lemma {:induction false} TraceSmooth(start: S.State, steps: seq<S.Step>, id: nat)
    ensures Smooth(Traced(start, steps, id).rounds)
    decreases |steps|
  {
    if steps != [] {
      TraceSmooth(start, steps[..|steps| - 1], id);
    }
  }

  /** From bytes to bytes: for every connection of every run of the server, the connection loop that is
      fed the frames of its commands, and gets the sequential controller's replies, sends exactly the
      events that the server has written on it. */
  lemma {:induction false} LoopSendsWritten(
      codec: Codec, start: S.State, steps: seq<S.Step>, id: nat, payloads: seq<Bytes>, rest: Bytes)
    requires S.Start(start) && S.Allowed(start, steps) && id in S.Run(start, steps).conns
    requires Answers(codec, start, steps, id) && Sendable(payloads)
    requires var commands := Traced(start, steps, id).commands;
             && |payloads| == |commands|
             && forall i | 0 <= i < |commands| :: codec.command(payloads[i]) == Some(commands[i])
    ensures var s, t := S.Run(start, steps), Traced(start, steps, id);
            && EntriesOk(s.ctl.log, s.conns[id].wire)
            && Talked(codec, Frames(payloads) + rest, t.rounds) ==
               Talk(Open, rest, t.commands, Claims.Events(s.ctl.log, s.conns[id].wire), [])
  {
    hide S.Run;
    hide S.Allowed;
    hide Traced;
    hide Talked;
    hide Answers;
    hide Due;
    var t := Traced(start, steps, id);
    WrittenIsDue(codec, start, steps, id);
    TraceSmooth(start, steps, id);
    LoopSendsDue(codec, payloads, rest, t.rounds, t.commands);
    assert payloads[|payloads|..] == [] && Frames([]) + rest == rest;
    assert t.commands[..|t.commands|] == t.commands;
  }
}
