/** The message types of the local protocol and their JSON form, at the level of JSON values
    (RFC 8259, section 4 for objects). */
module Proto {
  import opened Base

  const DEFAULT_DOH_PORT: u16 := 443

  type u16 = n: int | 0 <= n < 0x1_0000

  datatype UpstreamSel =
    | Voidns
    | Cloudflare
    | Google
    | Quad9
    | Custom(ip: string, hostname: string, path: string, port: u16)

  function Label(u: UpstreamSel): string {
    match u
    case Voidns => "voidns"
    case Cloudflare => "Cloudflare"
    case Google => "Google"
    case Quad9 => "Quad9"
    case Custom(_, hostname, _, _) => hostname
  }

  datatype Command = Connect(upstream: UpstreamSel) | Disconnect | GetStatus | Subscribe | Ping

  datatype ConnState = Disconnected | Connecting | Connected | Error

  datatype Status = Status(state: ConnState, upstream: Option<string>, listen: Option<string>, error: Option<string>)

  const DISCONNECTED := Status(Disconnected, None, None, None)

  datatype Event = StatusEvent(status: Status) | Pong | ErrorEvent(message: string)

  // --- JSON values ---

  datatype Json = Null | Str(s: string) | Num(n: int) | Obj(members: seq<Member>)

  datatype Member = Member(key: string, value: Json)

  /** The values of all members with a key, in order. */
  function Values(members: seq<Member>, key: string): seq<Json> {
    if members == [] then []
    else (if members[0].key == key then [members[0].value] else []) + Values(members[1..], key)
  }

  // --- encoding ---

  function OptionJson(o: Option<string>): Json {
    match o case None => Null case Some(s) => Str(s)
  }

  function StateName(s: ConnState): string {
    match s
    case Disconnected => "disconnected"
    case Connecting => "connecting"
    case Connected => "connected"
    case Error => "error"
  }

  function UpstreamMembers(u: UpstreamSel): seq<Member> {
    match u
    case Voidns => [Member("kind", Str("voidns"))]
    case Cloudflare => [Member("kind", Str("cloudflare"))]
    case Google => [Member("kind", Str("google"))]
    case Quad9 => [Member("kind", Str("quad9"))]
    case Custom(ip, hostname, path, port) =>
      [Member("kind", Str("custom")), Member("ip", Str(ip)), Member("hostname", Str(hostname)),
       Member("path", Str(path)), Member("port", Num(port))]
  }

  function StatusMembers(s: Status): seq<Member> {
    [Member("state", Str(StateName(s.state))), Member("upstream", OptionJson(s.upstream)),
     Member("listen", OptionJson(s.listen)), Member("error", OptionJson(s.error))]
  }

  function EncodeCommand(c: Command): (j: Json)
    ensures j.Obj?
  {
    match c
    case Connect(upstream) =>
      Obj([Member("type", Str("connect")), Member("upstream", Obj(UpstreamMembers(upstream)))])
    case Disconnect => Obj([Member("type", Str("disconnect"))])
    case GetStatus => Obj([Member("type", Str("get_status"))])
    case Subscribe => Obj([Member("type", Str("subscribe"))])
    case Ping => Obj([Member("type", Str("ping"))])
  }

  function EncodeEvent(e: Event): (j: Json)
    ensures j.Obj?
  {
    match e
    case StatusEvent(s) => Obj([Member("type", Str("status"))] + StatusMembers(s))
    case Pong => Obj([Member("type", Str("pong"))])
    case ErrorEvent(message) => Obj([Member("type", Str("error")), Member("message", Str(message))])
  }

  // --- decoding: unknown members are skipped, a repeated known member is an error ---

  function TextField(members: seq<Member>, key: string): Option<string> {
    var vs := Values(members, key);
    if |vs| == 1 && vs[0].Str? then Some(vs[0].s) else None
  }

  /** An optional text: missing and null both mean none. */
  function OptionField(members: seq<Member>, key: string): Option<Option<string>> {
    var vs := Values(members, key);
    if vs == [] || vs == [Null] then Some(None)
    else if |vs| == 1 && vs[0].Str? then Some(Some(vs[0].s))
    else None
  }

  /** A port: missing means the default DoH port. */
  function PortField(members: seq<Member>, key: string): Option<u16> {
    var vs := Values(members, key);
    if vs == [] then Some(DEFAULT_DOH_PORT)
    else if |vs| == 1 && vs[0].Num? && 0 <= vs[0].n < 0x1_0000 then Some(vs[0].n)
    else None
  }

  function DecodeUpstream(j: Json): Option<UpstreamSel> {
    if !j.Obj? then None
    else
      match TextField(j.members, "kind")
      case None => None
      case Some(kind) =>
        if kind == "voidns" then Some(Voidns)
        else if kind == "cloudflare" then Some(Cloudflare)
        else if kind == "google" then Some(Google)
        else if kind == "quad9" then Some(Quad9)
        else if kind != "custom" then None
        else
          var ip, hostname := TextField(j.members, "ip"), TextField(j.members, "hostname");
          var path, port := TextField(j.members, "path"), PortField(j.members, "port");
          if ip.None? || hostname.None? || path.None? || port.None? then None
          else Some(Custom(ip.value, hostname.value, path.value, port.value))
  }

  function DecodeState(name: string): Option<ConnState> {
    if name == "disconnected" then Some(Disconnected)
    else if name == "connecting" then Some(Connecting)
    else if name == "connected" then Some(Connected)
    else if name == "error" then Some(Error)
    else None
  }

  function DecodeStatus(members: seq<Member>): Option<Status> {
    var name := TextField(members, "state");
    var state := if name.Some? then DecodeState(name.value) else None;
    var upstream, listen := OptionField(members, "upstream"), OptionField(members, "listen");
    var error := OptionField(members, "error");
    if state.None? || upstream.None? || listen.None? || error.None? then None
    else Some(Status(state.value, upstream.value, listen.value, error.value))
  }

  function DecodeCommand(j: Json): Option<Command> {
    if !j.Obj? then None
    else
      match TextField(j.members, "type")
      case None => None
      case Some(t) =>
        if t == "connect" then
          var vs := Values(j.members, "upstream");
          if |vs| != 1 then None
          else
            var u := DecodeUpstream(vs[0]);
            if u.None? then None else Some(Connect(u.value))
        else if t == "disconnect" then Some(Disconnect)
        else if t == "get_status" then Some(GetStatus)
        else if t == "subscribe" then Some(Subscribe)
        else if t == "ping" then Some(Ping)
        else None
  }

  function DecodeEvent(j: Json): Option<Event> {
    if !j.Obj? then None
    else
      match TextField(j.members, "type")
      case None => None
      case Some(t) =>
        if t == "status" then
          var s := DecodeStatus(j.members);
          if s.None? then None else Some(StatusEvent(s.value))
        else if t == "pong" then Some(Pong)
        else if t == "error" then
          var m := TextField(j.members, "message");
          if m.None? then None else Some(ErrorEvent(m.value))
        else None
  }

  // --- what is decoded ---

  /** Exactly one member has the key, and it is that text. */
  predicate HasText(members: seq<Member>, key: string, text: string) {
    Values(members, key) == [Str(text)]
  }

  /** An optional text as it may be written: absent, null, or the text. */
  predicate HasOption(members: seq<Member>, key: string, o: Option<string>) {
    match o
    case None => Values(members, key) == [] || Values(members, key) == [Null]
    case Some(text) => HasText(members, key, text)
  }

  /** An upstream is decoded exactly from an object with its kind and, for a custom one, its four fields,
      where a missing port is 443. */
  lemma UpstreamDecodesExactly(j: Json, u: UpstreamSel)
    ensures DecodeUpstream(j) == Some(u) <==>
            j.Obj? &&
            match u
            case Voidns => HasText(j.members, "kind", "voidns")
            case Cloudflare => HasText(j.members, "kind", "cloudflare")
            case Google => HasText(j.members, "kind", "google")
            case Quad9 => HasText(j.members, "kind", "quad9")
            case Custom(ip, hostname, path, port) =>
              && HasText(j.members, "kind", "custom") && HasText(j.members, "ip", ip)
              && HasText(j.members, "hostname", hostname) && HasText(j.members, "path", path)
              && (Values(j.members, "port") == [Num(port)] || (Values(j.members, "port") == [] && port == 443))
  {
    hide Values;
  }

  /** A status is decoded exactly from its state and its optional fields. */
  lemma StatusDecodesExactly(members: seq<Member>, s: Status)
    ensures DecodeStatus(members) == Some(s) <==>
            && HasText(members, "state",
                       match s.state
                       case Disconnected => "disconnected"
                       case Connecting => "connecting"
                       case Connected => "connected"
                       case Error => "error")
            && HasOption(members, "upstream", s.upstream) && HasOption(members, "listen", s.listen)
            && HasOption(members, "error", s.error)
  {
    hide Values;
  }

  /** A command is decoded exactly from an object with its type and, for a connect, one upstream. */
  lemma CommandDecodesExactly(j: Json, c: Command)
    ensures DecodeCommand(j) == Some(c) <==>
            j.Obj? &&
            match c
            case Connect(u) =>
              && HasText(j.members, "type", "connect")
              && |Values(j.members, "upstream")| == 1 && DecodeUpstream(Values(j.members, "upstream")[0]) == Some(u)
            case Disconnect => HasText(j.members, "type", "disconnect")
            case GetStatus => HasText(j.members, "type", "get_status")
            case Subscribe => HasText(j.members, "type", "subscribe")
            case Ping => HasText(j.members, "type", "ping")
  {
    hide Values;
    hide DecodeUpstream;
  }

  /** An event is decoded exactly from an object with its type and, beside it, the members of its status
      or its message. */
  lemma EventDecodesExactly(j: Json, e: Event)
    ensures DecodeEvent(j) == Some(e) <==>
            j.Obj? &&
            match e
            case StatusEvent(s) => HasText(j.members, "type", "status") && DecodeStatus(j.members) == Some(s)
            case Pong => HasText(j.members, "type", "pong")
            case ErrorEvent(message) => HasText(j.members, "type", "error") && HasText(j.members, "message", message)
  {
    hide Values;
    hide DecodeStatus;
  }

  function Keys(members: seq<Member>): seq<string> {
    seq(|members|, i requires 0 <= i < |members| => members[i].key)
  }

  /** What is encoded has these members and no others. */
  lemma CommandHasKeys(c: Command)
    ensures Keys(EncodeCommand(c).members) == if c.Connect? then ["type", "upstream"] else ["type"]
    ensures c.Connect? ==>
              EncodeCommand(c).members[1].value.Obj?
              && Keys(EncodeCommand(c).members[1].value.members) ==
                 if c.upstream.Custom? then ["kind", "ip", "hostname", "path", "port"] else ["kind"]
  {
  }

  lemma EventHasKeys(e: Event)
    ensures Keys(EncodeEvent(e).members) ==
            match e
            case StatusEvent(_) => ["type", "state", "upstream", "listen", "error"]
            case Pong => ["type"]
            case ErrorEvent(_) => ["type", "message"]
  {
  }

  // --- any member order ---

  /** `j` is `e` with the members of each object in any order and possibly others added: every
      member of `e` occurs exactly once in `j`, with a value that again reorders the original. */
  ghost predicate Reorders(j: Json, e: Json)
    decreases e, 0
  {
    if !e.Obj? then j == e
    else
      && j.Obj?
      && forall i | 0 <= i < |e.members| :: Carries(j.members, e.members[i].key, e.members[i].value)
  }

  ghost predicate Carries(members: seq<Member>, key: string, value: Json)
    decreases value, 1
  {
    var vs := Values(members, key);
    |vs| == 1 && Reorders(vs[0], value)
  }

  lemma CarriesAt(j: Json, e: Json, i: nat)
    requires Reorders(j, e) && e.Obj? && i < |e.members|
    ensures j.Obj? && Carries(j.members, e.members[i].key, e.members[i].value)
  {
  }

  lemma UpstreamRoundTrip(u: UpstreamSel, j: Json)
    requires Reorders(j, Obj(UpstreamMembers(u)))
    ensures DecodeUpstream(j) == Some(u)
  {
    CarriesAt(j, Obj(UpstreamMembers(u)), 0);
    if u.Custom? {
      CarriesAt(j, Obj(UpstreamMembers(u)), 1);
      CarriesAt(j, Obj(UpstreamMembers(u)), 2);
      CarriesAt(j, Obj(UpstreamMembers(u)), 3);
      CarriesAt(j, Obj(UpstreamMembers(u)), 4);
    }
  }

  /** A custom upstream written without a port means port 443, in any member order. */
  lemma CustomWithoutPort(ip: string, hostname: string, path: string, j: Json)
    requires Reorders(j, Obj(UpstreamMembers(Custom(ip, hostname, path, 443))[..4]))
    requires Values(j.members, "port") == []
    ensures DecodeUpstream(j) == Some(Custom(ip, hostname, path, 443))
  {
    var e := Obj(UpstreamMembers(Custom(ip, hostname, path, 443))[..4]);
    CarriesAt(j, e, 0);
    CarriesAt(j, e, 1);
    CarriesAt(j, e, 2);
    CarriesAt(j, e, 3);
  }

  lemma StatusRoundTrip(s: Status, members: seq<Member>)
    requires Carries(members, "state", Str(StateName(s.state)))
    requires Carries(members, "upstream", OptionJson(s.upstream))
    requires Carries(members, "listen", OptionJson(s.listen))
    requires Carries(members, "error", OptionJson(s.error))
    ensures DecodeStatus(members) == Some(s)
  {
  }

  /** Decoding undoes encoding for every command, whatever the member order. */
  lemma CommandRoundTrip(c: Command, j: Json)
    requires Reorders(j, EncodeCommand(c))
    ensures DecodeCommand(j) == Some(c)
  {
    CarriesAt(j, EncodeCommand(c), 0);
    if c.Connect? {
      CarriesAt(j, EncodeCommand(c), 1);
      UpstreamRoundTrip(c.upstream, Values(j.members, "upstream")[0]);
    }
  }

  /** Decoding undoes encoding for every event, whatever the member order. */
  lemma EventRoundTrip(e: Event, j: Json)
    requires Reorders(j, EncodeEvent(e))
    ensures DecodeEvent(j) == Some(e)
  {
    CarriesAt(j, EncodeEvent(e), 0);
    if e.StatusEvent? {
      CarriesAt(j, EncodeEvent(e), 1);
      CarriesAt(j, EncodeEvent(e), 2);
      CarriesAt(j, EncodeEvent(e), 3);
      CarriesAt(j, EncodeEvent(e), 4);
      StatusRoundTrip(e.status, j.members);
    } else if e.ErrorEvent? {
      CarriesAt(j, EncodeEvent(e), 1);
    }
  }

  // --- every permutation of an object's members is such an order ---

  ghost predicate DistinctKeys(members: seq<Member>) {
    forall i, j :: 0 <= i < j < |members| ==> members[i].key != members[j].key
  }

  lemma {:induction false} ValuesCount(members: seq<Member>, key: string, value: Json)
    ensures multiset(Values(members, key))[value] == multiset(members)[Member(key, value)]
  {
    if members != [] {
      assert members == [members[0]] + members[1..];
      ValuesCount(members[1..], key, value);
    }
  }

  lemma {:induction false} ValuesOfDistinct(members: seq<Member>, i: nat)
    requires DistinctKeys(members) && i < |members|
    ensures Values(members, members[i].key) == [members[i].value]
  {
    if i == 0 {
      NoValues(members[1..], members[0].key);
    } else {
      ValuesOfDistinct(members[1..], i - 1);
    }
  }

  lemma {:induction false} NoValues(members: seq<Member>, key: string)
    requires forall m | m in members :: m.key != key
    ensures Values(members, key) == []
  {
    if members != [] {
      NoValues(members[1..], key);
    }
  }

  /** Permuting the members of an object whose keys are distinct, and reordering below, is a
      reordering: so the round trips above cover every member order. */
  lemma PermutationReorders(shuffled: seq<Member>, members: seq<Member>)
    requires multiset(shuffled) == multiset(members) && DistinctKeys(members)
    requires forall m | m in members :: Reorders(m.value, m.value)
    ensures Reorders(Obj(shuffled), Obj(members))
  {
    forall i | 0 <= i < |members| ensures Carries(shuffled, members[i].key, members[i].value) {
      var key, value := members[i].key, members[i].value;
      var vs := Values(shuffled, key);
      ValuesOfDistinct(members, i);
      forall v ensures multiset(vs)[v] == multiset([value])[v] {
        ValuesCount(shuffled, key, v);
        ValuesCount(members, key, v);
      }
      assert multiset(vs) == multiset([value]);
      assert |vs| == |multiset(vs)| == 1;
      assert vs[0] in multiset(vs);
      assert members[i] in members;
    }
  }

  /** An object of plain values under distinct keys: nothing to reorder below it. */
  ghost predicate Flat(members: seq<Member>) {
    DistinctKeys(members) && forall m | m in members :: !m.value.Obj?
  }

  lemma UpstreamIsFlat(u: UpstreamSel)
    ensures Flat(UpstreamMembers(u))
  {
    if u.Custom? {
      var ms := UpstreamMembers(u);
      assert ms[0].key[0] == 'k' && ms[1].key[0] == 'i' && ms[2].key[0] == 'h';
      assert ms[3].key[1] == 'a' && ms[4].key[1] == 'o' && ms[3].key[0] == ms[4].key[0] == 'p';
    }
  }

  lemma EventIsFlat(e: Event)
    ensures Flat(EncodeEvent(e).members)
  {
    var ms := EncodeEvent(e).members;
    if e.StatusEvent? {
      assert ms[0].key[0] == 't' && ms[1].key[0] == 's' && ms[2].key[0] == 'u';
      assert ms[3].key[0] == 'l' && ms[4].key[0] == 'e';
    } else if e.ErrorEvent? {
      assert ms[0].key[0] == 't' && ms[1].key[0] == 'm';
    }
  }

  lemma CommandKeysDistinct(c: Command)
    ensures DistinctKeys(EncodeCommand(c).members)
    ensures forall m | m in EncodeCommand(c).members :: Reorders(m.value, m.value)
  {
    var ms := EncodeCommand(c).members;
    if c.Connect? {
      assert ms[0].key[0] == 't' && ms[1].key[0] == 'u';
      UpstreamIsFlat(c.upstream);
      PermutationReorders(UpstreamMembers(c.upstream), UpstreamMembers(c.upstream));
    }
  }

  /** Shuffling the members of an encoded command does not change what it decodes to. */
  lemma ShuffledCommandDecodes(c: Command, shuffled: seq<Member>)
    requires multiset(shuffled) == multiset(EncodeCommand(c).members)
    ensures DecodeCommand(Obj(shuffled)) == Some(c)
  {
    hide EncodeCommand;
    hide DecodeCommand;
    CommandKeysDistinct(c);
    PermutationReorders(shuffled, EncodeCommand(c).members);
    CommandRoundTrip(c, Obj(shuffled));
  }

  /** The same for events. */
  lemma ShuffledEventDecodes(e: Event, shuffled: seq<Member>)
    requires multiset(shuffled) == multiset(EncodeEvent(e).members)
    ensures DecodeEvent(Obj(shuffled)) == Some(e)
  {
    hide EncodeEvent;
    hide DecodeEvent;
    EventIsFlat(e);
    PermutationReorders(shuffled, EncodeEvent(e).members);
    EventRoundTrip(e, Obj(shuffled));
  }
}
