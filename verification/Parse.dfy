/** The parsers of operating-system output, each with the printer it inverts. */
module Parse {
  import opened Base
  import opened Text

  /** `skip(1)`. */
  function SkipOne(lines: seq<string>): seq<string> {
    if lines == [] then [] else lines[1..]
  }

  // --- Linux: the default route in /proc/net/route ---

  const DEFAULT_DESTINATION := "00000000"

  function DefaultRouteIn(rows: seq<string>): Option<string> {
    if rows == [] then None
    else
      var cols := Words(rows[0]);
      if |cols| < 2 then None
      else if cols[1] == DEFAULT_DESTINATION then Some(cols[0])
      else DefaultRouteIn(rows[1..])
  }

  function DefaultRouteIface(table: string): Option<string> {
    DefaultRouteIn(SkipOne(Lines(table)))
  }

  /** Row `k` is the first default route and every row before it is a complete, other route. */
  ghost predicate FirstDefault(rows: seq<string>, k: nat) {
    && k < |rows|
    && (forall i | 0 <= i <= k :: |Words(rows[i])| >= 2)
    && Words(rows[k])[1] == DEFAULT_DESTINATION
    && (forall i | 0 <= i < k :: Words(rows[i])[1] != DEFAULT_DESTINATION)
  }

  /** The first default route goes through `iface`. */
  ghost predicate RoutedVia(rows: seq<string>, iface: string) {
    exists k: nat :: FirstDefault(rows, k) && Words(rows[k])[0] == iface
  }

  /** An interface is found exactly when some row is the first default route with no short
      row before it; a short row met first hides every later default route. */
  lemma {:induction false} DefaultRouteExactly(rows: seq<string>, iface: string)
    ensures DefaultRouteIn(rows) == Some(iface) <==> RoutedVia(rows, iface)
  {
    if rows != [] && |Words(rows[0])| >= 2 && Words(rows[0])[1] != DEFAULT_DESTINATION {
      DefaultRouteExactly(rows[1..], iface);
      if k: nat :| FirstDefault(rows[1..], k) && Words(rows[1..][k])[0] == iface {
        assert forall i | 0 < i <= k + 1 :: rows[i] == rows[1..][i - 1];
        assert FirstDefault(rows, k + 1);
      }
      if k: nat :| FirstDefault(rows, k) && Words(rows[k])[0] == iface {
        assert forall i | 0 < i <= k :: rows[i] == rows[1..][i - 1];
        assert FirstDefault(rows[1..], k - 1);
      }
    } else if rows != [] && |Words(rows[0])| >= 2 {
      assert DefaultRouteIn(rows) == Some(iface) ==> FirstDefault(rows, 0);
    }
  }

  /** `parse_default_route_iface`, as the loop with its early returns. */
  method ParseDefaultRouteIface(table: string) returns (r: Option<string>)
    ensures r == DefaultRouteIface(table)
    ensures forall iface :: r == Some(iface) <==> RoutedVia(SkipOne(Lines(table)), iface)
  {
    var rows := SkipOne(Lines(table));
    forall iface ensures DefaultRouteIn(rows) == Some(iface) <==> RoutedVia(rows, iface) {
      DefaultRouteExactly(rows, iface);
    }
    for n := 0 to |rows|
      invariant DefaultRouteIn(rows) == DefaultRouteIn(rows[n..])
    {
      var cols := Words(rows[n]);
      if |cols| < 2 {
        return None;
      }
      if cols[1] == DEFAULT_DESTINATION {
        return Some(cols[0]);
      }
    }
    return None;
  }

  // --- Windows: netsh interface show interface ---

  predicate IsConnectedRow(cols: seq<string>) {
    |cols| >= 4 && EqIgnoreCase(cols[1], "connected")
  }

  /** A row counts as connected when it has four columns and its second one is the word "connected", in
      any case. */
  lemma {:induction false} ConnectedRowExactly(cols: seq<string>)
    ensures IsConnectedRow(cols) <==>
            && |cols| >= 4 && |cols[1]| == 9
            && forall i | 0 <= i < 9 :: cols[1][i] == "connected"[i] || cols[1][i] == "CONNECTED"[i]
  {
    if |cols| >= 4 {
      ConnectedExactly(cols[1]);
    }
  }

  lemma {:induction false} ConnectedExactly(state: string)
    ensures EqIgnoreCase(state, "connected") <==>
            |state| == 9 && forall i | 0 <= i < 9 :: state[i] == "connected"[i] || state[i] == "CONNECTED"[i]
  {
    EqIgnoreCaseExactly(state, "connected");
    assert forall i | 0 <= i < 9 :: "CONNECTED"[i] as int == "connected"[i] as int - 32;
  }

  function ConnectedNames(lines: seq<string>): seq<string> {
    if lines == [] then []
    else
      var cols := Words(lines[0]);
      (if IsConnectedRow(cols) then [JoinSpaced(cols[3..])] else []) + ConnectedNames(lines[1..])
  }

  function NetshInterfaces(stdout: string): seq<string> {
    ConnectedNames(Lines(stdout))
  }

  /** `parse_netsh_interfaces`, as the loop that grows `names`. */
  method ParseNetshInterfaces(stdout: string) returns (names: seq<string>)
    ensures names == NetshInterfaces(stdout)
  {
    names := [];
    var lines := Lines(stdout);
    for n := 0 to |lines|
      invariant names + ConnectedNames(lines[n..]) == ConnectedNames(lines)
    {
      var cols := Words(lines[n]);
      if IsConnectedRow(cols) {
        names := names + [JoinSpaced(cols[3..])];
      }
    }
  }

  /** One row of the table; `name` is the alias cut at its spaces. */
  datatype NetshRow = NetshRow(admin: string, state: string, kind: string, name: seq<string>) {
    function Columns(): seq<string> {
      [admin, state, kind] + name
    }

    ghost predicate Printable() {
      name != [] && forall w | w in Columns() :: IsWord(w)
    }
  }

  /** How a row is laid out: blanks before it and after each column. */
  datatype Layout = Layout(lead: string, pads: seq<string>)

  ghost predicate Fits(row: NetshRow, at: Layout) {
    |at.pads| == |row.Columns()| && IsPadding(at.pads) && IsBlank(at.lead)
  }

  function RowText(row: NetshRow, at: Layout): string
    requires |at.pads| == |row.Columns()|
  {
    at.lead + Spread(row.Columns(), at.pads)
  }

  /** The space-normalised names of the connected rows, in table order. */
  function NamesOfRows(rows: seq<NetshRow>): seq<string> {
    if rows == [] then []
    else
      (if IsConnected(rows[0]) then [JoinSpaced(rows[0].name)] else [])
      + NamesOfRows(rows[1..])
  }

  predicate IsConnected(row: NetshRow) {
    EqIgnoreCase(row.state, "connected")
  }

  lemma {:induction false} NamesOfRowsHas(rows: seq<NetshRow>, n: string)
    ensures n in NamesOfRows(rows) <==>
            exists i :: 0 <= i < |rows| && IsConnected(rows[i]) && JoinSpaced(rows[i].name) == n
  {
    if rows != [] {
      var rest := rows[1..];
      NamesOfRowsHas(rest, n);
      assert forall i | 0 <= i < |rest| :: rest[i] == rows[i + 1];
      if i :| 0 < i < |rows| && IsConnected(rows[i]) && JoinSpaced(rows[i].name) == n {
        assert rest[i - 1] == rows[i];
      }
    }
  }

  /** Titles, rulers and empty lines above the rows. */
  ghost predicate IsPreamble(lines: seq<string>) {
    forall l | l in lines :: IsLine(l) && !IsConnectedRow(Words(l))
  }

  lemma {:induction false} ConnectedNamesOfRows(preamble: seq<string>, rows: seq<NetshRow>, texts: seq<string>,
                                                layout: seq<Layout>)
    requires IsPreamble(preamble) && |rows| == |layout| == |texts|
    requires forall i | 0 <= i < |rows| ::
               rows[i].Printable() && Fits(rows[i], layout[i]) && texts[i] == RowText(rows[i], layout[i])
    ensures ConnectedNames(preamble + texts) == NamesOfRows(rows)
    decreases |preamble| + |rows|
  {
    var lines := preamble + texts;
    if preamble != [] {
      assert lines[0] == preamble[0] && lines[1..] == preamble[1..] + texts;
      ConnectedNamesOfRows(preamble[1..], rows, texts, layout);
    } else if rows != [] {
      WordsOfSpread(layout[0].lead, rows[0].Columns(), layout[0].pads);
      assert lines[0] == texts[0] && lines[1..] == preamble + texts[1..];
      assert rows[0].Columns()[3..] == rows[0].name;
      ConnectedNamesOfRows(preamble, rows[1..], texts[1..], layout[1..]);
    } else {
      assert lines == [];
    }
  }

  /** For every rendered netsh table, with any padding and any line endings, the parser
      returns exactly the names of the connected rows. */
  lemma {:induction false} NetshInvertsTable(
      preamble: seq<string>, rows: seq<NetshRow>, layout: seq<Layout>, texts: seq<string>, ends: seq<LineEnd>)
    requires IsPreamble(preamble) && |rows| == |layout| == |texts|
    requires forall i | 0 <= i < |rows| ::
               rows[i].Printable() && Fits(rows[i], layout[i]) && texts[i] == RowText(rows[i], layout[i])
    requires |ends| == |preamble| + |texts|
    ensures NetshInterfaces(Printed(preamble + texts, ends)) == NamesOfRows(rows)
  {
    var lines := preamble + texts;
    forall l | l in lines ensures IsLine(l) {
      if l !in preamble {
        var i :| 0 <= i < |texts| && texts[i] == l;
        SpreadIsLine(layout[i].lead, rows[i].Columns(), layout[i].pads);
      }
    }
    LinesOfPrinted(lines, ends, "");
    assert Printed(lines, ends) + "" == Printed(lines, ends);
    assert lines + [] == lines;
    ConnectedNamesOfRows(preamble, rows, texts, layout);
  }

  // --- macOS: networksetup -listallnetworkservices ---

  function CleanService(line: string): (name: string)
    ensures |name| <= |line| && IsTrimmed(name) && forall c | c in name :: c in line
    ensures line != "" && line[0] == '*' ==> |name| < |line|
  {
    Trim(TrimStars(line))
  }

  function ServiceNames(lines: seq<string>): (names: seq<string>)
    ensures |names| <= |lines|
  {
    if lines == [] then []
    else
      var name := CleanService(lines[0]);
      (if name != "" then [name] else []) + ServiceNames(lines[1..])
  }

  /** The names of a listing are those of its parts, in order. */
  lemma {:induction false} ServiceNamesAppend(a: seq<string>, b: seq<string>)
    ensures ServiceNames(a + b) == ServiceNames(a) + ServiceNames(b)
    decreases |a|
  {
    hide ServiceNames;
    if a == [] {
      NoServiceNames();
      assert a + b == b;
      assert [] + ServiceNames(b) == ServiceNames(b);
    } else {
      assert (a + b)[1..] == a[1..] + b;
      var first := ServiceNamesFirstLine(a);
      var again := ServiceNamesFirstLine(a + b);
      ServiceNamesAppend(a[1..], b);
      Regroup(first, ServiceNames(a[1..]), ServiceNames(b));
    }
  }

  lemma NoServiceNames()
    ensures ServiceNames([]) == []
  {
  }

  lemma ServiceNamesFirstLine(lines: seq<string>) returns (first: seq<string>)
    requires lines != []
    ensures first == if CleanService(lines[0]) != "" then [CleanService(lines[0])] else []
    ensures ServiceNames(lines) == first + ServiceNames(lines[1..])
  {
    hide CleanService;
    first := if CleanService(lines[0]) != "" then [CleanService(lines[0])] else [];
  }

  /** A line gives its text behind the stars, without the white space around it, and nothing if there is
      no text. */
  lemma ServiceNameExactly(stars: string, lead: string, name: string, trail: string)
    requires forall c | c in stars :: c == '*'
    requires AllWhite(lead) && AllWhite(trail) && IsTrimmed(name) && (lead == "" && name != "" ==> name[0] != '*')
    ensures ServiceNames([stars + (lead + name + trail)]) == if name == "" then [] else [name]
  {
    hide Trim;
    hide TrimStars;
    hide IsTrimmed;
    var rest := lead + name + trail;
    NoStarFirst(lead, name, trail);
    TrimStarsExactly(stars, rest);
    TrimExactly(lead, name, trail);
    assert ServiceNames([stars + rest][1..]) == [];
  }

  lemma NoStarFirst(lead: string, name: string, trail: string)
    requires AllWhite(lead) && AllWhite(trail) && (lead == "" && name != "" ==> name[0] != '*')
    ensures lead + name + trail != "" ==> (lead + name + trail)[0] != '*'
  {
    var rest := lead + name + trail;
    if lead != "" {
      assert rest[0] == lead[0] && lead[0] in lead;
    } else if name != "" {
      assert rest[0] == name[0];
    } else if trail != "" {
      assert rest[0] == trail[0] && trail[0] in trail;
    }
  }

  /** `parse_network_services`. */
  function NetworkServices(stdout: string): seq<string> {
    ServiceNames(SkipOne(Lines(stdout)))
  }

  /** A listed service and its disabled mark. */
  datatype Service = Service(name: string, disabled: bool) {
    function Line(): string {
      (if disabled then "*" else "") + name
    }
  }

  function ServiceRows(services: seq<Service>): string {
    if services == [] then "" else services[0].Line() + "\n" + ServiceRows(services[1..])
  }

  /** What `networksetup -listallnetworkservices` prints. */
  function ServiceListing(header: string, services: seq<Service>): string {
    header + "\n" + ServiceRows(services)
  }

  function NamesOf(services: seq<Service>): (names: seq<string>)
    ensures |names| == |services| && forall i | 0 <= i < |names| :: names[i] == services[i].name
  {
    if services == [] then [] else [services[0].name] + NamesOf(services[1..])
  }

  /** Non-empty, on one line, and no white space at the ends. */
  predicate IsPlainName(name: string) {
    name != "" && OneLine(name) && IsTrimmed(name)
  }

  predicate IsServiceName(name: string) {
    IsPlainName(name) && name[0] != '*'
  }

  lemma {:induction false} ServiceNamesArePlain(lines: seq<string>)
    requires forall l | l in lines :: OneLine(l)
    ensures forall n | n in ServiceNames(lines) :: IsPlainName(n)
  {
    if lines != [] {
      assert OneLine(lines[0]);
      ServiceNamesArePlain(lines[1..]);
    }
  }

  lemma {:induction false} ServiceRowsFirst(services: seq<Service>)
    requires services != [] && IsPlainName(services[0].name)
    ensures Lines(ServiceRows(services)) == [services[0].Line()] + Lines(ServiceRows(services[1..]))
  {
    assert IsLine(services[0].Line());
    assert EndText(Lf) == "\n";
    LinesFirst(services[0].Line(), Lf, ServiceRows(services[1..]));
  }

  /** A row gives its name back exactly when the name does not start with a star. */
  lemma CleanServiceExactly(s: Service)
    requires IsPlainName(s.name)
    ensures CleanService(s.Line()) == s.name <==> IsServiceName(s.name)
  {
    assert s.disabled ==> s.Line()[1..] == s.name && TrimStars(s.Line()) == TrimStars(s.name);
  }

  /** With plain names, the rows read back as the names exactly when no name starts with a star. */
  lemma {:induction false} ServiceRowsExactly(services: seq<Service>)
    requires forall s | s in services :: IsPlainName(s.name)
    ensures |ServiceNames(Lines(ServiceRows(services)))| <= |services|
    ensures ServiceNames(Lines(ServiceRows(services))) == NamesOf(services) <==>
            forall s | s in services :: IsServiceName(s.name)
  {
    if services != [] {
      var s, rest := services[0], services[1..];
      assert services == [s] + rest;
      ServiceRowsFirst(services);
      ServiceRowsExactly(rest);
      CleanServiceExactly(s);
      ServiceNamesFirst(s.Line(), Lines(ServiceRows(rest)), s.name, NamesOf(rest));
    }
  }

  lemma ServiceNamesFirst(line: string, lines: seq<string>, name: string, names: seq<string>)
    requires name != "" && |ServiceNames(lines)| <= |names|
    ensures |ServiceNames([line] + lines)| <= 1 + |names|
    ensures ServiceNames([line] + lines) == [name] + names <==>
            CleanService(line) == name && ServiceNames(lines) == names
  {
    assert ([line] + lines)[1..] == lines;
    assert ([name] + names)[1..] == names;
    var later, clean := ServiceNames(lines), CleanService(line);
    if clean != "" {
      assert ([clean] + later)[1..] == later;
    }
  }

  /** The listed names come back, without header and disabled marks, if and only if every
      name is non-empty, single-line, trimmed and does not start with a star. */
  lemma ServicesInvertListing(header: string, services: seq<Service>)
    requires IsLine(header)
    ensures NetworkServices(ServiceListing(header, services)) == NamesOf(services) <==>
            forall s | s in services :: IsServiceName(s.name)
  {
    var rows := ServiceRows(services);
    assert EndText(Lf) == "\n";
    LinesFirst(header, Lf, rows);
    assert SkipOne([header] + Lines(rows)) == Lines(rows);
    ServiceNamesArePlain(Lines(rows));
    if ServiceNames(Lines(rows)) == NamesOf(services) {
      forall s | s in services ensures IsPlainName(s.name) {
        var i :| 0 <= i < |services| && services[i] == s;
        assert NamesOf(services)[i] == s.name;
      }
    }
    if forall s | s in services :: IsPlainName(s.name) {
      ServiceRowsExactly(services);
    }
  }

  // --- macOS: networksetup -getdnsservers ---

  const NO_SERVERS := "aren't any DNS Servers"

  function AddressesIn(lines: seq<string>, isAddress: string -> bool): (r: seq<string>)
    ensures forall a | a in r :: isAddress(a)
  {
    if lines == [] then []
    else
      var l := Trim(lines[0]);
      (if isAddress(l) then [l] else []) + AddressesIn(lines[1..], isAddress)
  }

  /** The addresses of a listing are those of its parts, in order. */
  lemma {:induction false} AddressesAppend(a: seq<string>, b: seq<string>, isAddress: string -> bool)
    ensures AddressesIn(a + b, isAddress) == AddressesIn(a, isAddress) + AddressesIn(b, isAddress)
    decreases |a|
  {
    hide AddressesIn;
    if a == [] {
      NoAddresses(isAddress);
      assert a + b == b;
      assert [] + AddressesIn(b, isAddress) == AddressesIn(b, isAddress);
    } else {
      assert (a + b)[1..] == a[1..] + b;
      var first := AddressesFirstLine(a, isAddress);
      var again := AddressesFirstLine(a + b, isAddress);
      AddressesAppend(a[1..], b, isAddress);
      Regroup(first, AddressesIn(a[1..], isAddress), AddressesIn(b, isAddress));
    }
  }

  lemma NoAddresses(isAddress: string -> bool)
    ensures AddressesIn([], isAddress) == []
  {
  }

  lemma AddressesFirstLine(lines: seq<string>, isAddress: string -> bool) returns (first: seq<string>)
    requires lines != []
    ensures first == if isAddress(Trim(lines[0])) then [Trim(lines[0])] else []
    ensures AddressesIn(lines, isAddress) == first + AddressesIn(lines[1..], isAddress)
  {
    hide Trim;
    first := if isAddress(Trim(lines[0])) then [Trim(lines[0])] else [];
  }

  /** A line gives its text, without the white space around it, exactly if that is an address. */
  lemma AddressExactly(lead: string, text: string, trail: string, isAddress: string -> bool)
    requires AllWhite(lead) && AllWhite(trail) && IsTrimmed(text)
    ensures AddressesIn([lead + text + trail], isAddress) == if isAddress(text) then [text] else []
  {
    TrimExactly(lead, text, trail);
    assert AddressesIn([lead + text + trail][1..], isAddress) == [];
  }

  /** `parse_dns_servers`; `isAddress` stands for a successful `parse::<IpAddr>()`. */
  function DnsServers(stdout: string, isAddress: string -> bool): (r: seq<string>)
    ensures forall a | a in r :: isAddress(a)
  {
    if Contains(stdout, NO_SERVERS) then [] else AddressesIn(Lines(stdout), isAddress)
  }

  /** A text with the notice anywhere has no servers; any other gives the addresses of its lines. */
  lemma DnsServersExactly(stdout: string, isAddress: string -> bool)
    ensures DnsServers(stdout, isAddress) ==
            if exists before, after :: stdout == before + "aren't any DNS Servers" + after then []
            else AddressesIn(Lines(stdout), isAddress)
  {
    ContainsExactly(stdout, NO_SERVERS);
  }

  function ServerRows(servers: seq<string>): string {
    if servers == [] then "" else servers[0] + "\n" + ServerRows(servers[1..])
  }

  /** What `networksetup -getdnsservers` prints for a service. */
  function DnsListing(service: string, servers: seq<string>): string {
    if servers == [] then "There " + NO_SERVERS + (" set on " + service + ".\n") else ServerRows(servers)
  }

  lemma {:induction false} ServerRowsHaveNoSpace(servers: seq<string>)
    requires forall a | a in servers :: IsWord(a)
    ensures ' ' !in ServerRows(servers)
  {
    if servers != [] {
      assert IsWord(servers[0]);
      ServerRowsHaveNoSpace(servers[1..]);
    }
  }

  lemma AddressFirst(a: string, lines: seq<string>, isAddress: string -> bool)
    requires IsWord(a) && isAddress(a)
    ensures AddressesIn([a] + lines, isAddress) == [a] + AddressesIn(lines, isAddress)
  {
    assert a[0] in a && a[|a| - 1] in a;
    assert Trim(a) == a;
    assert ([a] + lines)[1..] == lines;
  }

  lemma {:induction false} ServerRowsFirst(servers: seq<string>)
    requires servers != [] && IsWord(servers[0])
    ensures Lines(ServerRows(servers)) == [servers[0]] + Lines(ServerRows(servers[1..]))
  {
    var a := servers[0];
    assert a[|a| - 1] in a && OneLine(a);
    assert EndText(Lf) == "\n";
    LinesFirst(a, Lf, ServerRows(servers[1..]));
  }

  lemma {:induction false} LinesOfServerRows(servers: seq<string>)
    requires forall a | a in servers :: IsWord(a)
    ensures Lines(ServerRows(servers)) == servers
  {
    if servers != [] {
      ServerRowsFirst(servers);
      LinesOfServerRows(servers[1..]);
    }
  }

  /** Reading back a printed server list keeps exactly the entries that are addresses, in order. */
  lemma {:induction false} DnsServersOfListing(service: string, servers: seq<string>, isAddress: string -> bool)
    requires forall a | a in servers :: IsWord(a)
    ensures DnsServers(DnsListing(service, servers), isAddress) == AddressesIn(servers, isAddress)
  {
    if servers == [] {
      ContainsIn("There ", NO_SERVERS, " set on " + service + ".\n");
    } else {
      ServerRowsHaveNoSpace(servers);
      assert NO_SERVERS[6] == ' ';
      ContainsNeedsChars(ServerRows(servers), NO_SERVERS, ' ');
      LinesOfServerRows(servers);
    }
  }

  lemma {:induction false} AddressesOfRows(servers: seq<string>, isAddress: string -> bool)
    requires forall a | a in servers :: IsWord(a)
    requires forall a | a in servers :: isAddress(a)
    ensures AddressesIn(Lines(ServerRows(servers)), isAddress) == servers
  {
    if servers != [] {
      ServerRowsFirst(servers);
      AddressFirst(servers[0], Lines(ServerRows(servers[1..])), isAddress);
      AddressesOfRows(servers[1..], isAddress);
    }
  }

  /** Reading back the server list printed for a service gives the list, with none set giving
      the empty list; for words it fails exactly when some entry is not an address. */
  lemma {:induction false} DnsServersInvertListing(service: string, servers: seq<string>, isAddress: string -> bool)
    requires forall a | a in servers :: IsWord(a)
    ensures DnsServers(DnsListing(service, servers), isAddress) == servers <==>
            forall a | a in servers :: isAddress(a)
  {
    if servers == [] {
      ContainsIn("There ", NO_SERVERS, " set on " + service + ".\n");
    } else {
      ServerRowsHaveNoSpace(servers);
      assert NO_SERVERS[6] == ' ';
      ContainsNeedsChars(ServerRows(servers), NO_SERVERS, ' ');
      if forall a | a in servers :: isAddress(a) {
        AddressesOfRows(servers, isAddress);
      }
    }
  }
}
