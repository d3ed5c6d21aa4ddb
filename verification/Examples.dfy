/** Literal inputs with their literal outputs, among them those of the repository's own unit tests. */
module Examples {
  import opened Base
  import opened Text
  import opened Parse
  import P = Proto
  import B = Broadcast
  import F = Framing

  // --- table rows ---

  lemma SpreadFirst(words: seq<string>, pads: seq<string>)
    requires |pads| == |words| && words != []
    ensures Spread(words, pads) == words[0] + pads[0] + Spread(words[1..], pads[1..])
  {
  }

  lemma SpreadOfOne(word: string)
    ensures Spread([word], [""]) == word
  {
    SpreadFirst([word], [""]);
    assert Spread([word][1..], [""][1..]) == "";
  }

  /** Four columns, whatever blanks are between them. */
  lemma RowOfFour(a: string, p: string, b: string, q: string, c: string, r: string, d: string)
    requires IsWord(a) && IsWord(b) && IsWord(c) && IsWord(d)
    requires IsBlank(p) && p != "" && IsBlank(q) && q != "" && IsBlank(r) && r != ""
    ensures Words(a + p + (b + q + (c + r + d))) == [a, b, c, d]
  {
    hide *;
    assert IsPadding([p, q, r, ""]) by { PaddingOfFour(p, q, r); }
    SpreadOfFour(a, p, b, q, c, r, d);
    WordsOfSpreadAlone([a, b, c, d], [p, q, r, ""]);
  }

  lemma WordsOfSpreadAlone(words: seq<string>, pads: seq<string>)
    requires |pads| == |words| && IsPadding(pads) && forall w | w in words :: IsWord(w)
    ensures Words(Spread(words, pads)) == words
  {
    hide Words;
    hide Spread;
    WordsOfSpread("", words, pads);
    assert "" + Spread(words, pads) == Spread(words, pads);
  }

  lemma PaddingOfFour(p: string, q: string, r: string)
    requires IsBlank(p) && p != "" && IsBlank(q) && q != "" && IsBlank(r) && r != ""
    ensures IsPadding([p, q, r, ""]) && AllWhite("")
  {
  }

  lemma SpreadOfFour(a: string, p: string, b: string, q: string, c: string, r: string, d: string)
    ensures Spread([a, b, c, d], [p, q, r, ""]) == a + p + (b + q + (c + r + d))
  {
    hide *;
    SpreadFirst([a, b, c, d], [p, q, r, ""]);
    assert [a, b, c, d][1..] == [b, c, d] && [p, q, r, ""][1..] == [q, r, ""];
    SpreadFirst([b, c, d], [q, r, ""]);
    assert [b, c, d][1..] == [c, d] && [q, r, ""][1..] == [r, ""];
    SpreadFirst([c, d], [r, ""]);
    assert [c, d][1..] == [d] && [r, ""][1..] == [""];
    SpreadOfOne(d);
  }

  /** A row alone, with the state in the given word. */
  lemma {:induction false} RowAlone(row: string, state: string)
    requires OneLine(row) && row != "" && Words(row) == ["Enabled", state, "Dedicated", "Ethernet"]
    ensures NetshInterfaces(row) == if EqIgnoreCase(state, "connected") then ["Ethernet"] else []
  {
    hide Words;
    hide Lines;
    hide EqIgnoreCase;
    OpenLine(row);
    assert ConnectedNames([row][1..]) == [];
    assert JoinSpaced(["Ethernet"]) == "Ethernet";
    assert ["Enabled", state, "Dedicated", "Ethernet"][3..] == ["Ethernet"];
  }

  lemma {:induction false} RowText(state: string, row: string)
    requires IsWord(state) && row == "Enabled" + " " + (state + " " + ("Dedicated" + " " + "Ethernet"))
    ensures OneLine(row) && row != "" && Words(row) == ["Enabled", state, "Dedicated", "Ethernet"]
  {
    hide Words;
    RowOfFour("Enabled", " ", state, " ", "Dedicated", " ", "Ethernet");
    assert forall c | c in row :: c in "Enabled Dedicated Ethernet" || c in state;
  }

  /** A disconnected adapter is not listed; a connected one is, in any case of the word. */
  lemma {:induction false} DisconnectedRow()
    ensures NetshInterfaces("Enabled Disconnected Dedicated Ethernet") == []
  {
    hide *;
    var row := "Enabled Disconnected Dedicated Ethernet";
    assert row == "Enabled" + " " + ("Disconnected" + " " + ("Dedicated" + " " + "Ethernet"));
    assert IsWord("Disconnected") by { DisconnectedIsWord(); }
    RowText("Disconnected", row);
    RowAlone(row, "Disconnected");
    ConnectedExactly("Disconnected");
    assert |"Disconnected"| == 12;
  }

  lemma DisconnectedIsWord()
    ensures IsWord("Disconnected")
  {
  }

  lemma {:induction false} ConnectedRow()
    ensures NetshInterfaces("Enabled cOnnected Dedicated Ethernet") == ["Ethernet"]
  {
    hide *;
    var row := "Enabled cOnnected Dedicated Ethernet";
    assert row == "Enabled" + " " + ("cOnnected" + " " + ("Dedicated" + " " + "Ethernet"));
    assert IsWord("cOnnected") by { ConnectedIsWord(); }
    RowText("cOnnected", row);
    RowAlone(row, "cOnnected");
    ConnectedExactly("cOnnected");
  }

  lemma ConnectedIsWord()
    ensures IsWord("cOnnected")
  {
  }

  lemma FirstWord(w: string, p: string, rest: string)
    requires IsWord(w) && AllWhite(p) && p != ""
    ensures Words(w + (p + rest)) == [w] + Words(rest)
  {
    hide Words;
    assert p[0] in p;
    WordsFirst(w, p + rest);
    WordsSkipWhite(p, rest);
  }

  lemma OnlyWord(w: string)
    requires IsWord(w)
    ensures Words(w) == [w]
  {
    assert w + "" == w;
    WordsFirst(w, "");
  }

  /** Between the words of a name goes one space. */
  lemma JoinTwo(a: string, b: string)
    ensures JoinSpaced([a, b]) == a + " " + b
  {
    assert [a, b][1..] == [b];
  }

  // --- the route table: columns end at tabs ---

  lemma TabIsWhite()
    ensures AllWhite("\t") && "\t" != ""
    ensures IsWord("wlan0") && IsWord("00000000") && IsWord("0102A8C0")
  {
  }

  lemma {:induction false} RouteWords()
    ensures Words("wlan0" + ("\t" + ("00000000" + ("\t" + "0102A8C0")))) == ["wlan0", "00000000", "0102A8C0"]
  {
    hide *;
    TabIsWhite();
    FirstWord("wlan0", "\t", "00000000" + ("\t" + "0102A8C0"));
    FirstWord("00000000", "\t", "0102A8C0");
    OnlyWord("0102A8C0");
    assert ["wlan0"] + (["00000000"] + ["0102A8C0"]) == ["wlan0", "00000000", "0102A8C0"];
  }

  lemma RouteIsLine(row: string)
    requires row == "wlan0" + ("\t" + ("00000000" + ("\t" + "0102A8C0")))
    ensures OneLine(row) && row != "" && Last(row) != '\r'
  {
    assert row == "wlan0\t00000000\t0102A8C0";
  }

  /** The columns of the route table end at tabs. */
  lemma {:induction false} RouteTable(rest: string)
    ensures DefaultRouteIface("Iface\tDestination" + "\n" +
                              ("wlan0" + ("\t" + ("00000000" + ("\t" + "0102A8C0"))) + "\n" + rest)) == Some("wlan0")
  {
    hide *;
    var row := "wlan0" + ("\t" + ("00000000" + ("\t" + "0102A8C0")));
    RouteWords();
    RouteIsLine(row);
    RouteRow(row, rest);
  }

  lemma {:induction false} RouteRow(row: string, rest: string)
    requires OneLine(row) && row != "" && Last(row) != '\r' && Words(row) == ["wlan0", "00000000", "0102A8C0"]
    ensures DefaultRouteIface("Iface\tDestination" + "\n" + (row + "\n" + rest)) == Some("wlan0")
  {
    hide Words;
    hide Lines;
    LinesFirstRaw("Iface\tDestination", row + "\n" + rest);
    LinesFirstRaw(row, rest);
    assert SkipOne(["Iface\tDestination"] + ([row] + Lines(rest))) == [row] + Lines(rest);
  }

  // --- the macOS listings ---

  lemma ServiceLines()
    ensures Lines("Header" + "\n" + ("Wi-Fi" + "\n" + ("*Bluetooth PAN" + "\n" + "Bridge"))) ==
            ["Header"] + (["Wi-Fi"] + (["*Bluetooth PAN"] + ["Bridge"]))
  {
    hide Lines;
    LinesFirstRaw("Header", "Wi-Fi" + "\n" + ("*Bluetooth PAN" + "\n" + "Bridge"));
    LinesFirstRaw("Wi-Fi", "*Bluetooth PAN" + "\n" + "Bridge");
    LinesFirstRaw("*Bluetooth PAN", "Bridge");
    OpenLine("Bridge");
  }

  lemma {:induction false} NameOfLine(stars: string, name: string)
    requires (forall c | c in stars :: c == '*') && IsTrimmed(name) && name != "" && name[0] != '*'
    ensures ServiceNames([stars + name]) == [name]
  {
    hide ServiceNames;
    assert stars + ("" + name + "") == stars + name;
    ServiceNameExactly(stars, "", name, "");
  }

  lemma {:induction false} ServiceNamesOfLines()
    ensures ServiceNames(["Wi-Fi"] + (["*Bluetooth PAN"] + ["Bridge"])) == ["Wi-Fi", "Bluetooth PAN", "Bridge"]
  {
    hide ServiceNames;
    NameOfLine("", "Wi-Fi");
    NameOfLine("*", "Bluetooth PAN");
    NameOfLine("", "Bridge");
    assert "" + "Wi-Fi" == "Wi-Fi" && "" + "Bridge" == "Bridge" && "*" + "Bluetooth PAN" == "*Bluetooth PAN";
    ServiceNamesAppend(["Wi-Fi"], ["*Bluetooth PAN"] + ["Bridge"]);
    ServiceNamesAppend(["*Bluetooth PAN"], ["Bridge"]);
  }

  /** A listing with a disabled service and a last line left open. */
  lemma {:induction false} ServiceList()
    ensures NetworkServices("Header" + "\n" + ("Wi-Fi" + "\n" + ("*Bluetooth PAN" + "\n" + "Bridge"))) ==
            ["Wi-Fi", "Bluetooth PAN", "Bridge"]
  {
    hide Lines;
    hide ServiceNames;
    ServiceLines();
    ServiceNamesOfLines();
    var rows := ["Wi-Fi"] + (["*Bluetooth PAN"] + ["Bridge"]);
    assert SkipOne(["Header"] + rows) == rows;
  }

  lemma {:induction false} AddressOfLine(text: string, isAddress: string -> bool)
    requires IsTrimmed(text)
    ensures AddressesIn([text], isAddress) == if isAddress(text) then [text] else []
  {
    hide AddressesIn;
    assert "" + text + "" == text;
    AddressExactly("", text, "", isAddress);
  }

  /** Entries that are no addresses are left out, and the notice of the command means none. */
  lemma {:induction false} ServerList(isAddress: string -> bool)
    requires isAddress("1.1.1.1") && isAddress("8.8.8.8") && !isAddress("none")
    ensures AddressesIn(["1.1.1.1"] + (["none"] + ["8.8.8.8"]), isAddress) == ["1.1.1.1", "8.8.8.8"]
  {
    hide AddressesIn;
    AddressOfLine("1.1.1.1", isAddress);
    AddressOfLine("none", isAddress);
    AddressOfLine("8.8.8.8", isAddress);
    AddressesAppend(["1.1.1.1"], ["none"] + ["8.8.8.8"], isAddress);
    AddressesAppend(["none"], ["8.8.8.8"], isAddress);
  }

  // --- numbers ---

  /** A receiver two entries behind gets the first of them; one 17 behind has lost one. */
  lemma {:induction false} SmallAndLargeLag()
    ensures B.Received(B.Receiver(0, 0, []), 2) == B.Receiver(0, 1, [0])
    ensures B.Received(B.Receiver(0, 0, []), 16) == B.Receiver(0, 1, [0])
    ensures B.Received(B.Receiver(0, 0, []), 17) == B.Receiver(0, 1, [])
  {
  }

  lemma {:induction false} FrameOfOneByte()
    ensures F.Frame([7]) == [0, 0, 0, 1, 7]
    ensures F.Be32(66051) == [0, 1, 2, 3] && F.FromBe32([0, 1, 2, 3]) == 66051
  {
  }

  lemma {:induction false} Decimals()
    ensures Decimal(53) == "53"
  {
  }
}
