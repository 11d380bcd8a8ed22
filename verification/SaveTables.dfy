/** The chains of a table in iptables-save data, and writing them back. */
module SaveTables {
  import opened SaveLines
  import opened ByteStrings

  /** A chain line without a space is refused. */
  datatype Parsed = Refused(line: string) | Chains(lines: map<string, string>)

  // Parsing lines

  function SpaceIndex(s: string): (i: nat)
    ensures i <= |s| && (forall k :: 0 <= k < i ==> s[k] != ' ') && (i < |s| ==> s[i] == ' ')
  {
    if s == [] || s[0] == ' ' then 0 else 1 + SpaceIndex(s[1..])
  }

  function SeekTable(lines: seq<string>, table: string): seq<string> {
    if lines == [] then []
    else if HasPrefix(lines[0], "*" + table) then lines[1..]
    else SeekTable(lines[1..], table)
  }

  predicate EndsTable(line: string) {
    line != [] && (HasPrefix(line, "COMMIT") || line[0] == '*')
  }

  predicate IsChainLine(line: string) {
    |line| > 1 && line[0] == ':'
  }

  function ParseTable(lines: seq<string>, found: map<string, string>): Parsed
    decreases |lines|
  {
    if lines == [] || EndsTable(lines[0]) then Chains(found)
    else if !IsChainLine(lines[0]) then ParseTable(lines[1..], found)
    else
      var line := lines[0];
      if SpaceIndex(line) == |line| then Refused(line)
      else ParseTable(lines[1..], found[line[1..SpaceIndex(line)] := line])
  }

  function Parse(table: string, lines: seq<string>): Parsed {
    ParseTable(SeekTable(lines, table), map[])
  }

  // The parser on data

  method FindSpace(s: string) returns (i: int)
    ensures i == -1 <==> SpaceIndex(s) == |s|
    ensures i != -1 ==> i == SpaceIndex(s)
  {
    i := 0;
    while i < |s| && s[i] != ' '
      invariant 0 <= i <= |s| && forall k :: 0 <= k < i ==> s[k] != ' '
    {
      i := i + 1;
    }
    if i == |s| { i := -1; }
  }

  method FindTable(table: string, save: string) returns (readIndex: nat)
    ensures readIndex <= |save| && ReadAll(save, readIndex) == SeekTable(ReadAll(save, 0), table)
  {
    readIndex := 0;
    while readIndex < |save|
      invariant readIndex <= |save| && SeekTable(ReadAll(save, readIndex), table) == SeekTable(ReadAll(save, 0), table)
      decreases |save| - readIndex
    {
      ghost var rest := ReadAll(save, NextIndex(save, readIndex));
      assert ReadAll(save, readIndex)[1..] == rest;
      var line, n := ReadLine(readIndex, save);
      readIndex := n;
      if HasPrefix(line, "*" + table) { return; }
    }
  }

  method GetChainLines(table: string, save: string) returns (parsed: Parsed)
    ensures parsed == Parse(table, ReadAll(save, 0))
  {
    var readIndex := FindTable(table, save);
    var chains := map[];
    while readIndex < |save|
      invariant readIndex <= |save| && ParseTable(ReadAll(save, readIndex), chains) == Parse(table, ReadAll(save, 0))
      decreases |save| - readIndex
    {
      assert ReadAll(save, readIndex)[1..] == ReadAll(save, NextIndex(save, readIndex));
      var line, n := ReadLine(readIndex, save);
      readIndex := n;
      if |line| == 0 { continue; }
      if HasPrefix(line, "COMMIT") || line[0] == '*' { return Chains(chains); }
      if line[0] == '#' { continue; }
      if line[0] == ':' && |line| > 1 {
        var space := FindSpace(line);
        if space == -1 { return Refused(line); }
        chains := chains[line[1..space] := line];
      }
    }
    parsed := Chains(chains);
  }

  // A dump of several tables

  datatype Chain = Chain(name: string, rest: string)

  datatype Table = Table(notes: seq<string>, name: string, chains: seq<Chain>, rules: seq<string>)

  function ChainText(c: Chain): string {
    [':'] + c.name + [' '] + c.rest
  }

  function ChainTexts(cs: seq<Chain>): seq<string> {
    if cs == [] then [] else [ChainText(cs[0])] + ChainTexts(cs[1..])
  }

  function Body(t: Table): seq<string> {
    ChainTexts(t.chains) + (t.rules + ["COMMIT"])
  }

  function TableLines(t: Table): seq<string> {
    t.notes + (["*" + t.name] + Body(t))
  }

  function DumpLines(ts: seq<Table>): seq<string> {
    if ts == [] then [] else TableLines(ts[0]) + DumpLines(ts[1..])
  }

  /** A line without spaces at its ends and without newlines. */
  predicate Tidy(s: string) {
    OneLine(s) && s != [] && s[0] != ' ' && s[|s| - 1] != ' '
  }

  predicate TidyChain(c: Chain) {
    ' ' !in c.name && OneLine(c.name) && OneLine(c.rest) && c.rest != [] && c.rest[|c.rest| - 1] != ' '
  }

  predicate TidyTable(t: Table) {
    && (forall n :: n in t.notes ==> Tidy(n) && n[0] == '#')
    && Tidy("*" + t.name)
    && (forall c :: c in t.chains ==> TidyChain(c))
    && (forall r :: r in t.rules ==> Tidy(r) && IsRule(r))
  }

  /** The chain lines by chain name; of two lines for a chain the later one counts. */
  function ChainMap(cs: seq<Chain>, found: map<string, string>): map<string, string>
    decreases |cs|
  {
    if cs == [] then found else ChainMap(cs[1..], found[cs[0].name := ChainText(cs[0])])
  }

  /** The first table whose name begins with the requested name. */
  function Selected(ts: seq<Table>, table: string): seq<Chain> {
    if ts == [] then []
    else if HasPrefix(ts[0].name, table) then ts[0].chains
    else Selected(ts[1..], table)
  }

  /** The index of that table; the number of tables if there is none. */
  function FoundAt(ts: seq<Table>, table: string): nat {
    if ts == [] || HasPrefix(ts[0].name, table) then 0 else 1 + FoundAt(ts[1..], table)
  }

  predicate NoHeader(line: string) {
    line != [] && line[0] != '*'
  }

  predicate IsRule(line: string) {
    line != [] && line[0] == '-'
  }

  lemma {:induction false} SkipsLines(lines: seq<string>, rest: seq<string>, table: string)
    requires forall l :: l in lines ==> NoHeader(l)
    ensures SeekTable(lines + rest, table) == SeekTable(rest, table)
  {
    if lines == [] {
      assert lines + rest == rest;
    } else {
      assert lines[0] in lines && (lines + rest)[1..] == lines[1..] + rest;
      assert !HasPrefix(lines[0], "*" + table) by { assert ("*" + table)[0] == '*'; }
      SkipsLines(lines[1..], rest, table);
    }
  }

  lemma {:induction false} ChainTextsAre(cs: seq<Chain>)
    ensures forall l :: l in ChainTexts(cs) <==> exists c :: c in cs && ChainText(c) == l
  {
    if cs != [] { ChainTextsAre(cs[1..]); }
  }

  lemma HeaderMatches(name: string, table: string)
    ensures HasPrefix("*" + name, "*" + table) <==> HasPrefix(name, table)
  {
    if |table| <= |name| {
      assert ("*" + name)[..|table| + 1] == "*" + name[..|table|];
      if "*" + name[..|table|] == "*" + table { assert name[..|table|] == ("*" + name[..|table|])[1..] == ("*" + table)[1..] == table; }
    }
  }

  lemma BodyHasNoHeader(t: Table)
    requires TidyTable(t)
    ensures forall l :: l in Body(t) ==> NoHeader(l)
  {
    ChainTextsAre(t.chains);
    assert NoHeader("COMMIT");
    forall l | l in Body(t) ensures NoHeader(l) {
      if l in t.rules { assert IsRule(l); }
    }
  }

  lemma SeeksTable(t: Table, rest: seq<string>, table: string)
    requires TidyTable(t)
    ensures SeekTable(TableLines(t) + rest, table)
         == if HasPrefix(t.name, table) then Body(t) + rest else SeekTable(rest, table)
  {
    var header := ["*" + t.name];
    assert TableLines(t) + rest == t.notes + (header + (Body(t) + rest));
    assert forall n :: n in t.notes ==> NoHeader(n);
    SkipsLines(t.notes, header + (Body(t) + rest), table);
    assert (header + (Body(t) + rest))[1..] == Body(t) + rest;
    HeaderMatches(t.name, table);
    BodyHasNoHeader(t);
    SkipsLines(Body(t), rest, table);
  }

  lemma ChainTextSplits(c: Chain)
    requires TidyChain(c)
    ensures IsChainLine(ChainText(c)) && !EndsTable(ChainText(c))
    ensures SpaceIndex(ChainText(c)) == |c.name| + 1 < |ChainText(c)| && ChainText(c)[1..|c.name| + 1] == c.name
    ensures Tidy(ChainText(c))
  {
    var line := ChainText(c);
    assert line[|c.name| + 1] == ' ' && line[0] == ':';
    assert forall k :: 1 <= k <= |c.name| ==> line[k] == c.name[k - 1];
  }

  lemma {:induction false} ParsesRules(rules: seq<string>, rest: seq<string>, found: map<string, string>)
    requires forall r :: r in rules ==> IsRule(r)
    ensures ParseTable(rules + (["COMMIT"] + rest), found) == Chains(found)
  {
    if rules == [] {
      assert rules + (["COMMIT"] + rest) == ["COMMIT"] + rest;
      assert HasPrefix("COMMIT", "COMMIT");
    } else {
      assert rules[0] in rules && (rules + (["COMMIT"] + rest))[1..] == rules[1..] + (["COMMIT"] + rest);
      assert !HasPrefix(rules[0], "COMMIT") by { assert "COMMIT"[0] == 'C'; }
      ParsesRules(rules[1..], rest, found);
    }
  }

  lemma {:induction false} ParsesChains(cs: seq<Chain>, rules: seq<string>, rest: seq<string>, found: map<string, string>)
    requires (forall c :: c in cs ==> TidyChain(c)) && (forall r :: r in rules ==> IsRule(r))
    ensures ParseTable(ChainTexts(cs) + (rules + (["COMMIT"] + rest)), found) == Chains(ChainMap(cs, found))
    decreases |cs|
  {
    var tail := rules + (["COMMIT"] + rest);
    if cs == [] {
      assert ChainTexts(cs) + tail == tail;
      ParsesRules(rules, rest, found);
    } else {
      var line := ChainText(cs[0]);
      assert (ChainTexts(cs) + tail)[0] == line && (ChainTexts(cs) + tail)[1..] == ChainTexts(cs[1..]) + tail;
      ChainTextSplits(cs[0]);
      ParsesChains(cs[1..], rules, rest, found[cs[0].name := line]);
    }
  }

  lemma ParsesBody(t: Table, rest: seq<string>)
    requires TidyTable(t)
    ensures ParseTable(Body(t) + rest, map[]) == Chains(ChainMap(t.chains, map[]))
  {
    assert Body(t) + rest == ChainTexts(t.chains) + (t.rules + (["COMMIT"] + rest));
    ParsesChains(t.chains, t.rules, rest, map[]);
  }

  lemma {:induction false} ParsesDump(ts: seq<Table>, table: string)
    requires forall t :: t in ts ==> TidyTable(t)
    ensures Parse(table, DumpLines(ts)) == Chains(ChainMap(Selected(ts, table), map[]))
  {
    if ts != [] {
      var t, rest := ts[0], DumpLines(ts[1..]);
      assert t in ts;
      SeeksTable(t, rest, table);
      if HasPrefix(t.name, table) {
        ParsesBody(t, rest);
      } else {
        ParsesDump(ts[1..], table);
      }
    }
  }

  // Printed and parsed

  lemma TidyIsTrimmed(s: string)
    requires Tidy(s)
    ensures Trim(s) == s
  {
  }

  lemma {:induction false} TidyAll(lines: seq<string>)
    requires forall l :: l in lines ==> Tidy(l)
    ensures TrimAll(lines) == lines
  {
    if lines != [] {
      TidyIsTrimmed(lines[0]);
      TidyAll(lines[1..]);
    }
  }

  lemma TidyTableLines(t: Table)
    requires TidyTable(t)
    ensures forall l :: l in TableLines(t) ==> Tidy(l)
  {
    ChainTextsAre(t.chains);
    forall c | c in t.chains ensures Tidy(ChainText(c)) { ChainTextSplits(c); }
    assert Tidy("COMMIT");
  }

  lemma {:induction false} TidyDump(ts: seq<Table>)
    requires forall t :: t in ts ==> TidyTable(t)
    ensures forall l :: l in DumpLines(ts) ==> Tidy(l)
  {
    if ts != [] {
      TidyTableLines(ts[0]);
      TidyDump(ts[1..]);
    }
  }

  /** On a printed dump of tables the parser returns the chains of the first table whose name begins with the
      requested name, each with its exact line. */
  lemma PrintThenParse(ts: seq<Table>, table: string)
    requires forall t :: t in ts ==> TidyTable(t)
    ensures Parse(table, ReadAll(Print(DumpLines(ts)), 0)) == Chains(ChainMap(Selected(ts, table), map[]))
  {
    TidyDump(ts);
    var lines := DumpLines(ts);
    assert forall k :: 0 <= k < |lines| ==> Tidy(lines[k]);
    PrintThenRead(lines);
    TidyAll(lines);
    ParsesDump(ts, table);
  }

  /** A table is found under its own name if and only if no table before it has a name that begins with that name. */
  lemma {:induction false} FindsOwnTable(ts: seq<Table>, k: nat)
    requires k < |ts|
    ensures FoundAt(ts, ts[k].name) == k <==> forall j :: 0 <= j < k ==> !HasPrefix(ts[j].name, ts[k].name)
    ensures FoundAt(ts, ts[k].name) == k ==> Selected(ts, ts[k].name) == ts[k].chains
  {
    if k == 0 {
      assert ts[0].name[..|ts[0].name|] == ts[0].name;
    } else {
      FindsOwnTable(ts[1..], k - 1);
      assert forall j :: 0 < j < k ==> ts[1..][j - 1] == ts[j];
      if HasPrefix(ts[0].name, ts[k].name) { assert FoundAt(ts, ts[k].name) == 0; }
    }
  }

  /** Asked for the nat table, the parser returns the chains of one whose name goes on after "nat", if that comes first. */
  lemma LongerNameShadows(first: seq<Chain>, second: seq<Chain>)
    requires forall c :: c in first + second ==> TidyChain(c)
    ensures (var ts := [Table([], "nat2", first, []), Table([], "nat", second, [])];
             Parse("nat", ReadAll(Print(DumpLines(ts)), 0)) == Chains(ChainMap(first, map[])))
  {
    var ts := [Table([], "nat2", first, []), Table([], "nat", second, [])];
    assert "nat2"[..3] == "nat" && HasPrefix(ts[0].name, "nat");
    FindsOwnTable(ts, 1);
    assert Selected(ts, "nat") == first;
    PrintThenParse(ts, "nat");
  }

  // Keeping chain lines

  function MakeChainLine(chain: string): string {
    [':'] + chain + " - [0:0]"
  }

  /** The line a chain had, or a new one. */
  function LineFor(chain: string, existing: map<string, string>): string {
    if chain in existing then existing[chain] else MakeChainLine(chain)
  }

  function Copied(chains: seq<string>, existing: map<string, string>): seq<string> {
    if chains == [] then []
    else [LineFor(chains[0], existing)] + Copied(chains[1..], existing)
  }

  method CopyChain(chain: string, existing: map<string, string>, data: LineBuffer)
    requires data.Valid()
    modifies data
    ensures data.Valid() && data.lines == old(data.lines) + [LineFor(chain, existing)]
  {
    if chain in existing {
      data.WriteBytes(existing[chain]);
    } else {
      data.Write([One(MakeChainLine(chain))]);
      assert [One(MakeChainLine(chain))][1..] == [];
    }
  }

  method CopyExistingChains(chains: seq<string>, existing: map<string, string>, data: LineBuffer)
    requires data.Valid()
    modifies data
    ensures data.Valid() && data.lines == old(data.lines) + Copied(chains, existing)
  {
    var i := 0;
    while i < |chains|
      invariant i <= |chains| && data.Valid()
      invariant data.lines + Copied(chains[i..], existing) == old(data.lines) + Copied(chains, existing)
    {
      ghost var was, rest := data.lines, Copied(chains[i + 1..], existing);
      assert chains[i..][1..] == chains[i + 1..];
      CopyChain(chains[i], existing, data);
      assert was + ([LineFor(chains[i], existing)] + rest) == was + [LineFor(chains[i], existing)] + rest;
      i := i + 1;
    }
  }

  /** A parsed line is the tidy line of its chain. */
  ghost predicate KeptLine(chain: string, line: string) {
    && |line| > |chain| + 2
    && line == ChainText(Chain(chain, line[|chain| + 2..])) && TidyChain(Chain(chain, line[|chain| + 2..]))
  }

  ghost predicate AllKept(m: map<string, string>) {
    forall c :: c in m ==> KeptLine(c, m[c])
  }

  predicate TidyOrBlank(s: string) {
    s == [] || Tidy(s)
  }

  lemma TrimIsTidy(left: string)
    requires OneLine(left) && (left != [] ==> left[0] != ' ')
    ensures TidyOrBlank(TrimRight(left))
  {
    TrimRightIsPrefix(left);
  }

  lemma LineReadIsTidy(data: string, i: nat)
    requires i <= |data|
    ensures TidyOrBlank(LineRead(data, i))
  {
    var raw := RawLine(data, i);
    var left := TrimLeft(raw);
    RawIsOneLine(data, i);
    TrimLeftIsSuffix(raw);
    if Terminated(data, i) {
      TrimIsTidy(left);
    } else if |left| > 1 {
      TrimIsTidy(left[..|left| - 1]);
    }
  }

  lemma {:induction false} RawIsOneLine(data: string, i: nat)
    requires i <= |data|
    ensures OneLine(RawLine(data, i))
    decreases |data| - i
  {
    if i < |data| && data[i] != '\n' {
      RawIsOneLine(data, i + 1);
      assert RawLine(data, i) == [data[i]] + RawLine(data, i + 1);
    }
  }

  lemma {:induction false} ReadAllIsTidy(data: string, i: nat)
    requires i <= |data|
    ensures forall l :: l in ReadAll(data, i) ==> TidyOrBlank(l)
    decreases |data| - i
  {
    if i < |data| {
      LineReadIsTidy(data, i);
      ReadAllIsTidy(data, NextIndex(data, i));
    }
  }

  lemma ChainLineIsKept(line: string)
    requires Tidy(line) && IsChainLine(line) && SpaceIndex(line) < |line|
    ensures KeptLine(line[1..SpaceIndex(line)], line)
  {
    var i := SpaceIndex(line);
    var chain := Chain(line[1..i], line[i + 1..]);
    assert line[i] == ' ' && line[0] == ':' && 0 < i < |line| - 1;
    SplitsAt(line, i);
    TidyParts(line, i);
    TextIsKept(chain, line);
  }

  lemma TextIsKept(chain: Chain, line: string)
    requires TidyChain(chain) && line == ChainText(chain)
    ensures KeptLine(chain.name, line)
  {
    assert line[|chain.name| + 2..] == chain.rest;
  }

  lemma TidyParts(line: string, i: nat)
    requires Tidy(line) && 0 < i < |line| - 1 && forall k :: 0 <= k < i ==> line[k] != ' '
    ensures TidyChain(Chain(line[1..i], line[i + 1..]))
  {
    Parts(line, 1, i);
    Parts(line, i + 1, |line|);
    NoSpaceIn(line, i);
    assert line[i + 1..|line|] == line[i + 1..];
  }

  lemma SplitsAt(line: string, i: nat)
    requires 0 < i < |line| && line[0] == ':' && line[i] == ' '
    ensures line == ChainText(Chain(line[1..i], line[i + 1..])) && |line[1..i]| + 2 == i + 1
  {
  }

  lemma NoSpaceIn(line: string, i: nat)
    requires 0 < i <= |line| && forall k :: 0 <= k < i ==> line[k] != ' '
    ensures ' ' !in line[1..i]
  {
    var name := line[1..i];
    forall k | 0 <= k < |name| ensures name[k] != ' ' { assert name[k] == line[k + 1]; }
  }

  lemma Parts(line: string, i: nat, j: nat)
    requires i <= j <= |line| && OneLine(line)
    ensures OneLine(line[i..j]) && (i < j ==> line[i..j][j - i - 1] == line[j - 1])
  {
    var part := line[i..j];
    forall k | 0 <= k < |part| ensures part[k] != '\n' { assert part[k] == line[i + k]; }
  }

  lemma {:induction false} ParsedAreKept(lines: seq<string>, found: map<string, string>)
    requires AllKept(found) && forall l :: l in lines ==> TidyOrBlank(l)
    ensures ParseTable(lines, found).Chains? ==> AllKept(ParseTable(lines, found).lines)
    decreases |lines|
  {
    if lines != [] && !EndsTable(lines[0]) {
      var line := lines[0];
      assert line in lines && TidyOrBlank(line);
      if IsChainLine(line) && SpaceIndex(line) < |line| {
        ChainLineIsKept(line);
        ParsedAreKept(lines[1..], found[line[1..SpaceIndex(line)] := line]);
      } else {
        ParsedAreKept(lines[1..], found);
      }
    }
  }

  lemma {:induction false} SeekKeepsTidy(lines: seq<string>, table: string)
    requires forall l :: l in lines ==> TidyOrBlank(l)
    ensures forall l :: l in SeekTable(lines, table) ==> TidyOrBlank(l)
  {
    if lines != [] { SeekKeepsTidy(lines[1..], table); }
  }

  /** Whatever the parser returns, for any data, are tidy lines of the chains they stand for. */
  lemma ParseKeepsLines(table: string, save: string)
    ensures Parse(table, ReadAll(save, 0)).Chains? ==> AllKept(Parse(table, ReadAll(save, 0)).lines)
  {
    ReadAllIsTidy(save, 0);
    SeekKeepsTidy(ReadAll(save, 0), table);
    ParsedAreKept(SeekTable(ReadAll(save, 0), table), map[]);
  }

  // Reprinting

  predicate TidyName(chain: string) {
    ' ' !in chain && OneLine(chain)
  }

  function RestOf(chain: string, existing: map<string, string>): string {
    if chain in existing && |existing[chain]| > |chain| + 2 then existing[chain][|chain| + 2..] else "- [0:0]"
  }

  function CopiedChains(chains: seq<string>, existing: map<string, string>): seq<Chain> {
    if chains == [] then [] else [Chain(chains[0], RestOf(chains[0], existing))] + CopiedChains(chains[1..], existing)
  }

  lemma RestIsKept(chain: string, existing: map<string, string>)
    requires AllKept(existing) && TidyName(chain)
    ensures ChainText(Chain(chain, RestOf(chain, existing))) == LineFor(chain, existing)
    ensures TidyChain(Chain(chain, RestOf(chain, existing)))
  {
    if chain in existing {
      assert KeptLine(chain, existing[chain]);
    } else {
      assert ChainText(Chain(chain, "- [0:0]")) == MakeChainLine(chain);
    }
  }

  lemma {:induction false} CopiedAreChains(chains: seq<string>, existing: map<string, string>)
    requires AllKept(existing) && forall c :: c in chains ==> TidyName(c)
    ensures ChainTexts(CopiedChains(chains, existing)) == Copied(chains, existing)
    ensures forall c :: c in CopiedChains(chains, existing) ==> TidyChain(c)
  {
    if chains != [] {
      assert chains[0] in chains;
      RestIsKept(chains[0], existing);
      CopiedAreChains(chains[1..], existing);
    }
  }

  lemma {:induction false} CopiedMap(chains: seq<string>, existing: map<string, string>, found: map<string, string>)
    requires AllKept(existing) && forall c :: c in chains ==> TidyName(c)
    ensures ChainMap(CopiedChains(chains, existing), found) == found + (map c | c in chains :: LineFor(c, existing))
    decreases |chains|
  {
    if chains != [] {
      var c := chains[0];
      assert c in chains;
      RestIsKept(c, existing);
      CopiedMap(chains[1..], existing, found[c := LineFor(c, existing)]);
    }
  }

  /** One table to print: its header, the copied lines of its chains, its rules and the end marker. */
  datatype Copy = Copy(table: string, existing: map<string, string>, chains: seq<string>, rules: seq<string>)

  function CopyLines(c: Copy): seq<string> {
    ["*" + c.table] + Copied(c.chains, c.existing) + c.rules + ["COMMIT"]
  }

  function AllCopies(copies: seq<Copy>): seq<string> {
    if copies == [] then [] else CopyLines(copies[0]) + AllCopies(copies[1..])
  }

  ghost predicate TidyCopy(c: Copy) {
    && AllKept(c.existing) && Tidy("*" + c.table)
    && (forall chain :: chain in c.chains ==> TidyName(chain)) && (forall r :: r in c.rules ==> Tidy(r) && IsRule(r))
  }

  function TableOf(c: Copy): Table {
    Table([], c.table, CopiedChains(c.chains, c.existing), c.rules)
  }

  function TablesOf(copies: seq<Copy>): seq<Table> {
    if copies == [] then [] else [TableOf(copies[0])] + TablesOf(copies[1..])
  }

  lemma CopyIsTable(c: Copy)
    requires TidyCopy(c)
    ensures TidyTable(TableOf(c)) && TableLines(TableOf(c)) == CopyLines(c)
  {
    CopiedAreChains(c.chains, c.existing);
  }

  lemma {:induction false} CopiesAreDump(copies: seq<Copy>)
    requires forall c :: c in copies ==> TidyCopy(c)
    ensures DumpLines(TablesOf(copies)) == AllCopies(copies)
    ensures forall t :: t in TablesOf(copies) ==> TidyTable(t)
    ensures |TablesOf(copies)| == |copies| && forall i :: 0 <= i < |copies| ==> TablesOf(copies)[i] == TableOf(copies[i])
  {
    if copies != [] {
      var first, rest := TableOf(copies[0]), TablesOf(copies[1..]);
      assert copies[0] in copies;
      CopyIsTable(copies[0]);
      CopiesAreDump(copies[1..]);
      assert ([first] + rest)[1..] == rest;
    }
  }

  /** Any number of tables printed one after the other: asking for one of them gives each of its chains the line it had,
      or the line made for it, unless the name of an earlier table begins with its name. */
  lemma ReprintTables(copies: seq<Copy>, k: nat)
    requires k < |copies| && forall c :: c in copies ==> TidyCopy(c)
    requires forall j :: 0 <= j < k ==> !HasPrefix(copies[j].table, copies[k].table)
    ensures Parse(copies[k].table, ReadAll(Print(AllCopies(copies)), 0))
         == Chains(map c | c in copies[k].chains :: LineFor(c, copies[k].existing))
  {
    CopiesAreDump(copies);
    assert copies[k] in copies;
    CopyReadsBack(copies, TablesOf(copies), AllCopies(copies), k);
    CopiedLines(copies[k]);
  }

  lemma CopiedLines(c: Copy)
    requires TidyCopy(c)
    ensures ChainMap(TableOf(c).chains, map[]) == map chain | chain in c.chains :: LineFor(chain, c.existing)
  {
    CopiedMap(c.chains, c.existing, map[]);
  }

  lemma CopyReadsBack(copies: seq<Copy>, ts: seq<Table>, lines: seq<string>, k: nat)
    requires (forall t :: t in ts ==> TidyTable(t)) && lines == DumpLines(ts)
    requires k < |copies| == |ts| && forall i :: 0 <= i < |ts| ==> ts[i] == TableOf(copies[i])
    requires forall j :: 0 <= j < k ==> !HasPrefix(copies[j].table, copies[k].table)
    ensures Parse(copies[k].table, ReadAll(Print(lines), 0)) == Chains(ChainMap(TableOf(copies[k]).chains, map[]))
  {
    ReadsBack(ts, lines, k);
  }

  lemma ReadsBack(ts: seq<Table>, lines: seq<string>, k: nat)
    requires (forall t :: t in ts ==> TidyTable(t)) && lines == DumpLines(ts)
    requires k < |ts| && forall j :: 0 <= j < k ==> !HasPrefix(ts[j].name, ts[k].name)
    ensures Parse(ts[k].name, ReadAll(Print(lines), 0)) == Chains(ChainMap(ts[k].chains, map[]))
  {
    PrintThenParse(ts, ts[k].name);
    FindsOwnTable(ts, k);
  }

  /** What the backend writes: the filter table and the nat table in one buffer. */
  function Restored(ef: map<string, string>, cf: seq<string>, rf: seq<string>, en: map<string, string>, cn: seq<string>, rn: seq<string>): string {
    Print((["*filter"] + Copied(cf, ef) + rf + ["COMMIT"]) + (["*nat"] + Copied(cn, en) + rn + ["COMMIT"]))
  }

  /** Chain lines taken from any data, copied for lists of chains, printed as the filter and the nat table and parsed
      again: in both tables each listed chain has the line it had, or the line made for it. */
  lemma ReprintThenParse(saveF: string, saveN: string, cf: seq<string>, cn: seq<string>, rf: seq<string>, rn: seq<string>)
    requires Parse("filter", ReadAll(saveF, 0)).Chains? && Parse("nat", ReadAll(saveN, 0)).Chains?
    requires (forall c :: c in cf ==> TidyName(c)) && (forall c :: c in cn ==> TidyName(c))
    requires (forall r :: r in rf ==> Tidy(r) && IsRule(r)) && (forall r :: r in rn ==> Tidy(r) && IsRule(r))
    ensures (var ef, en := Parse("filter", ReadAll(saveF, 0)).lines, Parse("nat", ReadAll(saveN, 0)).lines;
             var printed := Restored(ef, cf, rf, en, cn, rn);
             && Parse("filter", ReadAll(printed, 0)) == Chains(map c | c in cf :: LineFor(c, ef))
             && Parse("nat", ReadAll(printed, 0)) == Chains(map c | c in cn :: LineFor(c, en)))
  {
    ParseKeepsLines("filter", saveF);
    ParseKeepsLines("nat", saveN);
    RestoredBoth(Parse("filter", ReadAll(saveF, 0)).lines, cf, rf, Parse("nat", ReadAll(saveN, 0)).lines, cn, rn);
  }

  lemma RestoredBoth(ef: map<string, string>, cf: seq<string>, rf: seq<string>, en: map<string, string>, cn: seq<string>, rn: seq<string>)
    requires AllKept(ef) && AllKept(en)
    requires (forall c :: c in cf ==> TidyName(c)) && (forall c :: c in cn ==> TidyName(c))
    requires (forall r :: r in rf ==> Tidy(r) && IsRule(r)) && (forall r :: r in rn ==> Tidy(r) && IsRule(r))
    ensures Parse("filter", ReadAll(Restored(ef, cf, rf, en, cn, rn), 0)) == Chains(map c | c in cf :: LineFor(c, ef))
    ensures Parse("nat", ReadAll(Restored(ef, cf, rf, en, cn, rn), 0)) == Chains(map c | c in cn :: LineFor(c, en))
  {
    var filter, nat_ := Copy("filter", ef, cf, rf), Copy("nat", en, cn, rn);
    TwoCopies(filter, nat_);
    assert !HasPrefix("filter", "nat") by { assert "filter"[0] != "nat"[0]; }
    assert Tidy("*filter") && Tidy("*nat") && "*" + "filter" == "*filter" && "*" + "nat" == "*nat";
    ReprintTables([filter, nat_], 0);
    ReprintTables([filter, nat_], 1);
  }

  lemma TwoCopies(a: Copy, b: Copy)
    ensures AllCopies([a, b]) == CopyLines(a) + CopyLines(b)
  {
    assert [a, b][1..] == [b] && [b][1..] == [];
    assert AllCopies([b]) == CopyLines(b) + AllCopies([]);
  }

  /** Copying the very chains that were parsed, the filter and the nat table read back as they were. */
  lemma ReprintIsIdentity(saveF: string, saveN: string, cf: seq<string>, cn: seq<string>, rf: seq<string>, rn: seq<string>)
    requires Parse("filter", ReadAll(saveF, 0)).Chains? && Parse("nat", ReadAll(saveN, 0)).Chains?
    requires forall c :: c in cf <==> c in Parse("filter", ReadAll(saveF, 0)).lines
    requires forall c :: c in cn <==> c in Parse("nat", ReadAll(saveN, 0)).lines
    requires (forall r :: r in rf ==> Tidy(r) && IsRule(r)) && (forall r :: r in rn ==> Tidy(r) && IsRule(r))
    ensures (var ef, en := Parse("filter", ReadAll(saveF, 0)).lines, Parse("nat", ReadAll(saveN, 0)).lines;
             var printed := Restored(ef, cf, rf, en, cn, rn);
             Parse("filter", ReadAll(printed, 0)) == Chains(ef) && Parse("nat", ReadAll(printed, 0)) == Chains(en))
  {
    ParseKeepsLines("filter", saveF);
    ParseKeepsLines("nat", saveN);
    var ef, en := Parse("filter", ReadAll(saveF, 0)).lines, Parse("nat", ReadAll(saveN, 0)).lines;
    OwnLines(ef, cf);
    OwnLines(en, cn);
    RestoredBoth(ef, cf, rf, en, cn, rn);
  }

  lemma OwnLines(existing: map<string, string>, chains: seq<string>)
    requires AllKept(existing) && forall c :: c in chains <==> c in existing
    ensures (forall c :: c in chains ==> TidyName(c)) && (map c | c in chains :: LineFor(c, existing)) == existing
  {
    forall c | c in chains ensures TidyName(c) { assert KeptLine(c, existing[c]); }
  }
}
