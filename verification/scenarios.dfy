/**
 Concrete reads the repository's tests and documentation describe, derived
 from the general lemmas rather than by evaluation.
 */
module Scenarios {
  import opened Results
  import opened Text
  import opened ConfTree
  import opened ConfigParser
  import opened ReadProperties

  /** A name usable inside a `[...]` header line. */
  predicate HeaderSafe(s: string) {
    ';' !in s && '#' !in s && '\n' !in s
  }

  /** A word usable as a key or value on an entry line. */
  predicate Word(s: string) {
    s != [] && NoSpace(s) && '#' !in s
  }

  /** The line `[g;h]` opens host `h` of group `g` (its `__global` when `h` is
      empty), from any open section. */
  lemma {:induction false} HostHeaderStep(st: State, g: string, h: string)
    requires IsOpen(st.conf, st.section)
    requires HeaderSafe(g) && HeaderSafe(h) && g != GLOBAL
    ensures InScope("[" + g + ";" + h + "]")
    ensures var host := if h == [] then GLOBAL else h;
      Step(st, "[" + g + ";" + h + "]") == Ok(State(Open(st.conf, g, host), Node(g, host)))
  {
    var name := g + ";" + h;
    assert "[" + name + "]" == "[" + g + ";" + h + "]";
    HeaderLineIs(name);
    SemicolonHeader(g, h);
    var host := if h == [] then GLOBAL else h;
    HeaderStepIs(st, "[" + name + "]", name, Node(g, host));
  }

  /** The line `key value` stores `value` under `key` in the current section. */
  lemma {:induction false} WordEntryStep(st: State, key: string, value: string)
    requires IsOpen(st.conf, st.section)
    requires Word(key) && Word(value) && key[0] != '['
    ensures InScope(key + " " + value)
    ensures Step(st, key + " " + value) == Ok(State(Assign(st.conf, st.section, key, value), st.section))
  {
    EntryLineIs(key, value);
    EntryStepIs(st, key + " " + value, key + " " + value, key, value);
  }

  /** A line that steps successfully runs, on its own, to that step's state. */
  lemma {:induction false} RunOne(st0: State, a: string, st1: State)
    requires IsOpen(st0.conf, st0.section) && InScope(a)
    requires Step(st0, a) == Ok(st1)
    ensures AllInScope([a]) && Run(st0, [a]) == Ok(st1)
  {
    assert [a][1..] == [];
  }

  /** Two runs that succeed one after the other run, joined, to the second's state. */
  lemma {:induction false} RunThen(st0: State, a: seq<string>, b: seq<string>, st1: State, st2: State)
    requires IsOpen(st0.conf, st0.section) && AllInScope(a) && AllInScope(b)
    requires Run(st0, a) == Ok(st1) && IsOpen(st1.conf, st1.section) && Run(st1, b) == Ok(st2)
    ensures AllInScope(a + b) && Run(st0, a + b) == Ok(st2)
  {
    RunAppend(st0, a, b);
  }

  /** The tree after `[g;h]` and `key value` from the initial tree. */
  lemma {:induction false} HostEntryTree(g: string, h: string, key: string, value: string)
    requires g != GLOBAL && h != GLOBAL
    ensures Open(Initial(), g, h) == Config(map[], map[g := map[GLOBAL := map[], h := map[]]])
    ensures Assign(Open(Initial(), g, h), Node(g, h), key, value)
      == Config(map[], map[g := map[GLOBAL := map[], h := map[key := value]]])
  {
    var grp: Group := map[GLOBAL := map[]];
    assert h !in grp;
    var conf1 := Config(map[], map[g := grp[h := map[]]]);
    assert Open(Initial(), g, h) == conf1;
    assert grp[h := map[]] == map[GLOBAL := map[], h := map[]];
    var grp1 := conf1.groups[g];
    assert Assign(conf1, Node(g, h), key, value) == Config(map[], map[g := grp1[h := grp1[h][key := value]]]);
    assert grp1[h := grp1[h][key := value]] == map[GLOBAL := map[], h := map[key := value]];
  }

  /** Lists of lines built one line at a time. */
  lemma ListShapes(a: string, b: string, c: string)
    ensures [a] + [b] == [a, b]
    ensures [a] + [b, c] == [a, b, c]
  {
  }

  /** Two lines that each run on their own run one after the other. */
  lemma {:induction false} RunPair(st0: State, a: string, b: string, st1: State, st2: State)
    requires IsOpen(st0.conf, st0.section) && AllInScope([a]) && AllInScope([b])
    requires Run(st0, [a]) == Ok(st1) && IsOpen(st1.conf, st1.section) && Run(st1, [b]) == Ok(st2)
    ensures AllInScope([a, b]) && Run(st0, [a, b]) == Ok(st2)
  {
    ListShapes(a, b, b);
    RunThen(st0, [a], [b], st1, st2);
  }

  /** The line `[g;h]` read on its own from `st`. */
  lemma {:induction false} HostHeaderRun(st: State, g: string, h: string)
    requires IsOpen(st.conf, st.section)
    requires HeaderSafe(g) && HeaderSafe(h) && g != GLOBAL
    ensures var host := if h == [] then GLOBAL else h;
      && AllInScope(["[" + g + ";" + h + "]"])
      && Run(st, ["[" + g + ";" + h + "]"]) == Ok(State(Open(st.conf, g, host), Node(g, host)))
  {
    HostHeaderStep(st, g, h);
    var host := if h == [] then GLOBAL else h;
    RunOne(st, "[" + g + ";" + h + "]", State(Open(st.conf, g, host), Node(g, host)));
  }

  /** `[g;]` is `[g;h]` with an empty host. */
  lemma GroupHeaderText(g: string)
    ensures "[" + g + ";" + [] + "]" == "[" + g + ";]"
  {
    assert g + ";" + [] == g + ";";
  }

  /** The line `[g;]` read on its own from `st` opens the group's `__global`. */
  lemma {:induction false} GroupHeaderRun(st: State, g: string)
    requires IsOpen(st.conf, st.section)
    requires HeaderSafe(g) && g != GLOBAL
    ensures && AllInScope(["[" + g + ";]"])
      && Run(st, ["[" + g + ";]"]) == Ok(State(Open(st.conf, g, GLOBAL), Node(g, GLOBAL)))
  {
    GroupHeaderText(g);
    HostHeaderRun(st, g, []);
  }

  /** The line `key value` read on its own from `st`. */
  lemma {:induction false} WordEntryRun(st: State, key: string, value: string)
    requires IsOpen(st.conf, st.section)
    requires Word(key) && Word(value) && key[0] != '['
    ensures && AllInScope([key + " " + value])
      && Run(st, [key + " " + value]) == Ok(State(Assign(st.conf, st.section, key, value), st.section))
  {
    WordEntryStep(st, key, value);
    RunOne(st, key + " " + value, State(Assign(st.conf, st.section, key, value), st.section));
  }

  /** The two steps of `[g;h]` then `key value`, as one run. */
  lemma {:induction false} HostEntryRun(g: string, h: string, key: string, value: string)
    requires HeaderSafe(g) && HeaderSafe(h) && g != GLOBAL
    requires h != []
    requires Word(key) && Word(value) && key[0] != '['
    ensures var lines := ["[" + g + ";" + h + "]", key + " " + value];
      var conf1 := Open(Initial(), g, h);
      && AllInScope(lines)
      && Run(State(Initial(), Root), lines) == Ok(State(Assign(conf1, Node(g, h), key, value), Node(g, h)))
  {
    var a, b := "[" + g + ";" + h + "]", key + " " + value;
    var st0 := State(Initial(), Root);
    HostHeaderRun(st0, g, h);
    var st1 := State(Open(Initial(), g, h), Node(g, h));
    WordEntryRun(st1, key, value);
    var st2 := State(Assign(st1.conf, st1.section, key, value), st1.section);
    RunPair(st0, a, b, st1, st2);
  }

  /**
   A host header followed by one entry: `[g;h]` then `key value` yields
   group `g` holding an empty `__global` scope and host `h` with the one
   setting, and no root settings.
   */
  lemma {:induction false} HostEntryRead(g: string, h: string, key: string, value: string)
    requires HeaderSafe(g) && HeaderSafe(h) && g != GLOBAL
    requires h != [] && h != GLOBAL
    requires Word(key) && Word(value) && key[0] != '['
    ensures AllInScope(["[" + g + ";" + h + "]", key + " " + value])
    ensures Parse(["[" + g + ";" + h + "]", key + " " + value])
      == Ok(Config(map[], map[g := map[GLOBAL := map[], h := map[key := value]]]))
  {
    HostEntryRun(g, h, key, value);
    HostEntryTree(g, h, key, value);
  }

  /** A line that runs on its own, followed by lines that run from where it
      left off. */
  lemma {:induction false} RunPrepend(st0: State, a: string, rest: seq<string>, st1: State, st2: State)
    requires IsOpen(st0.conf, st0.section) && AllInScope([a]) && AllInScope(rest)
    requires Run(st0, [a]) == Ok(st1) && IsOpen(st1.conf, st1.section) && Run(st1, rest) == Ok(st2)
    ensures AllInScope([a] + rest) && Run(st0, [a] + rest) == Ok(st2)
  {
    RunThen(st0, [a], rest, st1, st2);
  }

  /** The trees along `[g;h]`, `[g;]`, `key value` from the initial tree:
      reopening the group's `__global` changes nothing. */
  lemma {:induction false} GroupScopeTree(g: string, h: string, key: string, value: string)
    requires g != GLOBAL && h != GLOBAL
    ensures var conf1 := Config(map[], map[g := map[GLOBAL := map[], h := map[]]]);
      && Open(Initial(), g, h) == conf1
      && Open(conf1, g, GLOBAL) == conf1
      && Assign(conf1, Node(g, GLOBAL), key, value)
         == Config(map[], map[g := map[GLOBAL := map[key := value], h := map[]]])
  {
    HostEntryTree(g, h, key, value);
    var grp: Group := map[GLOBAL := map[], h := map[]];
    var conf1 := Config(map[], map[g := grp]);
    assert GLOBAL in grp;
    assert Open(conf1, g, GLOBAL) == Config(map[], conf1.groups[g := grp]);
    assert conf1.groups[g := grp] == conf1.groups;
    assert Assign(conf1, Node(g, GLOBAL), key, value) == Config(map[], map[g := grp[GLOBAL := grp[GLOBAL][key := value]]]);
    assert grp[GLOBAL := grp[GLOBAL][key := value]] == map[GLOBAL := map[key := value], h := map[]];
  }

  /** The three steps of `[g;h]`, `[g;]`, `key value`, as one run. */
  lemma {:induction false} GroupScopeRun(g: string, h: string, key: string, value: string)
    requires HeaderSafe(g) && HeaderSafe(h) && g != GLOBAL
    requires h != [] && h != GLOBAL
    requires Word(key) && Word(value) && key[0] != '['
    ensures var conf1 := Config(map[], map[g := map[GLOBAL := map[], h := map[]]]);
      var lines := ["[" + g + ";" + h + "]", "[" + g + ";]", key + " " + value];
      && AllInScope(lines)
      && Run(State(Initial(), Root), lines)
         == Ok(State(Assign(conf1, Node(g, GLOBAL), key, value), Node(g, GLOBAL)))
  {
    GroupScopeTree(g, h, key, value);
    var conf1 := Config(map[], map[g := map[GLOBAL := map[], h := map[]]]);
    var a, b, c := "[" + g + ";" + h + "]", "[" + g + ";]", key + " " + value;
    var st0 := State(Initial(), Root);
    HostHeaderRun(st0, g, h);
    var st1 := State(conf1, Node(g, h));
    GroupHeaderRun(st1, g);
    var st2 := State(conf1, Node(g, GLOBAL));
    WordEntryRun(st2, key, value);
    var st3 := State(Assign(conf1, Node(g, GLOBAL), key, value), Node(g, GLOBAL));
    RunPair(st1, b, c, st2, st3);
    ListShapes(a, b, c);
    RunPrepend(st0, a, [b, c], st1, st3);
  }

  /**
   `[g;]` selects the group's own `__global` scope: after `[g;h]`, `[g;]`,
   `key value`, the setting lands in `g`'s `__global` and host `h` stays
   empty.
   */
  lemma {:induction false} GroupScopeRead(g: string, h: string, key: string, value: string)
    requires HeaderSafe(g) && HeaderSafe(h) && g != GLOBAL
    requires h != [] && h != GLOBAL
    requires Word(key) && Word(value) && key[0] != '['
    ensures AllInScope(["[" + g + ";" + h + "]", "[" + g + ";]", key + " " + value])
    ensures Parse(["[" + g + ";" + h + "]", "[" + g + ";]", key + " " + value])
      == Ok(Config(map[], map[g := map[GLOBAL := map[key := value], h := map[]]]))
  {
    GroupScopeRun(g, h, key, value);
    GroupScopeTree(g, h, key, value);
  }

  /** A dotted name is never the reserved `__global`. */
  lemma DottedNotGlobal(short: string, domain: string)
    ensures short + "." + domain != GLOBAL
  {
    var name := short + "." + domain;
    assert name[|short|] == '.';
    assert '.' !in GLOBAL;
  }

  /** The line `[short.domain]` read on its own from the initial tree. */
  lemma {:induction false} BareHostRun(short: string, domain: string)
    requires HeaderSafe(short) && HeaderSafe(domain) && '.' !in short
    requires domain != GLOBAL
    ensures short + "." + domain != GLOBAL
    ensures var name := short + "." + domain;
      && AllInScope(["[" + short + "." + domain + "]"])
      && Run(State(Initial(), Root), ["[" + short + "." + domain + "]"])
         == Ok(State(Open(Initial(), domain, name), Node(domain, name)))
  {
    var name := short + "." + domain;
    DottedNotGlobal(short, domain);
    assert "[" + name + "]" == "[" + short + "." + domain + "]";
    HeaderLineIs(name);
    BareHeader(short, domain);
    var st := State(Initial(), Root);
    HeaderStepIs(st, "[" + name + "]", name, Node(domain, name));
    RunOne(st, "[" + name + "]", State(Open(Initial(), domain, name), Node(domain, name)));
  }

  /** A fully qualified header `[short.domain]` opens host `short.domain` (the
      whole name) in group `domain`, which gets an empty `__global` scope. */
  lemma {:induction false} BareHostRead(short: string, domain: string)
    requires HeaderSafe(short) && HeaderSafe(domain) && '.' !in short
    requires domain != GLOBAL
    ensures AllInScope(["[" + short + "." + domain + "]"])
    ensures Parse(["[" + short + "." + domain + "]"])
      == Ok(Config(map[], map[domain := map[GLOBAL := map[], short + "." + domain := map[]]]))
  {
    BareHostRun(short, domain);
    HostEntryTree(domain, short + "." + domain, [], []);
  }

  /** An entry line of three words is malformed and aborts the read. */
  lemma {:induction false} ThreeWordsRead(a: string, b: string, c: string)
    requires Word(a) && Word(b) && Word(c) && a[0] != '['
    ensures AllInScope([a + " " + b + " " + c])
    ensures Parse([a + " " + b + " " + c]) == Err(MalformedLine(a + " " + b + " " + c))
  {
    var raw := a + " " + b + " " + c;
    assert raw[0] == a[0] && raw[|raw| - 1] == c[|c| - 1];
    assert '#' !in raw;
    PlainLineIs(raw);
    TripleSplit(a, b, c);
    var st := State(Initial(), Root);
    assert Step(st, raw) == Err(MalformedLine(raw));
    RunCons(st, raw, []);
    assert [raw] + [] == [raw];
  }

  /** The test configuration's `[localhost.localdomain]` header: group
      `localdomain` lists host `localhost.localdomain`. */
  lemma LocalhostScenario()
    ensures AllInScope(["[localhost.localdomain]"])
    ensures Parse(["[localhost.localdomain]"])
      == Ok(Config(map[], map["localdomain" := map[GLOBAL := map[], "localhost.localdomain" := map[]]]))
  {
    LocalhostSafe();
    LocalhostJoined();
    BareHostRead("localhost", "localdomain");
  }

  lemma LocalhostSafe()
    ensures HeaderSafe("localhost") && HeaderSafe("localdomain") && '.' !in "localhost"
    ensures "localdomain" != GLOBAL
  {
  }

  lemma LocalhostJoined()
    ensures "[" + "localhost" + "." + "localdomain" + "]" == "[localhost.localdomain]"
    ensures "localhost" + "." + "localdomain" == "localhost.localdomain"
  {
  }

  /** The test configuration's host `hostname` of group `hostgroup`, given
      an example setting `address 127.0.0.1` that the tests do not contain. */
  lemma HostnameScenario()
    ensures AllInScope(["[hostgroup;hostname]", "address 127.0.0.1"])
    ensures Parse(["[hostgroup;hostname]", "address 127.0.0.1"])
      == Ok(Config(map[], map["hostgroup" := map[GLOBAL := map[], "hostname" := map["address" := "127.0.0.1"]]]))
  {
    HostnameSafe();
    AddressWords();
    HostnameJoined();
    HostEntryRead("hostgroup", "hostname", "address", "127.0.0.1");
  }

  lemma HostnameSafe()
    ensures HeaderSafe("hostgroup") && HeaderSafe("hostname")
    ensures "hostgroup" != GLOBAL && "hostname" != GLOBAL
  {
  }

  lemma AddressWords()
    ensures Word("address")
    ensures Word("127.0.0.1")
  {
    AddressWord();
    LoopbackWord();
  }

  lemma AddressWord()
    ensures Word("address")
  {
    NoSpaceChars("address");
  }

  lemma LoopbackWord()
    ensures Word("127.0.0.1")
  {
    NoSpaceChars("127.0.0.1");
  }

  lemma HostnameJoined()
    ensures "[" + "hostgroup" + ";" + "hostname" + "]" == "[hostgroup;hostname]"
    ensures "address" + " " + "127.0.0.1" == "address 127.0.0.1"
  {
  }
}
