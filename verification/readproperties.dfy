/**
 Properties of the config reader as a whole: how the fold composes, that one
 malformed line sinks the whole read, that comments are inert, that no `#`
 is ever stored, and what each kind of line does.
 */
module ReadProperties {
  import opened Results
  import opened Text
  import opened ConfTree
  import opened ConfigParser

  predicate AllInScope(lines: seq<string>) {
    forall i :: 0 <= i < |lines| ==> InScope(lines[i])
  }

  /** Reading `a + b` is reading `a`, then reading `b` from where `a` left off. */
  lemma {:induction false} RunAppend(st: State, a: seq<string>, b: seq<string>)
    requires IsOpen(st.conf, st.section)
    requires AllInScope(a) && AllInScope(b)
    ensures AllInScope(a + b)
    ensures Run(st, a + b) == match Run(st, a)
      case Err(e) => Err(e)
      case Ok(mid) => Run(mid, b)
    decreases |a|
  {
    assert AllInScope(a + b) by {
      forall i | 0 <= i < |a + b| ensures InScope((a + b)[i]) {
        if i < |a| { assert (a + b)[i] == a[i]; } else { assert (a + b)[i] == b[i - |a|]; }
      }
    }
    if |a| == 0 {
      assert a + b == b;
    } else {
      assert (a + b)[0] == a[0];
      assert (a + b)[1..] == a[1..] + b;
      match Step(st, a[0])
      case Err(e) =>
      case Ok(next) =>
        RunAppend(next, a[1..], b);
    }
  }

  /** Reading one line more is one more step. */
  lemma {:induction false} RunCons(st: State, raw: string, rest: seq<string>)
    requires IsOpen(st.conf, st.section)
    requires InScope(raw) && AllInScope(rest)
    ensures AllInScope([raw] + rest)
    ensures Step(st, raw).Ok? ==> Run(st, [raw] + rest) == Run(Step(st, raw).value, rest)
    ensures Step(st, raw).Err? ==> Run(st, [raw] + rest) == Err(Step(st, raw).error)
  {
    assert ([raw] + rest)[0] == raw && ([raw] + rest)[1..] == rest;
    assert AllInScope([raw] + rest) by {
      forall i | 0 <= i < |[raw] + rest| ensures InScope(([raw] + rest)[i]) {
        if i > 0 {
          assert ([raw] + rest)[i] == rest[i - 1];
        }
      }
    }
  }

  lemma Regroup<T>(a: seq<T>, x: T, b: seq<T>)
    ensures a + [x] + b == a + ([x] + b)
  {
  }

  /** Fail fast: once the lines before it have been read, a line the step
      rejects ends the read with that line's error, whatever follows it. */
  lemma {:induction false} MalformedLineAborts(st: State, a: seq<string>, bad: string, b: seq<string>)
    requires IsOpen(st.conf, st.section)
    requires AllInScope(a) && InScope(bad) && AllInScope(b)
    requires Run(st, a).Ok?
    requires Step(Run(st, a).value, bad).Err?
    ensures AllInScope(a + [bad] + b)
    ensures Run(st, a + [bad] + b) == Err(Step(Run(st, a).value, bad).error)
  {
    var mid := Run(st, a).value;
    RunCons(mid, bad, b);
    Regroup(a, bad, b);
    RunAppend(st, a, [bad] + b);
  }

  /** A blank or comment line can be dropped from anywhere without changing
      the outcome of the read. */
  lemma {:induction false} SkippedLineInert(st: State, a: seq<string>, c: string, b: seq<string>)
    requires IsOpen(st.conf, st.section)
    requires AllInScope(a) && InScope(c) && AllInScope(b)
    requires IsSkipped(c)
    ensures AllInScope(a + [c] + b) && AllInScope(a + b)
    ensures Run(st, a + [c] + b) == Run(st, a + b)
  {
    Regroup(a, c, b);
    RunAppend(st, a, b);
    if Run(st, a).Ok? {
      var mid := Run(st, a).value;
      StepKeeps(mid, c);
      RunCons(mid, c, b);
      RunAppend(st, a, [c] + b);
    } else {
      RunCons(st, c, b);
      RunAppend(st, a, [c] + b);
    }
  }

  /** Until a section header is read, entries go to the root settings: the
      current section stays at the root and the groups are untouched. */
  lemma {:induction false} HeaderlessRun(conf: Config, lines: seq<string>)
    requires AllInScope(lines)
    requires forall i :: 0 <= i < |lines| ==> !Classify(lines[i]).Header?
    ensures Run(State(conf, Root), lines).Ok? ==>
      && Run(State(conf, Root), lines).value.section == Root
      && Run(State(conf, Root), lines).value.conf.groups == conf.groups
    decreases |lines|
  {
    if |lines| > 0 {
      var st := State(conf, Root);
      match Classify(lines[0])
      case Blank =>
        StepKeeps(st, lines[0]);
        HeaderlessRun(conf, lines[1..]);
      case Entry(text) =>
        EntryStepShape(st, lines[0], text);
        match Step(st, lines[0])
        case Err(_) =>
        case Ok(next) =>
          HeaderlessRun(next.conf, lines[1..]);
    }
  }

  /** A header line that parses steps into the section it names. */
  lemma {:induction false} HeaderStepIs(st: State, raw: string, name: string, sec: Section)
    requires IsOpen(st.conf, st.section)
    requires Classify(raw) == Header(name)
    requires ParseHeader(name) == Ok(sec) && sec.group != GLOBAL
    ensures InScope(raw)
    ensures Step(st, raw) == Ok(State(Open(st.conf, sec.group, sec.host), sec))
  {
  }

  /** A two-token entry line steps into storing its pair in the current section. */
  lemma {:induction false} EntryStepIs(st: State, raw: string, text: string, key: string, value: string)
    requires IsOpen(st.conf, st.section)
    requires Classify(raw) == Entry(text) && SplitWs(text) == [key, value]
    ensures InScope(raw)
    ensures Step(st, raw) == Ok(State(Assign(st.conf, st.section, key, value), st.section))
  {
    var t := SplitWs(text);
    assert NoSpace(t[0]) && NoSpace(t[1]);
    StripStripped(key);
    StripStripped(value);
  }

  /** A header line whose name does not parse fails the step with the
      header's error. */
  lemma {:induction false} HeaderStepFails(st: State, raw: string, name: string)
    requires IsOpen(st.conf, st.section) && InScope(raw)
    requires Classify(raw) == Header(name) && ParseHeader(name).Err?
    ensures Step(st, raw) == Err(ParseHeader(name).error)
  {
  }

  /** An entry line keeps the current section, adds no group or host, and at
      the root it leaves the groups alone. */
  lemma {:induction false} EntryStepShape(st: State, raw: string, text: string)
    requires IsOpen(st.conf, st.section) && InScope(raw)
    requires Classify(raw) == Entry(text)
    ensures Step(st, raw).Ok? ==> Step(st, raw).value.section == st.section
    ensures Step(st, raw).Ok? && st.section.Root? ==> Step(st, raw).value.conf.groups == st.conf.groups
    ensures Step(st, raw).Ok? ==> Step(st, raw).value.conf.groups.Keys == st.conf.groups.Keys
    ensures Step(st, raw).Ok? ==> forall g :: g in st.conf.groups ==>
      Step(st, raw).value.conf.groups[g].Keys == st.conf.groups[g].Keys
  {
    var tokens := SplitWs(text);
    if |tokens| == 2 {
      EntryStepIs(st, raw, text, tokens[0], tokens[1]);
    }
  }

  lemma {:induction false} HeaderHashFree(st: State, raw: string, name: string)
    requires IsOpen(st.conf, st.section) && InScope(raw) && HashFree(st.conf)
    requires Classify(raw) == Header(name) && '#' !in name
    ensures Step(st, raw).Ok? ==> HashFree(Step(st, raw).value.conf)
  {
    if ParseHeader(name).Ok? {
      ParseHeaderLacks(name, '#');
      var sec := ParseHeader(name).value;
      OpenHashFree(st.conf, sec.group, sec.host);
      HeaderStepIs(st, raw, name, sec);
    } else {
      HeaderStepFails(st, raw, name);
    }
  }

  lemma {:induction false} EntryHashFree(st: State, raw: string, text: string)
    requires IsOpen(st.conf, st.section) && InScope(raw) && HashFree(st.conf)
    requires Classify(raw) == Entry(text) && '#' !in text
    ensures Step(st, raw).Ok? ==> HashFree(Step(st, raw).value.conf)
  {
    var tokens := SplitWs(text);
    FieldsLack(text, 0, '#');
    if |tokens| == 2 {
      StripStripped(tokens[0]);
      StripStripped(tokens[1]);
      AssignHashFree(st.conf, st.section, tokens[0], tokens[1]);
      EntryStepIs(st, raw, text, tokens[0], tokens[1]);
    }
  }

  /** One step on a file line keeps the tree free of `#`. */
  lemma {:induction false} StepHashFree(st: State, raw: string)
    requires IsOpen(st.conf, st.section) && InScope(raw)
    requires FileLine(raw) && HashFree(st.conf)
    ensures Step(st, raw).Ok? ==> HashFree(Step(st, raw).value.conf)
  {
    ClassifyHashFree(raw);
    match Classify(raw)
    case Blank =>
    case Header(name) => HeaderHashFree(st, raw, name);
    case Entry(text) => EntryHashFree(st, raw, text);
  }

  /** Comments are cut before anything is stored: reading file lines into a
      tree without `#` never stores a group, host, key or value holding one. */
  lemma {:induction false} ReadHashFree(st: State, lines: seq<string>)
    requires IsOpen(st.conf, st.section) && AllInScope(lines)
    requires forall i :: 0 <= i < |lines| ==> FileLine(lines[i])
    requires HashFree(st.conf)
    ensures Run(st, lines).Ok? ==> HashFree(Run(st, lines).value.conf)
    decreases |lines|
  {
    if |lines| > 0 {
      StepHashFree(st, lines[0]);
      match Step(st, lines[0])
      case Err(_) =>
      case Ok(next) =>
        ReadHashFree(next, lines[1..]);
    }
  }

  /** `[name]` is a header for `name` when the name holds no `#` or newline. */
  lemma {:induction false} HeaderLineIs(name: string)
    requires '#' !in name && '\n' !in name
    ensures Classify("[" + name + "]") == Header(name)
  {
    var raw := "[" + name + "]";
    assert raw[0] == '[' && raw[|raw| - 1] == ']';
    StripStripped(raw);
    assert '#' !in raw && '\n' !in raw;
    CutCommentNoHash(raw);
    assert raw[1..|raw| - 1] == name;
  }

  /** `g;h` opens host `h` of group `g`, and `g;` the group's own scope. */
  lemma {:induction false} SemicolonHeader(g: string, h: string)
    requires ';' !in g && ';' !in h
    ensures ParseHeader(g + ";" + h) == Ok(Node(g, if h == [] then GLOBAL else h))
  {
    var name := g + ";" + h;
    assert forall k :: 0 <= k < |g| ==> name[k] == g[k];
    assert name[|g|] == ';';
    FindIs(name, ';', 0, |g|);
    assert name[..|g|] == g && name[|g| + 1..] == h;
    var tail := SplitOn(h, ';');
    assert tail == [h] by {
      assert |tail| == 1;
    }
  }

  /** `short.domain` without `;` names host `short.domain` in group `domain`
      when the short itself has no dot. */
  lemma {:induction false} BareHeader(short: string, domain: string)
    requires ';' !in short && ';' !in domain && '.' !in short
    ensures ParseHeader(short + "." + domain) == Ok(Node(domain, short + "." + domain))
  {
    var name := short + "." + domain;
    assert ';' !in name;
    assert forall k :: 0 <= k < |short| ==> name[k] == short[k];
    assert name[|short|] == '.';
    FindIs(name, '.', 0, |short|);
    assert name[|short| + 1..] == domain;
  }

  /** A stripped line without `#` that does not open with `[` is an entry
      holding the whole line. */
  lemma {:induction false} PlainLineIs(raw: string)
    requires raw != [] && IsStripped(raw) && '#' !in raw && raw[0] != '['
    ensures Classify(raw) == Entry(raw)
  {
    StripStripped(raw);
    CutCommentNoHash(raw);
  }

  /** `key value` is an entry that splits into exactly that key and value. */
  lemma {:induction false} EntryLineIs(key: string, value: string)
    requires key != [] && value != [] && NoSpace(key) && NoSpace(value)
    requires '#' !in key && '#' !in value && key[0] != '['
    ensures Classify(key + " " + value) == Entry(key + " " + value)
    ensures SplitWs(key + " " + value) == [key, value]
  {
    var raw := key + " " + value;
    assert raw[0] == key[0] && raw[|raw| - 1] == value[|value| - 1];
    StripStripped(raw);
    assert '#' !in raw;
    CutCommentNoHash(raw);
    PairSplit(key, " ", value);
  }
}
