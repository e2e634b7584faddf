/**
 The munin config reader, `configparser.read`: a left fold over the lines of a
 config file that carries the current section and fills the settings tree,
 failing on the first malformed line.
 */
module ConfigParser {
  import opened Results
  import opened Text
  import opened ConfTree

  /** The exceptions `read` lets escape. */
  datatype ParseError =
    | MalformedLine(line: string)             // not exactly two tokens: ValueError from the unpacking
    | SectionWithoutGroup(name: string)       // `[name]` with neither `;` nor `.`: IndexError
    | SectionWithManySemicolons(name: string) // two or more `;`: ValueError from the unpacking

  /** The three kinds of line: ignored, a section header `[name]`, or a
      key/value entry, each with its comment and surrounding whitespace gone. */
  datatype Line = Blank | Header(name: string) | Entry(text: string)

  /** The fold's accumulator: the tree so far and the current section. */
  datatype State = State(conf: Config, section: Section)

  /** A line as iterating over a file yields it: a newline can only end it. */
  predicate FileLine(raw: string) {
    forall i :: 0 <= i < |raw| - 1 ==> raw[i] != '\n'
  }

  /** Blank, or a comment from its first non-blank character on. */
  predicate IsSkipped(raw: string) {
    var line := Strip(raw);
    line == [] || line[0] == '#'
  }

  /** The line with surrounding whitespace, then the comment, then the
      whitespace this uncovers removed. */
  function Content(raw: string): string {
    Strip(CutComment(Strip(raw)))
  }

  /** `^\[(.*)\]$`: wrapped in brackets, with no newline in between for `.` to miss. */
  predicate IsBracketed(s: string) {
    |s| >= 2 && s[0] == '[' && s[|s| - 1] == ']' && '\n' !in s[1..|s| - 1]
  }

  /** Strips a line, drops it if blank or a comment, cuts the comment off the
      rest and tells a section header from a key/value entry. What is left of
      a line that is not dropped is never empty. */
  function Classify(raw: string): (l: Line)
    ensures l.Blank? <==> IsSkipped(raw)
    ensures l.Header? ==> Content(raw) == "[" + l.name + "]" && '\n' !in l.name
    ensures l.Entry? ==> l.text == Content(raw) && !IsBracketed(l.text)
    ensures l.Entry? ==> l.text != [] && IsStripped(l.text)
  {
    var line := Strip(raw);
    if line == [] || line[0] == '#' then Blank
    else
      var content := Strip(CutComment(line));
      ContentFacts(raw);
      if IsBracketed(content) then
        var name := content[1..|content| - 1];
        assert content == "[" + name + "]";
        Header(name)
      else
        Entry(content)
  }

  /** On a file line no `#` survives classification: the comment marker
      never reaches a section name or an entry. */
  lemma ClassifyHashFree(raw: string)
    requires FileLine(raw)
    ensures Classify(raw).Header? ==> '#' !in Classify(raw).name
    ensures Classify(raw).Entry? ==> '#' !in Classify(raw).text
  {
    if !IsSkipped(raw) {
      ContentFacts(raw);
      var content := Content(raw);
      if IsBracketed(content) {
        SliceLacks(content, 1, |content| - 1, '#');
      }
    }
  }

  lemma ContentFacts(raw: string)
    requires !IsSkipped(raw)
    ensures Content(raw) != [] && IsStripped(Content(raw))
    ensures FileLine(raw) ==> '#' !in Content(raw)
  {
    var line := Strip(raw);
    var cut := CutComment(line);
    assert |cut| > 0 && cut[0] == line[0];
    StripKeepsHead(cut);
    if FileLine(raw) {
      StripFileLine(raw);
      StripLacks(cut, '#');
    }
  }

  /** A stripped file line holds no newline at all. */
  lemma StripFileLine(raw: string)
    requires FileLine(raw)
    ensures '\n' !in Strip(raw)
  {
    var (a, b) := StripBounds(raw);
    forall j | a <= j < b ensures raw[j] != '\n' {
      if j == b - 1 {
        assert !IsSpace(raw[j]);
      }
    }
    assert forall j :: 0 <= j < b - a ==> Strip(raw)[j] == raw[a + j];
  }

  /**
   The bracket contents of a section header, as the section they open. With
   no `;` the whole name is the host and what follows its first `.` is the
   group (no `.` is an error). With `;` there must be exactly one: the group
   is before it and the host after it, an empty host meaning the group's
   `__global` scope.
   */
  function ParseHeader(name: string): (r: Result<Section, ParseError>)
    ensures r.Ok? ==> r.value.Node?
    ensures ';' !in name ==> (r.Ok? <==> '.' in name)
    ensures ';' !in name && '.' !in name ==> r == Err(SectionWithoutGroup(name))
    ensures ';' !in name && r.Ok? ==>
      var g := r.value.group;
      && r.value.host == name
      && |g| < |name|
      && name == name[..|name| - |g| - 1] + "." + g
      && '.' !in name[..|name| - |g| - 1]
    ensures ';' in name ==> (r.Ok? <==> ';' !in name[Find(name, ';', 0) + 1..])
    ensures ';' in name && r.Err? ==> r == Err(SectionWithManySemicolons(name))
    ensures r.Ok? ==> r.value.host != []
    ensures ';' in name && r.Ok? ==>
      && ';' !in r.value.group
      && ';' !in r.value.host
      && (name == r.value.group + ";" + r.value.host
          || (r.value.host == GLOBAL && name == r.value.group + ";"))
  {
    if ';' !in name then
      var d := Find(name, '.', 0);
      if d == |name| then
        Err(SectionWithoutGroup(name))
      else
        assert name == name[..d] + "." + name[d + 1..];
        Ok(Node(name[d + 1..], name))
    else
      var parts := SplitOn(name, ';');
      var i := Find(name, ';', 0);
      assert parts == [name[..i]] + SplitOn(name[i + 1..], ';');
      if |parts| != 2 then
        Err(SectionWithManySemicolons(name))
      else
        var host := if parts[1] == [] then GLOBAL else parts[1];
        assert name == parts[0] + ";" + parts[1];
        Ok(Node(parts[0], host))
  }

  /** The section a header opens is named by parts of the header, so a
      character absent from the header (other than those of `__global`) is
      absent from the group and host names. */
  lemma ParseHeaderLacks(name: string, c: char)
    requires c !in name && c !in GLOBAL
    requires ParseHeader(name).Ok?
    ensures c !in ParseHeader(name).value.group
    ensures c !in ParseHeader(name).value.host
  {
    var sec := ParseHeader(name).value;
    if ';' !in name {
      var g := sec.group;
      PartsLack(name[..|name| - |g| - 1], ".", g, c);
    } else if name == sec.group + ";" + sec.host {
      PartsLack(sec.group, ";", sec.host, c);
    } else {
      PartsLack(sec.group, ";", [], c);
    }
  }

  lemma PartsLack(x: string, y: string, z: string, c: char)
    requires c !in x + y + z
    ensures c !in x && c !in z
  {
    assert forall k :: 0 <= k < |x| ==> (x + y + z)[k] == x[k];
    assert forall k :: 0 <= k < |z| ==> (x + y + z)[|x| + |y| + k] == z[k];
  }

  /** A header naming group `__global` makes the source store a host's map
      among the root settings; such lines are outside this model. */
  predicate InScope(raw: string) {
    match Classify(raw)
    case Header(name) => !(ParseHeader(name).Ok? && ParseHeader(name).value.group == GLOBAL)
    case _ => true
  }

  /**
   One iteration of `read`'s loop. A skipped line changes nothing; a header
   opens its section (creating the group and host only when missing) and
   makes it current; an entry must split into exactly two tokens, and stores
   the second under the first in the current section, nothing else changing.
   The section it leaves current always exists in the tree.
   */
  function Step(st: State, raw: string): (r: Result<State, ParseError>)
    requires IsOpen(st.conf, st.section)
    requires InScope(raw)
    ensures r.Ok? ==> IsOpen(r.value.conf, r.value.section)
  {
    match Classify(raw)
    case Blank => Ok(st)
    case Header(name) =>
      (match ParseHeader(name)
       case Err(e) => Err(e)
       case Ok(sec) =>
         assert sec.group != GLOBAL;
         Ok(State(Open(st.conf, sec.group, sec.host), sec)))
    case Entry(text) =>
      var tokens := SplitWs(text);
      if |tokens| != 2 then Err(MalformedLine(text))
      else
        var key := Strip(tokens[0]);
        var value := Strip(tokens[1]);
        assert key == tokens[0] && value == tokens[1] by {
          StripStripped(tokens[0]);
          StripStripped(tokens[1]);
        }
        Ok(State(Assign(st.conf, st.section, key, value), st.section))
  }

  /** A step never removes a group or host, keeps the tree's shape invariant,
      and leaves everything as it was on a blank or comment line. */
  lemma {:induction false} StepKeeps(st: State, raw: string)
    requires IsOpen(st.conf, st.section) && InScope(raw)
    ensures Step(st, raw).Ok? ==> Grows(st.conf, Step(st, raw).value.conf)
    ensures Step(st, raw).Ok? && WellFormed(st.conf) ==> WellFormed(Step(st, raw).value.conf)
    ensures IsSkipped(raw) ==> Step(st, raw) == Ok(st)
  {
    match Classify(raw)
    case Blank =>
    case Header(name) =>
      if ParseHeader(name).Ok? {
        var sec := ParseHeader(name).value;
        assert sec.group != GLOBAL;
        assert Step(st, raw) == Ok(State(Open(st.conf, sec.group, sec.host), sec));
      }
    case Entry(text) =>
  }

  /** A section header makes the section it names current; the step fails
      exactly when the header does, and every scope that existed before reads
      as before. */
  lemma StepHeader(st: State, raw: string, name: string)
    requires IsOpen(st.conf, st.section) && InScope(raw)
    requires Classify(raw) == Header(name)
    ensures var r := Step(st, raw);
      var h := ParseHeader(name);
      && (r.Ok? <==> h.Ok?)
      && (r.Err? ==> r.error == h.error)
      && (r.Ok? ==> r.value.section == h.value)
      && (r.Ok? ==> forall s, k :: IsOpen(st.conf, s) ==> Lookup(r.value.conf, s, k) == Lookup(st.conf, s, k))
  {
  }

  /** An entry line must split into exactly two tokens; the second is then
      stored under the first in the current section and nothing else changes. */
  lemma StepEntry(st: State, raw: string, text: string)
    requires IsOpen(st.conf, st.section) && InScope(raw)
    requires Classify(raw) == Entry(text)
    ensures var r := Step(st, raw);
      var tokens := SplitWs(text);
      && (r.Ok? <==> |tokens| == 2)
      && (r.Err? ==> r.error == MalformedLine(text))
      && (r.Ok? ==> r.value.section == st.section)
      && (r.Ok? ==> forall s, k :: Lookup(r.value.conf, s, k) ==
                      (if s == st.section && k == tokens[0] then Some(tokens[1]) else Lookup(st.conf, s, k)))
  {
    var tokens := SplitWs(text);
    if |tokens| == 2 {
      StripStripped(tokens[0]);
      StripStripped(tokens[1]);
    }
  }

  /** `read`'s loop from a given state over the remaining lines, stopping at
      the first error. The section current at the end exists in the tree. */
  function Run(st: State, lines: seq<string>): (r: Result<State, ParseError>)
    requires IsOpen(st.conf, st.section)
    requires forall i :: 0 <= i < |lines| ==> InScope(lines[i])
    ensures r.Ok? ==> IsOpen(r.value.conf, r.value.section)
    decreases |lines|
  {
    if |lines| == 0 then Ok(st)
    else
      match Step(st, lines[0])
      case Err(e) => Err(e)
      case Ok(next) => Run(next, lines[1..])
  }

  /** Over a whole run the tree only grows, and its shape invariant holds
      throughout. */
  lemma {:induction false} RunKeeps(st: State, lines: seq<string>)
    requires IsOpen(st.conf, st.section)
    requires forall i :: 0 <= i < |lines| ==> InScope(lines[i])
    ensures Run(st, lines).Ok? ==> Grows(st.conf, Run(st, lines).value.conf)
    ensures Run(st, lines).Ok? && WellFormed(st.conf) ==> WellFormed(Run(st, lines).value.conf)
    decreases |lines|
  {
    if |lines| > 0 {
      StepKeeps(st, lines[0]);
      match Step(st, lines[0])
      case Err(_) =>
      case Ok(next) =>
        RunKeeps(next, lines[1..]);
    }
  }

  /** `read(file)` with the tree it accumulates into passed in explicitly;
      the current section starts at the root settings. Nothing already in the
      tree is lost, and a well-formed tree stays well-formed. */
  function Read(start: Config, lines: seq<string>): (r: Result<Config, ParseError>)
    requires forall i :: 0 <= i < |lines| ==> InScope(lines[i])
    ensures r.Ok? ==> Grows(start, r.value)
    ensures r.Ok? && WellFormed(start) ==> WellFormed(r.value)
  {
    RunKeeps(State(start, Root), lines);
    match Run(State(start, Root), lines)
    case Err(e) => Err(e)
    case Ok(st) => Ok(st.conf)
  }

  /** A first read, from `{'__global': {}}`: the result is well-formed. */
  function Parse(lines: seq<string>): (r: Result<Config, ParseError>)
    requires forall i :: 0 <= i < |lines| ==> InScope(lines[i])
    ensures r.Ok? ==> WellFormed(r.value)
  {
    Read(Initial(), lines)
  }
}
