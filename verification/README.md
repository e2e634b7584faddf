# munin-browser configuration reader, modelled in Dafny

munin-browser is a small web front end for munin. Its core has two parts:

- `read` reads a munin master configuration file into a nested dictionary.
  The root `__global` entry holds the global settings. Each other root key is
  a host group. A group maps host names to per-host settings, and its own
  `__global` entry holds the group-level settings.
- The `Munin` facade lists from that dictionary: the sorted group names, the
  sorted host names of a group, and the tree of non-empty groups that the web
  pages render.

This project models both parts as pure Dafny functions and methods and
proves their properties.

## Layout

- `results.dfy`, module `Results`: `Option` and `Result`.
- `text.dfy`, module `Text`: the string handling the source gets from Python 2
  and its three regular expressions.
  - Whitespace is the six ASCII characters that `str.strip` and `\s` match.
  - `Strip` models `str.strip`.
  - `CutComment` models `re.sub(r'#.*$', '', ...)`.
  - `SplitWs` models `re.split(r'\s+', ...)`, including the empty first and
    last pieces that a leading or trailing run produces.
  - `SplitOn` models `str.split(c)`.
- `order.dfy`, module `Order`: the bytewise order `sorted` uses on byte
  strings, and `SortedListing`, the sorted listing of a finite set of names.
- `conftree.dfy`, module `ConfTree`: the dictionary.
  - `Config` holds the root `__global` settings plus the groups.
  - A group's `__global` is an ordinary host key, as in the source.
  - `Open` models the two `setdefault` calls of a section header.
  - `Assign` models storing a key/value pair.
- `configparser.dfy`, module `ConfigParser`: `read` as a left fold over the
  lines.
  - `Classify` sorts a line into skipped, section header or entry.
  - `ParseHeader` reads a header's name.
  - `Step` is one loop iteration, `Run` is the loop, and `Read` and `Parse`
    are the whole read.
  - Errors are values: a malformed line, a header without a group, and a
    header with more than one `;`.
- `readproperties.dfy`, module `ReadProperties`: properties of the whole
  read.
  - Fail-fast behaviour.
  - Skipped lines change nothing.
  - Entries go to the root until the first header.
  - No `#` is ever stored.
  - What each kind of line does.
- `scenarios.dfy`, module `Scenarios`: complete reads of short files.
  - Each is stated for any names meeting its conditions.
  - `HostEntryRead` and `BareHostRead` are then instantiated on the headers
    of the repository's tests (`[hostgroup;hostname]`,
    `[localhost.localdomain]`). The setting
    `address 127.0.0.1` under `hostname` is made up for the example; the
    tests do not contain it.
- `model.dfy`, module `Munin`: `Groups`, `Hosts` and `Tree`.

The source writes into a module-level dictionary, so repeated calls
accumulate. The model passes that dictionary explicitly instead: `Read(start,
lines)` continues from `start`, and `Parse(lines)` starts from the initial
`{'__global': {}}`.

### A header without `;`

For a header without `;`, such as `[localhost.localdomain]`, the code keeps
the whole name as the host (`host = line`, muninbrowser/configparser.py:64)
and takes the text after the first dot as the group
(muninbrowser/configparser.py:65). The repository's tests expect host
`localhost.localdomain` in group `localdomain` (tests/parser.py:36-38). See
`ConfigParser.ParseHeader`, `ReadProperties.BareHeader` and
`Scenarios.LocalhostScenario`.

## Model

| member | source | states |
|---|---|---|
| Text.Strip | muninbrowser/configparser.py:48 | the result has no whitespace at either end and is never longer than the line |
| Text.StripTrims | muninbrowser/configparser.py:48 | the result is a contiguous part of the line, and everything removed before and after it is whitespace |
| Text.StripStripped | muninbrowser/configparser.py:84 | stripping a string that has no outer whitespace leaves it unchanged, so the second `strip` of a key or value is a no-op |
| Text.CutComment | muninbrowser/configparser.py:53 | the result is a prefix of the line; if anything was removed, the removed tail starts with `#` and holds no newline; on a single line no `#` remains |
| Text.CutCommentNoHash | muninbrowser/configparser.py:53 | a line without `#` is left unchanged by comment removal |
| Text.SplitWs | muninbrowser/configparser.py:78 | there is at least one piece; no piece contains whitespace; on a stripped non-empty line every piece is non-empty |
| Text.FieldsLack | muninbrowser/configparser.py:78 | a character absent from the line is absent from every piece of the split |
| Text.PairSplit | muninbrowser/configparser.py:78 | a key, a whitespace gap and a value split into exactly `[key, value]` |
| Text.PairSplitInverse | muninbrowser/configparser.py:78 | conversely, a stripped line that splits into two pieces is the first piece, a non-empty whitespace gap, then the second piece |
| Text.TripleSplit | muninbrowser/configparser.py:78-81 | three words joined by spaces split into three pieces, which `key, value = ...` rejects |
| Text.SplitOn | muninbrowser/configparser.py:67 | the pieces are free of the separator; there is exactly one piece iff the separator is absent; joining the pieces with the separator gives back the input |
| Order.BelowTransitive | muninbrowser/model.py:9-10 | the order `sorted` uses on byte strings is transitive |
| Order.BelowTotal | muninbrowser/model.py:9-10 | any two distinct names are ordered one way or the other |
| Order.BelowAsymmetric | muninbrowser/model.py:9-10 | no two names are each below the other |
| Order.Insert | muninbrowser/model.py:9-10 | inserting a new name into a strictly sorted listing keeps it strictly sorted and adds exactly that name |
| Order.SortedListing | muninbrowser/model.py:9-10 | `sorted` of a set of names is strictly increasing and holds exactly the set's names, each once |
| Order.SortedListingUnique | muninbrowser/model.py:25-26 | two strictly sorted listings of the same names are equal, so the listing is determined by the set alone |
| ConfTree.Open | muninbrowser/configparser.py:68-71 | afterwards the section exists; the group is added to the root keys; a new group gets exactly `__global` and the host, both empty; an existing group just gains the host; other groups and every existing scope read as before; a new scope reads empty; nothing is removed |
| ConfTree.Assign | muninbrowser/configparser.py:83-87 | the key reads the new value in the current scope, overwriting any earlier value; every other scope and key reads as before; no group or host appears or disappears |
| ConfTree.OpenHashFree | muninbrowser/configparser.py:68-71 | opening a section whose names have no `#` keeps the dictionary free of `#` |
| ConfTree.AssignHashFree | muninbrowser/configparser.py:83-87 | storing a key and value without `#` keeps the dictionary free of `#` |
| ConfigParser.Classify | muninbrowser/configparser.py:48-59 | a line is skipped iff it is blank or starts with `#` after stripping; a header is `[name]` with no newline in the name, taken from the comment-free stripped content; an entry is that content, non-empty, stripped and not bracketed |
| ConfigParser.ClassifyHashFree | muninbrowser/configparser.py:52-53 | on a line from a file, no `#` reaches a header name or an entry |
| ConfigParser.ParseHeader | muninbrowser/configparser.py:60-70 | without `;`: an error exactly when there is no `.`; otherwise the host is the whole name and the group is the text after the first `.`. With `;`: success iff there is exactly one `;`, which gives `group;host`; an empty host becomes `__global`; two or more `;` give the error |
| ConfigParser.ParseHeaderLacks | muninbrowser/configparser.py:63-70 | the group and host are cut from the header, so a character absent from the header and from `__global` is absent from both |
| ConfigParser.Step | muninbrowser/configparser.py:47-87 | after any successful step the current section exists in the dictionary |
| ConfigParser.StepKeeps | muninbrowser/configparser.py:48-50 | a blank or comment line leaves the dictionary and the current section unchanged; any step only adds groups and hosts, and every group keeps its `__global` |
| ConfigParser.StepHeader | muninbrowser/configparser.py:57-73 | a header step fails exactly when the name does not parse, with its error; otherwise the parsed section becomes current and every existing scope reads as before |
| ConfigParser.StepEntry | muninbrowser/configparser.py:77-87 | an entry step succeeds iff the line splits into exactly two pieces, and otherwise fails with the line; on success the section stays current, the key reads the value there, and every other scope and key reads as before |
| ConfigParser.Run | muninbrowser/configparser.py:46-89 | after a successful run the current section exists |
| ConfigParser.RunKeeps | muninbrowser/configparser.py:68-71 | over a whole read no group or host is lost, and a well-formed dictionary (every group has a `__global` entry) stays well-formed |
| ConfigParser.Read | muninbrowser/configparser.py:37-89 | reading into an existing dictionary keeps every group and host already in it, and keeps a well-formed dictionary well-formed |
| ConfigParser.Parse | muninbrowser/configparser.py:27-31 | a read that starts from `{'__global': {}}` yields a dictionary where `__global` is not a group and every group has its own `__global` |
| ReadProperties.RunAppend | muninbrowser/configparser.py:47-89 | reading `a + b` is reading `a` and then reading `b` from where `a` stopped, and fails if `a` fails |
| ReadProperties.MalformedLineAborts | muninbrowser/configparser.py:77-81 | a line the step rejects ends the whole read with that error, whatever follows it |
| ReadProperties.SkippedLineInert | muninbrowser/configparser.py:48-50 | inserting a blank or comment line anywhere does not change the outcome of the read |
| ReadProperties.HeaderlessRun | muninbrowser/configparser.py:83-84 | until the first header the current section stays at the root and no group is touched, so all settings go to the root `__global` |
| ReadProperties.EntryStepShape | muninbrowser/configparser.py:83-87 | an entry never changes the current section and never adds or removes a group or host; at the root it leaves the groups alone |
| ReadProperties.StepHashFree | muninbrowser/configparser.py:53 | one step on a file line keeps the dictionary free of `#` |
| ReadProperties.ReadHashFree | muninbrowser/configparser.py:52-53 | reading file lines into a `#`-free dictionary never stores a group, host, key or value containing `#` |
| ReadProperties.HeaderLineIs | muninbrowser/configparser.py:57-59 | `[name]` with no `#` or newline in the name is a header for exactly that name |
| ReadProperties.SemicolonHeader | muninbrowser/configparser.py:66-70 | `g;h` without further `;` names host `h` of group `g`, and `g;` names group `g`'s `__global` |
| ReadProperties.BareHeader | muninbrowser/configparser.py:63-65 | `short.domain` without `;`, where the short part has no dot, names host `short.domain` in group `domain` |
| ReadProperties.PlainLineIs | muninbrowser/configparser.py:75-78 | a stripped line without `#` that does not start with `[` is an entry holding the whole line |
| ReadProperties.EntryLineIs | muninbrowser/configparser.py:77-78 | `key value` is an entry that splits into exactly that key and value |
| Scenarios.HostEntryRead | muninbrowser/configparser.py:57-87 | reading `[g;h]` then `key value` gives group `g` with an empty `__global` and host `h` holding just that setting |
| Scenarios.GroupScopeRead | muninbrowser/configparser.py:69-71 | after `[g;h]`, `[g;]` and `key value`, the setting is in `g`'s `__global` and host `h` stays empty |
| Scenarios.BareHostRead | muninbrowser/configparser.py:63-65 | reading `[short.domain]` opens host `short.domain` in group `domain` |
| Scenarios.ThreeWordsRead | muninbrowser/configparser.py:77-81 | a line of three words aborts the read as malformed |
| Scenarios.LocalhostScenario | tests/parser.py:36-38 | reading `[localhost.localdomain]` gives group `localdomain` with host `localhost.localdomain` |
| Scenarios.HostnameScenario | tests/parser.py:33-35 | reading `[hostgroup;hostname]` then `address 127.0.0.1` gives group `hostgroup` with host `hostname` holding that setting; the test checks only the group and host, the setting is made up |
| Munin.Groups | muninbrowser/model.py:8-10 | strictly increasing; holds exactly the root keys not starting with `__`, that is, the groups with such names; never `__global` |
| Munin.Hosts | muninbrowser/model.py:22-26 | `None` exactly when the name is not a root key; otherwise the strictly increasing listing of that entry's keys not starting with `__`, so a group's `__global` is never a host |
| Munin.Tree | muninbrowser/model.py:12-20 | holds exactly the shown groups that have at least one shown host, each mapped to the sorted listing of its hosts; a group without hosts is absent |
| Munin.OpenShows | muninbrowser/model.py:13-19 | after a header naming a shown group and a shown host, that group appears in the tree |

## Left out

- File opening and iteration (muninbrowser/model.py:4-5, muninbrowser/configparser.py:47): the input is a sequence of lines.
- Logging of a malformed line (muninbrowser/configparser.py:80): only its effect, the error, is modelled.
- The exceptions the source raises are error values. `ValueError` from unpacking the whitespace split becomes `MalformedLine`. `IndexError` from a header without `.` or `;` becomes `SectionWithoutGroup`. `ValueError` from a header with two or more `;` becomes `SectionWithManySemicolons`. Because a module-level dictionary is not modelled, the changes that earlier lines made before the exception are not kept.
- ConfigParser.Step: requires `InScope`. This leaves out a header whose group is literally `__global`. The source would then store a host map among the root settings and mix the two levels, which the typed dictionary cannot express.
- The accumulation of the module-level dictionary across separate calls. `Read` takes the starting dictionary as a parameter instead.
- ReadProperties.ReadHashFree: assumes every line comes from iterating a file, so a newline can only be a line's last character. On a string with an inner newline, `#.*$` stops at the newline and a `#` before it survives.
- Munin.Hosts: requires that `__global` is not also a group name. Every dictionary `Parse` produces meets this. `Hosts("__global")` returns the root settings' key names, as the source's dictionary lookup does.
- muninbrowser/controller.py and muninbrowser/serve.py: web routing, templates and the server are not part of this model.
- setup.py: packaging metadata only.
- The `Group` and `Host` classes and the `.globals` and `.members` attributes that the repository's tests use. muninbrowser/model.py does not define them.
- Datafile, graph and meter data: no modelled file reads them.
- Unicode and encodings: lines are Python 2 byte strings, modelled as character sequences. Only the six ASCII whitespace characters count as whitespace.
