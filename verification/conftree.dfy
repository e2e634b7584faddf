/**
 The nested settings tree the munin config parser builds. In the source it is
 one dict: the key `__global` holds the root settings and every other key is a
 group; a group maps host names to settings, and its own `__global` key holds
 the group-level settings. Here the root settings and the groups are two
 fields; inside a group `__global` stays an ordinary host key.
 */
module ConfTree {
  import opened Results

  /** The reserved key of a settings scope that is not a host. */
  const GLOBAL: string := "__global"

  type Settings = map<string, string>

  /** Host name (or GLOBAL) to that scope's settings. */
  type Group = map<string, Settings>

  datatype Config = Config(globals: Settings, groups: map<string, Group>)

  /** Where key/value lines go: the root settings before any section header,
      afterwards the scope the last header named. */
  datatype Section = Root | Node(group: string, host: string)

  /** The tree a fresh parse starts from, `{'__global': {}}`. */
  function Initial(): Config {
    Config(map[], map[])
  }

  /** The scope `sec` exists in `conf`, so settings can be stored in it. */
  predicate IsOpen(conf: Config, sec: Section) {
    match sec
    case Root => true
    case Node(g, h) => g in conf.groups && h in conf.groups[g]
  }

  /** The value stored for `key` in scope `sec`, if any; `tree[g][h][key]`. */
  function Lookup(conf: Config, sec: Section, key: string): Option<string> {
    match sec
    case Root =>
      if key in conf.globals then Some(conf.globals[key]) else None
    case Node(g, h) =>
      if g in conf.groups && h in conf.groups[g] && key in conf.groups[g][h]
      then Some(conf.groups[g][h][key])
      else None
  }

  /** Shape invariant of every tree a parse produces: no group collides with
      the root's reserved key, and every group has its `__global` scope. */
  predicate WellFormed(conf: Config) {
    && GLOBAL !in conf.groups
    && forall g :: g in conf.groups ==> GLOBAL in conf.groups[g]
  }

  /** No group or host of `conf` has disappeared in `conf'`. */
  predicate Grows(conf: Config, conf': Config) {
    && conf.groups.Keys <= conf'.groups.Keys
    && forall g :: g in conf.groups ==> conf.groups[g].Keys <= conf'.groups[g].Keys
  }

  /**
   A section header: `CONF.setdefault(g, {'__global': {}})` followed by
   `CONF[g].setdefault(h, {})`. The group and the host are created only when
   absent, so nothing recorded earlier is lost, and a new scope starts empty.
   */
  function Open(conf: Config, g: string, h: string): (r: Config)
    ensures IsOpen(r, Node(g, h))
    ensures r.globals == conf.globals
    ensures r.groups.Keys == conf.groups.Keys + {g}
    ensures g !in conf.groups ==> r.groups[g].Keys == {GLOBAL, h}
    ensures g !in conf.groups ==> r.groups[g][GLOBAL] == map[] && r.groups[g][h] == map[]
    ensures g in conf.groups ==> r.groups[g].Keys == conf.groups[g].Keys + {h}
    ensures forall g' :: g' in conf.groups && g' != g ==> r.groups[g'] == conf.groups[g']
    ensures forall s, k :: IsOpen(conf, s) ==> Lookup(r, s, k) == Lookup(conf, s, k)
    ensures forall k :: !IsOpen(conf, Node(g, h)) ==> Lookup(r, Node(g, h), k) == None
    ensures Grows(conf, r)
  {
    var grp := if g in conf.groups then conf.groups[g] else map[GLOBAL := map[]];
    var grp' := if h in grp then grp else grp[h := map[]];
    Config(conf.globals, conf.groups[g := grp'])
  }

  /**
   A key/value line in section `sec`: `CONF['__global'][k] = v` or
   `CONF[g][h][k] = v`. Afterwards `k` reads `v` in that scope, an earlier
   value is overwritten, and every other scope and key reads as before; no
   group or host appears or disappears.
   */
  function Assign(conf: Config, sec: Section, k: string, v: string): (r: Config)
    requires IsOpen(conf, sec)
    ensures sec.Root? ==> r.groups == conf.groups
    ensures sec.Node? ==> r.globals == conf.globals
    ensures r.groups.Keys == conf.groups.Keys
    ensures forall g :: g in r.groups ==> r.groups[g].Keys == conf.groups[g].Keys
    ensures forall s, k' :: Lookup(r, s, k') == if s == sec && k' == k then Some(v) else Lookup(conf, s, k')
  {
    match sec
    case Root => Config(conf.globals[k := v], conf.groups)
    case Node(g, h) =>
      var grp := conf.groups[g];
      Config(conf.globals, conf.groups[g := grp[h := grp[h][k := v]]])
  }

  /** No name, key or value anywhere in the tree contains the comment marker. */
  predicate HashFree(conf: Config) {
    && (forall k :: k in conf.globals ==> '#' !in k && '#' !in conf.globals[k])
    && (forall g :: g in conf.groups ==> '#' !in g && GroupHashFree(conf.groups[g]))
  }

  predicate GroupHashFree(grp: Group) {
    forall h :: h in grp ==> '#' !in h && SettingsHashFree(grp[h])
  }

  predicate SettingsHashFree(m: Settings) {
    forall k :: k in m ==> '#' !in k && '#' !in m[k]
  }

  /** Opening a section named without `#` keeps the tree free of it. */
  lemma OpenHashFree(conf: Config, g: string, h: string)
    requires HashFree(conf) && '#' !in g && '#' !in h
    ensures HashFree(Open(conf, g, h))
  {
    var grp := if g in conf.groups then conf.groups[g] else map[GLOBAL := map[]];
    assert GroupHashFree(grp);
    var grp' := if h in grp then grp else grp[h := map[]];
    assert GroupHashFree(grp');
  }

  /** Storing a key and value without `#` keeps the tree free of it. */
  lemma AssignHashFree(conf: Config, sec: Section, k: string, v: string)
    requires IsOpen(conf, sec) && HashFree(conf) && '#' !in k && '#' !in v
    ensures HashFree(Assign(conf, sec, k, v))
  {
    if sec.Node? {
      var grp := conf.groups[sec.group];
      assert SettingsHashFree(grp[sec.host][k := v]);
      assert GroupHashFree(grp[sec.host := grp[sec.host][k := v]]);
    }
  }
}
