/**
 The `Munin` facade over a read configuration: the sorted group names, the
 sorted host names of one group, and the tree of non-empty groups the web
 front end renders. The configuration is passed in rather than read from a
 file.
 */
module Munin {
  import opened Results
  import opened Text
  import opened Order
  import opened ConfTree

  /** Names starting with `__` are bookkeeping (`__global`) and never shown. */
  predicate Reserved(name: string) {
    StartsWith(name, "__")
  }

  lemma GlobalReserved()
    ensures Reserved(GLOBAL)
  {
    assert GLOBAL[..2] == "__";
  }

  /** The keys of the top-level dictionary: `__global` and every group. */
  function RootKeys(conf: Config): (r: set<string>)
    ensures GLOBAL in r
    ensures forall g :: g in conf.groups ==> g in r
  {
    conf.groups.Keys + {GLOBAL}
  }

  /** The names of `keys` that are shown. */
  function Visible(keys: set<string>): (r: set<string>)
    ensures r <= keys
    ensures forall k :: k in keys && !Reserved(k) ==> k in r
    ensures forall k :: k in r ==> !Reserved(k)
  {
    set k | k in keys && !Reserved(k)
  }

  /** `r` is what `sorted` makes of the names in `keys`. */
  predicate Lists(r: seq<string>, keys: set<string>) {
    StrictlySorted(r) && Elems(r) == keys
  }

  /** A group the tree shows: a real group with at least one shown host. */
  predicate Shown(conf: Config, g: string) {
    g in conf.groups && !Reserved(g) && Visible(conf.groups[g].Keys) != {}
  }

  /**
   `Munin.groups`: the shown top-level names, sorted. Since `__global` is
   reserved these are exactly the groups whose names do not start with `__`.
   */
  method Groups(conf: Config) returns (r: seq<string>)
    ensures Lists(r, Visible(RootKeys(conf)))
    ensures forall g :: g in r <==> g in conf.groups && !Reserved(g)
    ensures GLOBAL !in r
  {
    GlobalReserved();
    r := SortedListing(Visible(RootKeys(conf)));
    assert forall g :: g in r <==> g in Elems(r);
  }

  /**
   `Munin.hosts(name)`: `None` when `name` is not a top-level key; otherwise
   the shown keys of that entry, sorted. For a group these are its hosts
   (its `__global` scope is reserved); for `__global` itself they are the
   names of the root settings, which is what the dictionary holds there.
   */
  method Hosts(conf: Config, name: string) returns (r: Option<seq<string>>)
    requires GLOBAL !in conf.groups
    ensures r.None? <==> name !in RootKeys(conf)
    ensures name == GLOBAL ==> r.Some? && Lists(r.value, Visible(conf.globals.Keys))
    ensures name in conf.groups ==> r.Some? && Lists(r.value, Visible(conf.groups[name].Keys))
    ensures r.Some? ==> |r.value| == |Visible(if name == GLOBAL then conf.globals.Keys else conf.groups[name].Keys)|
  {
    if name !in RootKeys(conf) {
      return None;
    }
    var keys := if name == GLOBAL then conf.globals.Keys else conf.groups[name].Keys;
    var listing := SortedListing(Visible(keys));
    r := Some(listing);
  }

  /**
   `Munin.tree`: every shown group that has at least one shown host, mapped
   to the sorted listing of those hosts.
   */
  method Tree(conf: Config) returns (t: map<string, seq<string>>)
    requires GLOBAL !in conf.groups
    ensures forall g :: g in t <==> Shown(conf, g)
    ensures forall g :: g in t ==> g in conf.groups && Lists(t[g], Visible(conf.groups[g].Keys))
  {
    var groups := Groups(conf);
    t := map[];
    var i := 0;
    while i < |groups|
      invariant 0 <= i <= |groups|
      invariant forall g :: g in t <==> g in groups[..i] && Shown(conf, g)
      invariant forall g :: g in t ==> g in conf.groups && Lists(t[g], Visible(conf.groups[g].Keys))
    {
      var g := groups[i];
      assert g in conf.groups;
      var hosts := Hosts(conf, g);
      if |hosts.value| > 0 {
        t := t[g := hosts.value];
      }
      assert groups[..i + 1] == groups[..i] + [g];
      i := i + 1;
    }
    assert groups[..i] == groups;
  }

  /** A header naming a shown group and a shown host puts that group in the
      tree, whatever the tree held before. */
  lemma OpenShows(conf: Config, g: string, h: string)
    requires !Reserved(g) && !Reserved(h)
    ensures Shown(Open(conf, g, h), g)
  {
    var r := Open(conf, g, h);
    assert h in r.groups[g];
    assert h in Visible(r.groups[g].Keys);
  }
}
