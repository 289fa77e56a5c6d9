/** The members of a directory artifact when other trees are bound below some of its names. A
    path is the list of its components; a directory lists its entries in the order of names. */
module ArtifactOverlay {
  type Path = seq<string>

  datatype Node = File | Link | Dir(entries: seq<Item>)

  datatype Item = Item(name: string, node: Node)

  /** A tree bound at a non-empty archive name. */
  datatype Mount = Mount(name: Path, base: Node)

  /** An archive name and its source: the tree it comes from (0 is the root, i + 1 the i-th
      mount) and the path in it. */
  datatype Entry = Entry(name: Path, base: nat, rest: Path)

  /** A walk: the names of mounts it must not enter, the archive name and number of its tree. */
  datatype Tour = Tour(covered: set<Path>, prefix: Path, base: nat)

  function EntryAt(tour: Tour, path: Path): Entry {
    Entry(tour.prefix + path, tour.base, path)
  }

  predicate Covers(tour: Tour, path: Path) {
    tour.prefix + path in tour.covered
  }

  /** The uncovered members of one directory. */
  function Named(tour: Tour, at: Path, items: seq<Item>): seq<Entry> {
    if items == [] then []
    else
      var path := at + [items[|items| - 1].name];
      Named(tour, at, items[..|items| - 1]) + (if Covers(tour, path) then [] else [EntryAt(tour, path)])
  }

  /** The members below the uncovered directories among `items`. */
  function Below(tour: Tour, at: Path, items: seq<Item>): seq<Entry>
    decreases items, 0
  {
    if items == [] then []
    else
      var last := items[|items| - 1];
      var path := at + [last.name];
      Below(tour, at, items[..|items| - 1]) +
      (if last.node.Dir? && !Covers(tour, path) then Walked(tour, path, last.node.entries) else [])
  }

  /** Top down: the members of a directory, then what is below each. */
  function Walked(tour: Tour, at: Path, items: seq<Item>): seq<Entry>
    decreases items, 1
  {
    Named(tour, at, items) + Below(tour, at, items)
  }

  function MountNames(mounts: seq<Mount>): set<Path> {
    set i | 0 <= i < |mounts| :: mounts[i].name
  }

  function TourOf(mounts: seq<Mount>, base: nat): Tour
    requires base <= |mounts|
  {
    var prefix := if base == 0 then [] else mounts[base - 1].name;
    Tour(MountNames(mounts) - {prefix}, prefix, base)
  }

  function TreeOf(root: Node, mounts: seq<Mount>, base: nat): Node
    requires base <= |mounts|
  {
    if base == 0 then root else mounts[base - 1].base
  }

  function Part(root: Node, mounts: seq<Mount>, base: nat): seq<Entry>
    requires base <= |mounts|
  {
    var tour, tree := TourOf(mounts, base), TreeOf(root, mounts, base);
    (if base == 0 then [] else [EntryAt(tour, [])]) + (if tree.Dir? then Walked(tour, [], tree.entries) else [])
  }

  function Parts(root: Node, mounts: seq<Mount>, upto: nat): seq<Entry>
    requires upto <= |mounts| + 1
  {
    if upto == 0 then [] else Parts(root, mounts, upto - 1) + Part(root, mounts, upto - 1)
  }

  // ---- the walk ----

  predicate Enters(tour: Tour, at: Path, item: Item) {
    item.node.Dir? && !Covers(tour, at + [item.name])
  }

  /** The directories that a walk goes on to, the covered ones removed. */
  function Open(tour: Tour, at: Path, items: seq<Item>): (dirs: seq<Item>)
    ensures forall d :: d in dirs ==> d in items && Enters(tour, at, d)
  {
    if items == [] then []
    else
      var last := items[|items| - 1];
      Open(tour, at, items[..|items| - 1]) + (if Enters(tour, at, last) then [last] else [])
  }

  lemma {:induction false} BelowTheOpen(tour: Tour, at: Path, items: seq<Item>)
    ensures Below(tour, at, Open(tour, at, items)) == Below(tour, at, items)
  {
    if items != [] {
      var front, last := items[..|items| - 1], items[|items| - 1];
      BelowTheOpen(tour, at, front);
      var dirs := Open(tour, at, front);
      if Enters(tour, at, last) {
        assert (dirs + [last])[..|dirs|] == dirs;
      } else {
        assert dirs + [] == dirs;
      }
    }
  }

  method NameMembers(tour: Tour, at: Path, items: seq<Item>) returns (out: seq<Entry>, dirs: seq<Item>)
    ensures out == Named(tour, at, items) && dirs == Open(tour, at, items)
  {
    out, dirs := [], [];
    for i := 0 to |items|
      invariant out == Named(tour, at, items[..i]) && dirs == Open(tour, at, items[..i])
    {
      assert items[..i + 1][..i] == items[..i];
      var path := at + [items[i].name];
      if !Covers(tour, path) {
        out := out + [EntryAt(tour, path)];
        if items[i].node.Dir? { dirs := dirs + [items[i]]; }
      }
    }
    assert items[..|items|] == items;
  }

  method WalkTree(tour: Tour, at: Path, items: seq<Item>) returns (out: seq<Entry>)
    ensures out == Walked(tour, at, items)
    decreases items
  {
    var names, dirs := NameMembers(tour, at, items);
    var below: seq<Entry> := [];
    for i := 0 to |dirs|
      invariant below == Below(tour, at, dirs[..i])
    {
      assert dirs[..i + 1][..i] == dirs[..i];
      assert dirs[i] in items;
      var more := WalkTree(tour, at + [dirs[i].name], dirs[i].node.entries);
      below := below + more;
    }
    assert dirs[..|dirs|] == dirs;
    BelowTheOpen(tour, at, items);
    return names + below;
  }

  method IterArtifactEntries(root: Node, mounts: seq<Mount>) returns (out: seq<Entry>)
    ensures out == Parts(root, mounts, |mounts| + 1)
  {
    out := [];
    for base := 0 to |mounts| + 1
      invariant out == Parts(root, mounts, base)
    {
      var part: seq<Entry> := [];
      if base > 0 { part := [EntryAt(TourOf(mounts, base), [])]; }
      var tree := TreeOf(root, mounts, base);
      if tree.Dir? {
        var members := WalkTree(TourOf(mounts, base), [], tree.entries);
        part := part + members;
      }
      out := out + part;
    }
  }

  // ---- what a walk sees ----

  /** A member reached through real directories. */
  predicate Exists(items: seq<Item>, path: Path)
    decreases |path|, 1
  {
    path != [] && exists k :: 0 <= k < |items| && Leads(items[k], path)
  }

  predicate Leads(item: Item, path: Path)
    requires path != []
    decreases |path|, 0
  {
    item.name == path[0] && (|path| == 1 || (item.node.Dir? && Exists(item.node.entries, path[1..])))
  }

  /** `e` lies below `at`, exists there, and no step to it from `at` is covered. */
  ghost predicate Seen(tour: Tour, at: Path, items: seq<Item>, e: Entry) {
    && |at| < |e.rest| && e.rest[..|at|] == at && e == EntryAt(tour, e.rest)
    && Exists(items, e.rest[|at|..])
    && forall q :: |at| < q <= |e.rest| ==> !Covers(tour, e.rest[..q])
  }

  lemma {:induction false} NamedMeans(tour: Tour, at: Path, items: seq<Item>, e: Entry)
    ensures e in Named(tour, at, items) <==>
      exists k :: 0 <= k < |items| && e == EntryAt(tour, at + [items[k].name]) && !Covers(tour, at + [items[k].name])
  {
    if items != [] {
      var front := items[..|items| - 1];
      NamedMeans(tour, at, front, e);
      assert forall k :: 0 <= k < |front| ==> front[k] == items[k];
    }
  }

  predicate WalkedThrough(tour: Tour, at: Path, item: Item, e: Entry) {
    Enters(tour, at, item) && e in Walked(tour, at + [item.name], item.node.entries)
  }

  lemma BelowOfLonger(tour: Tour, at: Path, items: seq<Item>, e: Entry)
    requires items != []
    ensures e in Below(tour, at, items) <==>
      e in Below(tour, at, items[..|items| - 1]) || WalkedThrough(tour, at, items[|items| - 1], e)
  {
  }

  ghost predicate SomeLeads(tour: Tour, at: Path, items: seq<Item>, e: Entry) {
    exists k :: 0 <= k < |items| && WalkedThrough(tour, at, items[k], e)
  }

  lemma SomeLeadsOfLonger(tour: Tour, at: Path, items: seq<Item>, e: Entry)
    requires items != []
    ensures SomeLeads(tour, at, items, e) <==>
      SomeLeads(tour, at, items[..|items| - 1], e) || WalkedThrough(tour, at, items[|items| - 1], e)
  {
    var front := items[..|items| - 1];
    assert forall k :: 0 <= k < |front| ==> front[k] == items[k];
  }

  lemma {:induction false} BelowMeans(tour: Tour, at: Path, items: seq<Item>, e: Entry)
    ensures e in Below(tour, at, items) <==> SomeLeads(tour, at, items, e)
  {
    if items != [] {
      BelowMeans(tour, at, items[..|items| - 1], e);
      BelowOfLonger(tour, at, items, e);
      SomeLeadsOfLonger(tour, at, items, e);
    }
  }

  /** Seeing a member of a directory is seeing its first step, and the rest from there. */
  lemma SeenFromStep(tour: Tour, at: Path, items: seq<Item>, e: Entry, k: nat)
    requires k < |items| && Enters(tour, at, items[k])
    requires Seen(tour, at + [items[k].name], items[k].node.entries, e)
    ensures Seen(tour, at, items, e)
  {
    var step := at + [items[k].name];
    var path := e.rest[|at|..];
    assert path[0] == step[|at|] && path[1..] == e.rest[|step|..];
    forall q | |at| < q <= |e.rest| ensures !Covers(tour, e.rest[..q]) {
      if q == |step| { assert e.rest[..q] == step; }
    }
    assert e.rest[..|at|] == step[..|at|];
  }

  ghost predicate SeenThrough(tour: Tour, at: Path, item: Item, e: Entry) {
    var step := at + [item.name];
    e == EntryAt(tour, step) || (item.node.Dir? && Seen(tour, step, item.node.entries, e))
  }

  lemma SeenHasStep(tour: Tour, at: Path, items: seq<Item>, e: Entry)
    requires Seen(tour, at, items, e)
    ensures exists k :: 0 <= k < |items| && !Covers(tour, at + [items[k].name]) && SeenThrough(tour, at, items[k], e)
  {
    var path := e.rest[|at|..];
    var k :| 0 <= k < |items| && Leads(items[k], path);
    var step := at + [items[k].name];
    assert e.rest[..|step|] == step;
    assert !Covers(tour, step);
    if |path| == 1 {
      assert e.rest == step;
    } else {
      assert path[1..] == e.rest[|step|..];
      assert Seen(tour, step, items[k].node.entries, e);
    }
  }

  lemma SeenAtStep(tour: Tour, at: Path, items: seq<Item>, k: nat)
    requires k < |items| && !Covers(tour, at + [items[k].name])
    ensures Seen(tour, at, items, EntryAt(tour, at + [items[k].name]))
  {
    var step := at + [items[k].name];
    assert step[|at|..] == [items[k].name];
    forall q | |at| < q <= |step| ensures !Covers(tour, step[..q]) { assert step[..q] == step; }
  }

  /** A walk yields exactly the members it sees. */
  lemma {:induction false} WalkMeans(tour: Tour, at: Path, items: seq<Item>, e: Entry)
    ensures e in Walked(tour, at, items) <==> Seen(tour, at, items, e)
    decreases items
  {
    NamedMeans(tour, at, items, e);
    BelowMeans(tour, at, items, e);
    forall k | 0 <= k < |items| && items[k].node.Dir?
      ensures e in Walked(tour, at + [items[k].name], items[k].node.entries) <==>
        Seen(tour, at + [items[k].name], items[k].node.entries, e)
    {
      WalkMeans(tour, at + [items[k].name], items[k].node.entries, e);
    }
    if e in Named(tour, at, items) {
      var k :| 0 <= k < |items| && e == EntryAt(tour, at + [items[k].name]) && !Covers(tour, at + [items[k].name]);
      SeenAtStep(tour, at, items, k);
    } else if e in Below(tour, at, items) {
      var k :| 0 <= k < |items| && WalkedThrough(tour, at, items[k], e);
      SeenFromStep(tour, at, items, e, k);
    } else if Seen(tour, at, items, e) {
      SeenHasStep(tour, at, items, e);
    }
  }

  // ---- no name twice ----

  ghost predicate Distinct(entries: seq<Entry>) {
    forall i, j :: 0 <= i < j < |entries| ==> entries[i].name != entries[j].name
  }

  /** Names in one directory differ. */
  predicate Clean(items: seq<Item>) {
    && (forall i, j :: 0 <= i < j < |items| ==> items[i].name != items[j].name)
    && (forall i :: 0 <= i < |items| && items[i].node.Dir? ==> Clean(items[i].node.entries))
  }

  lemma Joined(a: seq<Entry>, b: seq<Entry>)
    requires Distinct(a) && Distinct(b)
    requires forall x, y :: x in a && y in b ==> x.name != y.name
    ensures Distinct(a + b)
  {
  }

  lemma {:induction false} NamedDistinct(tour: Tour, at: Path, items: seq<Item>)
    requires Clean(items)
    ensures Distinct(Named(tour, at, items))
  {
    if items != [] {
      var front, last := items[..|items| - 1], items[|items| - 1];
      NamedDistinct(tour, at, front);
      var path := at + [last.name];
      forall x | x in Named(tour, at, front) ensures x.name != EntryAt(tour, path).name {
        NamedMeans(tour, at, front, x);
        var k :| 0 <= k < |front| && x == EntryAt(tour, at + [front[k].name]) && !Covers(tour, at + [front[k].name]);
        assert x.name[|tour.prefix| + |at|] == items[k].name;
        assert EntryAt(tour, path).name[|tour.prefix| + |at|] == last.name;
      }
      Joined(Named(tour, at, front), if Covers(tour, path) then [] else [EntryAt(tour, path)]);
    }
  }

  /** The component after `at` says through which entry a member was reached. */
  lemma ThroughWhich(tour: Tour, at: Path, item: Item, x: Entry)
    requires WalkedThrough(tour, at, item, x)
    ensures |x.name| > |tour.prefix| + |at| + 1 && x.name[|tour.prefix| + |at|] == item.name
  {
    WalkMeans(tour, at + [item.name], item.node.entries, x);
    assert x.rest[..|at| + 1] == at + [item.name];
    assert x.rest[|at|] == (at + [item.name])[|at|];
  }

  lemma {:induction false} BelowDistinct(tour: Tour, at: Path, items: seq<Item>)
    requires Clean(items)
    requires forall k :: 0 <= k < |items| && items[k].node.Dir? ==>
      Distinct(Walked(tour, at + [items[k].name], items[k].node.entries))
    ensures Distinct(Below(tour, at, items))
  {
    if items != [] {
      var front, last := items[..|items| - 1], items[|items| - 1];
      BelowDistinct(tour, at, front);
      var path := at + [last.name];
      var tail := if Enters(tour, at, last) then Walked(tour, path, last.node.entries) else [];
      forall x, y | x in Below(tour, at, front) && y in tail ensures x.name != y.name {
        BelowMeans(tour, at, front, x);
        var k :| 0 <= k < |front| && WalkedThrough(tour, at, front[k], x);
        ThroughWhich(tour, at, front[k], x);
        ThroughWhich(tour, at, last, y);
        assert items[k].name != last.name;
      }
      Joined(Below(tour, at, front), tail);
    }
  }

  lemma {:induction false} WalkDistinct(tour: Tour, at: Path, items: seq<Item>)
    requires Clean(items)
    ensures Distinct(Walked(tour, at, items))
    decreases items
  {
    NamedDistinct(tour, at, items);
    forall k | 0 <= k < |items| && items[k].node.Dir?
      ensures Distinct(Walked(tour, at + [items[k].name], items[k].node.entries))
    {
      WalkDistinct(tour, at + [items[k].name], items[k].node.entries);
    }
    BelowDistinct(tour, at, items);
    forall x, y | x in Named(tour, at, items) && y in Below(tour, at, items) ensures x.name != y.name {
      NamedMeans(tour, at, items, x);
      BelowMeans(tour, at, items, y);
      var k :| 0 <= k < |items| && WalkedThrough(tour, at, items[k], y);
      ThroughWhich(tour, at, items[k], y);
    }
    Joined(Named(tour, at, items), Below(tour, at, items));
  }

  // ---- a directory comes before what is in it ----

  ghost function Rests(entries: seq<Entry>): set<Path> {
    set e | e in entries :: e.rest
  }

  /** Each entry's directory is in `before` or was emitted earlier. */
  ghost predicate TopDown(before: set<Path>, entries: seq<Entry>) {
    forall i :: 0 <= i < |entries| ==>
      entries[i].rest != [] &&
      (Parent(entries[i].rest) in before || exists j :: 0 <= j < i && entries[j].rest == Parent(entries[i].rest))
  }

  function Parent(path: Path): Path
    requires path != []
  {
    path[..|path| - 1]
  }

  lemma TopDownJoined(before: set<Path>, one: seq<Entry>, other: seq<Entry>)
    requires TopDown(before, one) && TopDown(before + Rests(one), other)
    ensures TopDown(before, one + other)
  {
    var all := one + other;
    forall i | 0 <= i < |all|
      ensures all[i].rest != []
      ensures Parent(all[i].rest) in before || exists j :: 0 <= j < i && all[j].rest == Parent(all[i].rest)
    {
      if i < |one| {
        assert all[i] == one[i];
        if Parent(one[i].rest) !in before {
          var j :| 0 <= j < i && one[j].rest == Parent(one[i].rest);
          assert all[j] == one[j];
        }
      } else {
        var parent := Parent(other[i - |one|].rest);
        if parent in Rests(one) {
          var e :| e in one && e.rest == parent;
          var j :| 0 <= j < |one| && one[j] == e;
          assert all[j].rest == parent;
        } else if parent !in before {
          var j :| 0 <= j < i - |one| && other[j].rest == parent;
          assert all[|one| + j] == other[j];
        }
      }
    }
  }

  lemma TopDownFromMore(before: set<Path>, more: set<Path>, entries: seq<Entry>)
    requires TopDown(before, entries) && before <= more
    ensures TopDown(more, entries)
  {
  }

  lemma {:induction false} NamedTopDown(tour: Tour, at: Path, items: seq<Item>)
    ensures TopDown({at}, Named(tour, at, items))
  {
    if items != [] {
      var front := items[..|items| - 1];
      NamedTopDown(tour, at, front);
      var path := at + [items[|items| - 1].name];
      assert Parent(path) == at;
      TopDownJoined({at}, Named(tour, at, front), if Covers(tour, path) then [] else [EntryAt(tour, path)]);
    }
  }

  lemma {:induction false} BelowTopDown(tour: Tour, at: Path, items: seq<Item>, before: set<Path>)
    requires forall k :: 0 <= k < |items| && Enters(tour, at, items[k]) ==> at + [items[k].name] in before
    requires forall k :: 0 <= k < |items| && items[k].node.Dir? ==>
      TopDown({at + [items[k].name]}, Walked(tour, at + [items[k].name], items[k].node.entries))
    ensures TopDown(before, Below(tour, at, items))
  {
    if items != [] {
      var front, last := items[..|items| - 1], items[|items| - 1];
      BelowTopDown(tour, at, front, before);
      var path := at + [last.name];
      var tail := if Enters(tour, at, last) then Walked(tour, path, last.node.entries) else [];
      if Enters(tour, at, last) {
        TopDownFromMore({path}, before + Rests(Below(tour, at, front)), tail);
      }
      TopDownJoined(before, Below(tour, at, front), tail);
    }
  }

  /** A walk is top down: every member comes after the directory that holds it. */
  lemma {:induction false} WalkIsTopDown(tour: Tour, at: Path, items: seq<Item>)
    ensures TopDown({at}, Walked(tour, at, items))
    decreases items
  {
    NamedTopDown(tour, at, items);
    forall k | 0 <= k < |items| && items[k].node.Dir?
      ensures TopDown({at + [items[k].name]}, Walked(tour, at + [items[k].name], items[k].node.entries))
    {
      WalkIsTopDown(tour, at + [items[k].name], items[k].node.entries);
    }
    var named := Named(tour, at, items);
    forall k | 0 <= k < |items| && Enters(tour, at, items[k])
      ensures at + [items[k].name] in {at} + Rests(named)
    {
      var e := EntryAt(tour, at + [items[k].name]);
      NamedMeans(tour, at, items, e);
      assert e in named;
    }
    BelowTopDown(tour, at, items, {at} + Rests(named));
    TopDownJoined({at}, named, Below(tour, at, items));
  }

  // ---- the whole overlay ----

  /** `base` is the tree with the longest mount name that begins `name`; 0 when none does. */
  ghost predicate IsLongest(mounts: seq<Mount>, name: Path, base: nat) {
    && base <= |mounts|
    && (base > 0 ==> mounts[base - 1].name <= name)
    && forall j :: 0 <= j < |mounts| && mounts[j].name <= name ==>
         base > 0 && |mounts[j].name| <= |mounts[base - 1].name|
  }

  /** A member named after the tree that its longest mount name stands for, or that mount. */
  ghost predicate Visible(root: Node, mounts: seq<Mount>, e: Entry) {
    && e.name != [] && IsLongest(mounts, e.name, e.base)
    && e.name == TourOf(mounts, e.base).prefix + e.rest
    && if e.rest == [] then e.base > 0
       else TreeOf(root, mounts, e.base).Dir? && Exists(TreeOf(root, mounts, e.base).entries, e.rest)
  }

  ghost predicate Nameable(mounts: seq<Mount>) {
    forall i :: 0 <= i < |mounts| ==> mounts[i].name != []
  }

  ghost predicate DistinctMounts(mounts: seq<Mount>) {
    forall i, j :: 0 <= i < j < |mounts| ==> mounts[i].name != mounts[j].name
  }

  lemma LongestIsOne(mounts: seq<Mount>, name: Path, b: nat, c: nat)
    requires DistinctMounts(mounts) && IsLongest(mounts, name, b) && IsLongest(mounts, name, c)
    ensures b == c
  {
    if b > 0 && c > 0 {
      var x, y := mounts[b - 1].name, mounts[c - 1].name;
      assert x <= name && y <= name && |x| == |y|;
      assert x == name[..|x|] && y == name[..|y|];
    }
  }

  lemma CoverIsLonger(mounts: seq<Mount>, base: nat, rest: Path, q: nat)
    requires base <= |mounts| && 0 < q <= |rest| && Covers(TourOf(mounts, base), rest[..q])
    ensures !IsLongest(mounts, TourOf(mounts, base).prefix + rest, base)
  {
    var m := TourOf(mounts, base).prefix + rest[..q];
    assert m <= TourOf(mounts, base).prefix + rest;
    var j :| 0 <= j < |mounts| && mounts[j].name == m;
  }

  lemma LongerIsCover(mounts: seq<Mount>, base: nat, rest: Path, j: nat)
    requires base <= |mounts| && j < |mounts|
    requires mounts[j].name <= TourOf(mounts, base).prefix + rest && |mounts[j].name| > |TourOf(mounts, base).prefix|
    ensures exists q :: 0 < q <= |rest| && Covers(TourOf(mounts, base), rest[..q])
  {
    var tour, m := TourOf(mounts, base), mounts[j].name;
    var q := |m| - |tour.prefix|;
    assert tour.prefix + rest[..q] == m;
    assert m in MountNames(mounts);
    assert Covers(tour, rest[..q]);
  }

  /** No step from the tree's own name to a member is a mount exactly when that name is the longest. */
  lemma UncoveredIsLongest(mounts: seq<Mount>, base: nat, rest: Path)
    requires base <= |mounts| && Nameable(mounts)
    ensures (forall q :: 0 < q <= |rest| ==> !Covers(TourOf(mounts, base), rest[..q])) <==>
      IsLongest(mounts, TourOf(mounts, base).prefix + rest, base)
  {
    var tour := TourOf(mounts, base);
    var name := tour.prefix + rest;
    if exists q :: 0 < q <= |rest| && Covers(tour, rest[..q]) {
      var q :| 0 < q <= |rest| && Covers(tour, rest[..q]);
      CoverIsLonger(mounts, base, rest, q);
    }
    if !IsLongest(mounts, name, base) {
      var j :| 0 <= j < |mounts| && mounts[j].name <= name &&
        !(base > 0 && |mounts[j].name| <= |mounts[base - 1].name|);
      LongerIsCover(mounts, base, rest, j);
    }
  }

  lemma PartMeans(root: Node, mounts: seq<Mount>, base: nat, e: Entry)
    requires base <= |mounts| && Nameable(mounts)
    ensures e in Part(root, mounts, base) <==> e.base == base && Visible(root, mounts, e)
  {
    var tour, tree := TourOf(mounts, base), TreeOf(root, mounts, base);
    UncoveredIsLongest(mounts, base, e.rest);
    if tree.Dir? {
      WalkMeans(tour, [], tree.entries, e);
      assert e.rest[..0] == [] && e.rest[0..] == e.rest;
    }
    if e.rest == [] { assert tour.prefix + e.rest == tour.prefix; }
  }

  lemma PartsOfLonger(root: Node, mounts: seq<Mount>, upto: nat, e: Entry)
    requires upto <= |mounts|
    ensures e in Parts(root, mounts, upto + 1) <==> e in Parts(root, mounts, upto) || e in Part(root, mounts, upto)
  {
  }

  ghost predicate EmittedUpTo(root: Node, mounts: seq<Mount>, upto: nat, e: Entry)
    requires upto <= |mounts| + 1
  {
    e in Parts(root, mounts, upto)
  }

  lemma {:induction false} PartsMean(root: Node, mounts: seq<Mount>, upto: nat, e: Entry)
    requires upto <= |mounts| + 1 && Nameable(mounts)
    ensures EmittedUpTo(root, mounts, upto, e) <==> e.base < upto && Visible(root, mounts, e)
  {
    if upto > 0 {
      PartsMean(root, mounts, upto - 1, e);
      PartMeans(root, mounts, upto - 1, e);
      PartsOfLonger(root, mounts, upto - 1, e);
    }
  }

  /** An entry is emitted exactly when it exists in the tree of the longest mount name that
      begins its own: nothing hidden below a mountpoint, nothing visible left out. */
  lemma EmittedIsVisible(root: Node, mounts: seq<Mount>, e: Entry)
    requires Nameable(mounts)
    ensures e in Parts(root, mounts, |mounts| + 1) <==> Visible(root, mounts, e)
  {
    PartsMean(root, mounts, |mounts| + 1, e);
  }

  ghost predicate CleanTrees(root: Node, mounts: seq<Mount>) {
    forall b: nat :: b <= |mounts| && TreeOf(root, mounts, b).Dir? ==> Clean(TreeOf(root, mounts, b).entries)
  }

  lemma PartDistinct(root: Node, mounts: seq<Mount>, base: nat)
    requires base <= |mounts| && CleanTrees(root, mounts)
    ensures Distinct(Part(root, mounts, base))
  {
    var tour, tree := TourOf(mounts, base), TreeOf(root, mounts, base);
    var head: seq<Entry> := if base == 0 then [] else [EntryAt(tour, [])];
    var members: seq<Entry> := if tree.Dir? then Walked(tour, [], tree.entries) else [];
    if tree.Dir? { WalkDistinct(tour, [], tree.entries); }
    forall x, y | x in head && y in members ensures x.name != y.name {
      WalkMeans(tour, [], tree.entries, y);
    }
    Joined(head, members);
  }

  lemma PartsApart(root: Node, mounts: seq<Mount>, base: nat, x: Entry, y: Entry)
    requires base <= |mounts| && Nameable(mounts) && DistinctMounts(mounts)
    requires x in Parts(root, mounts, base) && y in Part(root, mounts, base)
    ensures x.name != y.name
  {
    PartsMean(root, mounts, base, x);
    PartMeans(root, mounts, base, y);
    if x.name == y.name { LongestIsOne(mounts, x.name, x.base, y.base); }
  }

  lemma {:induction false} PartsDistinct(root: Node, mounts: seq<Mount>, upto: nat)
    requires upto <= |mounts| + 1 && Nameable(mounts) && DistinctMounts(mounts) && CleanTrees(root, mounts)
    ensures Distinct(Parts(root, mounts, upto))
  {
    if upto > 0 {
      PartsDistinct(root, mounts, upto - 1);
      PartDistinct(root, mounts, upto - 1);
      var earlier, part := Parts(root, mounts, upto - 1), Part(root, mounts, upto - 1);
      forall x, y | x in earlier && y in part ensures x.name != y.name {
        PartsApart(root, mounts, upto - 1, x, y);
      }
      Joined(earlier, part);
      assert Parts(root, mounts, upto) == earlier + part;
    }
  }

  /** A mount is emitted under its own name, whatever else is. */
  lemma MountIsEmitted(root: Node, mounts: seq<Mount>, i: nat)
    requires i < |mounts| && Nameable(mounts)
    ensures Entry(mounts[i].name, i + 1, []) in Parts(root, mounts, |mounts| + 1)
  {
    var e := Entry(mounts[i].name, i + 1, []);
    assert e.name == TourOf(mounts, i + 1).prefix + [];
    EmittedIsVisible(root, mounts, e);
  }

  lemma TwiceIsNotDistinct(all: seq<Entry>, x: Entry, y: Entry)
    requires x in all && y in all && x != y && x.name == y.name
    ensures !Distinct(all)
  {
    var i :| 0 <= i < |all| && all[i] == x;
    var j :| 0 <= j < |all| && all[j] == y;
  }

  /** No archive name is emitted twice exactly when no two mounts share a name. */
  lemma NamesOnceExactlyForDistinctMounts(root: Node, mounts: seq<Mount>)
    requires Nameable(mounts) && CleanTrees(root, mounts)
    ensures Distinct(Parts(root, mounts, |mounts| + 1)) <==> DistinctMounts(mounts)
  {
    if DistinctMounts(mounts) {
      PartsDistinct(root, mounts, |mounts| + 1);
    } else {
      var i, j :| 0 <= i < j < |mounts| && mounts[i].name == mounts[j].name;
      MountIsEmitted(root, mounts, i);
      MountIsEmitted(root, mounts, j);
      TwiceIsNotDistinct(Parts(root, mounts, |mounts| + 1), Entry(mounts[i].name, i + 1, []),
        Entry(mounts[j].name, j + 1, []));
    }
  }
}
