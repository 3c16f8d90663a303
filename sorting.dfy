/** The directory being sorted, as a value, and the two passes over it as
    folds over a snapshot of its names. These functions are the
    specification the imperative sorter is proved against; the lemmas here
    state what a pass and a whole run guarantee. */
module Sorting {
  import opened Paths
  import opened Formats
  import opened Resolve

  datatype Option<T> = None | Some(value: T)

  /** The top level of the directory, name to kind, and for every category
      folder present at the top level, the entries inside it. */
  datatype Tree = Tree(top: map<string, Kind>, folders: map<string, map<string, Kind>>)

  /** A rename: `source` at the top level became `target` inside `folder`. */
  datatype Move = Move(source: string, folder: string, target: string)

  /** What visiting one entry does: nothing, an aborting error, or a move. */
  datatype Effect = Skip | Fail | Relocate(tree: Tree, move: Move)

  /** The state of a pass: the tree, the moves made so far, and whether the
      pass is still running (false once an error has aborted it). */
  datatype Progress = Progress(tree: Tree, moves: seq<Move>, ok: bool)

  datatype Pass = First | Second

  /** The folders map describes exactly the category folders that exist, as
      directories, at the top level. */
  ghost predicate WellFormed(t: Tree) {
    forall c :: c in t.folders <==> c in FolderNames && c in t.top && t.top[c] == Dir
  }

  /** The entries inside the category folders, as (folder, name) pairs. */
  ghost function Inside(f: map<string, map<string, Kind>>): set<(string, string)> {
    set c, x | c in f && x in f[c] :: (c, x)
  }

  /** Every entry of the directory that is not itself a category folder:
      those at the top level and those inside the category folders. */
  ghost function Population(t: Tree): nat {
    |t.top.Keys - t.folders.Keys| + |Inside(t.folders)|
  }

  /** A new, empty folder holds nothing. */
  lemma InsideCreate(f: map<string, map<string, Kind>>, c: string)
    requires c !in f
    ensures Inside(f[c := map[]]) == Inside(f)
  {
  }

  /** Adding a free name to a folder adds exactly one entry. */
  lemma InsideAdd(f: map<string, map<string, Kind>>, c: string, x: string, k: Kind)
    requires c in f && x !in f[c]
    ensures Inside(f[c := f[c][x := k]]) == Inside(f) + {(c, x)}
    ensures (c, x) !in Inside(f)
  {
    var g := f[c := f[c][x := k]];
    forall p | p in Inside(g)
      ensures p in Inside(f) + {(c, x)}
    {
      var d, y :| d in g && y in g[d] && p == (d, y);
      if p != (c, x) {
        assert d in f && y in f[d];
      }
    }
    forall p | p in Inside(f) + {(c, x)}
      ensures p in Inside(g)
    {
      if p != (c, x) {
        var d, y :| d in f && y in f[d] && p == (d, y);
        assert d in g && y in g[d];
      }
    }
  }

  /** `u` is `t` after some sorting: entries inside folders are never
      overwritten or removed, a top-level entry keeps its kind, the only new
      top-level entries are created category directories, and an existing
      category name is never removed. */
  ghost predicate Grows(t: Tree, u: Tree) {
    && (forall c :: c in t.folders ==> c in u.folders)
    && (forall c, x :: c in t.folders && x in t.folders[c] ==>
          c in u.folders && x in u.folders[c] && u.folders[c][x] == t.folders[c][x])
    && (forall n :: n in u.top ==>
          (n in t.top && u.top[n] == t.top[n]) || (n in FolderNames && n !in t.top && u.top[n] == Dir))
    && (forall c :: c in FolderNames && c in t.top ==> c in u.top)
  }

  /** Everything added to Miscellaneous between `t` and `u` is a file. */
  ghost predicate MiscGetsFiles(t: Tree, u: Tree) {
    forall x ::
      (MiscFolder in u.folders && x in u.folders[MiscFolder]
       && !(MiscFolder in t.folders && x in t.folders[MiscFolder])) ==> u.folders[MiscFolder][x] == File
  }

  /** Move `m` of an entry of `t` is in place in `u`: the source has left the
      top level, the target holds an entry of the source's kind, and the
      target name was free in `t`. */
  ghost predicate Landed(t: Tree, u: Tree, m: Move) {
    && m.source in t.top && m.source !in FolderNames && m.source !in u.top
    && m.folder in u.folders && m.target in u.folders[m.folder]
    && u.folders[m.folder][m.target] == t.top[m.source]
    && (m.folder in t.folders ==> m.target !in t.folders[m.folder])
  }

  lemma GrowsTransitive(a: Tree, b: Tree, c: Tree)
    requires Grows(a, b) && Grows(b, c)
    ensures Grows(a, c)
  {
  }

  lemma MiscTransitive(a: Tree, b: Tree, c: Tree)
    requires Grows(a, b) && Grows(b, c) && MiscGetsFiles(a, b) && MiscGetsFiles(b, c)
    ensures MiscGetsFiles(a, c)
  {
  }

  /** A landed move stays landed as sorting goes on, and an earlier starting
      point does not change that. */
  lemma LandedLater(a: Tree, b: Tree, c: Tree, m: Move)
    requires Landed(a, b, m) && Grows(b, c)
    ensures Landed(a, c, m)
  {
  }

  lemma LandedEarlier(a: Tree, b: Tree, c: Tree, m: Move)
    requires Grows(a, b) && Landed(b, c, m)
    ensures Landed(a, c, m)
  {
  }

  /** `create_directory`: nothing when the category is already a directory;
      `None`, an aborting error, when `mkdir` would find a non-directory of
      that name; otherwise a new, empty folder. */
  function MakeFolder(t: Tree, c: string): (r: Option<Tree>)
    requires WellFormed(t) && c in FolderNames
    ensures r.None? <==> c in t.top && t.top[c] == File
    ensures r.Some? ==> WellFormed(r.value) && c in r.value.folders && c in r.value.top
    ensures r.Some? ==> Grows(t, r.value) && MiscGetsFiles(t, r.value)
    ensures r.Some? ==> Population(r.value) == Population(t)
    ensures r.Some? ==> r.value.top.Keys == t.top.Keys + {c} && Inside(r.value.folders) == Inside(t.folders)
    ensures r.Some? && c in t.folders ==> r.value.folders[c] == t.folders[c]
    ensures r.Some? && c !in t.folders ==> r.value.folders[c] == map[]
    ensures r.Some? && c in t.top ==> r.value == t
  {
    assert c in t.folders <==> c in t.top && t.top[c] == Dir;
    if c in t.top && t.top[c] == Dir then Some(t)
    else if c in t.top then None
    else
      var u := Tree(t.top[c := Dir], t.folders[c := map[]]);
      CreateShape(t, u, c);
      assert c !in t.folders;
      CreateCount(t, u, c);
      CreateKeys(t, u, c);
      InsideCreate(t.folders, c);
      Some(u)
  }

  lemma CreateShape(t: Tree, u: Tree, c: string)
    requires WellFormed(t) && c in FolderNames && c !in t.top
    requires u == Tree(t.top[c := Dir], t.folders[c := map[]])
    ensures WellFormed(u) && Grows(t, u) && MiscGetsFiles(t, u)
  {
    assert c !in t.folders;
  }

  lemma CreateCount(t: Tree, u: Tree, c: string)
    requires c !in t.top && c !in t.folders
    requires u == Tree(t.top[c := Dir], t.folders[c := map[]])
    ensures Population(u) == Population(t)
  {
    CreateKeys(t, u, c);
    InsideCreate(t.folders, c);
  }

  lemma CreateKeys(t: Tree, u: Tree, c: string)
    requires c !in t.top && c !in t.folders
    requires u == Tree(t.top[c := Dir], t.folders[c := map[]])
    ensures u.top.Keys - u.folders.Keys == t.top.Keys - t.folders.Keys
    ensures u.top.Keys == t.top.Keys + {c}
  {
    assert u.top.Keys == t.top.Keys + {c};
    assert u.folders.Keys == t.folders.Keys + {c};
  }

  /** Creating a folder twice has the effect of creating it once. */
  lemma MakeFolderTwice(t: Tree, c: string)
    requires WellFormed(t) && c in FolderNames && MakeFolder(t, c).Some?
    ensures MakeFolder(MakeFolder(t, c).value, c) == MakeFolder(t, c)
  {
    var u := MakeFolder(t, c).value;
    assert c in u.folders;
  }

  /** The rename of top-level entry `n` to `target` inside folder `c`. */
  function Rename(t: Tree, n: string, c: string, target: string): (u: Tree)
    requires WellFormed(t) && n in t.top && n !in FolderNames && c in t.folders
    requires target !in t.folders[c]
    ensures WellFormed(u)
    ensures Grows(t, u)
    ensures c != MiscFolder || t.top[n] == File ==> MiscGetsFiles(t, u)
    ensures Population(u) == Population(t)
    ensures u.top.Keys == t.top.Keys - {n} && Inside(u.folders) == Inside(t.folders) + {(c, target)}
    ensures Landed(t, u, Move(n, c, target))
  {
    var u := Tree(t.top - {n}, t.folders[c := t.folders[c][target := t.top[n]]]);
    RenameShape(t, u, n, c, target);
    assert n !in t.folders;
    RenameCount(t, u, n, c, target);
    u
  }

  lemma RenameShape(t: Tree, u: Tree, n: string, c: string, target: string)
    requires WellFormed(t) && n in t.top && n !in FolderNames && c in t.folders
    requires target !in t.folders[c]
    requires u == Tree(t.top - {n}, t.folders[c := t.folders[c][target := t.top[n]]])
    ensures WellFormed(u) && Grows(t, u)
    ensures c != MiscFolder || t.top[n] == File ==> MiscGetsFiles(t, u)
  {
    assert n !in t.folders;
    forall d | d in u.folders
      ensures d in FolderNames && d in u.top && u.top[d] == Dir
    {
      assert d in t.folders;
    }
  }

  lemma RenameCount(t: Tree, u: Tree, n: string, c: string, target: string)
    requires n in t.top && n !in t.folders && c in t.folders
    requires target !in t.folders[c]
    requires u == Tree(t.top - {n}, t.folders[c := t.folders[c][target := t.top[n]]])
    ensures Population(u) == Population(t)
    ensures u.top.Keys == t.top.Keys - {n} && Inside(u.folders) == Inside(t.folders) + {(c, target)}
  {
    RenameKeys(t, u, n, c, target);
    InsideAdd(t.folders, c, target, t.top[n]);
  }

  lemma RenameKeys(t: Tree, u: Tree, n: string, c: string, target: string)
    requires n in t.top && n !in t.folders && c in t.folders
    requires u == Tree(t.top - {n}, t.folders[c := t.folders[c][target := t.top[n]]])
    ensures u.top.Keys - u.folders.Keys == (t.top.Keys - t.folders.Keys) - {n}
    ensures |u.top.Keys - u.folders.Keys| + 1 == |t.top.Keys - t.folders.Keys|
  {
    assert u.folders.Keys == t.folders.Keys;
    assert n in t.top.Keys - t.folders.Keys;
  }

  /** The name the resolver of `route` picks inside a folder holding `dest`. */
  function Target(dest: set<string>, n: string, route: Route): (r: string)
    requires route.Plain? || (route.Extended? && IsSuffixForm(route.ext))
    ensures r !in dest
  {
    if route.Plain? then
      assert Copies(n, FreeIndex(dest, n, "", 0)) + "" == PlainTarget(dest, n);
      PlainTarget(dest, n)
    else RetryWithExtension(dest, n, route.ext)
  }

  /** What the passes may ask of `Visit`: a route for an entry that exists
      and is not a category folder, into a category folder, with an
      extension of the right shape, and into Miscellaneous only for a file. */
  ghost predicate Routable(t: Tree, n: string, route: Route) {
    route.Stay? ||
    (&& n in t.top && n !in FolderNames && route.folder in FolderNames
     && (route.Extended? ==> IsSuffixForm(route.ext))
     && (route.folder == MiscFolder ==> t.top[n] == File))
  }

  /** The body of both loops for one entry once it has been routed: create
      the folder, resolve a free name, rename. */
  function Visit(t: Tree, n: string, route: Route): (e: Effect)
    requires WellFormed(t) && Routable(t, n, route)
    ensures e.Skip? <==> route.Stay?
    ensures e.Fail? <==> !route.Stay? && route.folder in t.top && t.top[route.folder] == File
    ensures e.Relocate? ==> e.move.source == n && e.move.folder == route.folder
    ensures e.Relocate? ==> Landed(t, e.tree, e.move)
    ensures e.Relocate? ==> WellFormed(e.tree) && Grows(t, e.tree) && MiscGetsFiles(t, e.tree)
    ensures e.Relocate? ==> Population(e.tree) == Population(t)
    ensures e.Relocate? ==> e.tree.top.Keys == t.top.Keys + {route.folder} - {n}
    ensures e.Relocate? ==> Inside(e.tree.folders) == Inside(t.folders) + {(route.folder, e.move.target)}
  {
    if route.Stay? then Skip
    else
      match MakeFolder(t, route.folder)
      case None => Fail
      case Some(u) =>
        var target := Target(u.folders[route.folder].Keys, n, route);
        var v := Rename(u, n, route.folder, target);
        VisitFacts(t, u, v, Move(n, route.folder, target));
        Relocate(v, Move(n, route.folder, target))
  }

  /** Visit in terms of its parts: the folder that `MakeFolder` gives, and
      the rename to the name `Target` picks there. */
  lemma VisitRelocates(t: Tree, u: Tree, n: string, route: Route, target: string)
    requires WellFormed(t) && Routable(t, n, route) && !route.Stay?
    requires MakeFolder(t, route.folder) == Some(u)
    requires target == Target(u.folders[route.folder].Keys, n, route)
    ensures n in u.top && target !in u.folders[route.folder]
    ensures Visit(t, n, route) == Relocate(Rename(u, n, route.folder, target), Move(n, route.folder, target))
  {
  }

  lemma VisitFacts(t: Tree, u: Tree, v: Tree, m: Move)
    requires Grows(t, u) && MiscGetsFiles(t, u) && Population(u) == Population(t)
    requires Grows(u, v) && MiscGetsFiles(u, v) && Population(v) == Population(u)
    requires u.top.Keys == t.top.Keys + {m.folder} && Inside(u.folders) == Inside(t.folders)
    requires v.top.Keys == u.top.Keys - {m.source} && Inside(v.folders) == Inside(u.folders) + {(m.folder, m.target)}
    requires Landed(u, v, m)
    ensures Grows(t, v) && MiscGetsFiles(t, v) && Population(v) == Population(t)
    ensures v.top.Keys == t.top.Keys + {m.folder} - {m.source}
    ensures Inside(v.folders) == Inside(t.folders) + {(m.folder, m.target)}
    ensures Landed(t, v, m)
  {
    GrowsTransitive(t, u, v);
    MiscTransitive(t, u, v);
    LandedEarlier(t, u, v, m);
  }

  /** The routing of a pass: white-listed names are skipped (as is a name no
      longer present, which a snapshot of the directory never lists), then
      each pass routes by name and kind. */
  function RouteOf(pass: Pass, t: Tree, n: string, script: string): (r: Route)
    ensures Routable(t, n, r)
  {
    if n !in t.top || IsWhiteListed(n, script) then Stay
    else
      FolderNamesProtected(script);
      DirectoriesNeverMiscellaneous(n);
      if pass == First then FirstPassRoute(n, t.top[n]) else SecondPassRoute(n, t.top[n])
  }

  /** One iteration of a pass's loop: nothing once the pass has stopped;
      otherwise the visit of `n`, whose error stops the pass. */
  function Step(p: Progress, n: string, pass: Pass, script: string): (q: Progress)
    requires WellFormed(p.tree)
    ensures WellFormed(q.tree)
    ensures !p.ok ==> q == p
  {
    if !p.ok then p else Apply(p, Visit(p.tree, n, RouteOf(pass, p.tree, n, script)))
  }

  /** The progress after a visit with effect `e`. */
  function Apply(p: Progress, e: Effect): (q: Progress)
    requires WellFormed(p.tree) && (e.Relocate? ==> WellFormed(e.tree))
    ensures WellFormed(q.tree)
  {
    match e
    case Skip => p
    case Fail => Progress(p.tree, p.moves, false)
    case Relocate(u, m) => Progress(u, p.moves + [m], true)
  }

  /** A step depends on the progress only through its tree: the moves made
      before are carried along. */
  lemma StepShift(t: Tree, moves: seq<Move>, n: string, pass: Pass, script: string)
    requires WellFormed(t)
    ensures var q := Step(Progress(t, [], true), n, pass, script);
      Step(Progress(t, moves, true), n, pass, script) == Progress(q.tree, moves + q.moves, q.ok)
  {
    ApplyShift(t, moves, Visit(t, n, RouteOf(pass, t, n, script)));
  }

  lemma ApplyShift(t: Tree, moves: seq<Move>, e: Effect)
    requires WellFormed(t) && (e.Relocate? ==> WellFormed(e.tree))
    ensures var q := Apply(Progress(t, [], true), e);
      Apply(Progress(t, moves, true), e) == Progress(q.tree, moves + q.moves, q.ok)
  {
    if e.Relocate? {
      assert moves + ([] + [e.move]) == moves + [e.move];
    } else {
      assert moves + [] == moves;
    }
  }

  /** One pass over the snapshot `snap`, entry by entry, stopping at the
      first error. */
  function Sweep(t: Tree, snap: seq<string>, pass: Pass, script: string): (p: Progress)
    requires WellFormed(t)
    ensures WellFormed(p.tree)
    decreases |snap|
  {
    if snap == [] then Progress(t, [], true)
    else Step(Sweep(t, snap[..|snap| - 1], pass, script), snap[|snap| - 1], pass, script)
  }

  /** Once a pass has stopped, later entries change nothing. */
  lemma {:induction false} SweepStopped(t: Tree, snap: seq<string>, i: nat, pass: Pass, script: string)
    requires WellFormed(t) && i <= |snap|
    requires !Sweep(t, snap[..i], pass, script).ok
    ensures Sweep(t, snap, pass, script) == Sweep(t, snap[..i], pass, script)
    decreases |snap| - i
  {
    if i < |snap| {
      var init := snap[..|snap| - 1];
      assert init[..i] == snap[..i];
      SweepStopped(t, init, i, pass, script);
    } else {
      assert snap[..i] == snap;
    }
  }

  /** Progress `p` of a pass that started from `t` has overwritten nothing,
      kept every entry (the count of entries other than category folders is
      unchanged) and the kind of every entry it moved, landed every move on
      a name that was free, and put only files into Miscellaneous. Only the
      sources of its moves have left the top level, and the folders hold
      exactly what they held plus the targets of its moves. */
  ghost predicate Kept(t: Tree, p: Progress) {
    && Grows(t, p.tree) && MiscGetsFiles(t, p.tree) && Population(p.tree) == Population(t)
    && AllLanded(t, p.tree, p.moves) && Accounted(t, p.tree, p.moves)
  }

  /** The top-level names the moves took away. */
  ghost function Sources(moves: seq<Move>): set<string> {
    set i | 0 <= i < |moves| :: moves[i].source
  }

  /** The (folder, name) pairs the moves filled. */
  ghost function Targets(moves: seq<Move>): set<(string, string)> {
    set i | 0 <= i < |moves| :: (moves[i].folder, moves[i].target)
  }

  /** Every entry that left the top level is the source of a listed move,
      and every entry that is new inside a folder is the target of one:
      nothing is dropped or made up beside the moves. `Kept` includes
      `Accounted`. */
  lemma AccountedMeans(t: Tree, u: Tree, moves: seq<Move>)
    requires Accounted(t, u, moves)
    ensures forall n :: n in t.top && n !in u.top ==>
      exists i :: 0 <= i < |moves| && moves[i].source == n
    ensures forall c, x :: c in u.folders && x in u.folders[c] && !(c in t.folders && x in t.folders[c]) ==>
      exists i :: 0 <= i < |moves| && moves[i].folder == c && moves[i].target == x
  {
    forall n | n in t.top && n !in u.top
      ensures exists i :: 0 <= i < |moves| && moves[i].source == n
    {
      assert n in Sources(moves);
    }
    forall c, x | c in u.folders && x in u.folders[c] && !(c in t.folders && x in t.folders[c])
      ensures exists i :: 0 <= i < |moves| && moves[i].folder == c && moves[i].target == x
    {
      assert (c, x) in Inside(u.folders);
      assert (c, x) !in Inside(t.folders);
      assert (c, x) in Targets(moves);
    }
  }

  /** A result that drops the file `b` and puts a directory `z` into
      `Music` without listing a move keeps the count of entries, but it is
      not `Kept`. */
  lemma DroppedEntryExample()
    ensures var t := Tree(map["b" := File, "Music" := Dir], map["Music" := map[]]);
      var u := Tree(map["Music" := Dir], map["Music" := map["z" := Dir]]);
      !Kept(t, Progress(u, [], true))
  {
    var t := Tree(map["b" := File, "Music" := Dir], map["Music" := map[]]);
    var u := Tree(map["Music" := Dir], map["Music" := map["z" := Dir]]);
    assert Sources([]) == {};
    assert "b" in t.top.Keys - Sources([]) && "b" !in u.top.Keys;
  }

  /** What left the top level and what arrived in the folders between `t`
      and `u` is what `moves` says. */
  ghost predicate Accounted(t: Tree, u: Tree, moves: seq<Move>) {
    && t.top.Keys - Sources(moves) <= u.top.Keys
    && Inside(u.folders) == Inside(t.folders) + Targets(moves)
  }

  lemma AccountedExtend(t: Tree, a: Tree, u: Tree, moves: seq<Move>, m: Move)
    requires Accounted(t, a, moves)
    requires a.top.Keys - {m.source} <= u.top.Keys
    requires Inside(u.folders) == Inside(a.folders) + {(m.folder, m.target)}
    ensures Accounted(t, u, moves + [m])
  {
    SourcesAppend(moves, [m]);
    TargetsAppend(moves, [m]);
    assert [m][0] == m;
    assert Sources([m]) == {m.source};
    assert Targets([m]) == {(m.folder, m.target)};
  }

  lemma AccountedCompose(t: Tree, a: Tree, u: Tree, m1: seq<Move>, m2: seq<Move>)
    requires Accounted(t, a, m1) && Accounted(a, u, m2)
    ensures Accounted(t, u, m1 + m2)
  {
    SourcesAppend(m1, m2);
    TargetsAppend(m1, m2);
  }

  lemma SourcesAppend(a: seq<Move>, b: seq<Move>)
    ensures Sources(a + b) == Sources(a) + Sources(b)
  {
    forall x | x in Sources(a + b)
      ensures x in Sources(a) + Sources(b)
    {
      var i :| 0 <= i < |a + b| && (a + b)[i].source == x;
      if i < |a| {
        assert a[i] == (a + b)[i];
      } else {
        assert b[i - |a|] == (a + b)[i];
      }
    }
    forall x | x in Sources(a) + Sources(b)
      ensures x in Sources(a + b)
    {
      if x in Sources(a) {
        var i :| 0 <= i < |a| && a[i].source == x;
        assert (a + b)[i] == a[i];
      } else {
        var i :| 0 <= i < |b| && b[i].source == x;
        assert (a + b)[|a| + i] == b[i];
      }
    }
  }

  lemma TargetsAppend(a: seq<Move>, b: seq<Move>)
    ensures Targets(a + b) == Targets(a) + Targets(b)
  {
    forall x | x in Targets(a + b)
      ensures x in Targets(a) + Targets(b)
    {
      var i :| 0 <= i < |a + b| && ((a + b)[i].folder, (a + b)[i].target) == x;
      if i < |a| {
        assert a[i] == (a + b)[i];
      } else {
        assert b[i - |a|] == (a + b)[i];
      }
    }
    forall x | x in Targets(a) + Targets(b)
      ensures x in Targets(a + b)
    {
      if x in Targets(a) {
        var i :| 0 <= i < |a| && (a[i].folder, a[i].target) == x;
        assert (a + b)[i] == a[i];
      } else {
        var i :| 0 <= i < |b| && (b[i].folder, b[i].target) == x;
        assert (a + b)[|a| + i] == b[i];
      }
    }
  }

  ghost predicate AllLanded(t: Tree, u: Tree, moves: seq<Move>) {
    forall i :: 0 <= i < |moves| ==> Landed(t, u, moves[i])
  }

  lemma StepKeeps(t: Tree, p: Progress, n: string, pass: Pass, script: string)
    requires WellFormed(p.tree) && Kept(t, p)
    ensures Kept(t, Step(p, n, pass, script))
  {
    if p.ok {
      var e := Visit(p.tree, n, RouteOf(pass, p.tree, n, script));
      if e.Relocate? {
        KeptExtend(t, p, e.tree, e.move);
      }
    }
  }

  /** Appending a landed move on a tree that grew keeps a pass's progress. */
  lemma KeptExtend(t: Tree, p: Progress, u: Tree, m: Move)
    requires Kept(t, p) && Grows(p.tree, u) && MiscGetsFiles(p.tree, u)
    requires Population(u) == Population(p.tree) && Landed(p.tree, u, m)
    requires p.tree.top.Keys - {m.source} <= u.top.Keys
    requires Inside(u.folders) == Inside(p.tree.folders) + {(m.folder, m.target)}
    ensures Kept(t, Progress(u, p.moves + [m], true))
  {
    AccountedExtend(t, p.tree, u, p.moves, m);
    GrowsTransitive(t, p.tree, u);
    MiscTransitive(t, p.tree, u);
    AllLandedExtend(t, p.tree, u, p.moves, m);
  }

  lemma AllLandedExtend(t: Tree, a: Tree, u: Tree, moves: seq<Move>, m: Move)
    requires Grows(t, a) && Grows(a, u) && AllLanded(t, a, moves) && Landed(a, u, m)
    ensures AllLanded(t, u, moves + [m])
  {
    LandedEarlier(t, a, u, m);
    forall i | 0 <= i < |moves| + 1
      ensures Landed(t, u, (moves + [m])[i])
    {
      if i < |moves| {
        LandedLater(t, a, u, moves[i]);
      }
    }
  }

  /** A pass, finished or aborted, keeps the directory as `Kept` says. */
  lemma {:induction false} SweepPreserves(t: Tree, snap: seq<string>, pass: Pass, script: string)
    requires WellFormed(t)
    ensures Kept(t, Sweep(t, snap, pass, script))
    decreases |snap|
  {
    if snap != [] {
      SweepPreserves(t, snap[..|snap| - 1], pass, script);
      StepKeeps(t, Sweep(t, snap[..|snap| - 1], pass, script), snap[|snap| - 1], pass, script);
    }
  }

  /** Two passes run one after the other keep the directory as one does,
      with the moves of both. */
  lemma KeptCompose(t: Tree, p1: Progress, p2: Progress)
    requires Kept(t, p1) && Kept(p1.tree, p2)
    ensures Kept(t, Progress(p2.tree, p1.moves + p2.moves, p2.ok))
  {
    GrowsTransitive(t, p1.tree, p2.tree);
    MiscTransitive(t, p1.tree, p2.tree);
    AccountedCompose(t, p1.tree, p2.tree, p1.moves, p2.moves);
    var moves := p1.moves + p2.moves;
    forall i | 0 <= i < |moves|
      ensures Landed(t, p2.tree, moves[i])
    {
      if i < |p1.moves| {
        LandedLater(t, p1.tree, p2.tree, p1.moves[i]);
      } else {
        LandedEarlier(t, p1.tree, p2.tree, p2.moves[i - |p1.moves|]);
      }
    }
  }

  /** What a pass leaves alone stays left alone as sorting goes on: the
      entry is gone, or it kept its name and kind, or it is a new category
      folder, which is white-listed. */
  lemma StayPersists(pass: Pass, t: Tree, u: Tree, n: string, script: string)
    requires Grows(t, u) && RouteOf(pass, t, n, script).Stay?
    ensures RouteOf(pass, u, n, script).Stay?
  {
    FolderNamesProtected(script);
  }

  /** Every name of `names` would be skipped by `pass` in `t`. */
  ghost predicate SkipsAll(pass: Pass, t: Tree, names: seq<string>, script: string) {
    forall n :: n in names ==> RouteOf(pass, t, n, script).Stay?
  }

  /** A step that does not abort leaves its own entry and everything skipped
      before it skipped. */
  lemma StepSettles(p: Progress, names: seq<string>, n: string, pass: Pass, script: string)
    requires WellFormed(p.tree)
    requires p.ok ==> SkipsAll(pass, p.tree, names, script)
    ensures var q := Step(p, n, pass, script);
      q.ok ==> SkipsAll(pass, q.tree, names + [n], script)
  {
    var q := Step(p, n, pass, script);
    if q.ok {
      var e := Visit(p.tree, n, RouteOf(pass, p.tree, n, script));
      forall m | m in names + [n]
        ensures RouteOf(pass, q.tree, m, script).Stay?
      {
        if m in names {
          StayPersists(pass, p.tree, q.tree, m, script);
        }
      }
    }
  }

  /** After a pass that did not abort, a second visit of any name the
      snapshot listed would do nothing. */
  lemma {:induction false} SweepSettles(t: Tree, snap: seq<string>, pass: Pass, script: string)
    requires WellFormed(t)
    ensures var p := Sweep(t, snap, pass, script);
      p.ok ==> SkipsAll(pass, p.tree, snap, script)
    decreases |snap|
  {
    if snap != [] {
      var init, last := snap[..|snap| - 1], snap[|snap| - 1];
      assert init + [last] == snap;
      SweepSettles(t, init, pass, script);
      StepSettles(Sweep(t, init, pass, script), init, last, pass, script);
    }
  }

  /** A pass whose snapshot lists every top-level name, and which did not
      abort, leaves a top level whose every entry that pass would skip. */
  lemma SweepCovers(t: Tree, snap: seq<string>, pass: Pass, script: string)
    requires WellFormed(t)
    requires forall n :: n in t.top ==> n in snap
    ensures var p := Sweep(t, snap, pass, script);
      p.ok ==> forall n :: n in p.tree.top ==> RouteOf(pass, p.tree, n, script).Stay?
  {
    var p := Sweep(t, snap, pass, script);
    SweepSettles(t, snap, pass, script);
    SweepPreserves(t, snap, pass, script);
    FolderNamesProtected(script);
  }

  /** Neither pass has anything to do at the top level. */
  ghost predicate Settled(t: Tree, script: string) {
    forall n :: n in t.top ==> RouteOf(First, t, n, script).Stay? && RouteOf(Second, t, n, script).Stay?
  }

  /** A settled top level holds only white-listed names and directories
      whose suffix is not empty and matches no category. */
  lemma SettledMeans(t: Tree, script: string)
    ensures Settled(t, script) <==>
      forall n :: n in t.top ==>
        (IsWhiteListed(n, script) ||
         (t.top[n] == Dir && Suffix(n) != "" && forall j :: 0 <= j < |Table| ==> Lower(Suffix(n)) !in Table[j].1))
  {
    forall n | n in t.top
      ensures (RouteOf(First, t, n, script).Stay? && RouteOf(Second, t, n, script).Stay?) <==>
        (IsWhiteListed(n, script) ||
         (t.top[n] == Dir && Suffix(n) != "" && forall j :: 0 <= j < |Table| ==> Lower(Suffix(n)) !in Table[j].1))
    {
      FirstPassRouteSpec(n, t.top[n]);
    }
  }

  /** A pass over a top level it would skip entirely changes nothing. */
  lemma {:induction false} SweepFixed(t: Tree, snap: seq<string>, pass: Pass, script: string)
    requires WellFormed(t)
    requires forall n :: n in t.top ==> RouteOf(pass, t, n, script).Stay?
    ensures Sweep(t, snap, pass, script) == Progress(t, [], true)
    decreases |snap|
  {
    if snap != [] {
      SweepFixed(t, snap[..|snap| - 1], pass, script);
    }
  }

  /** A whole run: pass 1 over `snap1`; when that stops on an error, the run
      ends there; otherwise pass 2 over `snap2` from the tree pass 1 left,
      with the moves of both passes in order. Nothing is overwritten, lost or
      made up over the whole run. */
  function Run(t: Tree, snap1: seq<string>, snap2: seq<string>, script: string): (p: Progress)
    requires WellFormed(t)
    ensures WellFormed(p.tree) && Kept(t, p)
  {
    var p1 := Sweep(t, snap1, First, script);
    SweepPreserves(t, snap1, First, script);
    if !p1.ok then p1
    else
      var p2 := Sweep(p1.tree, snap2, Second, script);
      SweepPreserves(p1.tree, snap2, Second, script);
      KeptCompose(t, p1, p2);
      Progress(p2.tree, p1.moves + p2.moves, p2.ok)
  }

  /** Pass 1 then pass 2, each over a full snapshot of the directory as it
      is when the pass starts, settle the directory when neither aborts; and
      a settled directory is a fixed point of both passes, so running the
      sorter again moves nothing. */
  lemma SortSettles(t: Tree, snap1: seq<string>, snap2: seq<string>, script: string)
    requires WellFormed(t)
    requires forall n :: n in t.top ==> n in snap1
    requires var p1 := Sweep(t, snap1, First, script);
      p1.ok && forall n :: n in p1.tree.top ==> n in snap2
    requires Sweep(Sweep(t, snap1, First, script).tree, snap2, Second, script).ok
    ensures Settled(Sweep(Sweep(t, snap1, First, script).tree, snap2, Second, script).tree, script)
  {
    var p1 := Sweep(t, snap1, First, script);
    var p2 := Sweep(p1.tree, snap2, Second, script);
    SweepCovers(t, snap1, First, script);
    SweepCovers(p1.tree, snap2, Second, script);
    SweepPreserves(p1.tree, snap2, Second, script);
    forall n | n in p2.tree.top
      ensures RouteOf(First, p2.tree, n, script).Stay?
    {
      StayPersists(First, p1.tree, p2.tree, n, script);
    }
  }

  lemma SettledIsFixed(t: Tree, snap1: seq<string>, snap2: seq<string>, script: string)
    requires WellFormed(t) && Settled(t, script)
    ensures Sweep(t, snap1, First, script) == Progress(t, [], true)
    ensures Sweep(t, snap2, Second, script) == Progress(t, [], true)
  {
    SweepFixed(t, snap1, First, script);
    SweepFixed(t, snap2, Second, script);
  }

  /** A run whose listings cover the directory each time, and which does not
      fail, leaves a settled top level. */
  lemma RunSettles(t: Tree, snap1: seq<string>, snap2: seq<string>, script: string)
    requires WellFormed(t)
    requires forall n :: n in t.top ==> n in snap1
    requires var p1 := Sweep(t, snap1, First, script);
      p1.ok ==> forall n :: n in p1.tree.top ==> n in snap2
    requires Run(t, snap1, snap2, script).ok
    ensures Settled(Run(t, snap1, snap2, script).tree, script)
  {
    SortSettles(t, snap1, snap2, script);
  }

  /** A run over a settled top level makes no move and changes nothing,
      whatever the listings. */
  lemma RunFixed(t: Tree, snap1: seq<string>, snap2: seq<string>, script: string)
    requires WellFormed(t) && Settled(t, script)
    ensures Run(t, snap1, snap2, script) == Progress(t, [], true)
  {
    SettledIsFixed(t, snap1, snap2, script);
  }
}
