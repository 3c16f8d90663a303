/** The sorter itself: the directory as mutable state, `create_directory`,
    the body of each pass's loop for one entry, the two loops, the listing of
    the directory, and a whole run. The methods that change the directory are
    proved against the functions of `Sorting`. */
module Sorter {
  import opened Paths
  import opened Formats
  import opened Resolve
  import opened Sorting

  /** No name occurs twice. */
  predicate Distinct(s: seq<string>) {
    forall i, j :: 0 <= i < j < |s| ==> s[i] != s[j]
  }

  /** The effect a visit had, read off what the method returned and the
      state it left. */
  function Outcome(u: Tree, ok: bool, moved: Option<Move>): Effect {
    if !ok then Fail
    else match moved
      case None => Skip
      case Some(m) => Relocate(u, m)
  }

  /** One step from a fresh start, in terms of the visit's outcome. */
  lemma StepOfVisit(t: Tree, n: string, pass: Pass, script: string, u: Tree, ok: bool, moved: Option<Move>)
    requires WellFormed(t)
    requires Visit(t, n, RouteOf(pass, t, n, script)) == Outcome(u, ok, moved)
    requires moved.None? ==> u == t
    requires !ok ==> moved.None?
    requires WellFormed(u)
    ensures Step(Progress(t, [], true), n, pass, script)
         == Progress(u, if moved.Some? then [moved.value] else [], ok)
  {
    ApplyOutcome(t, u, ok, moved);
  }

  lemma ApplyOutcome(t: Tree, u: Tree, ok: bool, moved: Option<Move>)
    requires WellFormed(t) && WellFormed(u)
    requires moved.None? ==> u == t
    requires !ok ==> moved.None?
    ensures Apply(Progress(t, [], true), Outcome(u, ok, moved))
         == Progress(u, if moved.Some? then [moved.value] else [], ok)
  {
    if ok && moved.Some? {
      assert [] + [moved.value] == [moved.value];
    }
  }

  /** The directory being sorted: the kind of every top-level entry, and the
      contents of every category folder present at the top level. */
  class DirectorySorter {
    /** The name the program was started under, which is white-listed. */
    const script: string
    var top: map<string, Kind>
    var folders: map<string, map<string, Kind>>

    function State(): Tree
      reads this
    {
      Tree(top, folders)
    }

    ghost predicate Valid()
      reads this
    {
      WellFormed(State())
    }

    constructor (script: string, start: Tree)
      requires WellFormed(start)
      ensures this.script == script && State() == start && Valid()
    {
      this.script := script;
      top := start.top;
      folders := start.folders;
    }

    /** `create_directory`: `mkdir` only when no directory of that name is
        there; `false` when a non-directory holds the name, which makes
        `mkdir` raise and ends the run. */
    method CreateDirectory(c: string) returns (ok: bool)
      requires Valid() && c in FolderNames
      modifies this
      ensures Valid()
      ensures ok <==> MakeFolder(old(State()), c).Some?
      ensures State() == if ok then MakeFolder(old(State()), c).value else old(State())
    {
      if c in top && top[c] == Dir {
        return true;
      }
      if c in top {
        return false;
      }
      top := top[c := Dir];
      folders := folders[c := map[]];
      ok := true;
    }

    /** Create the route's folder, resolve a free name inside it, rename. */
    method MoveEntry(n: string, route: Route) returns (ok: bool, moved: Option<Move>)
      requires Valid() && Routable(State(), n, route)
      modifies this
      ensures Valid()
      ensures Visit(old(State()), n, route) == Outcome(State(), ok, moved)
      ensures moved.None? ==> State() == old(State())
      ensures !ok ==> moved.None?
    {
      if route.Stay? {
        return true, None;
      }
      ghost var t := State();
      var made := CreateDirectory(route.folder);
      if !made {
        return false, None;
      }
      ghost var u := State();
      var target := RenameInto(n, route);
      VisitRelocates(t, u, n, route, target);
      return true, Some(Move(n, route.folder, target));
    }

    /** Resolve a free name for `n` inside the route's folder, which exists,
        and rename `n` to it. */
    method RenameInto(n: string, route: Route) returns (target: string)
      requires Valid() && !route.Stay? && Routable(State(), n, route) && route.folder in folders
      modifies this
      ensures Valid()
      ensures target == Target(old(folders)[route.folder].Keys, n, route)
      ensures State() == Rename(old(State()), n, route.folder, target)
    {
      var dest := folders[route.folder].Keys;
      if route.Plain? {
        target := ResolveWithoutExtension(dest, n);
      } else {
        target := ResolveWithExtension(dest, n, route.ext);
      }
      assert target == Target(dest, n, route);
      var kind := top[n];
      top := top - {n};
      folders := folders[route.folder := folders[route.folder][target := kind]];
    }

    /** The body of the pass-1 loop for entry `n`. */
    method FirstPassEntry(n: string) returns (ok: bool, moved: Option<Move>)
      requires Valid()
      modifies this
      ensures Valid()
      ensures Step(Progress(old(State()), [], true), n, First, script)
           == Progress(State(), if moved.Some? then [moved.value] else [], ok)
    {
      var route := Stay;
      if n in top && !IsWhiteListed(n, script) {
        var ext := Lower(Suffix(n));
        if ext == "" {
          route := Plain(if top[n] == Dir then DirectoryFolder else MiscFolder);
        } else {
          var i := FindCategory(ext);
          if i >= 0 {
            route := Extended(Table[i].0, ext);
          }
        }
      }
      assert route == RouteOf(First, State(), n, script);
      ok, moved := MoveEntry(n, route);
      StepOfVisit(old(State()), n, First, script, State(), ok, moved);
    }

    /** The body of the pass-2 loop for entry `n`: a regular file that is
        not white-listed goes to Miscellaneous. */
    method SecondPassEntry(n: string) returns (ok: bool, moved: Option<Move>)
      requires Valid()
      modifies this
      ensures Valid()
      ensures Step(Progress(old(State()), [], true), n, Second, script)
           == Progress(State(), if moved.Some? then [moved.value] else [], ok)
    {
      var route := Stay;
      if n in top && !IsWhiteListed(n, script) && top[n] == File {
        route := Extended(MiscFolder, Lower(Suffix(n)));
      }
      assert route == RouteOf(Second, State(), n, script);
      ok, moved := MoveEntry(n, route);
      StepOfVisit(old(State()), n, Second, script, State(), ok, moved);
    }

    /** The pass-1 loop over snapshot `snap`: classify each entry, create
        its folder, resolve a free name and rename; an error ends the run. */
    method FirstPass(snap: seq<string>) returns (ok: bool, moves: seq<Move>)
      requires Valid()
      modifies this
      ensures Valid()
      ensures Sweep(old(State()), snap, First, script) == Progress(State(), moves, ok)
    {
      ok, moves := true, [];
      var i := 0;
      while i < |snap| && ok
        invariant 0 <= i <= |snap| && Valid()
        invariant Sweep(old(State()), snap[..i], First, script) == Progress(State(), moves, ok)
      {
        ghost var before := State();
        var done, moved := FirstPassEntry(snap[i]);
        StepShift(before, moves, snap[i], First, script);
        assert snap[..i + 1][..i] == snap[..i];
        moves := moves + (if moved.Some? then [moved.value] else []);
        ok := done;
        i := i + 1;
      }
      if i < |snap| {
        SweepStopped(old(State()), snap, i, First, script);
      } else {
        assert snap[..i] == snap;
      }
    }

    /** The pass-2 loop over a fresh snapshot `snap`: every regular file
        still at the top level and not white-listed goes to Miscellaneous. */
    method SecondPass(snap: seq<string>) returns (ok: bool, moves: seq<Move>)
      requires Valid()
      modifies this
      ensures Valid()
      ensures Sweep(old(State()), snap, Second, script) == Progress(State(), moves, ok)
    {
      ok, moves := true, [];
      var i := 0;
      while i < |snap| && ok
        invariant 0 <= i <= |snap| && Valid()
        invariant Sweep(old(State()), snap[..i], Second, script) == Progress(State(), moves, ok)
      {
        ghost var before := State();
        var done, moved := SecondPassEntry(snap[i]);
        StepShift(before, moves, snap[i], Second, script);
        assert snap[..i + 1][..i] == snap[..i];
        moves := moves + (if moved.Some? then [moved.value] else []);
        ok := done;
        i := i + 1;
      }
      if i < |snap| {
        SweepStopped(old(State()), snap, i, Second, script);
      } else {
        assert snap[..i] == snap;
      }
    }

    /** `iterdir`: every top-level name once, in an order left open. */
    method ListDirectory() returns (snap: seq<string>)
      ensures forall n :: n in snap <==> n in top
      ensures Distinct(snap)
    {
      snap := [];
      var rest := top.Keys;
      while rest != {}
        invariant forall n :: n in top <==> n in snap || n in rest
        invariant forall n :: n in snap ==> n !in rest
        invariant Distinct(snap)
        decreases |rest|
      {
        var n :| n in rest;
        snap := snap + [n];
        rest := rest - {n};
      }
    }

    /** A whole run: pass 1 over a listing of the directory, then, unless it
        failed, pass 2 over a new listing; `snap2` is empty when pass 1
        failed. The result is pass 1 then pass 2 over those listings, so
        nothing is overwritten or lost; a run that does not fail leaves the
        directory settled; and a settled directory is left exactly as it
        is. */
    method Sort() returns (ok: bool, moves: seq<Move>, snap1: seq<string>, snap2: seq<string>)
      requires Valid()
      modifies this
      ensures Valid()
      ensures (forall n :: n in snap1 <==> n in old(State()).top) && Distinct(snap1)
      ensures var p1 := Sweep(old(State()), snap1, First, script);
        if p1.ok then (forall n :: n in snap2 <==> n in p1.tree.top) && Distinct(snap2)
        else snap2 == []
      ensures Progress(State(), moves, ok) == Run(old(State()), snap1, snap2, script)
      ensures Kept(old(State()), Progress(State(), moves, ok))
      ensures ok ==> Settled(State(), script)
      ensures Settled(old(State()), script) ==> ok && moves == [] && State() == old(State())
    {
      ghost var t := State();
      snap1 := ListDirectory();
      var ok1, moves1 := FirstPass(snap1);
      if !ok1 {
        snap2 := [];
        if Settled(t, script) {
          RunFixed(t, snap1, snap2, script);
        }
        return false, moves1, snap1, snap2;
      }
      snap2 := ListDirectory();
      var ok2, moves2 := SecondPass(snap2);
      ok, moves := ok2, moves1 + moves2;
      assert Progress(State(), moves, ok) == Run(t, snap1, snap2, script);
      if ok {
        RunSettles(t, snap1, snap2, script);
      }
      if Settled(t, script) {
        RunFixed(t, snap1, snap2, script);
      }
    }
  }
}
