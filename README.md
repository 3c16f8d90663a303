# smart_file_sorter in Dafny

A model of `smart_file_sorter.py`, which sorts the top level of one
directory into category folders, and proofs about it. The script works in
two passes:

- Pass 1 sends every entry without an extension to `Directory` (a directory)
  or `Miscellaneous` (anything else). It sends every entry whose lower-cased
  extension appears in the `FORMATS` table to the first category, in table
  order, that lists it.
- Pass 2 re-reads the directory and sends every regular file still at the top
  level to `Miscellaneous`.

Both passes skip white-listed names. These are:

- the two implicit folders;
- the script's own name and the fixture generator's name;
- hidden names;
- the ten category names.

A folder is created only when it is needed. A name that is already taken in
the destination gets `_(copy)` markers until it is free.

The model has five modules, one per file:

| file | module | contents |
|---|---|---|
| paths.dfy | `Paths` | pathlib's `suffix` and `stem`, ASCII `lower`, the `_(copy)` marker |
| formats.dfy | `Formats` | `WHITE_LIST`, `FORMATS`, `white_list`, the scan of the table as a `while` loop, the pass-1 and pass-2 routing of a single name |
| resolve.dfy | `Resolve` | the two collision resolvers, as `while` loops proved against recursive specification functions |
| sorting.dfy | `Sorting` | the directory as a value (`Tree`), `create_directory`, one visit, a pass as a fold over a snapshot of names, and what a pass and a whole run guarantee |
| sorter.dfy | `Sorter` | the class `DirectorySorter`. It holds the directory in fields that its methods update: `create_directory`, the body of each loop, the two loops, the listing of the directory, and a whole run. The methods that change the directory are proved equal to the `Sorting` function for the same step or run; `ListDirectory` is proved to list each top-level name once |

The directory has two parts:

- `top` maps each top-level name to its kind (`File` or `Dir`).
- `folders` maps each category folder that exists at the top level to the
  names inside it, with their kinds.

`WellFormed` ties the two together. The kinds inside folders let the model
state that a move keeps the kind of what it moves.

What happens when `mkdir` meets a non-directory that already has the
category's name: it raises, and the script stops. The model returns `None`
from `MakeFolder`, `false` from `CreateDirectory`, and `ok == false` from the
pass, which then does nothing more.

Each pass runs over a snapshot: a sequence of names, in any order. Two rules
cover names in the snapshot:

- A name that is no longer at the top level is skipped.
- `ListDirectory` produces a snapshot holding each top-level name exactly
  once.

## Model

| member | source | states |
|---|---|---|
| Paths.LastDot | smart_file_sorter.py:264 | the index of the last `.` of a name, or -1, with no `.` after it |
| Paths.StemAndSuffix | smart_file_sorter.py:263-264 | stem followed by suffix is the name; a non-empty suffix is a dot and a non-empty dot-free tail; the stem holds fewer dots than the name when the suffix is not empty |
| Paths.SplitAtExtension | smart_file_sorter.py:151-152 | appending an extension to a non-empty base makes the base the stem and the extension the suffix |
| Paths.LowerCommutes | smart_file_sorter.py:264 | lower-casing commutes with taking the last dot, the suffix and the stem |
| Paths.LowerKeepsForm | smart_file_sorter.py:264 | the lower-cased suffix is still empty or an extension, and is empty exactly when the suffix is |
| Paths.Copies | smart_file_sorter.py:130 | base plus k markers has the base as prefix and grows by the marker's length per copy |
| Formats.WhiteListMeans | smart_file_sorter.py:63-75 | a name is white-listed exactly when it is in `WHITE_LIST`, starts with a dot, or is one of the ten category names |
| Formats.KeysOfTable | smart_file_sorter.py:185-254 | the table's keys are the ten categories |
| Formats.FolderNamesProtected | smart_file_sorter.py:75 | the twelve folders the sorter can create are the table's keys plus `Directory` and `Miscellaneous`, and all of them are white-listed |
| Formats.FirstMatchFrom | smart_file_sorter.py:283-284 | the first row from `i` on whose set holds the extension, or -1 exactly when no row does |
| Formats.FindCategory | smart_file_sorter.py:283-293 | the loop over the table is equal to `FirstMatchFrom(Table, ext, 0)`: it stops at the first row that holds the extension, or returns -1 |
| Formats.FirstPassRoute | smart_file_sorter.py:266-293 | pass 1 only routes into one of the twelve folders, with an extension that has the right shape |
| Formats.FirstPassRouteSpec | smart_file_sorter.py:266-293 | an extensionless entry goes to `Directory` if it is a directory and to `Miscellaneous` otherwise; an entry with a suffix goes to the first row, in table order, whose set holds the lower-cased suffix, and stays when no row does |
| Formats.SecondPassRoute | smart_file_sorter.py:300-309 | pass 2 leaves exactly the directories alone and sends every file to `Miscellaneous` with its lower-cased suffix |
| Formats.DirectoriesNeverMiscellaneous | smart_file_sorter.py:266-301 | neither pass ever routes a directory to `Miscellaneous` |
| Formats.RouteIgnoresCase | smart_file_sorter.py:264 | names equal up to letter case are routed alike in pass 1 |
| Formats.PictureExample | smart_file_sorter.py:264-293 | `IMAGE.PNG` and `image.png` both go to `Picture` as `.png` |
| Formats.FakeImageExample | smart_file_sorter.py:264-293 | `fake image.png.pdf` goes to `Document` as `.pdf`: only the last extension counts |
| Formats.DeferredExample | smart_file_sorter.py:283-309 | `data.xyz123` stays in pass 1 and goes to `Miscellaneous` as `.xyz123` in pass 2 |
| Formats.HiddenExample | smart_file_sorter.py:75 | `.env` is white-listed |
| Resolve.FreeIndex | smart_file_sorter.py:129-130 | the fewest markers, from `k` on, that make `base + markers + tail` free, with every smaller count from `k` on taken |
| Resolve.RetryWithExtension | smart_file_sorter.py:150-153 | the loop's answer is never a taken name, and is the name itself when that is free |
| Resolve.RetryAddsMarkers | smart_file_sorter.py:150-152 | once the candidate is base, markers and extension, the loop only adds markers and stops at the fewest that make it free |
| Resolve.RetryWithExtensionSpec | smart_file_sorter.py:148-153 | with a real extension, the answer is the name when it is free, and otherwise its stem, the fewest k >= 1 markers that make it free, and the extension |
| Resolve.ResolveWithoutExtension | smart_file_sorter.py:127-131 | the loop returns a free name, and it is the name plus the fewest markers (k >= 0) that make it free |
| Resolve.ResolveWithExtension | smart_file_sorter.py:148-153 | the loop returns a free name, and it equals the recursive specification |
| Resolve.CopyChainExample | smart_file_sorter.py:148-153 | with `a.txt` and `a_(copy).txt` taken, `a.txt` becomes `a_(copy)_(copy).txt` |
| Resolve.NewFileChainExample | smart_file_sorter.py:148-153 | with `new file.txt` and its first two copies taken, `new file.txt` becomes `new file_(copy)_(copy)_(copy).txt` |
| Resolve.PlainChainExample | smart_file_sorter.py:127-131 | with `Photos` taken, `Photos` becomes `Photos_(copy)` |
| Resolve.EmptyExtensionExample | smart_file_sorter.py:150-152 | with an empty extension, the two resolvers give different names for `a.b.` |
| Sorting.MakeFolder | smart_file_sorter.py:41-49 | it fails exactly when a file holds the name; an existing directory is kept as it is; otherwise the top level gains exactly the name, as a directory, every other entry keeps its kind, and the entries inside the folders are exactly those before (the new folder is empty) |
| Sorting.MakeFolderTwice | smart_file_sorter.py:47-48 | creating the folder twice has the effect of creating it once |
| Sorting.Rename | smart_file_sorter.py:291 | the rename takes exactly the entry off the top level and adds exactly one entry inside the folders, at the free target name and with the entry's kind; nothing else is lost, overwritten or added |
| Sorting.Target | smart_file_sorter.py:288-290 | the name chosen in the destination is free |
| Sorting.Visit | smart_file_sorter.py:266-293 | one entry is skipped exactly when its route says so, fails exactly when a file holds its folder's name, and otherwise lands on a free name in its folder with its kind: the top level loses exactly that entry and gains at most the folder, the folders gain exactly that one entry, and only files go into `Miscellaneous` |
| Sorting.RouteOf | smart_file_sorter.py:258-301 | every route it gives can be followed: the entry exists and is not a category folder, the destination is a category folder, the extension has the right shape, and only files go to `Miscellaneous` |
| Sorting.Step | smart_file_sorter.py:257-293 | once a pass has stopped, a step changes nothing |
| Sorting.Sweep | smart_file_sorter.py:257-311 | a pass keeps the directory well formed |
| Sorting.SweepStopped | smart_file_sorter.py:257-311 | after an error, the rest of the snapshot changes nothing |
| Sorting.StepKeeps | smart_file_sorter.py:286-291 | one step keeps `Kept` |
| Sorting.SweepPreserves | smart_file_sorter.py:257-311 | a pass, finished or stopped, overwrites nothing, keeps the kind of every entry, lands every move on a name that was free, and puts only files into `Miscellaneous`; only the sources of its listed moves leave the top level, and the folders hold exactly what they held plus its listed targets |
| Sorting.AccountedMeans | smart_file_sorter.py:286-291 | every entry that left the top level is the source of a listed move, and every entry new inside a folder is the target of one |
| Sorting.DroppedEntryExample | smart_file_sorter.py:286-291 | a result that drops a file and puts a made-up directory into a folder without a move keeps the count but is not `Kept` |
| Sorting.KeptCompose | smart_file_sorter.py:257-311 | two passes in a row keep the directory as one does, with the moves of both |
| Sorting.StayPersists | smart_file_sorter.py:298-301 | an entry a pass skips stays skipped while the directory grows |
| Sorting.StepSettles | smart_file_sorter.py:257-311 | a step that does not fail leaves its own entry, and everything skipped before it, skipped |
| Sorting.SweepSettles | smart_file_sorter.py:257-311 | after a pass that did not fail, every name in the snapshot would be skipped |
| Sorting.SweepCovers | smart_file_sorter.py:257-311 | a pass over a full snapshot that did not fail leaves nothing at the top level that it would move |
| Sorting.SettledMeans | smart_file_sorter.py:266-301 | a top level neither pass would touch holds only white-listed names and directories whose non-empty suffix matches no category |
| Sorting.SweepFixed | smart_file_sorter.py:257-311 | a pass over a top level it would skip entirely changes nothing |
| Sorting.SortSettles | smart_file_sorter.py:257-311 | pass 1 then pass 2, each over a full snapshot and neither failing, leave a settled top level |
| Sorting.Run | smart_file_sorter.py:257-311 | pass 1, stopping the run on an error, then pass 2 from the tree pass 1 left, overwrites nothing, keeps the kind of every entry, lands every move on a free name and puts only files into `Miscellaneous`; only the sources of the moves of both passes leave the top level, and only their targets are added to the folders |
| Sorting.RunSettles | smart_file_sorter.py:257-311 | a run whose two listings cover the directory and which does not fail leaves a settled top level |
| Sorting.RunFixed | smart_file_sorter.py:257-311 | a run over a settled top level makes no move and changes nothing, whatever the listings |
| Sorting.SettledIsFixed | smart_file_sorter.py:257-311 | on a settled top level both passes make no move and change nothing |
| Sorter.DirectorySorter.CreateDirectory | smart_file_sorter.py:41-49 | `mkdir` only when no directory has the name; the new state is the one `MakeFolder` gives, or the old state on failure |
| Sorter.DirectorySorter.MoveEntry | smart_file_sorter.py:285-291 | create the folder, resolve, rename: the effect is exactly `Visit` |
| Sorter.DirectorySorter.RenameInto | smart_file_sorter.py:287-291 | the resolved name is `Target`'s and the new state is `Rename`'s |
| Sorter.DirectorySorter.FirstPassEntry | smart_file_sorter.py:258-293 | one iteration of the pass-1 loop is one `Step` of pass 1 |
| Sorter.DirectorySorter.SecondPassEntry | smart_file_sorter.py:297-311 | one iteration of the pass-2 loop is one `Step` of pass 2 |
| Sorter.DirectorySorter.FirstPass | smart_file_sorter.py:257-293 | the pass-1 loop over a snapshot is `Sweep` of pass 1 over it |
| Sorter.DirectorySorter.SecondPass | smart_file_sorter.py:296-311 | the pass-2 loop over a snapshot is `Sweep` of pass 2 over it |
| Sorter.DirectorySorter.ListDirectory | smart_file_sorter.py:296 | the listing holds every top-level name exactly once |
| Sorter.DirectorySorter.Sort | smart_file_sorter.py:257-311 | it returns the two listings, each holding every top-level name once when it is taken (the second empty when pass 1 failed); the new state and moves are exactly `Run`: pass 1 over the first listing, then, unless it failed, pass 2 over the second from pass 1's tree with both move lists joined; hence nothing is overwritten or lost, a run that does not fail leaves the directory settled, and a settled directory is left unchanged |

## Notes on the design

- The with-extension resolver does not always fall back to the extensionless
  naming pattern when the extension is empty.
  - The loop recomputes the stem of the current candidate on every retry.
  - Appending the marker to a name that ends in a dot turns that dot into
    the start of a suffix.
  - Example: with `a.b.` and `a.b._(copy)` taken, the with-extension resolver
    gives `a.b_(copy)`. The extensionless one gives `a.b._(copy)_(copy)`.
    `Resolve.EmptyExtensionExample` states both.
  - The result is still a free name, and nothing is overwritten.
  - A full pass 1 moves every extensionless entry. So pass 2 meets an
    extensionless file only when pass 1 did not list it.
- Running the sorter a second time moves nothing, provided the first run did
  not fail. `Sort` ensures:
  - a run that does not fail leaves the directory settled;
  - a run on a settled directory makes no move, changes nothing and does not
    fail.

## Left out

- Reading the command line, `f_base_directory` and `base_directory_errors`
  (smart_file_sorter.py:78-113) are left out. They are argv, working-directory
  and permission checks. The model starts from a directory that is already
  known (`DirectorySorter` takes it as a `Tree`), and the script's name is a
  parameter.
- `error`, `success`, `display_move` and every `print` and `input` are
  console I/O and are left out. The order of the moves is kept in the
  `moves` sequence.
- The order in which `iterdir` lists entries is left out. So is the effect of
  renaming entries while iterating over a live directory. Each pass runs over
  a snapshot in an arbitrary order instead: the orders are unconstrained in
  the `Sorting` lemmas, and `ListDirectory` chooses one.
- Only the failure of `mkdir` against a non-directory of the same name is
  modelled, as an error that ends the run. Other operating-system failures
  are left out: permissions, cross-device renames, races with other
  processes.
- Kinds other than regular file and directory are left out: symbolic links,
  devices, sockets. Not being a directory decides pass 1's extensionless
  route, and being a regular file decides pass 2's. With two kinds these are
  the same test.
- Case-insensitive file systems (the default on macOS and Windows) are left
  out. There, the resolvers' `exists()` (smart_file_sorter.py:127-129 and
  148-150) finds `a.TXT` taken when `a.txt` is present, so it adds a marker
  where the model does not. The model compares names exactly, as on a
  case-sensitive file system.
- Paths.Lower: folds only ASCII letters. `str.lower` folds the whole of
  Unicode.
- Paths.Suffix: models pathlib's `suffix` and `stem` on a bare name, by the
  last-dot rule. Pathlib's handling of separators and of reserved names is
  not modelled.
- The contents of existing category folders beyond their names and kinds are
  left out: nothing inside a folder is ever read or changed except by adding
  an entry.
- `generate_testing_files.py` only creates fixture files, so it is left out.
  Its name is white-listed (`Formats.FixtureScript`), and two of its names
  appear in the example lemmas: `fake image.png.pdf`
  (`Formats.FakeImageExample`) and `new file.txt` with its copies
  (`Resolve.NewFileChainExample`).
