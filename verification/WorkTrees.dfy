/** Work trees and the index: what git's switch, add and the writing of files do to them. */
module WorkTrees {
  import opened Basics
  import opened ScmPaths

  /** The files of a commit, of the index or of the work tree, by path. */
  type Tree = map<string, string>

  function At<V>(m: map<string, V>, key: string): Option<V> {
    if key in m then Some(m[key]) else None
  }

  /** No path is both a file and a directory. */
  predicate IsTree(tree: Tree) {
    "." !in tree && forall a, b :: a in tree && b in tree ==> !StartsWith(a, b + "/")
  }

  predicate IsDirectory(tree: Tree, path: string) {
    path == "." || exists other :: other in tree && StartsWith(other, path + "/")
  }

  /** The path names a file or a directory. */
  predicate Resolves(tree: Tree, path: string) {
    path in tree || IsDirectory(tree, path)
  }

  /** The path is a directory, or goes through a file. */
  predicate Blocked(tree: Tree, path: string) {
    IsDirectory(tree, path) || exists other :: other in tree && StartsWith(path, other + "/")
  }

  lemma {:induction false} SameFiles(a: Tree, b: Tree)
    requires forall path :: At(a, path) == At(b, path)
    ensures a == b
  {
    forall path
      ensures path in a <==> path in b
      ensures path in a ==> a[path] == b[path]
    {
      assert At(a, path) == At(b, path);
    }
  }

  lemma {:induction false} FileAdded(tree: Tree, path: string, content: string)
    requires IsTree(tree) && !Blocked(tree, path)
    ensures IsTree(tree[path := content])
  {
  }

  // ---- writing files ----

  function WriteFile(tree: Tree, relative: string, content: string): Result<Tree> {
    var path :- Relative(relative);
    if Blocked(tree, path) then Err else Ok(tree[path := content])
  }

  /** How far writing one file after the other gets, and whether it gets to the end. */
  function WriteUntil(tree: Tree, files: seq<(string, string)>): (Tree, bool)
    decreases |files|
  {
    if files == [] then (tree, true)
    else
      var next := WriteFile(tree, files[0].0, files[0].1);
      if next.Err? then (tree, false) else WriteUntil(next.value, files[1..])
  }

  /** The files as given, under their normal paths; the later of two for one path counts. */
  function Given(files: seq<(string, string)>): Tree {
    if files == [] then map[]
    else
      var path := Relative(files[0].0);
      (if path.Ok? then map[path.value := files[0].1] else map[]) + Given(files[1..])
  }

  lemma {:induction false} WriteStep(tree: Tree, relative: string, content: string)
    requires WriteFile(tree, relative, content).Ok?
    ensures Relative(relative).Ok? && WriteFile(tree, relative, content).value == tree[Relative(relative).value := content]
    ensures IsTree(tree) ==> IsTree(WriteFile(tree, relative, content).value)
  {
    if IsTree(tree) {
      FileAdded(tree, Relative(relative).value, content);
    }
  }

  lemma {:induction false} FirstGiven(tree: Tree, path: string, content: string, rest: Tree)
    ensures tree[path := content] + rest == tree + (map[path := content] + rest)
  {
  }

  lemma {:induction false} WritesGiven(tree: Tree, files: seq<(string, string)>)
    requires WriteUntil(tree, files).1
    ensures WriteUntil(tree, files).0 == tree + Given(files)
    decreases |files|
  {
    if files == [] {
      assert tree + map[] == tree;
    } else {
      var next, path := WriteFile(tree, files[0].0, files[0].1), Relative(files[0].0);
      assert next.Ok? && path.Ok? && next.value == tree[path.value := files[0].1];
      WritesGiven(next.value, files[1..]);
      FirstGiven(tree, path.value, files[0].1, Given(files[1..]));
    }
  }

  /** Every file can be written exactly when every path is accepted and is, in its turn, free to hold a file. */
  lemma {:induction false} WritesExactly(tree: Tree, files: seq<(string, string)>)
    ensures WriteUntil(tree, files).1 <==> forall i :: 0 <= i < |files| ==> WritableAt(tree, files, i)
    decreases |files|
  {
    if files != [] {
      var rest, path := files[1..], Relative(files[0].0);
      assert files[..0] == [] && tree + Given([]) == tree;
      assert WritableAt(tree, files, 0) <==> WriteFile(tree, files[0].0, files[0].1).Ok?;
      if WriteFile(tree, files[0].0, files[0].1).Ok? {
        var next := WriteFile(tree, files[0].0, files[0].1).value;
        WritesExactly(next, rest);
        forall i | 0 <= i < |rest|
          ensures WritableAt(tree, files, i + 1) <==> WritableAt(next, rest, i)
        {
          assert files[..i + 1][0] == files[0] && files[..i + 1][1..] == rest[..i];
          FirstGiven(tree, path.value, files[0].1, Given(rest[..i]));
        }
        assert forall i :: 0 < i < |files| ==> (WritableAt(tree, files, i) <==> WritableAt(next, rest, i - 1));
        assert forall i :: 0 <= i < |rest| ==> (WritableAt(next, rest, i) <==> WritableAt(tree, files, i + 1));
      }
    }
  }

  /** The path of the i-th file is accepted and, with the files before it written, neither a directory nor below a file. */
  predicate WritableAt(tree: Tree, files: seq<(string, string)>, i: nat)
    requires i < |files|
  {
    Relative(files[i].0).Ok? && !Blocked(tree + Given(files[..i]), Relative(files[i].0).value)
  }

  lemma {:induction false} WritesKeepTree(tree: Tree, files: seq<(string, string)>)
    requires IsTree(tree)
    ensures IsTree(WriteUntil(tree, files).0) && tree.Keys <= WriteUntil(tree, files).0.Keys
    decreases |files|
  {
    if files != [] && WriteFile(tree, files[0].0, files[0].1).Ok? {
      WriteStep(tree, files[0].0, files[0].1);
      WritesKeepTree(WriteFile(tree, files[0].0, files[0].1).value, files[1..]);
    }
  }

  // ---- the index beside the work tree ----

  datatype Checkout = Checkout(index: Tree, work: Tree)

  /** Whatever the index has, the work tree has a file for. */
  predicate Tracked(c: Checkout) {
    IsTree(c.work) && c.index.Keys <= c.work.Keys
  }

  function AllPaths(h: Tree, m: Tree, c: Checkout): set<string> {
    h.Keys + m.Keys + c.index.Keys + c.work.Keys
  }

  /** Switching from one commit to another takes the path from the new one. */
  predicate Moves(h: Tree, m: Tree, index: Tree, path: string) {
    At(h, path) != At(m, path) && At(index, path) != At(m, path)
  }

  /** A path is taken over only where nothing of its own would be lost. */
  predicate MayMove(h: Tree, m: Tree, c: Checkout, path: string) {
    Moves(h, m, c.index, path) ==> At(c.index, path) == At(h, path) && At(c.work, path) == At(c.index, path)
  }

  function Overlaid(h: Tree, m: Tree, c: Checkout, kept: Tree): (r: Tree)
    ensures forall path :: path in AllPaths(h, m, c) ==>
              At(r, path) == if Moves(h, m, c.index, path) then At(m, path) else At(kept, path)
    ensures r.Keys <= AllPaths(h, m, c)
  {
    map path | path in AllPaths(h, m, c) && (if Moves(h, m, c.index, path) then path in m else path in kept) ::
      if Moves(h, m, c.index, path) then m[path] else kept[path]
  }

  /** `git switch` from commit `h` to commit `m`: all paths or none. Changes of its own are carried along. */
  function SwitchTrees(h: Tree, m: Tree, c: Checkout): Result<Checkout> {
    if exists path :: path in AllPaths(h, m, c) && !MayMove(h, m, c, path) then Err
    else
      var next := Checkout(Overlaid(h, m, c, c.index), Overlaid(h, m, c, c.work));
      if IsTree(next.work) then Ok(next) else Err
  }

  /** What a switch leaves of every path. */
  lemma {:induction false} SwitchedAt(h: Tree, m: Tree, c: Checkout, path: string)
    requires SwitchTrees(h, m, c).Ok?
    ensures var next := SwitchTrees(h, m, c).value;
            && At(next.index, path) == (if Moves(h, m, c.index, path) then At(m, path) else At(c.index, path))
            && At(next.work, path) == (if Moves(h, m, c.index, path) then At(m, path) else At(c.work, path))
  {
  }

  lemma {:induction false} SwitchTracked(h: Tree, m: Tree, c: Checkout)
    requires SwitchTrees(h, m, c).Ok? && Tracked(c)
    ensures Tracked(SwitchTrees(h, m, c).value)
  {
    var next := SwitchTrees(h, m, c).value;
    forall path | path in next.index
      ensures path in next.work
    {
      SwitchedAt(h, m, c, path);
    }
  }

  /** With nothing of its own to lose or to carry along, a switch leaves exactly the new commit. */
  lemma {:induction false} SwitchClean(h: Tree, m: Tree)
    requires IsTree(m)
    ensures SwitchTrees(h, m, Checkout(h, h)) == Ok(Checkout(m, m))
  {
    var c := Checkout(h, h);
    SameFiles(Overlaid(h, m, c, h), m);
  }

  lemma {:induction false} SwitchNowhere(h: Tree, c: Checkout)
    requires IsTree(c.work)
    ensures SwitchTrees(h, h, c) == Ok(c)
  {
    SameFiles(Overlaid(h, h, c, c.index), c.index);
    SameFiles(Overlaid(h, h, c, c.work), c.work);
  }

  // ---- adding to the index ----

  /** A path given to `git add` stands for itself and for everything below it. */
  predicate Selected(path: string, other: string) {
    path == "." || other == path || StartsWith(other, path + "/")
  }

  /** `git add -- path`, which fails when nothing goes by that path. */
  function AddPath(c: Checkout, path: string): Result<Checkout> {
    if forall other :: other in c.index.Keys + c.work.Keys ==> !Selected(path, other) then Err
    else
      Ok(c.(index := map other | other in c.index.Keys + c.work.Keys
                                 && (if Selected(path, other) then other in c.work else other in c.index) ::
              if Selected(path, other) then c.work[other] else c.index[other]))
  }

  lemma {:induction false} AddTracked(c: Checkout, path: string)
    requires Tracked(c) && AddPath(c, path).Ok?
    ensures Tracked(AddPath(c, path).value)
  {
  }

  /** A file just written is the only one that adding its own path brings into the index. */
  lemma {:induction false} AddWritten(c: Checkout, path: string)
    requires Tracked(c) && path in c.work
    ensures AddPath(c, path) == Ok(c.(index := c.index[path := c.work[path]]))
  {
    assert path != ".";
    assert Selected(path, path);
    forall other | other in c.work && other != path
      ensures !Selected(path, other)
    {
      assert !StartsWith(other, path + "/");
    }
    assert AddPath(c, path).value.index == c.index[path := c.work[path]];
  }
}
