/** What each operation of the fixture does to its repository, its index and its work tree, step by step. */
module Fixtures {
  import opened Basics
  import opened ScmPaths
  import opened WorkTrees
  import opened ScmGraph

  /** The repository with the branch that is checked out, the index and the work tree. */
  datatype Fixture = Fixture(repo: Repo, current: string, files: Checkout)

  /** The fixture after each of its steps, and what the operation returns. */
  datatype Steps<T> = Steps(states: seq<Fixture>, result: Result<T>)

  predicate AllTrees(commits: seq<Commit>) {
    forall c :: 0 <= c < |commits| ==> IsTree(commits[c].tree)
  }

  ghost predicate Sound(f: Fixture) {
    && Consistent(f.repo) && AllTrees(f.repo.commits)
    && Tracked(f.files)
    && (Unseeded(f.repo) || f.current in f.repo.branches)
  }

  predicate HasHead(f: Fixture) {
    GraphConsistent(f.repo) && f.current in f.repo.branches
  }

  /** Nothing is pending: index and work tree are what is committed. */
  predicate Clean(f: Fixture)
    requires HasHead(f)
  {
    f.files == Checkout(HeadTree(f.repo, f.current), HeadTree(f.repo, f.current))
  }

  function SwitchTo(f: Fixture, branch: string): Result<Fixture>
    requires HasHead(f) && branch in f.repo.branches
  {
    var files :- SwitchTrees(HeadTree(f.repo, f.current), HeadTree(f.repo, branch), f.files);
    Ok(Fixture(f.repo, branch, files))
  }

  /** `git commit`, when anything is staged. */
  function Committed(f: Fixture): Fixture
    requires HasHead(f)
  {
    f.(repo := CommitTree(f.repo, f.current, f.files.index))
  }

  lemma {:induction false} SwitchSound(f: Fixture, branch: string)
    requires Sound(f) && HasHead(f) && branch in f.repo.branches && SwitchTo(f, branch).Ok?
    ensures Sound(SwitchTo(f, branch).value)
  {
    SwitchTracked(HeadTree(f.repo, f.current), HeadTree(f.repo, branch), f.files);
  }

  lemma {:induction false} CommitSound(f: Fixture)
    requires Sound(f) && HasHead(f)
    ensures Sound(Committed(f)) && Follows(f.repo, Committed(f).repo) && HasHead(Committed(f))
    ensures HeadTree(Committed(f).repo, f.current) == f.files.index
  {
    Applied(f.repo, NewTree(f.current, f.files.index), Committed(f).repo);
    assert IsTree(f.files.index);
  }

  lemma {:induction false} SameFollows(r: Repo)
    requires Consistent(r)
    ensures Follows(r, r)
  {
    assert Possible(r, Nothing) && After(r, Nothing) == r;
  }

  lemma {:induction false} SeededSound(f: Fixture, tree: Tree)
    requires f.repo == Repo([Commit([], tree)], map["main" := 0], map[]) && f.current == "main"
    requires f.files == Checkout(tree, tree) && IsTree(tree)
    ensures Sound(f)
  {
  }

  /** Every state on the way is sound, and its repository follows from the first one's. */
  ghost predicate AllSound(f: Fixture, states: seq<Fixture>)
    requires Consistent(f.repo)
  {
    states != [] && forall k :: 0 <= k < |states| ==> Sound(states[k]) && Follows(f.repo, states[k].repo)
  }

  lemma {:induction false} SwitchedSound(f: Fixture, branch: string, states: seq<Fixture>)
    requires Sound(f) && HasHead(f) && branch in f.repo.branches && SwitchTo(f, branch).Ok?
    requires AllSound(SwitchTo(f, branch).value, states)
    ensures AllSound(f, [f] + states)
  {
    SameFollows(f.repo);
  }

  function Last(states: seq<Fixture>): Fixture
    requires states != []
  {
    states[|states| - 1]
  }

  /** The operation ended in its last state, or, where git failed on the way, in any of them. */
  predicate Ended<T(==)>(steps: Steps<T>, state: Fixture, r: Result<T>, failed: bool)
    requires steps.states != []
  {
    if failed then r.Err? && state in steps.states else state == Last(steps.states) && r == steps.result
  }

  lemma {:induction false} EndedSound<T>(f: Fixture, steps: Steps<T>, state: Fixture, r: Result<T>, failed: bool)
    requires Consistent(f.repo) && AllSound(f, steps.states) && Ended(steps, state, r, failed)
    ensures Sound(state) && Follows(f.repo, state.repo)
  {
    var k :| 0 <= k < |steps.states| && steps.states[k] == state;
  }

  lemma {:induction false} EndedLater<T>(f: Fixture, rest: Steps<T>, state: Fixture, r: Result<T>, failed: bool)
    requires rest.states != [] && Ended(rest, state, r, failed)
    ensures Ended(Steps([f] + rest.states, rest.result), state, r, failed)
  {
  }

  // ---- commit_files ----

  /** Once the branch is checked out: write, add everything, commit. */
  function WriteAllSteps(s: Fixture, files: seq<(string, string)>): (r: Steps<nat>)
    requires HasHead(s)
    ensures r.states != []
  {
    var (work, complete) := WriteUntil(s.files.work, files);
    var written := s.(files := s.files.(work := work));
    if !complete then Steps([s, written], Err)
    else
      var staged := written.(files := Checkout(work, work));
      var done := Committed(staged);
      Steps([s, written, staged, done], Ok(done.repo.branches[s.current]))
  }

  function CommitSteps(f: Fixture, branch: string, files: seq<(string, string)>): (r: Steps<nat>)
    requires GraphConsistent(f.repo) && (f.repo.branches == map[] || f.current in f.repo.branches)
    ensures r.states != [] && f in r.states
  {
    if branch !in f.repo.branches || SwitchTo(f, branch).Err? then Steps([f], Err)
    else
      var rest := WriteAllSteps(SwitchTo(f, branch).value, files);
      Steps([f] + rest.states, rest.result)
  }

  lemma {:induction false} WrittenSound(f: Fixture, files: seq<(string, string)>)
    requires Sound(f)
    ensures var work := WriteUntil(f.files.work, files).0;
            Sound(f.(files := f.files.(work := work))) && Sound(f.(files := Checkout(work, work)))
  {
    WritesKeepTree(f.files.work, files);
  }

  lemma {:induction false} WriteAllSound(s: Fixture, files: seq<(string, string)>)
    requires Sound(s) && HasHead(s)
    ensures AllSound(s, WriteAllSteps(s, files).states)
    ensures WriteAllSteps(s, files).result.Err? ==> Last(WriteAllSteps(s, files).states).repo == s.repo
  {
    SameFollows(s.repo);
    WrittenSound(s, files);
    var work := WriteUntil(s.files.work, files).0;
    CommitSound(s.(files := Checkout(work, work)));
  }

  lemma {:induction false} CommitStepsSound(f: Fixture, branch: string, files: seq<(string, string)>)
    requires Sound(f)
    ensures AllSound(f, CommitSteps(f, branch, files).states)
    ensures CommitSteps(f, branch, files).result.Err? ==> Last(CommitSteps(f, branch, files).states).repo == f.repo
  {
    SameFollows(f.repo);
    if branch in f.repo.branches && SwitchTo(f, branch).Ok? {
      var s := SwitchTo(f, branch).value;
      SwitchSound(f, branch);
      WriteAllSound(s, files);
      SwitchedSound(f, branch, WriteAllSteps(s, files).states);
    }
  }

  lemma {:induction false} WriteAllCommits(s: Fixture, files: seq<(string, string)>)
    requires Sound(s) && HasHead(s) && WriteAllSteps(s, files).result.Ok?
    ensures var done := Last(WriteAllSteps(s, files).states);
            && HasHead(done) && done.current == s.current && Clean(done)
            && HeadTree(done.repo, s.current) == s.files.work + Given(files)
            && WriteAllSteps(s, files).result.value == done.repo.branches[s.current]
  {
    WrittenSound(s, files);
    WritesGiven(s.files.work, files);
    var work := WriteUntil(s.files.work, files).0;
    CommitSound(s.(files := Checkout(work, work)));
  }

  /** What is committed: the work tree as the switch left it, with the given files. */
  lemma {:induction false} CommitsWork(f: Fixture, branch: string, files: seq<(string, string)>)
    requires Sound(f) && CommitSteps(f, branch, files).result.Ok?
    ensures branch in f.repo.branches && SwitchTo(f, branch).Ok?
    ensures var done := Last(CommitSteps(f, branch, files).states);
            && HasHead(done) && done.current == branch && Clean(done)
            && HeadTree(done.repo, branch) == SwitchTo(f, branch).value.files.work + Given(files)
            && CommitSteps(f, branch, files).result.value == done.repo.branches[branch]
  {
    SwitchSound(f, branch);
    WriteAllCommits(SwitchTo(f, branch).value, files);
  }

  /** A file of the work tree that is not the branch's own and that switching to the branch carries along. */
  predicate LeftInWork(f: Fixture, branch: string, path: string)
    requires HasHead(f) && branch in f.repo.branches
  {
    var h, m := HeadTree(f.repo, f.current), HeadTree(f.repo, branch);
    !Moves(h, m, f.files.index, path) && At(f.files.work, path) != At(m, path)
  }

  /** A commit holds exactly the given files on top of the branch if and only if the work tree has nothing else of its
      own: whatever an earlier call left there is committed as well. */
  lemma {:induction false} CommitsGivenExactly(f: Fixture, branch: string, files: seq<(string, string)>)
    requires Sound(f) && CommitSteps(f, branch, files).result.Ok?
    ensures branch in f.repo.branches && HasHead(f) && HasHead(Last(CommitSteps(f, branch, files).states))
    ensures branch in Last(CommitSteps(f, branch, files).states).repo.branches
    ensures HeadTree(Last(CommitSteps(f, branch, files).states).repo, branch) == HeadTree(f.repo, branch) + Given(files) <==>
              forall path :: path !in Given(files) ==> !LeftInWork(f, branch, path)
  {
    CommitsWork(f, branch, files);
    var h, m, given := HeadTree(f.repo, f.current), HeadTree(f.repo, branch), Given(files);
    var work := SwitchTo(f, branch).value.files.work;
    forall path
      ensures LeftInWork(f, branch, path) <==> At(work, path) != At(m, path)
    {
      SwitchedAt(h, m, f.files, path);
    }
    OverlaysAgree(work, m, given);
  }

  lemma {:induction false} OverlaysAgree(a: Tree, b: Tree, given: Tree)
    ensures a + given == b + given <==> forall path :: path !in given ==> At(a, path) == At(b, path)
  {
    if a + given == b + given {
      forall path | path !in given
        ensures At(a, path) == At(b, path)
      {
        assert At(a + given, path) == At(a, path) && At(b + given, path) == At(b, path);
      }
    }
    if forall path :: path !in given ==> At(a, path) == At(b, path) {
      forall path
        ensures At(a + given, path) == At(b + given, path)
      {
        assert path !in given ==> At(a, path) == At(b, path);
      }
      SameFiles(a + given, b + given);
    }
  }

  /** Begun with nothing pending, it is all of the files in one commit, or none of them and the branches as before. */
  lemma {:induction false} CleanCommit(f: Fixture, branch: string, files: seq<(string, string)>)
    requires Sound(f) && HasHead(f) && Clean(f)
    ensures CommitSteps(f, branch, files).result.Ok? <==>
              && branch in f.repo.branches
              && forall i :: 0 <= i < |files| ==> WritableAt(HeadTree(f.repo, branch), files, i)
    ensures var done := Last(CommitSteps(f, branch, files).states);
            if CommitSteps(f, branch, files).result.Ok? then
              && HasHead(done) && Clean(done) && branch in done.repo.branches
              && HeadTree(done.repo, branch) == HeadTree(f.repo, branch) + Given(files)
              && CommitSteps(f, branch, files).result.value == done.repo.branches[branch]
            else done.repo == f.repo
  {
    CommitStepsSound(f, branch, files);
    if branch in f.repo.branches {
      WritesExactly(HeadTree(f.repo, branch), files);
      SwitchClean(HeadTree(f.repo, f.current), HeadTree(f.repo, branch));
      if CommitSteps(f, branch, files).result.Ok? {
        CommitsWork(f, branch, files);
      }
    }
  }

  /** The commit has the branch's old head for its one parent; nothing is committed where the files change nothing. */
  lemma {:induction false} CleanCommitParent(f: Fixture, branch: string, files: seq<(string, string)>)
    requires Sound(f) && HasHead(f) && Clean(f) && CommitSteps(f, branch, files).result.Ok?
    ensures var before, after := HeadTree(f.repo, branch), HeadTree(f.repo, branch) + Given(files);
            Last(CommitSteps(f, branch, files).states).repo
            == if after == before then f.repo
               else f.repo.(commits := f.repo.commits + [Commit([f.repo.branches[branch]], after)],
                            branches := f.repo.branches[branch := |f.repo.commits|])
  {
    CommitsWork(f, branch, files);
    SwitchClean(HeadTree(f.repo, f.current), HeadTree(f.repo, branch));
    WritesGiven(HeadTree(f.repo, branch), files);
  }

  lemma {:induction false} RefusedCall(f: Fixture, left: string, outside: string, x: string, y: string)
    requires Sound(f) && HasHead(f) && Clean(f)
    requires Relative(left) == Ok(left) && Relative(outside).Err? && !Blocked(HeadTree(f.repo, f.current), left)
    ensures var head, steps := HeadTree(f.repo, f.current), CommitSteps(f, f.current, [(left, x), (outside, y)]);
            steps.result.Err? && Last(steps.states) == f.(files := Checkout(head, head[left := x]))
  {
    var head, files := HeadTree(f.repo, f.current), [(left, x), (outside, y)];
    SwitchNowhere(head, f.files);
    assert files[1..] == [(outside, y)];
    assert WriteUntil(head[left := x], files[1..]) == (head[left := x], false);
    assert WriteUntil(head, files) == WriteUntil(head[left := x], files[1..]);
  }

  lemma {:induction false} NextCall(f: Fixture, work: Tree, own: string, z: string)
    requires Sound(f) && HasHead(f) && f.files == Checkout(HeadTree(f.repo, f.current), work)
    requires Relative(own) == Ok(own) && !Blocked(work, own)
    ensures var steps := CommitSteps(f, f.current, [(own, z)]);
            && steps.result.Ok? && HasHead(Last(steps.states)) && Last(steps.states).current == f.current
            && HeadTree(Last(steps.states).repo, f.current) == work[own := z]
  {
    SwitchNowhere(HeadTree(f.repo, f.current), f.files);
    assert [(own, z)][1..] == [];
    assert WriteUntil(work, [(own, z)]) == (work[own := z], true);
    assert Given([(own, z)]) == map[own := z];
    CommitsWork(f, f.current, [(own, z)]);
  }

  /** A refused call leaves the files it had already written, and the next call commits them with its own. */
  lemma {:induction false} RefusedFilesCommitted(f: Fixture, left: string, outside: string, own: string, x: string, y: string, z: string)
    requires Sound(f) && HasHead(f) && Clean(f)
    requires Relative(left) == Ok(left) && Relative(own) == Ok(own) && Relative(outside).Err? && own != left
    requires var head := HeadTree(f.repo, f.current);
             !Blocked(head, left) && At(head, left) != Some(x) && !Blocked(head[left := x], own)
    ensures var head, first := HeadTree(f.repo, f.current), CommitSteps(f, f.current, [(left, x), (outside, y)]);
            && first.result.Err? && Last(first.states).repo == f.repo && HasHead(Last(first.states))
            && var second := CommitSteps(Last(first.states), f.current, [(own, z)]);
            && second.result.Ok?
            && HasHead(Last(second.states)) && f.current in Last(second.states).repo.branches
            && HeadTree(Last(second.states).repo, f.current) == head[left := x][own := z]
            && HeadTree(Last(second.states).repo, f.current) != head[own := z]
  {
    var head := HeadTree(f.repo, f.current);
    RefusedCall(f, left, outside, x, y);
    FileAdded(head, left, x);
    NextCall(f.(files := Checkout(head, head[left := x])), head[left := x], own, z);
    assert At(head[left := x][own := z], left) == Some(x) && At(head[own := z], left) == At(head, left);
  }

  /** For one: the second file of the first call leads out of the repository. */
  lemma {:induction false} LeftoverExample(
    f: Fixture, left: string, outside: string, own: string, x: string, y: string, z: string)
    requires left == "a" && outside == "../b" && own == "c"
    requires Sound(f) && HasHead(f) && Clean(f)
    requires var head := HeadTree(f.repo, f.current);
             !Blocked(head, left) && At(head, left) != Some(x) && !Blocked(head[left := x], own)
    ensures var first := CommitSteps(f, f.current, [(left, x), (outside, y)]);
            && first.result.Err? && HasHead(Last(first.states))
            && var second := CommitSteps(Last(first.states), f.current, [(own, z)]);
            && second.result.Ok? && HasHead(Last(second.states)) && f.current in Last(second.states).repo.branches
            && At(HeadTree(Last(second.states).repo, f.current), left) == Some(x)
  {
    ExamplePaths(left, own, outside, " a", "./ a");
    RefusedFilesCommitted(f, left, outside, own, x, y, z);
    AtKept(HeadTree(f.repo, f.current), left, x, own, z);
  }

  lemma {:induction false} AtKept(tree: Tree, path: string, x: string, other: string, z: string)
    requires other != path
    ensures At(tree[path := x][other := z], path) == Some(x)
  {
  }

  // ---- put_file ----

  /** The blob the path then has, if it names a file, and whether there was none before. */
  datatype Put = Put(blob: Option<string>, created: bool)

  /** A put must show that it knows what it replaces: nothing, or the blob it names. */
  predicate MayPut(tree: Tree, path: string, expected: Option<string>) {
    match expected
    case None => !Resolves(tree, path)
    case Some(blob) => path in tree && tree[path] == blob
  }

  /** The path the put looks up and writes: normalised once by the put and once more by what it calls. */
  function Looked(relative: string): Result<string> {
    var path :- Relative(relative);
    Relative(path)
  }

  /** Reading what is there normalises once more. */
  predicate Readable(tree: Tree, path: string) {
    Resolves(tree, path) ==> Relative(path).Ok? && Resolves(tree, Relative(path).value)
  }

  /** What is checked before anything is touched. */
  predicate PutAllowed(f: Fixture, branch: string, relative: string, expected: Option<string>)
    requires GraphConsistent(f.repo)
  {
    && branch in f.repo.branches
    && Relative(relative).Ok? && Looked(relative).Ok?
    && Readable(HeadTree(f.repo, branch), Looked(relative).value)
    && MayPut(HeadTree(f.repo, branch), Looked(relative).value, expected)
  }

  /** Once the branch is checked out: one path is written, but the other is added and reported. */
  function WriteOneSteps(s: Fixture, looked: string, path: string, content: string, created: bool): (r: Steps<Put>)
    requires HasHead(s)
    ensures r.states != []
  {
    if Blocked(s.files.work, looked) then Steps([s], Err)
    else
      var written := s.(files := s.files.(work := s.files.work[looked := content]));
      var added := AddPath(written.files, path);
      if added.Err? then Steps([s, written], Err)
      else
        var staged := written.(files := added.value);
        var done := Committed(staged);
        var now := HeadTree(done.repo, s.current);
        Steps([s, written, staged, done], if Resolves(now, path) then Ok(Put(At(now, path), created)) else Err)
  }

  function PutSteps(f: Fixture, branch: string, relative: string, content: string, expected: Option<string>): (r: Steps<Put>)
    requires GraphConsistent(f.repo) && (f.repo.branches == map[] || f.current in f.repo.branches)
    ensures r.states != [] && f in r.states
  {
    if !PutAllowed(f, branch, relative, expected) || SwitchTo(f, branch).Err? then Steps([f], Err)
    else
      var created := !Resolves(HeadTree(f.repo, branch), Looked(relative).value);
      var rest := WriteOneSteps(SwitchTo(f, branch).value, Looked(relative).value, Relative(relative).value, content, created);
      Steps([f] + rest.states, rest.result)
  }

  lemma {:induction false} PutWrittenSound(f: Fixture, path: string, content: string)
    requires Sound(f) && !Blocked(f.files.work, path)
    ensures Sound(f.(files := f.files.(work := f.files.work[path := content])))
  {
    FileAdded(f.files.work, path, content);
  }

  lemma {:induction false} AddedSound(f: Fixture, path: string)
    requires Sound(f) && AddPath(f.files, path).Ok?
    ensures Sound(f.(files := AddPath(f.files, path).value))
  {
    AddTracked(f.files, path);
  }

  lemma {:induction false} WriteOneSound(s: Fixture, looked: string, path: string, content: string, created: bool)
    requires Sound(s) && HasHead(s)
    ensures AllSound(s, WriteOneSteps(s, looked, path, content, created).states)
  {
    SameFollows(s.repo);
    if !Blocked(s.files.work, looked) {
      PutWrittenSound(s, looked, content);
      var written := s.(files := s.files.(work := s.files.work[looked := content]));
      if AddPath(written.files, path).Ok? {
        AddedSound(written, path);
        CommitSound(written.(files := AddPath(written.files, path).value));
      }
    }
  }

  lemma {:induction false} PutStepsSound(f: Fixture, branch: string, relative: string, content: string, expected: Option<string>)
    requires Sound(f)
    ensures AllSound(f, PutSteps(f, branch, relative, content, expected).states)
  {
    SameFollows(f.repo);
    if PutAllowed(f, branch, relative, expected) && SwitchTo(f, branch).Ok? {
      var s, created := SwitchTo(f, branch).value, !Resolves(HeadTree(f.repo, branch), Looked(relative).value);
      SwitchSound(f, branch);
      WriteOneSound(s, Looked(relative).value, Relative(relative).value, content, created);
      SwitchedSound(f, branch, WriteOneSteps(s, Looked(relative).value, Relative(relative).value, content, created).states);
    }
  }

  /** A change of the index that is not the branch's own and that switching to the branch carries along. */
  predicate LeftInIndex(f: Fixture, branch: string, path: string)
    requires HasHead(f) && branch in f.repo.branches
  {
    var h, m := HeadTree(f.repo, f.current), HeadTree(f.repo, branch);
    !Moves(h, m, f.files.index, path) && At(f.files.index, path) != At(m, path)
  }

  lemma {:induction false} WriteOneCommits(s: Fixture, path: string, content: string, created: bool)
    requires Sound(s) && HasHead(s) && !Blocked(s.files.work, path)
    ensures var steps := WriteOneSteps(s, path, path, content, created);
            && steps.result == Ok(Put(Some(content), created))
            && HasHead(Last(steps.states)) && Last(steps.states).current == s.current
            && Last(steps.states).files == Checkout(s.files.index[path := content], s.files.work[path := content])
            && HeadTree(Last(steps.states).repo, s.current) == s.files.index[path := content]
  {
    PutWrittenSound(s, path, content);
    var written := s.(files := s.files.(work := s.files.work[path := content]));
    AddWritten(written.files, path);
    AddedSound(written, path);
    CommitSound(written.(files := AddPath(written.files, path).value));
  }

  lemma {:induction false} PutCommits(f: Fixture, branch: string, relative: string, content: string, expected: Option<string>)
    requires Sound(f) && Relative(relative).Ok? && Stable(relative)
    requires PutAllowed(f, branch, relative, expected) && SwitchTo(f, branch).Ok?
    requires !Blocked(SwitchTo(f, branch).value.files.work, Relative(relative).value)
    ensures PutCommitted(f, branch, Relative(relative).value, content, PutSteps(f, branch, relative, content, expected))
  {
    var path, s := Relative(relative).value, SwitchTo(f, branch).value;
    RelativeTwice(relative);
    SwitchSound(f, branch);
    FileOrNothing(f, branch, path, expected);
    WriteOneCommits(s, path, content, path !in HeadTree(f.repo, branch));
  }

  /** The put has gone through: its own file beside whatever was staged. */
  predicate PutCommitted(f: Fixture, branch: string, path: string, content: string, steps: Steps<Put>)
    requires HasHead(f) && branch in f.repo.branches && SwitchTo(f, branch).Ok? && steps.states != []
  {
    var s, done := SwitchTo(f, branch).value, Last(steps.states);
    && steps.result == Ok(Put(Some(content), path !in HeadTree(f.repo, branch)))
    && HasHead(done) && done.current == branch
    && done.files == Checkout(s.files.index[path := content], s.files.work[path := content])
    && HeadTree(done.repo, branch) == s.files.index[path := content]
  }

  /** Where a put is allowed, its path is a file of the branch or nothing at all. */
  lemma {:induction false} FileOrNothing(f: Fixture, branch: string, path: string, expected: Option<string>)
    requires GraphConsistent(f.repo) && branch in f.repo.branches && MayPut(HeadTree(f.repo, branch), path, expected)
    requires IsTree(HeadTree(f.repo, branch))
    ensures Resolves(HeadTree(f.repo, branch), path) <==> path in HeadTree(f.repo, branch)
  {
  }

  /** A put commits exactly its own file on top of the branch if and only if nothing else was staged: a change that an
      earlier call staged and failed to commit is committed as well. */
  lemma {:induction false} PutsGivenExactly(f: Fixture, branch: string, relative: string, content: string, expected: Option<string>)
    requires Sound(f) && Relative(relative).Ok? && Stable(relative)
    requires PutSteps(f, branch, relative, content, expected).result.Ok?
    ensures var done := Last(PutSteps(f, branch, relative, content, expected).states);
            && HasHead(f) && HasHead(done) && branch in f.repo.branches && branch in done.repo.branches
            && (HeadTree(done.repo, branch) == HeadTree(f.repo, branch)[Relative(relative).value := content] <==>
                forall other :: other != Relative(relative).value ==> !LeftInIndex(f, branch, other))
  {
    RelativeTwice(relative);
    PutCommits(f, branch, relative, content, expected);
    IndexAgrees(f, branch, Relative(relative).value, content);
  }

  lemma {:induction false} IndexAgrees(f: Fixture, branch: string, path: string, content: string)
    requires HasHead(f) && branch in f.repo.branches && SwitchTo(f, branch).Ok?
    ensures SwitchTo(f, branch).value.files.index[path := content] == HeadTree(f.repo, branch)[path := content] <==>
              forall other :: other != path ==> !LeftInIndex(f, branch, other)
  {
    var h, m := HeadTree(f.repo, f.current), HeadTree(f.repo, branch);
    var index := SwitchTo(f, branch).value.files.index;
    forall other
      ensures LeftInIndex(f, branch, other) <==> At(index, other) != At(m, other)
    {
      SwitchedAt(h, m, f.files, other);
    }
    UpdatesAgree(index, m, path, content);
  }

  lemma {:induction false} UpdatesAgree(a: Tree, b: Tree, path: string, content: string)
    ensures a[path := content] == b[path := content] <==> forall other :: other != path ==> At(a, other) == At(b, other)
  {
    var given := map[path := content];
    assert a + given == a[path := content] && b + given == b[path := content];
    OverlaysAgree(a, b, given);
    assert forall other :: other in given <==> other == path;
  }

  /** A put whose commit fails leaves its file staged, and the next put commits it with its own. */
  lemma {:induction false} StagedRidesAlong(f: Fixture, path: string, content: string, expected: Option<string>, next: string, other: string)
    requires Sound(f) && HasHead(f) && Clean(f) && Relative(path) == Ok(path) && Relative(next) == Ok(next)
    requires var head := HeadTree(f.repo, f.current);
             MayPut(head, path, expected) && !Blocked(head, path) && MayPut(head, next, None) && !Blocked(head[path := content], next)
    ensures var head, first := HeadTree(f.repo, f.current), PutSteps(f, f.current, path, content, expected);
            && |first.states| == 5 && first.states[3] == f.(files := Checkout(head[path := content], head[path := content]))
            && var second := PutSteps(first.states[3], f.current, next, other, None);
            && second.result == Ok(Put(Some(other), true)) && HasHead(Last(second.states))
            && f.current in Last(second.states).repo.branches
            && HeadTree(Last(second.states).repo, f.current) == head[path := content][next := other]
  {
    var head := HeadTree(f.repo, f.current);
    PutStaged(f, path, content, expected);
    PutNext(f.(files := Checkout(head[path := content], head[path := content])), next, other);
  }

  lemma {:induction false} PutStaged(f: Fixture, path: string, content: string, expected: Option<string>)
    requires Sound(f) && HasHead(f) && Clean(f) && Relative(path) == Ok(path)
    requires MayPut(HeadTree(f.repo, f.current), path, expected) && !Blocked(HeadTree(f.repo, f.current), path)
    ensures var head, states := HeadTree(f.repo, f.current), PutSteps(f, f.current, path, content, expected).states;
            && |states| == 5 && states[3] == f.(files := Checkout(head[path := content], head[path := content]))
            && Sound(states[3])
  {
    var head := HeadTree(f.repo, f.current);
    SwitchNowhere(head, f.files);
    PutWrittenSound(f, path, content);
    AddWritten(Checkout(head, head[path := content]), path);
    WriteOneCommits(f, path, content, path !in head);
  }

  lemma {:induction false} PutNext(g: Fixture, next: string, other: string)
    requires Sound(g) && HasHead(g) && Relative(next) == Ok(next)
    requires MayPut(HeadTree(g.repo, g.current), next, None) && !Blocked(g.files.work, next)
    ensures var second := PutSteps(g, g.current, next, other, None);
            && second.result == Ok(Put(Some(other), true))
            && HasHead(Last(second.states)) && Last(second.states).current == g.current
            && HeadTree(Last(second.states).repo, g.current) == g.files.index[next := other]
  {
    SwitchNowhere(HeadTree(g.repo, g.current), g.files);
    WriteOneCommits(g, next, other, true);
  }

  // ---- compare and swap ----

  /** Begun with nothing pending, the put is a compare and swap on its normal path. */
  predicate Swaps(f: Fixture, branch: string, relative: string, content: string, expected: Option<string>)
    requires HasHead(f) && branch in f.repo.branches && Relative(relative).Ok?
  {
    var steps, path, tree := PutSteps(f, branch, relative, content, expected), Relative(relative).value, HeadTree(f.repo, branch);
    var done := Last(steps.states);
    && HasHead(done) && branch in done.repo.branches
    && (steps.result.Ok? <==> expected == At(tree, path) && !Blocked(tree, path))
    && HeadTree(done.repo, branch) == (if steps.result.Ok? then tree[path := content] else tree)
    && (steps.result.Ok? ==> Clean(done) && steps.result.value == Put(Some(content), path !in tree))
  }

  ghost predicate IsSwap(relative: string)
    requires Relative(relative).Ok?
  {
    forall f, branch, content, expected :: Sound(f) && HasHead(f) && Clean(f) && branch in f.repo.branches ==>
      Swaps(f, branch, relative, content, expected)
  }

  lemma {:induction false} StableSwaps(f: Fixture, branch: string, relative: string, content: string, expected: Option<string>)
    requires Sound(f) && HasHead(f) && Clean(f) && branch in f.repo.branches && Relative(relative).Ok? && Stable(relative)
    ensures Swaps(f, branch, relative, content, expected)
  {
    var path, tree := Relative(relative).value, HeadTree(f.repo, branch);
    RelativeTwice(relative);
    SwitchClean(HeadTree(f.repo, f.current), tree);
    assert PutAllowed(f, branch, relative, expected) <==> MayPut(tree, path, expected);
    assert MayPut(tree, path, expected) && !Blocked(tree, path) <==> expected == At(tree, path) && !Blocked(tree, path);
    if !MayPut(tree, path, expected) {
      assert PutSteps(f, branch, relative, content, expected) == Steps([f], Err);
    } else if Blocked(tree, path) {
      assert Last(PutSteps(f, branch, relative, content, expected).states).repo == f.repo;
    } else {
      PutCommits(f, branch, relative, content, expected);
    }
  }

  /** Of two writers who read the same blob, the second one's put is refused exactly when the first has changed it;
      and one who read that there was nothing is refused in any case. */
  lemma {:induction false} LostUpdateRefused(
    f: Fixture, branch: string, relative: string, read: string, first: string, second: string)
    requires Sound(f) && HasHead(f) && Clean(f) && branch in f.repo.branches && Relative(relative).Ok? && Stable(relative)
    requires PutSteps(f, branch, relative, first, Some(read)).result.Ok?
    ensures var g := Last(PutSteps(f, branch, relative, first, Some(read)).states);
            && Sound(g) && HasHead(g)
            && (PutSteps(g, branch, relative, second, Some(read)).result.Ok? <==> first == read)
            && PutSteps(g, branch, relative, second, None).result.Err?
  {
    var steps, path := PutSteps(f, branch, relative, first, Some(read)), Relative(relative).value;
    PutStepsSound(f, branch, relative, first, Some(read));
    StableSwaps(f, branch, relative, first, Some(read));
    var g := Last(steps.states);
    assert g == steps.states[|steps.states| - 1];
    StableSwaps(g, branch, relative, second, Some(read));
    StableSwaps(g, branch, relative, second, None);
    NotBlockedAgain(HeadTree(f.repo, branch), path, first);
  }

  lemma {:induction false} NotBlockedAgain(tree: Tree, path: string, content: string)
    requires !Blocked(tree, path)
    ensures !Blocked(tree[path := content], path)
  {
  }

  /** An empty repository with one branch. */
  const EMPTY_FIXTURE := Fixture(Repo([Commit([], map[])], map["main" := 0], map[]), "main", Checkout(map[], map[]))

  lemma {:induction false} EmptySound()
    ensures Sound(EMPTY_FIXTURE) && HasHead(EMPTY_FIXTURE) && Clean(EMPTY_FIXTURE)
  {
  }

  lemma {:induction false} UnstableFails(relative: string)
    requires Relative(relative).Ok? && !Stable(relative)
    ensures PutSteps(EMPTY_FIXTURE, "main", relative, "", None).result.Err?
    ensures MayPut(map[], Relative(relative).value, None) && !Blocked(map[], Relative(relative).value)
  {
    var path := Relative(relative).value;
    EmptySound();
    AgainShorter(relative);
    if Looked(relative).Ok? && Looked(relative).value != "." {
      var looked := Looked(relative).value;
      SwitchNowhere(map[], EMPTY_FIXTURE.files);
      var files := Checkout(map[], map[looked := ""]);
      assert !Selected(path, looked);
      assert forall other :: other in files.index.Keys + files.work.Keys ==> other == looked;
      assert AddPath(files, path).Err?;
    }
  }

  /** The put is a compare and swap on its normal path exactly for the inputs that are stable. */
  lemma {:induction false} SwapsExactly(relative: string)
    requires Relative(relative).Ok?
    ensures IsSwap(relative) <==> Stable(relative)
  {
    if Stable(relative) {
      forall f, branch, content, expected | Sound(f) && HasHead(f) && Clean(f) && branch in f.repo.branches
        ensures Swaps(f, branch, relative, content, expected)
      {
        StableSwaps(f, branch, relative, content, expected);
      }
    } else {
      UnstableFails(relative);
      EmptySound();
      assert !Swaps(EMPTY_FIXTURE, "main", relative, "", None);
    }
  }

  /** For an unstable input the put can even return normally with nothing committed: it compares and writes the file
      of the second normal path, and adds and reports the other one. */
  lemma {:induction false} PutsElsewhere(f: Fixture, relative: string, content: string)
    requires Sound(f) && HasHead(f) && Clean(f)
    requires Relative(relative).Ok? && !Stable(relative) && Looked(relative).Ok?
    requires var head, path, looked := HeadTree(f.repo, f.current), Relative(relative).value, Looked(relative).value;
             path in head && looked in head && Relative(looked) == Ok(looked)
    ensures var head, path, looked := HeadTree(f.repo, f.current), Relative(relative).value, Looked(relative).value;
            var steps := PutSteps(f, f.current, relative, content, Some(head[looked]));
            && steps.result == Ok(Put(Some(head[path]), false))
            && Last(steps.states) == f.(files := Checkout(head, head[looked := content]))
  {
    var head, path, looked := HeadTree(f.repo, f.current), Relative(relative).value, Looked(relative).value;
    AgainShorter(relative);
    SwitchNowhere(head, f.files);
    assert PutAllowed(f, f.current, relative, Some(head[looked]));
    WritesElsewhere(f, looked, path, content);
  }

  lemma {:induction false} WritesElsewhere(f: Fixture, looked: string, path: string, content: string)
    requires Sound(f) && HasHead(f) && Clean(f) && path != looked
    requires path in HeadTree(f.repo, f.current) && looked in HeadTree(f.repo, f.current)
    ensures var head, steps := HeadTree(f.repo, f.current), WriteOneSteps(f, looked, path, content, false);
            && steps.result == Ok(Put(Some(head[path]), false))
            && Last(steps.states) == f.(files := Checkout(head, head[looked := content]))
  {
    var head := HeadTree(f.repo, f.current);
    var written := Checkout(head, head[looked := content]);
    assert !Blocked(head, looked);
    PutWrittenSound(f, looked, content);
    AddWritten(written, path);
    assert head[path := written.work[path]] == head;
  }

  /** For one: the put names a blank-led path behind a dot; it compares and writes the file without the blank, and
      reports the one with it. */
  lemma {:induction false} ElsewhereExample(f: Fixture, named: string, written: string, reported: string, content: string)
    requires named == "./ a" && written == "a" && reported == " a"
    requires Sound(f) && HasHead(f) && Clean(f)
    requires written in HeadTree(f.repo, f.current) && reported in HeadTree(f.repo, f.current)
    ensures var head := HeadTree(f.repo, f.current);
            var steps := PutSteps(f, f.current, named, content, Some(head[written]));
            && steps.result == Ok(Put(Some(head[reported]), false))
            && Last(steps.states) == f.(files := Checkout(head, head[written := content]))
  {
    ExamplePaths(written, "c", "../b", reported, named);
    PutsElsewhere(f, named, content);
  }

  // ---- create_pull_request ----

  predicate HasOpen(pulls: map<nat, Pull>, head: string, base: string) {
    exists n :: n in pulls && pulls[n].state.Open? && pulls[n].head == head && pulls[n].base == base
  }

  lemma {:induction false} OpenedSound(f: Fixture, title: string, body: string, head: string, base: string)
    requires Sound(f) && head in f.repo.branches && base in f.repo.branches && !HasOpen(f.repo.pulls, head, base)
    ensures var pulls := f.repo.pulls[|f.repo.pulls| + 1 := Pull(title, body, head, base, Open, false, None)];
            Sound(f.(repo := f.repo.(pulls := pulls))) && Follows(f.repo, f.repo.(pulls := pulls))
  {
    var pulls := f.repo.pulls[|f.repo.pulls| + 1 := Pull(title, body, head, base, Open, false, None)];
    Applied(f.repo, NewPull(title, body, head, base), f.repo.(pulls := pulls));
  }

  // ---- merge_pull_request ----

  /** `git merge --no-ff` on the checked-out base: git decides what the merged tree is, and refuses to lose a change
      of the index or of the work tree. */
  function Merged(s: Fixture, head: string, tree: Tree): Result<Fixture>
    requires HasHead(s) && head in s.repo.branches
  {
    if Reaches(s.repo.commits, s.repo.branches[head], s.repo.branches[s.current]) then Ok(s)
    else if s.files.index != HeadTree(s.repo, s.current) then Err
    else
      var files :- SwitchTrees(HeadTree(s.repo, s.current), tree, s.files);
      Ok(Fixture(MergeRefs(s.repo, s.current, head, tree), s.current, files))
  }

  predicate MergeAllowed(f: Fixture, number: nat, expectedBase: nat, expectedHead: nat) {
    number in f.repo.pulls && f.repo.pulls[number].state.Open? && Reviewed(f.repo, number, expectedBase, expectedHead)
  }

  function MergeSteps(f: Fixture, number: nat, expectedBase: nat, expectedHead: nat, tree: Tree): (r: Steps<Option<nat>>)
    requires GraphConsistent(f.repo) && (f.repo.branches == map[] || f.current in f.repo.branches)
    ensures r.states != [] && f in r.states
  {
    if number in f.repo.pulls && f.repo.pulls[number].state.Closed? then Steps([f], Ok(f.repo.pulls[number].mergeSha))
    else if !MergeAllowed(f, number, expectedBase, expectedHead) || SwitchTo(f, f.repo.pulls[number].base).Err? then Steps([f], Err)
    else
      var rest := CloseSteps(SwitchTo(f, f.repo.pulls[number].base).value, number, tree);
      Steps([f] + rest.states, rest.result)
  }

  /** The checked-out branch is the base of an open request. */
  predicate OnBase(s: Fixture, number: nat) {
    && HasHead(s) && number in s.repo.pulls && s.repo.pulls[number].state.Open?
    && s.repo.pulls[number].base == s.current && s.repo.pulls[number].head in s.repo.branches
  }

  /** Once the base is checked out: merge, then close the request. */
  function CloseSteps(s: Fixture, number: nat, tree: Tree): (r: Steps<Option<nat>>)
    requires OnBase(s, number)
    ensures r.states != []
  {
    var merged := Merged(s, s.repo.pulls[number].head, tree);
    if merged.Err? then Steps([s], Err)
    else
      var done := merged.value.(repo := ClosePull(merged.value.repo, number));
      Steps([s, merged.value, done], Ok(Some(done.repo.branches[s.current])))
  }

  lemma {:induction false} MergedTrees(s: Fixture, head: string, tree: Tree)
    requires Sound(s) && HasHead(s) && head in s.repo.branches && IsTree(tree) && Merged(s, head, tree).Ok?
    ensures AllTrees(Merged(s, head, tree).value.repo.commits) && Tracked(Merged(s, head, tree).value.files)
  {
    if Merged(s, head, tree).value != s {
      SwitchTracked(HeadTree(s.repo, s.current), tree, s.files);
    }
  }

  lemma {:induction false} MergedSound(s: Fixture, number: nat, tree: Tree)
    requires Sound(s) && OnBase(s, number) && IsTree(tree)
    requires Merged(s, s.repo.pulls[number].head, tree).Ok?
    ensures var merged := Merged(s, s.repo.pulls[number].head, tree).value;
            && Sound(merged) && HasHead(merged) && Follows(s.repo, merged.repo)
            && merged.repo == After(s.repo, MergedOnly(number, tree))
  {
    var merged := Merged(s, s.repo.pulls[number].head, tree).value;
    MergedTrees(s, s.repo.pulls[number].head, tree);
    Applied(s.repo, MergedOnly(number, tree), merged.repo);
  }

  lemma {:induction false} ClosedSound(s: Fixture, number: nat, tree: Tree)
    requires Sound(s) && OnBase(s, number) && IsTree(tree)
    requires Merged(s, s.repo.pulls[number].head, tree).Ok?
    ensures var merged := Merged(s, s.repo.pulls[number].head, tree).value;
            && number in merged.repo.pulls && merged.repo.pulls[number].base in merged.repo.branches
            && Sound(merged.(repo := ClosePull(merged.repo, number))) && Follows(s.repo, ClosePull(merged.repo, number))
  {
    MergedSound(s, number, tree);
    var merged := Merged(s, s.repo.pulls[number].head, tree).value;
    Applied(s.repo, MergedAndClosed(number, tree), ClosePull(merged.repo, number));
  }

  lemma {:induction false} MergeStepsSound(f: Fixture, number: nat, expectedBase: nat, expectedHead: nat, tree: Tree)
    requires Sound(f) && IsTree(tree)
    ensures AllSound(f, MergeSteps(f, number, expectedBase, expectedHead, tree).states)
  {
    SameFollows(f.repo);
    if MergeAllowed(f, number, expectedBase, expectedHead) && SwitchTo(f, f.repo.pulls[number].base).Ok? {
      var base := f.repo.pulls[number].base;
      SwitchSound(f, base);
      CloseStepsSound(SwitchTo(f, base).value, number, tree);
      SwitchedSound(f, base, CloseSteps(SwitchTo(f, base).value, number, tree).states);
    }
  }

  lemma {:induction false} CloseStepsSound(s: Fixture, number: nat, tree: Tree)
    requires Sound(s) && OnBase(s, number) && IsTree(tree)
    ensures AllSound(s, CloseSteps(s, number, tree).states)
  {
    SameFollows(s.repo);
    if Merged(s, s.repo.pulls[number].head, tree).Ok? {
      MergedSound(s, number, tree);
      ClosedSound(s, number, tree);
    }
  }

  /** The operation went through and returns the head it left the branch at. */
  predicate ReturnsHead(steps: Steps<Option<nat>>, branch: string)
    requires steps.states != []
  {
    var branches := Last(steps.states).repo.branches;
    branch in branches && steps.result == Ok(Some(branches[branch]))
  }

  /** Begun with nothing pending, a merge goes through exactly at the reviewed heads and leaves nothing pending; a request
      already merged gives its commit again; and a merge that is refused changes nothing. */
  lemma {:induction false} MergesExactly(f: Fixture, number: nat, expectedBase: nat, expectedHead: nat, tree: Tree)
    requires Sound(f) && HasHead(f) && Clean(f) && IsTree(tree)
    ensures var steps, r := MergeSteps(f, number, expectedBase, expectedHead, tree), f.repo;
            if number in r.pulls && r.pulls[number].state.Closed? then steps == Steps([f], Ok(r.pulls[number].mergeSha))
            else if number in r.pulls && At(r.branches, r.pulls[number].base) == Some(expectedBase)
                    && At(r.branches, r.pulls[number].head) == Some(expectedHead) then
              && HasHead(Last(steps.states)) && Clean(Last(steps.states))
              && Last(steps.states).repo == After(r, MergedAndClosed(number, tree))
              && ReturnsHead(steps, r.pulls[number].base)
            else steps == Steps([f], Err)
  {
    if MergeAllowed(f, number, expectedBase, expectedHead) {
      CleanMerge(f, number, expectedBase, expectedHead, tree);
    }
  }

  lemma {:induction false} CleanMerge(f: Fixture, number: nat, expectedBase: nat, expectedHead: nat, tree: Tree)
    requires Sound(f) && HasHead(f) && Clean(f) && IsTree(tree)
    requires MergeAllowed(f, number, expectedBase, expectedHead)
    ensures var steps := MergeSteps(f, number, expectedBase, expectedHead, tree);
            && ReturnsHead(steps, f.repo.pulls[number].base) && HasHead(Last(steps.states)) && Clean(Last(steps.states))
            && Last(steps.states).repo == After(f.repo, MergedAndClosed(number, tree))
  {
    var base := f.repo.pulls[number].base;
    SwitchClean(HeadTree(f.repo, f.current), HeadTree(f.repo, base));
    SwitchSound(f, base);
    CleanClose(SwitchTo(f, base).value, number, tree);
  }

  lemma {:induction false} CleanClose(s: Fixture, number: nat, tree: Tree)
    requires Sound(s) && OnBase(s, number) && Clean(s) && IsTree(tree)
    ensures var steps := CloseSteps(s, number, tree);
            && ReturnsHead(steps, s.current) && HasHead(Last(steps.states)) && Clean(Last(steps.states))
            && Last(steps.states).repo == After(s.repo, MergedAndClosed(number, tree))
  {
    SwitchClean(HeadTree(s.repo, s.current), tree);
    MergedSound(s, number, tree);
  }
}
