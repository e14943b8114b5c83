/** The demo source-control fixture itself. */
module DemoScm {
  import opened Basics
  import opened ScmPaths
  import opened WorkTrees
  import opened ScmGraph
  import opened Fixtures

  datatype PullView = PullView(pull: Pull, headSha: nat, baseSha: nat)

  /** Git keeps a branch name and a name below it apart. */
  predicate Clashes(branches: map<string, nat>, name: string) {
    exists other :: other in branches && (StartsWith(other, name + "/") || StartsWith(name, other + "/"))
  }

  /** A blob is named by its content. Any git command may fail for reasons of its own, most often its time limit, before
      it takes effect or after it. */
  class Repository {
    var commits: seq<Commit>
    var branches: map<string, nat>
    var pulls: map<nat, Pull>
    var current: string
    var index: Tree
    var work: Tree
    var failures: nat
    const isRefName: string -> bool

    function Snapshot(): Repo
      reads this
    {
      Repo(commits, branches, pulls)
    }

    function State(): Fixture
      reads this
    {
      Fixture(Snapshot(), current, Checkout(index, work))
    }

    ghost predicate Valid()
      reads this
    {
      Sound(State())
    }

    constructor (isRefName: string -> bool)
      ensures Valid() && Snapshot() == Repo([], map[], map[]) && this.isRefName == isRefName && failures == 0
    {
      commits, branches, pulls, failures := [], map[], map[], 0;
      current, index, work := "main", map[], map[];
      this.isRefName := isRefName;
    }

    method RunGit() returns (ok: bool)
      modifies this`failures
      ensures failures == old(failures) + (if ok then 0 else 1)
    {
      ok := *;
      if !ok {
        failures := failures + 1;
      }
    }

    // ---- the git commands that change something ----

    method Switch(branch: string) returns (ok: bool)
      requires Valid() && branch in branches
      modifies this`current, this`index, this`work, this`failures
      ensures failures == old(failures) ==> (ok <==> SwitchTo(old(State()), branch).Ok?)
      ensures failures > old(failures) ==> !ok
      ensures failures >= old(failures)
      ensures State() == old(State()) || (SwitchTo(old(State()), branch).Ok? && State() == SwitchTo(old(State()), branch).value)
      ensures ok ==> SwitchTo(old(State()), branch).Ok? && State() == SwitchTo(old(State()), branch).value
      ensures !ok && failures == old(failures) ==> State() == old(State())
    {
      ok := RunGit();
      var effective: bool := *;
      var switched := SwitchTo(State(), branch);
      if switched.Ok? && (ok || effective) {
        current, index, work := branch, switched.value.files.index, switched.value.files.work;
      }
      ok := ok && switched.Ok?;
    }

    method CommitStaged() returns (ok: bool)
      requires HasHead(State())
      modifies this`commits, this`branches, this`failures
      ensures failures == old(failures) + (if ok then 0 else 1)
      ensures State() == old(State()) || State() == Committed(old(State()))
      ensures ok ==> State() == Committed(old(State()))
    {
      ok := RunGit();
      var effective: bool := *;
      if (ok || effective) && commits[branches[current]].tree != index {
        commits := commits + [Commit([branches[current]], index)];
        branches := branches[current := |commits| - 1];
      }
    }

    method Add(path: string) returns (ok: bool)
      modifies this`index, this`failures
      ensures failures == old(failures) ==> (ok <==> AddPath(old(State()).files, path).Ok?)
      ensures failures > old(failures) ==> !ok
      ensures failures >= old(failures)
      ensures index == old(index) || (AddPath(old(State()).files, path).Ok? && index == AddPath(old(State()).files, path).value.index)
      ensures ok ==> AddPath(old(State()).files, path).Ok? && index == AddPath(old(State()).files, path).value.index
      ensures !ok && failures == old(failures) ==> index == old(index)
    {
      ok := RunGit();
      var effective: bool := *;
      var added := AddPath(Checkout(index, work), path);
      if added.Ok? && (ok || effective) {
        index := added.value.index;
      }
      ok := ok && added.Ok?;
    }

    method Merge(head: string, result: Tree) returns (ok: bool)
      requires Valid() && current in branches && head in branches
      modifies this`commits, this`branches, this`index, this`work, this`failures
      ensures failures == old(failures) ==> (ok <==> Merged(old(State()), head, result).Ok?)
      ensures failures > old(failures) ==> !ok
      ensures failures >= old(failures)
      ensures State() == old(State()) || (Merged(old(State()), head, result).Ok? && State() == Merged(old(State()), head, result).value)
      ensures ok ==> Merged(old(State()), head, result).Ok? && State() == Merged(old(State()), head, result).value
      ensures !ok && failures == old(failures) ==> State() == old(State())
    {
      ok := RunGit();
      var effective: bool := *;
      var merged := Merged(State(), head, result);
      if merged.Ok? && (ok || effective) {
        commits, branches := merged.value.repo.commits, merged.value.repo.branches;
        index, work := merged.value.files.index, merged.value.files.work;
      }
      ok := ok && merged.Ok?;
    }

    method WriteFiles(files: seq<(string, string)>) returns (complete: bool)
      modifies this`work
      ensures (work, complete) == WriteUntil(old(work), files)
    {
      for i := 0 to |files|
        invariant WriteUntil(old(work), files) == WriteUntil(work, files[i..])
      {
        assert files[i..][0] == files[i] && files[i..][1..] == files[i + 1..];
        var next := WriteFile(work, files[i].0, files[i].1);
        if next.Err? {
          return false;
        }
        work := next.value;
      }
      return true;
    }

    // ---- operations ----

    /** Everything is replaced. The old pull requests are dropped once the new files are committed, and not before: a
        reset that fails earlier leaves them behind, without their branches if nothing was committed. */
    method Reset(files: seq<(string, string)>) returns (r: Result<nat>)
      modifies this
      ensures failures >= old(failures)
      ensures failures == old(failures) ==> (r.Ok? <==> WriteUntil(map[], files).1)
      ensures r.Ok? ==> WriteUntil(map[], files).1 && r.value == 0
      ensures var tree := WriteUntil(map[], files).0;
              || (pulls == old(pulls) && Unseeded(Snapshot()) && r.Err? && index in {map[], tree} && work in {map[], tree}
                  && (failures == old(failures) ==> work == tree && index == map[]))
              || (WriteUntil(map[], files).1 && Seeded(tree) && pulls == old(pulls) && r.Err? && failures > old(failures))
              || (WriteUntil(map[], files).1 && Seeded(tree) && pulls == map[] && Valid() && (r.Err? ==> failures > old(failures)))
      ensures Unseeded(Snapshot()) && old(Valid()) ==> (Valid() <==> old(pulls) == map[])
    {
      ghost var before := Snapshot();
      commits, branches := [], map[];
      current, index, work := "main", map[], map[];
      UnseededConsistent(before, Snapshot());
      WritesKeepTree(map[], files);
      var ok := RunGit();
      if !ok {
        return Err;
      }
      var complete := WriteFiles(files);
      if !complete {
        return Err;
      }
      index := work;
      ok := Seed();
      if !ok {
        return Err;
      }
      pulls := map[];
      SeededSound(State(), work);
      ok := RunGit();
      return if ok then Ok(0) else Err;
    }

    /** The first commit, even of no files at all. */
    method Seed() returns (ok: bool)
      requires commits == [] && branches == map[]
      modifies this`commits, this`branches, this`failures
      ensures failures == old(failures) + (if ok then 0 else 1)
      ensures (commits == [] && branches == map[]) || (commits == [Commit([], index)] && branches == map["main" := 0])
      ensures ok ==> commits != []
    {
      ok := RunGit();
      var effective: bool := *;
      if ok || effective {
        commits, branches := [Commit([], index)], map["main" := 0];
      }
    }

    /** One commit, on `main`, and nothing pending. */
    predicate Seeded(tree: Tree)
      reads this
    {
      commits == [Commit([], tree)] && branches == map["main" := 0] && current == "main" && index == tree && work == tree
    }

    method BranchSha(branch: string) returns (r: Result<nat>)
      requires Valid()
      modifies this`failures
      ensures Valid() && failures >= old(failures)
      ensures failures == old(failures) ==> (r.Ok? <==> branch in branches)
      ensures r.Ok? ==> branch in branches && r.value == branches[branch] < |commits|
    {
      var ok := RunGit();
      if !ok || branch !in branches {
        return Err;
      }
      return Ok(branches[branch]);
    }

    method CreateBranch(branch: string, sha: nat) returns (r: Result<bool>)
      requires Valid()
      modifies this`branches, this`failures
      ensures Valid() && Follows(old(Snapshot()), Snapshot()) && failures >= old(failures)
      ensures failures == old(failures) ==>
                && (r.Ok? <==> isRefName(branch) && (branch in old(branches) || (sha < |commits| && !Clashes(old(branches), branch))))
                && (r.Err? ==> branches == old(branches))
      ensures r.Ok? ==> isRefName(branch) && (r.value <==> branch !in old(branches))
      ensures r.Ok? && r.value ==> sha < |commits| && branches == old(branches)[branch := sha]
      ensures r.Ok? && !r.value ==> branches == old(branches)
      ensures !isRefName(branch) || (branch !in old(branches) && sha >= |commits|) ==> r.Err? && branches == old(branches)
    {
      var ok := RunGit();
      SameFollows(Snapshot());
      if !ok || !isRefName(branch) {
        return Err;
      }
      if branch in branches {
        return Ok(false);
      }
      if sha >= |commits| || Clashes(branches, branch) {
        return Err;
      }
      ghost var before := Snapshot();
      branches := branches[branch := sha];
      Applied(before, NewBranch(branch, sha), Snapshot());
      ok := RunGit();
      return if ok then Ok(true) else Err;
    }

    method FileMetadata(branch: string, relative: string) returns (r: Result<string>)
      requires Valid()
      modifies this`failures
      ensures Valid() && failures >= old(failures)
      ensures failures == old(failures) ==>
                (r.Ok? <==> branch in branches && Relative(relative).Ok? && Relative(relative).value in HeadTree(Snapshot(), branch))
      ensures r.Ok? ==>
                && branch in branches && Relative(relative).Ok?
                && branches[branch] < |commits|
                && Relative(relative).value in commits[branches[branch]].tree
                && r.value == commits[branches[branch]].tree[Relative(relative).value]
    {
      var ok := RunGit();
      var path := Relative(relative);
      if !ok || branch !in branches || path.Err? || path.value !in commits[branches[branch]].tree {
        return Err;
      }
      return Ok(commits[branches[branch]].tree[path.value]);
    }

    /** Where git fails on the way, the fixture is left in one of the states of that way. */
    method CommitFiles(branch: string, files: seq<(string, string)>) returns (r: Result<nat>)
      requires Valid()
      modifies this`commits, this`branches, this`current, this`index, this`work, this`failures
      ensures Valid() && Follows(old(Snapshot()), Snapshot()) && failures >= old(failures)
      ensures Ended(CommitSteps(old(State()), branch, files), State(), r, failures > old(failures))
    {
      ghost var f, steps, before := State(), CommitSteps(State(), branch, files), failures;
      CommitStepsSound(f, branch, files);
      var ok := RunGit();
      if !ok || branch !in branches {
        r := Err;
      } else {
        ok := Switch(branch);
        if !ok {
          r := Err;
        } else {
          r := CommitWritten(files);
          EndedLater(f, WriteAllSteps(SwitchTo(f, branch).value, files), State(), r, failures > before);
        }
      }
      EndedSound(f, steps, State(), r, failures > before);
    }

    method CommitWritten(files: seq<(string, string)>) returns (r: Result<nat>)
      requires Valid() && current in branches
      modifies this`commits, this`branches, this`index, this`work, this`failures
      ensures Ended(WriteAllSteps(old(State()), files), State(), r, failures > old(failures))
      ensures failures >= old(failures)
    {
      ghost var states := WriteAllSteps(State(), files).states;
      var complete := WriteFiles(files);
      assert State() == states[1];
      if !complete {
        return Err;
      }
      var ok := RunGit();
      var effective: bool := *;
      if ok || effective {
        index := work;
        assert State() == states[2];
      }
      if !ok {
        return Err;
      }
      ok := CommitStaged();
      assert State() == states[2] || State() == states[3];
      if !ok {
        return Err;
      }
      ok := RunGit();
      return if ok then Ok(branches[current]) else Err;
    }

    /** A compare and swap on one file, for paths that are stable. */
    method PutFile(branch: string, relative: string, content: string, expected: Option<string>) returns (r: Result<Put>)
      requires Valid()
      modifies this`commits, this`branches, this`current, this`index, this`work, this`failures
      ensures Valid() && Follows(old(Snapshot()), Snapshot()) && failures >= old(failures)
      ensures Ended(PutSteps(old(State()), branch, relative, content, expected), State(), r, failures > old(failures))
    {
      ghost var f, steps, before := State(), PutSteps(State(), branch, relative, content, expected), failures;
      PutStepsSound(f, branch, relative, content, expected);
      var ok := RunGit();
      if !ok || !PutAllowed(State(), branch, relative, expected) {
        r := Err;
      } else {
        r := PutChecked(branch, relative, content, expected);
      }
      EndedSound(f, steps, State(), r, failures > before);
    }

    method PutChecked(branch: string, relative: string, content: string, ghost expected: Option<string>) returns (r: Result<Put>)
      requires Valid() && PutAllowed(State(), branch, relative, expected)
      modifies this`commits, this`branches, this`current, this`index, this`work, this`failures
      ensures Ended(PutSteps(old(State()), branch, relative, content, expected), State(), r, failures > old(failures))
      ensures failures >= old(failures)
    {
      ghost var f, before := State(), failures;
      var looked, path := Looked(relative).value, Relative(relative).value;
      var created := !Resolves(HeadTree(Snapshot(), branch), looked);
      var ok := Switch(branch);
      if !ok {
        return Err;
      }
      r := PutWritten(looked, path, content, created);
      EndedLater(f, WriteOneSteps(SwitchTo(f, branch).value, looked, path, content, created), State(), r, failures > before);
    }

    method PutWritten(looked: string, path: string, content: string, created: bool) returns (r: Result<Put>)
      requires Valid() && current in branches
      modifies this`commits, this`branches, this`index, this`work, this`failures
      ensures Ended(WriteOneSteps(old(State()), looked, path, content, created), State(), r, failures > old(failures))
      ensures failures >= old(failures)
    {
      ghost var states := WriteOneSteps(State(), looked, path, content, created).states;
      if Blocked(work, looked) {
        return Err;
      }
      PutWrittenSound(State(), looked, content);
      work := work[looked := content];
      assert State() == states[1];
      var ok := Add(path);
      assert State() == states[1] || (|states| > 2 && State() == states[2]);
      if !ok {
        return Err;
      }
      ok := CommitStaged();
      assert State() == states[2] || State() == states[3];
      if !ok {
        return Err;
      }
      ok := RunGit();
      var now := HeadTree(Snapshot(), current);
      return if ok && Resolves(now, path) then Ok(Put(At(now, path), created)) else Err;
    }

    method CreatePullRequest(title: string, body: string, head: string, base: string) returns (r: Result<Option<nat>>)
      requires Valid()
      modifies this`pulls, this`failures
      ensures Valid() && Follows(old(Snapshot()), Snapshot()) && failures >= old(failures)
      ensures failures == old(failures) ==> (r.Ok? <==> head in branches && base in branches) && (r.Err? ==> pulls == old(pulls))
      ensures r.Ok? ==> head in branches && base in branches
      ensures r.Ok? ==> (r.value.None? <==> HasOpen(old(pulls), head, base))
      ensures r.Ok? && r.value.None? ==> pulls == old(pulls)
      ensures r.Ok? && r.value.Some? ==>
                && r.value.value == |old(pulls)| + 1
                && pulls == old(pulls)[|old(pulls)| + 1 := Pull(title, body, head, base, Open, false, None)]
    {
      var ok := RunGit();
      SameFollows(Snapshot());
      if !ok || head !in branches || base !in branches {
        return Err;
      }
      if HasOpen(pulls, head, base) {
        return Ok(None);
      }
      OpenedSound(State(), title, body, head, base);
      var number := |pulls| + 1;
      pulls := pulls[number := Pull(title, body, head, base, Open, false, None)];
      ok := RunGit();
      return if ok then Ok(Some(number)) else Err;
    }

    method PullRequest(number: nat) returns (r: Result<PullView>)
      requires Valid()
      modifies this`failures
      ensures Valid() && failures >= old(failures)
      ensures failures == old(failures) ==> (r.Ok? <==> number in pulls)
      ensures r.Ok? ==>
                && number in pulls && r.value.pull == pulls[number]
                && pulls[number].head in branches && r.value.headSha == branches[pulls[number].head]
                && pulls[number].base in branches && r.value.baseSha == branches[pulls[number].base]
    {
      if number !in pulls {
        return Err;
      }
      var ok := RunGit();
      if !ok {
        return Err;
      }
      var pull := pulls[number];
      assert PullConsistent(Snapshot(), pull);
      return Ok(PullView(pull, branches[pull.head], branches[pull.base]));
    }

    /** Takes effect only at the revisions that were reviewed; what the merged tree is, git decides. */
    method MergePullRequest(number: nat, expectedBase: nat, expectedHead: nat) returns (r: Result<Option<nat>>, ghost tree: Tree)
      requires Valid()
      modifies this
      ensures Valid() && Follows(old(Snapshot()), Snapshot()) && failures >= old(failures) && IsTree(tree)
      ensures Ended(MergeSteps(old(State()), number, expectedBase, expectedHead, tree), State(), r, failures > old(failures))
    {
      ghost var f, before := State(), failures;
      var result: Tree := *;
      if !IsTree(result) {
        result := map[];
      }
      tree := result;
      MergeStepsSound(f, number, expectedBase, expectedHead, tree);
      if number in pulls && !pulls[number].state.Open? {
        r := Ok(pulls[number].mergeSha);
      } else if !MergeAllowed(State(), number, expectedBase, expectedHead) {
        r := Err;
      } else {
        var ok := Switch(pulls[number].base);
        if !ok {
          r := Err;
        } else {
          r := MergeAndClose(number, result);
          EndedLater(f, CloseSteps(SwitchTo(f, f.repo.pulls[number].base).value, number, tree), State(), r, failures > before);
        }
      }
      EndedSound(f, MergeSteps(f, number, expectedBase, expectedHead, tree), State(), r, failures > before);
    }

    method MergeAndClose(number: nat, result: Tree) returns (r: Result<Option<nat>>)
      requires Valid() && OnBase(State(), number)
      modifies this
      ensures Ended(CloseSteps(old(State()), number, result), State(), r, failures > old(failures))
      ensures failures >= old(failures)
    {
      ghost var states := CloseSteps(State(), number, result).states;
      var ok := Merge(pulls[number].head, result);
      assert State() == states[0] || (|states| > 1 && State() == states[1]);
      if !ok {
        return Err;
      }
      ok := RunGit();
      if !ok {
        return Err;
      }
      var sha := branches[current];
      pulls := pulls[number := pulls[number].(state := Closed, merged := true, mergeSha := Some(sha))];
      assert State() == states[2];
      return Ok(Some(sha));
    }
  }
}
