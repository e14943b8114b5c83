/** The history the demo source-control fixture keeps: commits, branches and reviewed pull requests. */
module ScmGraph {
  import opened Basics
  import opened WorkTrees

  /** A commit is named by its position in the object store; a commit only has older parents. */
  datatype Commit = Commit(parents: seq<nat>, tree: Tree)

  datatype PullState = Open | Closed

  datatype Pull = Pull(
    title: string, body: string, head: string, base: string, state: PullState, merged: bool, mergeSha: Option<nat>)

  datatype Repo = Repo(commits: seq<Commit>, branches: map<string, nat>, pulls: map<nat, Pull>)

  // ---- ancestry ----

  /** Commit a is b or an ancestor of it. */
  predicate Reaches(commits: seq<Commit>, a: nat, b: nat)
    requires b < |commits|
    decreases b
  {
    a == b || exists i :: 0 <= i < |commits[b].parents| && commits[b].parents[i] < b && Reaches(commits, a, commits[b].parents[i])
  }

  predicate OlderParents(commits: seq<Commit>) {
    forall c :: 0 <= c < |commits| ==> forall i :: 0 <= i < |commits[c].parents| ==> commits[c].parents[i] < c
  }

  lemma {:induction false} ReachesTransitive(commits: seq<Commit>, a: nat, b: nat, c: nat)
    requires b < |commits| && c < |commits| && Reaches(commits, a, b) && Reaches(commits, b, c)
    ensures Reaches(commits, a, c)
    decreases c
  {
    if b != c {
      var i :| 0 <= i < |commits[c].parents| && commits[c].parents[i] < c && Reaches(commits, b, commits[c].parents[i]);
      ReachesTransitive(commits, a, b, commits[c].parents[i]);
    }
  }

  /** Ancestry among old commits does not depend on the ones added later. */
  lemma {:induction false} ReachesPrefix(before: seq<Commit>, after: seq<Commit>, a: nat, b: nat)
    requires before <= after && b < |before|
    ensures Reaches(before, a, b) <==> Reaches(after, a, b)
    decreases b
  {
    assert before[b] == after[b];
    forall i | 0 <= i < |before[b].parents| && before[b].parents[i] < b
      ensures Reaches(before, a, before[b].parents[i]) <==> Reaches(after, a, after[b].parents[i])
    {
      ReachesPrefix(before, after, a, before[b].parents[i]);
    }
  }

  // ---- what always holds ----

  predicate PullConsistent(r: Repo, pull: Pull) {
    && pull.head in r.branches && pull.base in r.branches
    && (pull.state.Closed? <==> pull.merged)
    && (pull.merged <==> pull.mergeSha.Some?)
    && (pull.merged ==>
          && r.branches[pull.base] < |r.commits|
          && Reaches(r.commits, pull.mergeSha.value, r.branches[pull.base]))
  }

  predicate SameRoute(a: Pull, b: Pull) {
    a.head == b.head && a.base == b.base
  }

  /** Numbers run from 1 without gaps. */
  ghost predicate Numbered(pulls: map<nat, Pull>) {
    forall number :: number in pulls <==> 1 <= number <= |pulls|
  }

  predicate OneOpenPerRoute(pulls: map<nat, Pull>) {
    forall m, n :: m in pulls && n in pulls && m != n && pulls[m].state.Open? && pulls[n].state.Open? ==>
      !SameRoute(pulls[m], pulls[n])
  }

  predicate PullsConsistent(r: Repo) {
    forall number :: number in r.pulls ==> PullConsistent(r, r.pulls[number])
  }

  predicate GraphConsistent(r: Repo) {
    && OlderParents(r.commits)
    && forall branch :: branch in r.branches ==> r.branches[branch] < |r.commits|
  }

  ghost predicate Consistent(r: Repo) {
    GraphConsistent(r) && Numbered(r.pulls) && PullsConsistent(r) && OneOpenPerRoute(r.pulls)
  }

  /** What never changes once it is there: every head stays an ancestor, every closed pull request stays as it is. */
  predicate Evolves(a: Repo, b: Repo) {
    HeadsKept(a, b) && PullsKept(a.pulls, b.pulls)
  }

  predicate HeadsKept(a: Repo, b: Repo) {
    && a.commits <= b.commits
    && forall branch :: branch in a.branches ==>
         && branch in b.branches
         && b.branches[branch] < |b.commits|
         && Reaches(b.commits, a.branches[branch], b.branches[branch])
  }

  predicate PullsKept(a: map<nat, Pull>, b: map<nat, Pull>) {
    forall number :: number in a ==>
      && number in b
      && SameRoute(a[number], b[number])
      && (a[number].state.Closed? ==> b[number] == a[number])
  }

  lemma {:induction false} EvolvesTransitive(a: Repo, b: Repo, c: Repo)
    requires Evolves(a, b) && Evolves(b, c)
    ensures Evolves(a, c)
  {
    HeadsKeptTransitive(a, b, c);
  }

  lemma {:induction false} HeadsKeptTransitive(a: Repo, b: Repo, c: Repo)
    requires HeadsKept(a, b) && HeadsKept(b, c)
    ensures HeadsKept(a, c)
  {
    forall branch | branch in a.branches
      ensures Reaches(c.commits, a.branches[branch], c.branches[branch])
    {
      ReachesPrefix(b.commits, c.commits, a.branches[branch], b.branches[branch]);
      ReachesTransitive(c.commits, a.branches[branch], b.branches[branch], c.branches[branch]);
    }
  }

  // ---- what one operation may do ----

  function AddCommit(r: Repo, branch: string, commit: Commit): Repo {
    r.(commits := r.commits + [commit], branches := r.branches[branch := |r.commits|])
  }

  /** Nothing is committed when the index equals the branch's own tree. */
  function CommitTree(r: Repo, branch: string, tree: Tree): Repo
    requires branch in r.branches && r.branches[branch] < |r.commits|
  {
    var head := r.branches[branch];
    if r.commits[head].tree == tree then r else AddCommit(r, branch, Commit([head], tree))
  }

  /** `git merge --no-ff`: a head that is already contained leaves the base as it is. */
  function MergeRefs(r: Repo, base: string, head: string, tree: Tree): Repo
    requires base in r.branches && r.branches[base] < |r.commits| && head in r.branches
  {
    if Reaches(r.commits, r.branches[head], r.branches[base]) then r
    else AddCommit(r, base, Commit([r.branches[base], r.branches[head]], tree))
  }

  function ClosePull(r: Repo, number: nat): Repo
    requires number in r.pulls && r.pulls[number].base in r.branches
  {
    var sha := r.branches[r.pulls[number].base];
    r.(pulls := r.pulls[number := r.pulls[number].(state := Closed, merged := true, mergeSha := Some(sha))])
  }

  datatype Effect =
    | Nothing
    | NewBranch(name: string, sha: nat)
    | NewTree(branch: string, tree: Tree)
    | NewPull(title: string, body: string, head: string, base: string)
    | MergedOnly(number: nat, tree: Tree)  // the merge was made, but the request was cut off before it was recorded
    | MergedAndClosed(number: nat, tree: Tree)

  ghost predicate Possible(r: Repo, effect: Effect) {
    match effect
    case Nothing => true
    case NewBranch(name, sha) => name !in r.branches && sha < |r.commits|
    case NewTree(branch, _) => branch in r.branches
    case NewPull(_, _, head, base) =>
      && head in r.branches && base in r.branches
      && forall n :: n in r.pulls ==> !(r.pulls[n].state.Open? && r.pulls[n].head == head && r.pulls[n].base == base)
    case MergedOnly(number, _) => number in r.pulls && r.pulls[number].state.Open?
    case MergedAndClosed(number, _) => number in r.pulls && r.pulls[number].state.Open?
  }

  ghost function After(r: Repo, effect: Effect): Repo
    requires Consistent(r) && Possible(r, effect)
  {
    match effect
    case Nothing => r
    case NewBranch(name, sha) => r.(branches := r.branches[name := sha])
    case NewTree(branch, tree) => CommitTree(r, branch, tree)
    case NewPull(title, body, head, base) =>
      r.(pulls := r.pulls[|r.pulls| + 1 := Pull(title, body, head, base, Open, false, None)])
    case MergedOnly(number, tree) => MergeRefs(r, r.pulls[number].base, r.pulls[number].head, tree)
    case MergedAndClosed(number, tree) => ClosePull(MergeRefs(r, r.pulls[number].base, r.pulls[number].head, tree), number)
  }

  // ---- every operation keeps what must hold ----

  lemma {:induction false} CommitKeepsHeads(r: Repo, branch: string, commit: Commit)
    requires GraphConsistent(r) && branch in r.branches
    requires forall i :: 0 <= i < |commit.parents| ==> commit.parents[i] < |r.commits|
    requires r.branches[branch] in commit.parents
    ensures GraphConsistent(AddCommit(r, branch, commit)) && HeadsKept(r, AddCommit(r, branch, commit))
  {
    var b := AddCommit(r, branch, commit);
    var i :| 0 <= i < |commit.parents| && commit.parents[i] == r.branches[branch];
    assert b.commits[|r.commits|].parents[i] == r.branches[branch];
    assert Reaches(b.commits, r.branches[branch], b.commits[|r.commits|].parents[i]);
  }

  lemma {:induction false} PullsStayConsistent(a: Repo, b: Repo)
    requires PullsConsistent(a) && HeadsKept(a, b) && b.pulls == a.pulls
    ensures PullsConsistent(b)
  {
    forall number | number in b.pulls
      ensures PullConsistent(b, b.pulls[number])
    {
      MergeShaKept(a, b, a.pulls[number]);
    }
  }

  lemma {:induction false} MergeShaKept(a: Repo, b: Repo, pull: Pull)
    requires PullConsistent(a, pull) && HeadsKept(a, b)
    ensures PullConsistent(b, pull)
  {
    if pull.merged {
      ReachesPrefix(a.commits, b.commits, pull.mergeSha.value, a.branches[pull.base]);
      ReachesTransitive(b.commits, pull.mergeSha.value, a.branches[pull.base], b.branches[pull.base]);
    }
  }

  lemma {:induction false} CommitEvolves(r: Repo, branch: string, commit: Commit)
    requires Consistent(r) && branch in r.branches
    requires forall i :: 0 <= i < |commit.parents| ==> commit.parents[i] < |r.commits|
    requires r.branches[branch] in commit.parents
    ensures Consistent(AddCommit(r, branch, commit)) && Evolves(r, AddCommit(r, branch, commit))
  {
    CommitKeepsHeads(r, branch, commit);
    PullsStayConsistent(r, AddCommit(r, branch, commit));
  }

  lemma {:induction false} SameEvolves(r: Repo)
    requires Consistent(r)
    ensures Evolves(r, r)
  {
  }

  lemma {:induction false} MergeEvolves(r: Repo, base: string, head: string, tree: Tree)
    requires Consistent(r) && base in r.branches && head in r.branches
    ensures var b := MergeRefs(r, base, head, tree);
            && Consistent(b) && Evolves(r, b) && b.pulls == r.pulls && b.branches.Keys == r.branches.Keys
            && Reaches(b.commits, r.branches[head], b.branches[base])
  {
    if Reaches(r.commits, r.branches[head], r.branches[base]) {
      SameEvolves(r);
    } else {
      var commit := Commit([r.branches[base], r.branches[head]], tree);
      assert commit.parents[0] == r.branches[base];
      CommitEvolves(r, base, commit);
      MergedHeadReached(r, base, commit);
    }
  }

  lemma {:induction false} MergedHeadReached(r: Repo, base: string, commit: Commit)
    requires |commit.parents| == 2 && commit.parents[1] < |r.commits|
    ensures Reaches(AddCommit(r, base, commit).commits, commit.parents[1], |r.commits|)
  {
    var commits := AddCommit(r, base, commit).commits;
    assert Reaches(commits, commit.parents[1], commits[|r.commits|].parents[1]);
  }

  lemma {:induction false} CloseEvolves(r: Repo, number: nat)
    requires Consistent(r) && number in r.pulls && r.pulls[number].state.Open?
    ensures Consistent(ClosePull(r, number)) && Evolves(r, ClosePull(r, number))
  {
    var b := ClosePull(r, number);
    SameSize(r.pulls, number, b.pulls[number]);
    ClosedStaysOnePerRoute(r.pulls, number, b.pulls[number]);
    assert PullConsistent(r, r.pulls[number]);
    forall other | other in b.pulls
      ensures PullConsistent(b, b.pulls[other])
    {
      assert PullConsistent(r, r.pulls[other]);
    }
  }

  lemma {:induction false} SameSize(pulls: map<nat, Pull>, number: nat, pull: Pull)
    requires number in pulls && Numbered(pulls)
    ensures Numbered(pulls[number := pull])
  {
    var b := pulls[number := pull];
    assert b.Keys == pulls.Keys && |b| == |b.Keys| == |pulls|;
  }

  lemma {:induction false} ClosedStaysOnePerRoute(pulls: map<nat, Pull>, number: nat, pull: Pull)
    requires number in pulls && OneOpenPerRoute(pulls) && pull.state.Closed?
    ensures OneOpenPerRoute(pulls[number := pull])
  {
  }

  lemma {:induction false} NewPullEvolves(r: Repo, pull: Pull)
    requires Consistent(r) && PullConsistent(r, pull) && pull.state.Open?
    requires forall n :: n in r.pulls ==> !(r.pulls[n].state.Open? && SameRoute(r.pulls[n], pull))
    ensures var b := r.(pulls := r.pulls[|r.pulls| + 1 := pull]);
            Consistent(b) && Evolves(r, b)
  {
    var b := r.(pulls := r.pulls[|r.pulls| + 1 := pull]);
    NextNumber(r.pulls, pull);
    OpenedOnePerRoute(r.pulls, |r.pulls| + 1, pull);
    OpenedConsistent(r, b, |r.pulls| + 1, pull);
    SameEvolves(r);
  }

  lemma {:induction false} OpenedConsistent(r: Repo, b: Repo, number: nat, pull: Pull)
    requires PullsConsistent(r) && PullConsistent(r, pull) && number !in r.pulls
    requires b == r.(pulls := r.pulls[number := pull])
    ensures PullsConsistent(b) && PullsKept(r.pulls, b.pulls)
  {
    forall n | n in b.pulls
      ensures PullConsistent(b, b.pulls[n])
    {
      assert n != number ==> PullConsistent(r, r.pulls[n]);
    }
  }

  lemma {:induction false} KeyAdded<V>(m: map<nat, V>, key: nat, value: V)
    requires key !in m
    ensures |m[key := value]| == |m| + 1
  {
    var b := m[key := value];
    assert b.Keys == m.Keys + {key};
    assert |b| == |b.Keys| && |m| == |m.Keys|;
  }

  lemma {:induction false} NextNumber(pulls: map<nat, Pull>, pull: Pull)
    requires Numbered(pulls)
    ensures |pulls| + 1 !in pulls && Numbered(pulls[|pulls| + 1 := pull])
  {
    KeyAdded(pulls, |pulls| + 1, pull);
  }

  lemma {:induction false} OpenedOnePerRoute(pulls: map<nat, Pull>, number: nat, pull: Pull)
    requires number !in pulls && OneOpenPerRoute(pulls)
    requires forall n :: n in pulls ==> !(pulls[n].state.Open? && SameRoute(pulls[n], pull))
    ensures OneOpenPerRoute(pulls[number := pull])
  {
  }

  /** Whatever one operation does, and however far it gets, the repository stays consistent and nothing is lost. */
  lemma {:induction false} EffectEvolves(r: Repo, effect: Effect)
    requires Consistent(r) && Possible(r, effect)
    ensures Consistent(After(r, effect)) && Evolves(r, After(r, effect))
  {
    match effect
    case Nothing => SameEvolves(r);
    case NewBranch(name, sha) =>
      SameEvolves(r);
    case NewTree(branch, tree) =>
      if r.commits[r.branches[branch]].tree == tree {
        SameEvolves(r);
      } else {
        var commit := Commit([r.branches[branch]], tree);
        assert commit.parents[0] == r.branches[branch];
        CommitEvolves(r, branch, commit);
      }
    case NewPull(title, body, head, base) =>
      NewPullEvolves(r, Pull(title, body, head, base, Open, false, None));
    case MergedOnly(number, tree) =>
      MergeEvolves(r, r.pulls[number].base, r.pulls[number].head, tree);
    case MergedAndClosed(number, tree) =>
      MergeEvolves(r, r.pulls[number].base, r.pulls[number].head, tree);
      var b := MergeRefs(r, r.pulls[number].base, r.pulls[number].head, tree);
      CloseEvolves(b, number);
      EvolvesTransitive(r, b, ClosePull(b, number));
  }

  // ---- whole histories ----

  ghost predicate IsHistory(history: seq<Repo>) {
    && history != [] && Consistent(history[0])
    && forall k :: 0 <= k < |history| - 1 ==> Consistent(history[k]) ==> Follows(history[k], history[k + 1])
  }

  ghost predicate Follows(a: Repo, b: Repo)
    requires Consistent(a)
  {
    exists effect :: Possible(a, effect) && b == After(a, effect)
  }

  lemma {:induction false} StepEvolves(a: Repo, b: Repo)
    requires Consistent(a) && Follows(a, b)
    ensures Consistent(b) && Evolves(a, b)
  {
    var effect :| Possible(a, effect) && b == After(a, effect);
    EffectEvolves(a, effect);
  }

  lemma {:induction false} HistoryConsistent(history: seq<Repo>, k: nat)
    requires IsHistory(history) && k < |history|
    ensures Consistent(history[k])
  {
    if k > 0 {
      HistoryConsistent(history, k - 1);
      StepEvolves(history[k - 1], history[k]);
    }
  }

  /** Over any sequence of operations: every earlier head is an ancestor of the later one, merged requests keep
      their merge commit and it stays in their base, numbers are never reused. */
  lemma {:induction false} HistoryEvolves(history: seq<Repo>, j: nat, k: nat)
    requires IsHistory(history) && j <= k < |history|
    ensures Consistent(history[j]) && Consistent(history[k]) && Evolves(history[j], history[k])
    decreases k
  {
    HistoryConsistent(history, j);
    HistoryConsistent(history, k);
    if j == k {
      SameEvolves(history[j]);
    } else {
      HistoryEvolves(history, j, k - 1);
      StepEvolves(history[k - 1], history[k]);
      EvolvesTransitive(history[j], history[k - 1], history[k]);
    }
  }

  /** A pull request closes only by a merge of the two heads as they were one step earlier. */
  lemma {:induction false} ClosedByMerge(a: Repo, b: Repo, number: nat) returns (tree: Tree)
    requires Consistent(a) && Follows(a, b) && number in a.pulls && a.pulls[number].state.Open?
    requires number in b.pulls && b.pulls[number].state.Closed?
    ensures b == After(a, MergedAndClosed(number, tree))
    ensures var base, head := a.pulls[number].base, a.pulls[number].head;
            && base in a.branches && head in a.branches && base in b.branches
            && b.pulls[number].mergeSha == Some(b.branches[base])
            && b.branches[base] < |b.commits|
            && (if Reaches(a.commits, a.branches[head], a.branches[base]) then b.commits == a.commits && b.branches == a.branches
                else b.commits == a.commits + [Commit([a.branches[base], a.branches[head]], tree)]
                     && b.branches == a.branches[base := |a.commits|])
            && Reaches(b.commits, a.branches[base], b.branches[base])
            && Reaches(b.commits, a.branches[head], b.branches[base])
  {
    var effect :| Possible(a, effect) && b == After(a, effect);
    OnlyMergeCloses(a, effect, number);
    tree := effect.tree;
    assert PullConsistent(a, a.pulls[number]);
    MergeEvolves(a, a.pulls[number].base, a.pulls[number].head, tree);
  }

  lemma {:induction false} OnlyMergeCloses(a: Repo, effect: Effect, number: nat)
    requires Consistent(a) && Possible(a, effect) && number in a.pulls && a.pulls[number].state.Open?
    requires number in After(a, effect).pulls && After(a, effect).pulls[number].state.Closed?
    ensures effect.MergedAndClosed? && effect.number == number
  {
  }

  // ---- heads ----

  function HeadTree(r: Repo, branch: string): Tree
    requires branch in r.branches && r.branches[branch] < |r.commits|
  {
    r.commits[r.branches[branch]].tree
  }

  /** Both heads are those that were reviewed. */
  predicate Reviewed(r: Repo, number: nat, base: nat, head: nat)
    requires number in r.pulls
  {
    var pull := r.pulls[number];
    && pull.base in r.branches && r.branches[pull.base] == base
    && pull.head in r.branches && r.branches[pull.head] == head
  }

  /** Nothing has been committed yet. */
  predicate Unseeded(r: Repo) {
    r.commits == [] && r.branches == map[]
  }

  lemma {:induction false} UnseededConsistent(before: Repo, r: Repo)
    requires Unseeded(r) && r.pulls == before.pulls
    ensures Consistent(before) ==> (Consistent(r) <==> r.pulls == map[])
  {
    if Consistent(before) && r.pulls != map[] {
      assert 1 in r.pulls;
      assert !PullConsistent(r, r.pulls[1]);
    }
  }

  lemma {:induction false} Applied(a: Repo, effect: Effect, b: Repo)
    requires Consistent(a) && Possible(a, effect) && b == After(a, effect)
    ensures Follows(a, b) && Consistent(b) && Evolves(a, b)
  {
    EffectEvolves(a, effect);
  }
}
