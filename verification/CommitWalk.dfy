/** The bounded walk over governance-only commits, the functional head it finds and the
    evidence files it makes admissible. */
module CommitWalk {
  import opened Options
  import opened Firsts
  import opened Strings

  /** A commit id. */
  datatype Sha = Sha(hex: string)

  /** `diff` is the list of non-blank changed paths, None when the command fails. */
  datatype Commit = Commit(parents: seq<Sha>, diff: Option<seq<string>>)

  type Repo = map<Sha, Commit>

  const MAX_DEPTH: nat := 50

  // ----- Classification -----

  predicate IsGovInfraPath(path: string) {
    || StartsWith(path, "docs/") || StartsWith(path, "scripts/")
    || StartsWith(path, ".github/") || StartsWith(path, "tests/governance/")
    || ('/' !in path && EndsWith(path, ".md"))
    || EndsWith(path, "/ARCHITECTURE.md")
  }

  /** The commit's own diff is non-empty and governance-only. */
  predicate DiffIsGov(repo: Repo, sha: Sha) {
    && sha in repo && repo[sha].diff.Some? && repo[sha].diff.value != []
    && forall p :: p in repo[sha].diff.value ==> IsGovInfraPath(p)
  }

  /** A merge is classified by the diff of its second parent. */
  predicate IsGovInfraCommit(repo: Repo, sha: Sha) {
    DiffIsGov(repo, if sha in repo && |repo[sha].parents| > 1 then repo[sha].parents[1] else sha)
  }

  /** The parent that the walk follows: the second one at a merge. */
  function ChosenParent(repo: Repo, sha: Sha): Option<Sha> {
    if sha !in repo || repo[sha].parents == [] then None
    else if |repo[sha].parents| > 1 then Some(repo[sha].parents[1]) else Some(repo[sha].parents[0])
  }

  // ----- The walk -----

  function Walked(repo: Repo, sha: Sha, depth: nat): seq<Sha>
    decreases depth
  {
    if depth == 0 then []
    else if !IsGovInfraCommit(repo, sha) || ChosenParent(repo, sha).None? then [sha]
    else [sha] + Walked(repo, ChosenParent(repo, sha).value, depth - 1)
  }

  lemma WalkedStep(repo: Repo, before: seq<Sha>, sha: Sha, depth: nat)
    requires depth > 0
    ensures before + Walked(repo, sha, depth)
         == if !IsGovInfraCommit(repo, sha) || ChosenParent(repo, sha).None? then before + [sha]
            else before + [sha] + Walked(repo, ChosenParent(repo, sha).value, depth - 1)
  {
  }

  method WalkGovInfraHistory(repo: Repo, head: Sha, maxDepth: nat) returns (walked: seq<Sha>)
    ensures walked == Walked(repo, head, maxDepth)
  {
    hide IsGovInfraCommit, Walked;
    var sha := head;
    walked := [];
    for i := 0 to maxDepth
      invariant |walked| == i
      invariant Walked(repo, head, maxDepth) == walked + Walked(repo, sha, maxDepth - i)
    {
      WalkedStep(repo, walked, sha, maxDepth - i);
      walked := walked + [sha];
      if !IsGovInfraCommit(repo, sha) { return; }
      if sha !in repo { return; }
      var parents := repo[sha].parents;
      if |parents| < 1 { return; }
      sha := if |parents| > 1 then parents[1] else parents[0];
    }
    WalkedNothing(repo, sha);
  }

  lemma WalkedNothing(repo: Repo, sha: Sha)
    ensures Walked(repo, sha, 0) == []
  {
  }

  /** The n-th commit along the chosen parents. */
  function Chain(repo: Repo, sha: Sha, n: nat): Option<Sha>
    decreases n
  {
    if n == 0 then Some(sha)
    else
      match ChosenParent(repo, sha)
      case None => None
      case Some(p) => Chain(repo, p, n - 1)
  }

  /** The walk is a prefix of the chosen-parent chain of at most `depth` commits, all but the
      last governance-only; it stops short only at a functional or a root commit. */
  lemma {:induction false} WalkShape(repo: Repo, sha: Sha, depth: nat)
    ensures var w := Walked(repo, sha, depth);
      && |w| <= depth && (depth > 0 ==> w != [])
      && (forall i :: 0 <= i < |w| ==> Chain(repo, sha, i) == Some(w[i]))
      && (forall i :: 0 <= i < |w| - 1 ==> IsGovInfraCommit(repo, w[i]))
      && (0 < |w| < depth ==>
            !IsGovInfraCommit(repo, w[|w| - 1]) || ChosenParent(repo, w[|w| - 1]).None?)
    decreases depth
  {
    if depth > 0 && IsGovInfraCommit(repo, sha) && ChosenParent(repo, sha).Some? {
      WalkShape(repo, ChosenParent(repo, sha).value, depth - 1);
    }
  }

  function FunctionalHead(repo: Repo, head: Sha, depth: nat): Sha {
    var w := Walked(repo, head, depth);
    if w == [] then head else w[|w| - 1]
  }

  /** A smaller bound only cuts the walk. */
  lemma {:induction false} WalkCut(repo: Repo, sha: Sha, depth: nat, less: nat)
    requires less <= depth
    ensures var w := Walked(repo, sha, depth);
      Walked(repo, sha, less) == if |w| <= less then w else w[..less]
    decreases depth
  {
    if less > 0 && IsGovInfraCommit(repo, sha) && ChosenParent(repo, sha).Some? {
      WalkCut(repo, ChosenParent(repo, sha).value, depth - 1, less - 1);
    }
  }

  // ----- Stacking commits -----

  /** Parents are commits of the repository, and older by `rank`. */
  ghost predicate WellFormed(repo: Repo, rank: map<Sha, nat>) {
    forall c, p :: c in repo && p in repo[c].parents ==>
      p in repo && c in rank && p in rank && rank[p] < rank[c]
  }

  /** A commit that nothing refers to changes no other walk. */
  lemma {:induction false} WalkIgnoresNew(repo: Repo, rank: map<Sha, nat>, c: Sha, commit: Commit, sha: Sha, depth: nat)
    requires WellFormed(repo, rank) && c !in repo && sha in repo
    ensures Walked(repo[c := commit], sha, depth) == Walked(repo, sha, depth)
    decreases depth
  {
    if depth > 0 {
      var next := ChosenParent(repo, sha);
      assert |repo[sha].parents| > 0 ==> repo[sha].parents[0] in repo[sha].parents;
      assert |repo[sha].parents| > 1 ==> repo[sha].parents[1] in repo[sha].parents;
      assert IsGovInfraCommit(repo[c := commit], sha) == IsGovInfraCommit(repo, sha);
      if next.Some? { WalkIgnoresNew(repo, rank, c, commit, next.value, depth - 1); }
    }
  }

  /** The walk never meets the same commit twice. */
  lemma {:induction false} WalkDescends(repo: Repo, rank: map<Sha, nat>, sha: Sha, depth: nat)
    requires WellFormed(repo, rank) && sha in repo
    ensures var w := Walked(repo, sha, depth);
      && (forall i :: 0 <= i < |w| ==> w[i] in repo)
      && NoDuplicates(w)
      && forall i :: 1 <= i < |w| ==> sha in rank && w[i] in rank && rank[w[i]] < rank[sha]
    decreases depth
  {
    if depth > 0 && IsGovInfraCommit(repo, sha) && ChosenParent(repo, sha).Some? {
      var p := ChosenParent(repo, sha).value;
      assert p in repo[sha].parents;
      WalkDescends(repo, rank, p, depth - 1);
    }
  }

  lemma StackWalk(repo: Repo, rank: map<Sha, nat>, c: Sha, paths: seq<string>, head: Sha, depth: nat)
    requires WellFormed(repo, rank) && c !in repo && head in repo && depth > 0
    requires paths != [] && forall p :: p in paths ==> IsGovInfraPath(p)
    ensures Walked(repo[c := Commit([head], Some(paths))], c, depth) == [c] + Walked(repo, head, depth - 1)
  {
    var top := repo[c := Commit([head], Some(paths))];
    assert DiffIsGov(top, c) && ChosenParent(top, c) == Some(head);
    WalkIgnoresNew(repo, rank, c, Commit([head], Some(paths)), head, depth - 1);
  }

  /** A governance-only commit on top: the walk gains exactly that commit, and the functional
      head stays exactly when the old walk was shorter than the bound. Then also every
      commit that could carry evidence still can. */
  lemma StackExact(repo: Repo, rank: map<Sha, nat>, c: Sha, paths: seq<string>, head: Sha, depth: nat)
    requires WellFormed(repo, rank) && c !in repo && head in repo && depth > 0
    requires paths != [] && forall p :: p in paths ==> IsGovInfraPath(p)
    ensures var top := repo[c := Commit([head], Some(paths))];
      var prev := Walked(repo, head, depth);
      && Walked(top, c, depth) == [c] + (if |prev| < depth then prev else prev[..depth - 1])
      && (FunctionalHead(top, c, depth) == FunctionalHead(repo, head, depth) <==> |prev| < depth)
      && (|prev| < depth ==> forall s :: s in prev ==> s in Walked(top, c, depth))
  {
    hide Walked, WellFormed, IsGovInfraCommit, IsGovInfraPath;
    var prev := Walked(repo, head, depth);
    StackWalk(repo, rank, c, paths, head, depth);
    WalkCut(repo, head, depth, depth - 1);
    WalkShape(repo, head, depth);
    WalkDescends(repo, rank, head, depth);
    LastsDiffer(prev, c, depth);
  }

  lemma LastsDiffer(prev: seq<Sha>, c: Sha, depth: nat)
    requires 0 < |prev| <= depth && NoDuplicates(prev) && c !in prev
    ensures var w := [c] + (if |prev| < depth then prev else prev[..depth - 1]);
      w[|w| - 1] == prev[|prev| - 1] <==> |prev| < depth
  {
    if |prev| == depth && depth > 1 { assert ([c] + prev[..depth - 1])[depth - 1] == prev[depth - 2]; }
  }

  /** A merge on top of a branch head: when that head's own diff is functional the walk stops
      at the merge itself, so the branch head's evidence is not searched. */
  lemma MergeExact(repo: Repo, rank: map<Sha, nat>, m: Sha, base: Sha, head: Sha, diff: Option<seq<string>>, depth: nat)
    requires WellFormed(repo, rank) && m !in repo && head in repo && base in repo && depth > 0
    ensures var top := repo[m := Commit([base, head], diff)];
      && Walked(top, m, depth) == [m] + (if DiffIsGov(repo, head) then Walked(repo, head, depth - 1) else [])
      && (!DiffIsGov(repo, head) ==> FunctionalHead(top, m, depth) == m && head !in Walked(top, m, depth))
      && (DiffIsGov(repo, head) && depth > 1 ==> head in Walked(top, m, depth))
  {
    var commit := Commit([base, head], diff);
    WalkIgnoresNew(repo, rank, m, commit, head, depth - 1);
    WalkShape(repo, head, depth - 1);
    if depth > 1 { assert Walked(repo, head, depth - 1)[0] == head; }
  }

  // ----- Evidence files -----

  function Collected(order: seq<Sha>, files: map<Sha, seq<string>>): seq<string> {
    if order == [] then []
    else Collected(order[..|order| - 1], files)
         + (var s := order[|order| - 1]; if s in files then files[s] else [])
  }

  /** Some searched commit carries the file. */
  ghost predicate IsCandidate(repo: Repo, head: Sha, files: map<Sha, seq<string>>, f: string) {
    exists s :: (s == head || s in Walked(repo, head, MAX_DEPTH)) && s in files && f in files[s]
  }

  /** Files are searched at every walked commit and at the head, in whatever order the set
      of commits is enumerated; `files` is what the two directories hold per commit. */
  method FindCandidates(repo: Repo, head: Sha, order: seq<Sha>, files: map<Sha, seq<string>>)
    returns (unique: seq<string>)
    requires forall s :: s in order <==> s == head || s in Walked(repo, head, MAX_DEPTH)
    ensures NoDuplicates(unique)
    ensures forall f :: f in unique <==> IsCandidate(repo, head, files, f)
  {
    var candidates := [];
    for i := 0 to |order|
      invariant candidates == Collected(order[..i], files)
    {
      assert order[..i + 1][..i] == order[..i];
      if order[i] in files { candidates := candidates + files[order[i]]; }
    }
    assert order[..|order|] == order;
    CollectedMeaning(order, files);
    unique := Dedupe(candidates);
    DistinctMeaning(candidates);
  }

  lemma {:induction false} CollectedMeaning(order: seq<Sha>, files: map<Sha, seq<string>>)
    ensures forall f :: f in Collected(order, files) <==> exists s :: s in order && s in files && f in files[s]
  {
    if order != [] {
      var init, last := order[..|order| - 1], order[|order| - 1];
      CollectedMeaning(init, files);
      assert order == init + [last];
      forall f
        ensures f in Collected(order, files) <==> exists s :: s in order && s in files && f in files[s]
      {
        if s :| s in init && s in files && f in files[s] { assert s in order; }
        if last in files && f in files[last] { assert last in order; }
      }
    }
  }

  /** Stacking a governance-only commit below the bound keeps every evidence candidate. */
  lemma StackKeepsCandidates(repo: Repo, rank: map<Sha, nat>, c: Sha, paths: seq<string>, head: Sha,
                             files: map<Sha, seq<string>>, f: string)
    requires WellFormed(repo, rank) && c !in repo && head in repo
    requires paths != [] && forall p :: p in paths ==> IsGovInfraPath(p)
    ensures |Walked(repo, head, MAX_DEPTH)| < MAX_DEPTH && IsCandidate(repo, head, files, f) ==>
      IsCandidate(repo[c := Commit([head], Some(paths))], c, files, f)
  {
    hide Walked, WellFormed, IsGovInfraPath, IsGovInfraCommit;
    StackExact(repo, rank, c, paths, head, MAX_DEPTH);
    WalkShape(repo, head, MAX_DEPTH);
    var w := Walked(repo, head, MAX_DEPTH);
    assert Chain(repo, head, 0) == Some(w[0]) && w[0] == head;
  }

  // ----- Classification and walk in full -----

  /** Governance paths: anything under four directories, Markdown at the top level, and every
      nested ARCHITECTURE.md. */
  lemma PathExact(path: string)
    ensures IsGovInfraPath(path) <==>
      || (exists rest :: path == "docs/" + rest) || (exists rest :: path == "scripts/" + rest)
      || (exists rest :: path == ".github/" + rest) || (exists rest :: path == "tests/governance/" + rest)
      || ('/' !in path && exists stem :: path == stem + ".md")
      || (exists dir :: path == dir + "/ARCHITECTURE.md")
  {
    StartExact(path, "docs/");
    StartExact(path, "scripts/");
    StartExact(path, ".github/");
    StartExact(path, "tests/governance/");
    EndExact(path, ".md");
    EndExact(path, "/ARCHITECTURE.md");
  }

  lemma StartExact(s: string, p: string)
    ensures StartsWith(s, p) <==> exists rest :: s == p + rest
  {
    if StartsWith(s, p) { assert s == p + s[|p|..]; }
  }

  lemma EndExact(s: string, p: string)
    ensures EndsWith(s, p) <==> exists rest :: s == rest + p
  {
    if EndsWith(s, p) { assert s == s[..|s| - |p|] + p; }
  }

  /** The diff is known, changes something, and changes governance paths only. */
  ghost predicate ChangesGovernanceOnly(repo: Repo, sha: Sha) {
    && sha in repo && repo[sha].diff.Some? && |repo[sha].diff.value| > 0
    && forall i :: 0 <= i < |repo[sha].diff.value| ==> IsGovInfraPath(repo[sha].diff.value[i])
  }

  /** Of two neighbours on the walk the second is the first one's second parent at a merge and
      its only parent otherwise, and the diff that classifies the first, its own or at a merge
      the second parent's, changes governance paths only. The walk begins at the head and has
      at most 50 commits. */
  lemma WalkSteps(repo: Repo, head: Sha, depth: nat, i: nat)
    ensures var w := Walked(repo, head, depth);
      i + 1 < |w| ==>
        && w[i] in repo && |repo[w[i]].parents| > 0
        && var parents := repo[w[i]].parents;
           && w[i + 1] == (if |parents| > 1 then parents[1] else parents[0])
           && ChangesGovernanceOnly(repo, if |parents| > 1 then parents[1] else w[i])
    ensures depth > 0 ==> |Walked(repo, head, depth)| > 0 && Walked(repo, head, depth)[0] == head
    ensures Walked(repo, head, MAX_DEPTH) == Walked(repo, head, 50) && |Walked(repo, head, 50)| <= 50
    ensures depth > 0 ==>
      var w := Walked(repo, head, depth); FunctionalHead(repo, head, depth) == w[|w| - 1]
  {
    hide Walked, IsGovInfraPath;
    WalkShape(repo, head, MAX_DEPTH);
    WalkShape(repo, head, depth);
    var w := Walked(repo, head, depth);
    if depth > 0 { assert Chain(repo, head, 0) == Some(w[0]); }
    if i + 1 < |w| { ChainStep(repo, head, i); }
  }

  lemma {:induction false} ChainStep(repo: Repo, sha: Sha, n: nat)
    ensures Chain(repo, sha, n).Some? ==>
      Chain(repo, sha, n + 1) == ChosenParent(repo, Chain(repo, sha, n).value)
    decreases n
  {
    if n > 0 && ChosenParent(repo, sha).Some? { ChainStep(repo, ChosenParent(repo, sha).value, n - 1); }
  }

  /** Where the walk stops below its bound there is nowhere to go on: the last commit is
      functional, unknown, or a root. */
  lemma WalkStops(repo: Repo, head: Sha, depth: nat)
    ensures var w := Walked(repo, head, depth);
      0 < |w| < depth ==>
        var last := w[|w| - 1];
        || last !in repo || repo[last].parents == []
        || !ChangesGovernanceOnly(repo, if |repo[last].parents| > 1 then repo[last].parents[1] else last)
  {
    hide Walked, IsGovInfraPath;
    WalkShape(repo, head, depth);
  }
}
