/** The frozen contract files: newline-independent digests, the snapshot and its enforcement. */
module ContractFreeze {
  import opened Options

  type Bytes = seq<bv8>

  const CR: bv8 := 13
  const LF: bv8 := 10

  // ----- Newlines -----

  /** Every CR LF becomes LF, scanning from the left. */
  function Normalized(b: Bytes): Bytes
    decreases |b|
  {
    if b == [] then []
    else if |b| >= 2 && b[0] == CR && b[1] == LF then [LF] + Normalized(b[2..])
    else [b[0]] + Normalized(b[1..])
  }

  /** What a checkout with CRLF line ends does: every LF becomes CR LF. */
  function WithCrlf(b: Bytes): Bytes {
    if b == [] then [] else (if b[0] == LF then [CR, LF] else [b[0]]) + WithCrlf(b[1..])
  }

  /** Normalisation undoes the conversion on every byte string, mixed line ends included. */
  lemma {:induction false} NormalizedUndoesCrlf(b: Bytes)
    ensures Normalized(WithCrlf(b)) == b
    ensures WithCrlf(b) != [] ==> WithCrlf(b)[0] != LF
    decreases |b|
  {
    if b != [] {
      var rest := WithCrlf(b[1..]);
      NormalizedUndoesCrlf(b[1..]);
      var all := WithCrlf(b);
      if b[0] == LF {
        assert all[2..] == rest;
      } else {
        assert all[1..] == rest;
      }
    }
  }

  ghost predicate HasPair(b: Bytes) { exists i :: 0 <= i < |b| - 1 && b[i] == CR && b[i + 1] == LF }

  ghost predicate HasDoubleCr(b: Bytes) {
    exists i :: 0 <= i < |b| - 2 && b[i] == CR && b[i + 1] == CR && b[i + 2] == LF
  }

  /** A CR LF survives normalisation exactly where CR CR LF stood. */
  lemma {:induction false} PairsLeft(b: Bytes)
    ensures HasPair(Normalized(b)) <==> HasDoubleCr(b)
    ensures b != [] ==>
      Normalized(b) != [] && Normalized(b)[0] == if |b| >= 2 && b[0] == CR && b[1] == LF then LF else b[0]
    decreases |b|
  {
    if b == [] {
    } else if |b| >= 2 && b[0] == CR && b[1] == LF {
      PairsLeft(b[2..]);
      Shift([LF], Normalized(b[2..]));
      assert Normalized(b) == [LF] + Normalized(b[2..]);
      DoubleShift(b, 2);
    } else {
      PairsLeft(b[1..]);
      assert Normalized(b) == [b[0]] + Normalized(b[1..]);
      Shift([b[0]], Normalized(b[1..]));
      DoubleShift(b, 1);
    }
  }

  lemma Shift(x: Bytes, rest: Bytes)
    requires |x| == 1
    ensures HasPair(x + rest) <==> HasPair(rest) || (rest != [] && x[0] == CR && rest[0] == LF)
  {
    var all := x + rest;
    if i :| 0 <= i < |rest| - 1 && rest[i] == CR && rest[i + 1] == LF {
      assert all[i + 1] == CR && all[i + 2] == LF;
    }
    if i :| 0 <= i < |all| - 1 && all[i] == CR && all[i + 1] == LF {
      if i > 0 { assert rest[i - 1] == CR && rest[i] == LF; }
    }
    if rest != [] && x[0] == CR && rest[0] == LF { assert all[0] == CR && all[0 + 1] == LF; }
  }

  lemma DoubleShift(b: Bytes, n: nat)
    requires n == 1 || (n == 2 && |b| >= 2 && b[0] == CR && b[1] == LF)
    requires b != []
    ensures HasDoubleCr(b) <==> HasDoubleCr(b[n..]) || (n == 1 && |b| >= 3 && b[0] == CR && b[1] == CR && b[2] == LF)
  {
    if i :| 0 <= i < |b[n..]| - 2 && b[n..][i] == CR && b[n..][i + 1] == CR && b[n..][i + 2] == LF {
      assert b[i + n] == CR && b[i + n + 1] == CR && b[i + n + 2] == LF;
    }
    if i :| 0 <= i < |b| - 2 && b[i] == CR && b[i + 1] == CR && b[i + 2] == LF {
      if i >= n { assert b[n..][i - n] == CR && b[n..][i - n + 1] == CR && b[n..][i - n + 2] == LF; }
    }
  }

  lemma {:induction false} NormalizedFixed(b: Bytes)
    ensures Normalized(b) == b <==> !HasPair(b)
    ensures |Normalized(b)| <= |b|
    decreases |b|
  {
    if b == [] {
    } else if |b| >= 2 && b[0] == CR && b[1] == LF {
      NormalizedFixed(b[2..]);
      assert b[0] == CR && b[0 + 1] == LF;
    } else {
      NormalizedFixed(b[1..]);
      assert b == [b[0]] + b[1..];
      Shift([b[0]], b[1..]);
      assert Normalized(b)[1..] == Normalized(b[1..]);
    }
  }

  /** Normalising twice changes something exactly when the bytes contain CR CR LF. */
  lemma {:induction false} NotIdempotentExact(b: Bytes)
    ensures Normalized(Normalized(b)) == Normalized(b) <==> !HasDoubleCr(b)
  {
    PairsLeft(b);
    NormalizedFixed(Normalized(b));
  }

  // ----- Snapshot and enforcement -----

  /** Recorded digests in file order, with the commit they were taken at. */
  datatype Snapshot = Snapshot(head: string, digests: seq<(string, string)>)

  datatype Drop = Deleted | Modified

  datatype Verdict =
    | NothingToCheck
    | NoSnapshot
    | HeadDrift(versionHead: string, snapshotHead: string)
    | Violated(violations: seq<(string, Drop)>)
    | Pass

  /** The repository as the gate sees it. `versionHead` is the frozen head in version.py, None
      when the assignment is not found. The hash is given by the environment. */
  class FreezeGate {
    const hash: Bytes -> string
    var contractsDir: bool
    var files: map<string, Bytes>
    var snapshot: Option<Snapshot>
    var versionHead: Option<string>

    constructor (h: Bytes -> string, fs: map<string, Bytes>, version: Option<string>)
      ensures hash == h && contractsDir && files == fs && snapshot == None && versionHead == version
    {
      hash, contractsDir, files, snapshot, versionHead := h, true, fs, None, version;
    }

    /** Records every listed contract file and overwrites the frozen head where it is
        assigned. */
    method DoSnapshot(head: string, listing: seq<string>)
      requires forall p :: p in listing ==> p in files
      modifies this
      ensures contractsDir == old(contractsDir) && files == old(files)
      ensures !contractsDir ==> snapshot == old(snapshot) && versionHead == old(versionHead)
      ensures contractsDir ==>
        && snapshot == Some(Snapshot(head, Digests(hash, files, listing)))
        && versionHead == if old(versionHead).Some? then Some(head) else None
    {
      if !contractsDir { return; }
      var digests := [];
      for i := 0 to |listing|
        invariant digests == Digests(hash, files, listing[..i])
        invariant files == old(files) && contractsDir == old(contractsDir) && versionHead == old(versionHead)
      {
        assert listing[..i + 1][..i] == listing[..i];
        digests := digests + [(listing[i], hash(Normalized(files[listing[i]])))];
      }
      assert listing[..|listing|] == listing;
      snapshot := Some(Snapshot(head, digests));
      if versionHead.Some? { versionHead := Some(head); }
    }

    /** Compares every recorded digest; it reads only. */
    method DoEnforce() returns (v: Verdict)
      ensures v == Enforced(hash, contractsDir, files, snapshot, versionHead)
    {
      if !contractsDir { return NothingToCheck; }
      if snapshot.None? { return NoSnapshot; }
      var snap := snapshot.value;
      var version := if versionHead.Some? then versionHead.value else "";
      if snap.head != "" && version != "" && snap.head != version { return HeadDrift(version, snap.head); }
      var violations := [];
      for i := 0 to |snap.digests|
        invariant violations == Violations(hash, files, snap.digests[..i])
      {
        assert snap.digests[..i + 1][..i] == snap.digests[..i];
        var (path, expected) := snap.digests[i];
        if path !in files {
          violations := violations + [(path, Deleted)];
        } else if hash(Normalized(files[path])) != expected {
          violations := violations + [(path, Modified)];
        }
      }
      assert snap.digests[..|snap.digests|] == snap.digests;
      return if violations != [] then Violated(violations) else Pass;
    }
  }

  ghost predicate Injective(hash: Bytes -> string) { forall x, y :: hash(x) == hash(y) ==> x == y }

  function Digests(hash: Bytes -> string, files: map<string, Bytes>, listing: seq<string>): seq<(string, string)>
    requires forall p :: p in listing ==> p in files
  {
    if listing == [] then []
    else
      var last := listing[|listing| - 1];
      Digests(hash, files, listing[..|listing| - 1]) + [(last, hash(Normalized(files[last])))]
  }

  function Violations(hash: Bytes -> string, files: map<string, Bytes>, digests: seq<(string, string)>)
    : seq<(string, Drop)>
  {
    if digests == [] then []
    else
      var (path, expected) := digests[|digests| - 1];
      Violations(hash, files, digests[..|digests| - 1])
      + if path !in files then [(path, Deleted)]
        else if hash(Normalized(files[path])) != expected then [(path, Modified)] else []
  }

  function Enforced(hash: Bytes -> string, contractsDir: bool, files: map<string, Bytes>, snapshot: Option<Snapshot>,
                    versionHead: Option<string>): Verdict
  {
    if !contractsDir then NothingToCheck
    else if snapshot.None? then NoSnapshot
    else
      var snap := snapshot.value;
      var version := if versionHead.Some? then versionHead.value else "";
      if snap.head != "" && version != "" && snap.head != version then HeadDrift(version, snap.head)
      else
        var violations := Violations(hash, files, snap.digests);
        if violations != [] then Violated(violations) else Pass
  }

  lemma {:induction false} NoViolationsMeans(hash: Bytes -> string, files: map<string, Bytes>,
                                             digests: seq<(string, string)>)
    ensures Violations(hash, files, digests) == [] <==>
      forall i :: 0 <= i < |digests| ==> digests[i].0 in files && hash(Normalized(files[digests[i].0])) == digests[i].1
  {
    if digests != [] {
      var init := digests[..|digests| - 1];
      NoViolationsMeans(hash, files, init);
      assert digests == init + [digests[|digests| - 1]];
    }
  }

  lemma {:induction false} DigestAt(hash: Bytes -> string, files: map<string, Bytes>, listing: seq<string>, i: nat)
    requires i < |listing| && forall p :: p in listing ==> p in files
    ensures |Digests(hash, files, listing)| == |listing|
    ensures Digests(hash, files, listing)[i] == (listing[i], hash(Normalized(files[listing[i]])))
  {
    var init := listing[..|listing| - 1];
    if init != [] { DigestAt(hash, files, init, if i < |init| then i else 0); }
  }

  /** After a snapshot and with an injective hash, enforcement on any later tree passes
      exactly when every recorded file is still there with the same normalised bytes.
      Files that were not recorded play no part. */
  lemma {:induction false} PassExact(hash: Bytes -> string, before: map<string, Bytes>, listing: seq<string>,
                                     head: string, after: map<string, Bytes>, versionHead: Option<string>)
    requires Injective(hash)
    requires forall p :: p in listing ==> p in before
    requires versionHead.None? || versionHead == Some(head)
    ensures Enforced(hash, true, after, Some(Snapshot(head, Digests(hash, before, listing))), versionHead) == Pass
       <==> forall p :: p in listing ==> p in after && Normalized(after[p]) == Normalized(before[p])
  {
    var digests := Digests(hash, before, listing);
    NoViolationsMeans(hash, after, digests);
    if listing != [] { DigestAt(hash, before, listing, 0); }
    forall i | 0 <= i < |listing|
      ensures digests[i] == (listing[i], hash(Normalized(before[listing[i]])))
    {
      DigestAt(hash, before, listing, i);
    }
    if forall i :: 0 <= i < |digests| ==>
         digests[i].0 in after && hash(Normalized(after[digests[i].0])) == digests[i].1 {
      forall p | p in listing
        ensures p in after && Normalized(after[p]) == Normalized(before[p])
      {
        var i :| 0 <= i < |listing| && listing[i] == p;
        assert digests[i].0 == p;
      }
    }
  }

  /** The whole tree with CRLF line ends. */
  function CrlfTree(files: map<string, Bytes>): map<string, Bytes> {
    map p | p in files :: WithCrlf(files[p])
  }

  /** A tree that was snapshotted and checked out with CRLF line ends passes exactly when the
      recorded files had no CR LF to begin with. */
  lemma CrlfCheckoutExact(hash: Bytes -> string, before: map<string, Bytes>, listing: seq<string>, head: string)
    requires Injective(hash)
    requires forall p :: p in listing ==> p in before
    ensures Enforced(hash, true, CrlfTree(before), Some(Snapshot(head, Digests(hash, before, listing))), Some(head))
            == Pass
       <==> forall p :: p in listing ==> !HasPair(before[p])
  {
    hide Injective, Enforced, Digests, Normalized, HasPair;
    var after := CrlfTree(before);
    PassExact(hash, before, listing, head, after, Some(head));
    forall p | p in listing
      ensures Normalized(after[p]) == Normalized(before[p]) <==> !HasPair(before[p])
    {
      NormalizedUndoesCrlf(before[p]);
      NormalizedFixed(before[p]);
    }
  }

  // ----- The verdict in full -----

  /** Violations are collected file by file, in the recorded order. */
  lemma {:induction false} ViolationsExact(hash: Bytes -> string, files: map<string, Bytes>,
                                           a: seq<(string, string)>, b: seq<(string, string)>, path: string,
                                           digest: string)
    ensures Violations(hash, files, a + b) == Violations(hash, files, a) + Violations(hash, files, b)
    ensures path !in files ==> Violations(hash, files, [(path, digest)]) == [(path, Deleted)]
    ensures path in files && hash(Normalized(files[path])) != digest ==>
      Violations(hash, files, [(path, digest)]) == [(path, Modified)]
    ensures path in files && hash(Normalized(files[path])) == digest ==>
      Violations(hash, files, [(path, digest)]) == []
    decreases |b|
  {
    assert [(path, digest)][..0] == [];
    if b == [] {
      assert a + b == a;
    } else {
      assert (a + b)[..|a + b| - 1] == a + b[..|b| - 1];
      ViolationsExact(hash, files, a, b[..|b| - 1], path, digest);
    }
  }

  /** Which verdict comes out: a missing directory passes before anything is looked at, a
      missing snapshot comes next, then two different known heads, and only then the files. */
  lemma VerdictExact(hash: Bytes -> string, contractsDir: bool, files: map<string, Bytes>, snapshot: Option<Snapshot>,
                     versionHead: Option<string>)
    ensures var v := Enforced(hash, contractsDir, files, snapshot, versionHead);
      && (v == NothingToCheck <==> !contractsDir)
      && (v == NoSnapshot <==> contractsDir && snapshot.None?)
      && (contractsDir && snapshot.Some? ==>
            var recorded := snapshot.value;
            var drift := versionHead.Some? && |versionHead.value| > 0 && |recorded.head| > 0
                         && versionHead.value != recorded.head;
            && (v.HeadDrift? <==> drift)
            && (drift ==> v.versionHead == versionHead.value && v.snapshotHead == recorded.head)
            && (v == Pass <==> !drift && forall i :: 0 <= i < |recorded.digests| ==>
                  recorded.digests[i].0 in files
                  && hash(Normalized(files[recorded.digests[i].0])) == recorded.digests[i].1)
            && (v.Violated? ==> v.violations == Violations(hash, files, recorded.digests)))
  {
    hide Violations, Normalized;
    if snapshot.Some? { NoViolationsMeans(hash, files, snapshot.value.digests); }
  }
}
