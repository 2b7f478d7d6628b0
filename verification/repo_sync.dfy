/**
 * The repository synchronisation helpers of the core API: the sorted merge
 * that decides which repositories to add to and delete from the database,
 * the tag-list existence test, and the flattening of Clair's layer report
 * into vulnerability items.
 */
module RepoSync {
  import opened Wrappers
  import opened GoStrings
  import opened ClairUtils

  // ---- sort.Strings ----

  predicate SortedStrings(s: seq<string>) {
    forall i, j :: 0 <= i < j < |s| ==> AtMost(s[i], s[j])
  }

  predicate StrictlySorted(s: seq<string>) {
    forall i, j :: 0 <= i < j < |s| ==> Below(s[i], s[j])
  }

  /** No name occurs twice. */
  ghost predicate NoDuplicates(s: seq<string>) {
    forall x :: multiset(s)[x] <= 1
  }

  /** x put into its place in a sorted sequence. */
  function Insert(x: string, s: seq<string>): (r: seq<string>)
    requires SortedStrings(s)
    ensures SortedStrings(r)
    ensures multiset(r) == multiset(s) + multiset{x}
  {
    if s == [] then [x]
    else if AtMost(x, s[0]) then
      HeadBoundsAll(x, s);
      [x] + s
    else
      var t := Insert(x, s[1..]);
      assert s == [s[0]] + s[1..];
      AtMostTotal(x, s[0]);
      BoundOverMultiset(s[0], t, s[1..], x);
      [s[0]] + t
  }

  /** A name at most the head of a sorted sequence is at most all of it. */
  lemma HeadBoundsAll(x: string, s: seq<string>)
    requires SortedStrings(s) && s != [] && AtMost(x, s[0])
    ensures forall k :: 0 <= k < |s| ==> AtMost(x, s[k])
  {
    forall k | 0 < k < |s| ensures AtMost(x, s[k]) {
      AtMostTransitive(x, s[0], s[k]);
    }
  }

  /** A lower bound of s and of x bounds every element of a sequence holding s and x. */
  lemma BoundOverMultiset(b: string, t: seq<string>, s: seq<string>, x: string)
    requires multiset(t) == multiset(s) + multiset{x}
    requires AtMost(b, x) && forall k :: 0 <= k < |s| ==> AtMost(b, s[k])
    ensures forall k :: 0 <= k < |t| ==> AtMost(b, t[k])
  {
    forall k | 0 <= k < |t| ensures AtMost(b, t[k]) {
      assert t[k] in multiset(t);
      if t[k] != x {
        assert t[k] in multiset(s);
        var m :| 0 <= m < |s| && s[m] == t[k];
      }
    }
  }

  /** sort.Strings: the names in ascending order, each kept as often as it occurs. */
  function SortStrings(s: seq<string>): (r: seq<string>)
    ensures SortedStrings(r)
    ensures multiset(r) == multiset(s)
  {
    if s == [] then []
    else
      assert s == s[..|s| - 1] + [s[|s| - 1]];
      Insert(s[|s| - 1], SortStrings(s[..|s| - 1]))
  }

  /** Two equal names at different places count twice. */
  lemma RepeatCountsTwice(s: seq<string>, i: nat, j: nat)
    requires i < j < |s| && s[i] == s[j]
    ensures multiset(s)[s[i]] >= 2
  {
    assert s == s[..i] + [s[i]] + s[i + 1..j] + [s[j]] + s[j + 1..];
  }

  /** A sorted sequence without duplicates is strictly sorted. */
  lemma SortedDistinctIsStrict(s: seq<string>)
    requires SortedStrings(s) && NoDuplicates(s)
    ensures StrictlySorted(s)
  {
    forall i, j | 0 <= i < j < |s|
      ensures s[i] != s[j]
    {
      if s[i] == s[j] {
        RepeatCountsTwice(s, i, j);
      }
    }
  }

  // ---- repositoryExist ----

  /** The registry's answer to ListTag for one repository. */
  datatype TagAnswer = Tags(tags: seq<string>) | TagsNotFound | TagsFailed

  /**
   * repositoryExist: a 404 means the repository does not exist; any other
   * failure is passed on (None); otherwise it exists iff it has a tag.
   */
  function RepositoryExist(answer: TagAnswer): (r: Option<bool>)
    ensures r == Some(true) <==> answer.Tags? && answer.tags != []
    ensures r == Some(false) <==> answer.TagsNotFound? || answer == Tags([])
    ensures r.None? <==> answer.TagsFailed?
  {
    match answer
      case TagsNotFound => Some(false)
      case TagsFailed => None
      case Tags(tags) => Some(|tags| != 0)
  }

  // ---- diffRepos ----

  /**
   * What diffRepos asks about a repository name: whether its project exists
   * (None: the lookup failed), whether a registry client can be built for
   * it, and what ListTag answers.
   */
  datatype Collaborators = Collaborators(
    projectExists: string -> Option<bool>,
    clientOk: string -> bool,
    tags: string -> TagAnswer)

  datatype DiffError = ClientFailed(repo: string) | TagListFailed(repo: string)

  /** The two lists diffRepos returns and its error; on an error the lists are those built so far. */
  datatype DiffOutcome = DiffOutcome(needsAdd: seq<string>, needsDel: seq<string>, err: Option<DiffError>)

  /** A registry-only name is added iff its project exists, a client can be built and it has tags. */
  predicate Addable(x: string, env: Collaborators) {
    env.projectExists(x) == Some(true) && env.clientOk(x) && RepositoryExist(env.tags(x)) == Some(true)
  }

  /** The registry names left after the DB list ran out: errors only skip a name. */
  function TailAdds(r: seq<string>, env: Collaborators): seq<string> {
    if r == [] then [] else (if Addable(r[0], env) then [r[0]] else []) + TailAdds(r[1..], env)
  }

  /** The tail walk adds exactly the addable names. */
  lemma {:induction false} TailAddsMembers(r: seq<string>, env: Collaborators)
    ensures forall x :: x in TailAdds(r, env) <==> x in r && Addable(x, env)
  {
    if r != [] {
      TailAddsMembers(r[1..], env);
      assert r == [r[0]] + r[1..];
    }
  }

  function PrependAdd(x: string, o: DiffOutcome): DiffOutcome {
    o.(needsAdd := [x] + o.needsAdd)
  }

  function PrependDel(x: string, o: DiffOutcome): DiffOutcome {
    o.(needsDel := [x] + o.needsDel)
  }

  function Abort(e: DiffError): DiffOutcome {
    DiffOutcome([], [], Some(e))
  }

  /** The lists built so far followed by what the rest of the walk yields. */
  function Then(needsAdd: seq<string>, needsDel: seq<string>, o: DiffOutcome): DiffOutcome {
    DiffOutcome(needsAdd + o.needsAdd, needsDel + o.needsDel, o.err)
  }

  /** The merge walk over the sorted registry list r and the sorted DB list d. */
  function MergeDiff(r: seq<string>, d: seq<string>, env: Collaborators): (o: DiffOutcome)
    decreases |r| + |d|
  {
    if r == [] then DiffOutcome([], d, None)
    else if d == [] then DiffOutcome(TailAdds(r, env), [], None)
    else
      var c := Compare(r[0], d[0]);
      if c < 0 then
        if env.projectExists(r[0]) != Some(true) then MergeDiff(r[1..], d, env)
        else if !env.clientOk(r[0]) then Abort(ClientFailed(r[0]))
        else match RepositoryExist(env.tags(r[0]))
          case None => Abort(TagListFailed(r[0]))
          case Some(false) => MergeDiff(r[1..], d, env)
          case Some(true) => PrependAdd(r[0], MergeDiff(r[1..], d, env))
      else if c > 0 then PrependDel(d[0], MergeDiff(r, d[1..], env))
      else if !env.clientOk(r[0]) then Abort(ClientFailed(r[0]))
      else match RepositoryExist(env.tags(r[0]))
        case None => Abort(TagListFailed(r[0]))
        case Some(false) => PrependDel(d[0], MergeDiff(r[1..], d[1..], env))
        case Some(true) => MergeDiff(r[1..], d[1..], env)
  }

  /**
   * diffRepos: sorts both lists, then walks them together. A name only in
   * the DB is deleted; a name in both is deleted iff it has no tags; a name
   * only in the registry is added iff its project exists and it has tags.
   */
  method DiffRepos(reposInRegistry: seq<string>, reposInDB: seq<string>, env: Collaborators)
    returns (needsAdd: seq<string>, needsDel: seq<string>, err: Option<DiffError>)
    ensures DiffOutcome(needsAdd, needsDel, err) == MergeDiff(SortStrings(reposInRegistry), SortStrings(reposInDB), env)
    ensures forall x :: x in needsAdd ==> x in reposInRegistry
    ensures forall x :: x in needsDel ==> x in reposInDB
    ensures SortedStrings(needsAdd) && SortedStrings(needsDel)
    ensures err.None? && NoDuplicates(reposInRegistry) && NoDuplicates(reposInDB) ==>
      (forall x :: x in needsAdd <==> x in reposInRegistry && x !in reposInDB && Addable(x, env))
      && (forall x :: x in needsDel <==>
            x in reposInDB && (x in reposInRegistry ==> RepositoryExist(env.tags(x)) == Some(false)))
    ensures err.Some? ==>
      err.value.repo in reposInRegistry && (!env.clientOk(err.value.repo) || env.tags(err.value.repo) == TagsFailed)
  {
    var r := SortStrings(reposInRegistry);
    var d := SortStrings(reposInDB);
    needsAdd, needsDel, err := MergeRepos(r, d, env);
    DiffReposShape(reposInRegistry, reposInDB, env);
    DiffReposMembers(reposInRegistry, reposInDB, env);
  }

  /** The merge loop of diffRepos over the already sorted lists. */
  method MergeRepos(r: seq<string>, d: seq<string>, env: Collaborators)
    returns (needsAdd: seq<string>, needsDel: seq<string>, err: Option<DiffError>)
    ensures DiffOutcome(needsAdd, needsDel, err) == MergeDiff(r, d, env)
  {
    needsAdd, needsDel, err := [], [], None;
    var i, j := 0, 0;
    while i < |r| && j < |d|
      invariant 0 <= i <= |r| && 0 <= j <= |d|
      invariant MergeDiff(r, d, env) == Then(needsAdd, needsDel, MergeDiff(r[i..], d[j..], env))
      invariant err.None?
      decreases |r| - i + |d| - j
    {
      i, j, needsAdd, needsDel, err := MergeStep(r, d, i, j, env, needsAdd, needsDel);
      if err.Some? {
        return;
      }
    }
    ghost var addedBefore, deletedBefore := needsAdd, needsDel;
    MergeDiffRest(r[i..], d[j..], env);
    ghost var rest := MergeDiff(r[i..], d[j..], env);
    needsAdd := AddRemaining(r, i, env, needsAdd);
    needsDel := DelRemaining(d, j, needsDel);
    assert DiffOutcome(needsAdd, needsDel, err) == Then(addedBefore, deletedBefore, rest);
  }

  /** Once one list is used up, the walk adds the remaining addable registry names and deletes the remaining DB names. */
  lemma MergeDiffRest(r: seq<string>, d: seq<string>, env: Collaborators)
    requires r == [] || d == []
    ensures MergeDiff(r, d, env) == DiffOutcome(TailAdds(r, env), d, None)
  {
  }

  /** The second loop of diffRepos: each remaining registry name is added when its project exists, its client builds and it has tags. */
  method AddRemaining(r: seq<string>, i0: nat, env: Collaborators, needsAdd: seq<string>) returns (needsAdd': seq<string>)
    requires i0 <= |r|
    ensures needsAdd' == needsAdd + TailAdds(r[i0..], env)
  {
    needsAdd' := needsAdd;
    var i := i0;
    while i < |r|
      invariant i0 <= i <= |r|
      invariant needsAdd + TailAdds(r[i0..], env) == needsAdd' + TailAdds(r[i..], env)
    {
      var repoInR := r[i];
      TailAddsStep(r, i, env);
      i := i + 1;
      if env.projectExists(repoInR) != Some(true) || !env.clientOk(repoInR) {
        continue;
      }
      var tagged := RepositoryExist(env.tags(repoInR));
      if tagged != Some(true) {
        continue;
      }
      assert needsAdd' + ([repoInR] + TailAdds(r[i..], env)) == (needsAdd' + [repoInR]) + TailAdds(r[i..], env);
      needsAdd' := needsAdd' + [repoInR];
    }
    assert r[i..] == [];
  }

  /** The third loop of diffRepos: every remaining DB name is deleted. */
  method DelRemaining(d: seq<string>, j0: nat, needsDel: seq<string>) returns (needsDel': seq<string>)
    requires j0 <= |d|
    ensures needsDel' == needsDel + d[j0..]
  {
    needsDel' := needsDel;
    var j := j0;
    while j < |d|
      invariant j0 <= j <= |d|
      invariant needsDel' == needsDel + d[j0..j]
    {
      assert d[j0..j + 1] == d[j0..j] + [d[j]];
      needsDel' := needsDel' + [d[j]];
      j := j + 1;
    }
  }

  /**
   * One round of the merge loop: compares the heads r[i] and d[j] and
   * decides about the smaller one (or both when equal), or fails.
   */
  method MergeStep(r: seq<string>, d: seq<string>, i: nat, j: nat, env: Collaborators,
                   needsAdd: seq<string>, needsDel: seq<string>)
    returns (i': nat, j': nat, needsAdd': seq<string>, needsDel': seq<string>, err: Option<DiffError>)
    requires i < |r| && j < |d|
    ensures i <= i' <= |r| && j <= j' <= |d| && (err.None? ==> i + j < i' + j')
    ensures err.Some? ==> Then(needsAdd, needsDel, MergeDiff(r[i..], d[j..], env)) == DiffOutcome(needsAdd', needsDel', err)
    ensures err.None? ==>
      Then(needsAdd, needsDel, MergeDiff(r[i..], d[j..], env)) == Then(needsAdd', needsDel', MergeDiff(r[i'..], d[j'..], env))
  {
    i', j', needsAdd', needsDel', err := i, j, needsAdd, needsDel, None;
    var repoInR, repoInD := r[i], d[j];
    ghost var here := MergeDiff(r[i..], d[j..], env);
    assert r[i..][0] == repoInR && r[i..][1..] == r[i + 1..];
    assert d[j..][0] == repoInD && d[j..][1..] == d[j + 1..];
    var c := Compare(repoInR, repoInD);
    if c < 0 {
      i' := i + 1;
      ghost var next := MergeDiff(r[i'..], d[j..], env);
      var exist := env.projectExists(repoInR);
      if exist != Some(true) {
        assert here == next;
        return;
      }
      if !env.clientOk(repoInR) {
        assert here == Abort(ClientFailed(repoInR));
        return i', j', needsAdd, needsDel, Some(ClientFailed(repoInR));
      }
      var tagged := RepositoryExist(env.tags(repoInR));
      if tagged.None? {
        assert here == Abort(TagListFailed(repoInR));
        return i', j', needsAdd, needsDel, Some(TagListFailed(repoInR));
      }
      if !tagged.value {
        assert here == next;
        return;
      }
      assert here == PrependAdd(repoInR, next);
      ThenAdd(needsAdd, needsDel, repoInR, next);
      needsAdd' := needsAdd + [repoInR];
    } else if c > 0 {
      ghost var next := MergeDiff(r[i..], d[j + 1..], env);
      assert here == PrependDel(repoInD, next);
      ThenDel(needsAdd, needsDel, repoInD, next);
      needsDel' := needsDel + [repoInD];
      j' := j + 1;
    } else {
      ghost var next := MergeDiff(r[i + 1..], d[j + 1..], env);
      if !env.clientOk(repoInR) {
        assert here == Abort(ClientFailed(repoInR));
        return i', j', needsAdd, needsDel, Some(ClientFailed(repoInR));
      }
      var tagged := RepositoryExist(env.tags(repoInR));
      if tagged.None? {
        assert here == Abort(TagListFailed(repoInR));
        return i', j', needsAdd, needsDel, Some(TagListFailed(repoInR));
      }
      if !tagged.value {
        assert here == PrependDel(repoInD, next);
        ThenDel(needsAdd, needsDel, repoInD, next);
        needsDel' := needsDel + [repoInD];
      } else {
        assert here == next;
      }
      i' := i + 1;
      j' := j + 1;
    }
  }

  lemma ThenAdd(needsAdd: seq<string>, needsDel: seq<string>, x: string, o: DiffOutcome)
    ensures Then(needsAdd + [x], needsDel, o) == Then(needsAdd, needsDel, PrependAdd(x, o))
  {
    assert (needsAdd + [x]) + o.needsAdd == needsAdd + ([x] + o.needsAdd);
  }

  lemma ThenDel(needsAdd: seq<string>, needsDel: seq<string>, x: string, o: DiffOutcome)
    ensures Then(needsAdd, needsDel + [x], o) == Then(needsAdd, needsDel, PrependDel(x, o))
  {
    assert (needsDel + [x]) + o.needsDel == needsDel + ([x] + o.needsDel);
  }

  lemma TailAddsStep(r: seq<string>, i: nat, env: Collaborators)
    requires i < |r|
    ensures TailAdds(r[i..], env) == (if Addable(r[i], env) then [r[i]] else []) + TailAdds(r[i + 1..], env)
  {
    assert r[i..][0] == r[i] && r[i..][1..] == r[i + 1..];
  }

  /**
   * Whatever the collaborators answer, needsAdd holds only registry names
   * and needsDel only DB names, each in the order of its sorted input.
   */
  lemma {:induction false} MergeDiffShape(r: seq<string>, d: seq<string>, env: Collaborators)
    ensures var o := MergeDiff(r, d, env);
      && (forall x :: x in o.needsAdd ==> x in r)
      && (forall x :: x in o.needsDel ==> x in d)
      && (SortedStrings(r) ==> SortedStrings(o.needsAdd))
      && (SortedStrings(d) ==> SortedStrings(o.needsDel))
    decreases |r| + |d|
  {
    if r == [] {
    } else if d == [] {
      TailAddsMembers(r, env);
      if SortedStrings(r) {
        TailAddsSorted(r, env);
      }
    } else {
      var o := MergeDiff(r, d, env);
      var c := Compare(r[0], d[0]);
      if c < 0 {
        var rest := MergeDiff(r[1..], d, env);
        MergeDiffShape(r[1..], d, env);
        assert r == [r[0]] + r[1..];
        if env.projectExists(r[0]) != Some(true)
          || (env.clientOk(r[0]) && RepositoryExist(env.tags(r[0])) == Some(false)) {
          assert o == rest;
        } else if !env.clientOk(r[0]) || RepositoryExist(env.tags(r[0])).None? {
          assert o.needsAdd == [] && o.needsDel == [];
        } else {
          assert o == PrependAdd(r[0], rest);
          if SortedStrings(r) {
            ConsSorted(r[0], r[1..], rest.needsAdd);
          }
        }
      } else if c > 0 {
        var rest := MergeDiff(r, d[1..], env);
        MergeDiffShape(r, d[1..], env);
        assert d == [d[0]] + d[1..];
        assert o == PrependDel(d[0], rest);
        if SortedStrings(d) {
          ConsSorted(d[0], d[1..], rest.needsDel);
        }
      } else {
        var rest := MergeDiff(r[1..], d[1..], env);
        MergeDiffShape(r[1..], d[1..], env);
        assert r == [r[0]] + r[1..] && d == [d[0]] + d[1..];
        if !env.clientOk(r[0]) || RepositoryExist(env.tags(r[0])).None? {
          assert o.needsAdd == [] && o.needsDel == [];
        } else if RepositoryExist(env.tags(r[0])) == Some(true) {
          assert o == rest;
        } else {
          assert o == PrependDel(d[0], rest);
          if SortedStrings(d) {
            ConsSorted(d[0], d[1..], rest.needsDel);
          }
        }
      }
    }
  }

  /** Putting the head of a sorted sequence in front of a sorted selection from its tail keeps it sorted. */
  lemma ConsSorted(x: string, tail: seq<string>, t: seq<string>)
    requires SortedStrings([x] + tail) && SortedStrings(t)
    requires forall y :: y in t ==> y in tail
    ensures SortedStrings([x] + t)
  {
    forall j | 0 <= j < |t|
      ensures AtMost(x, t[j])
    {
      assert t[j] in tail;
      var k :| 0 <= k < |tail| && tail[k] == t[j];
      assert ([x] + tail)[0] == x && ([x] + tail)[k + 1] == t[j];
    }
  }

  /** A name below the head of a strictly sorted sequence is not in it. */
  lemma BelowHeadNotIn(a: string, s: seq<string>)
    requires StrictlySorted(s) && s != [] && Below(a, s[0])
    ensures a !in s
  {
    BelowNotAtMost(a, s[0]);
    forall k | 0 < k < |s|
      ensures s[k] != a
    {
      assert Below(s[0], s[k]);
    }
  }

  /**
   * With strictly sorted lists and no error, a name is added iff it is
   * only in the registry and addable, and deleted iff it is in the DB and
   * either missing from the registry or listed there without tags.
   */
  lemma {:induction false} MergeDiffMembers(r: seq<string>, d: seq<string>, env: Collaborators)
    requires StrictlySorted(r) && StrictlySorted(d)
    requires MergeDiff(r, d, env).err.None?
    ensures forall x :: x in MergeDiff(r, d, env).needsAdd <==> x in r && x !in d && Addable(x, env)
    ensures forall x :: x in MergeDiff(r, d, env).needsDel <==>
      x in d && (x in r ==> RepositoryExist(env.tags(x)) == Some(false))
    decreases |r| + |d|
  {
    var o := MergeDiff(r, d, env);
    if r == [] {
    } else if d == [] {
      TailAddsMembers(r, env);
    } else {
      assert r == [r[0]] + r[1..] && d == [d[0]] + d[1..];
      assert r[0] !in r[1..] && d[0] !in d[1..];
      var c := Compare(r[0], d[0]);
      if c < 0 {
        BelowHeadNotIn(r[0], d);
        MergeDiffMembers(r[1..], d, env);
      } else if c > 0 {
        BelowHeadNotIn(d[0], r);
        MergeDiffMembers(r, d[1..], env);
      } else {
        MergeDiffMembers(r[1..], d[1..], env);
      }
    }
  }

  /** An error names a registry name whose client could not be built or whose tag listing failed. */
  lemma MergeDiffError(r: seq<string>, d: seq<string>, env: Collaborators)
    ensures MergeDiff(r, d, env).err.Some? ==>
      var x := MergeDiff(r, d, env).err.value.repo;
      x in r && (!env.clientOk(x) || env.tags(x) == TagsFailed)
    ensures (forall x :: x in r ==> env.clientOk(x) && env.tags(x) != TagsFailed) ==> MergeDiff(r, d, env).err.None?
  {
    MergeDiffErrorNames(r, d, env);
    if forall x :: x in r ==> env.clientOk(x) && env.tags(x) != TagsFailed {
      MergeDiffNoError(r, d, env);
    }
  }

  lemma {:induction false} MergeDiffErrorNames(r: seq<string>, d: seq<string>, env: Collaborators)
    ensures MergeDiff(r, d, env).err.Some? ==>
      var x := MergeDiff(r, d, env).err.value.repo;
      x in r && (!env.clientOk(x) || env.tags(x) == TagsFailed)
    decreases |r| + |d|
  {
    if r != [] && d != [] {
      assert r == [r[0]] + r[1..];
      var c := Compare(r[0], d[0]);
      if c < 0 {
        MergeDiffErrorNames(r[1..], d, env);
      } else if c > 0 {
        MergeDiffErrorNames(r, d[1..], env);
      } else {
        MergeDiffErrorNames(r[1..], d[1..], env);
      }
    }
  }

  lemma {:induction false} MergeDiffNoError(r: seq<string>, d: seq<string>, env: Collaborators)
    requires forall x :: x in r ==> env.clientOk(x) && env.tags(x) != TagsFailed
    ensures MergeDiff(r, d, env).err.None?
    decreases |r| + |d|
  {
    if r != [] && d != [] {
      assert r == [r[0]] + r[1..];
      var c := Compare(r[0], d[0]);
      if c < 0 {
        MergeDiffNoError(r[1..], d, env);
      } else if c > 0 {
        MergeDiffNoError(r, d[1..], env);
      } else {
        MergeDiffNoError(r[1..], d[1..], env);
      }
    }
  }

  /** MergeDiffShape stated for the lists diffRepos is given, before sorting. */
  lemma DiffReposShape(reposInRegistry: seq<string>, reposInDB: seq<string>, env: Collaborators)
    ensures var o := MergeDiff(SortStrings(reposInRegistry), SortStrings(reposInDB), env);
      && (forall x :: x in o.needsAdd ==> x in reposInRegistry)
      && (forall x :: x in o.needsDel ==> x in reposInDB)
      && SortedStrings(o.needsAdd) && SortedStrings(o.needsDel)
  {
    var r := SortStrings(reposInRegistry);
    var d := SortStrings(reposInDB);
    MergeDiffShape(r, d, env);
    forall x | x in r ensures x in reposInRegistry { assert x in multiset(r); }
    forall x | x in d ensures x in reposInDB { assert x in multiset(d); }
  }

  /** MergeDiffMembers and MergeDiffError stated for the lists diffRepos is given, before sorting. */
  lemma DiffReposMembers(reposInRegistry: seq<string>, reposInDB: seq<string>, env: Collaborators)
    ensures var o := MergeDiff(SortStrings(reposInRegistry), SortStrings(reposInDB), env);
      (o.err.None? && NoDuplicates(reposInRegistry) && NoDuplicates(reposInDB) ==>
        (forall x :: x in o.needsAdd <==> x in reposInRegistry && x !in reposInDB && Addable(x, env))
        && (forall x :: x in o.needsDel <==>
              x in reposInDB && (x in reposInRegistry ==> RepositoryExist(env.tags(x)) == Some(false))))
      && (o.err.Some? ==>
        o.err.value.repo in reposInRegistry
        && (!env.clientOk(o.err.value.repo) || env.tags(o.err.value.repo) == TagsFailed))
  {
    var r := SortStrings(reposInRegistry);
    var d := SortStrings(reposInDB);
    forall x ensures x in r <==> x in reposInRegistry {
      assert x in r <==> x in multiset(r);
    }
    forall x ensures x in d <==> x in reposInDB {
      assert x in d <==> x in multiset(d);
    }
    MergeDiffError(r, d, env);
    if MergeDiff(r, d, env).err.None? && NoDuplicates(reposInRegistry) && NoDuplicates(reposInDB) {
      SortedDistinctIsStrict(r);
      SortedDistinctIsStrict(d);
      MergeDiffMembers(r, d, env);
    }
  }

  lemma {:induction false} TailAddsSorted(r: seq<string>, env: Collaborators)
    requires SortedStrings(r)
    ensures SortedStrings(TailAdds(r, env))
  {
    if r != [] {
      assert r == [r[0]] + r[1..];
      TailAddsSorted(r[1..], env);
      TailAddsMembers(r[1..], env);
      if Addable(r[0], env) {
        ConsSorted(r[0], r[1..], TailAdds(r[1..], env));
      }
    }
  }

  // ---- transformVulnerabilities ----

  /** models.VulnerabilityItem: one vulnerability of one component. */
  datatype VulnerabilityItem = VulnerabilityItem(
    id: string, pkg: string, version: string, severity: Severity,
    fixed: string, link: string, description: string)

  function ItemOf(f: ClairFeature, v: ClairVulnerability): VulnerabilityItem {
    VulnerabilityItem(v.name, f.name, f.version, ParseClairSev(v.severity), v.fixedBy, v.link, v.description)
  }

  /** The items of one component, in the order of its vulnerabilities. */
  function FeatureItems(f: ClairFeature): seq<VulnerabilityItem> {
    seq(|f.vulnerabilities|, k requires 0 <= k < |f.vulnerabilities| => ItemOf(f, f.vulnerabilities[k]))
  }

  /** The items of all components, component by component. */
  function ItemsOf(features: seq<ClairFeature>): seq<VulnerabilityItem> {
    if features == [] then []
    else ItemsOf(features[..|features| - 1]) + FeatureItems(features[|features| - 1])
  }

  /**
   * transformVulnerabilities; `layer` is the report's layer, None when it is
   * nil (a nil list of features or vulnerabilities is the empty sequence).
   */
  method TransformVulnerabilities(layer: Option<seq<ClairFeature>>) returns (res: seq<VulnerabilityItem>)
    ensures layer.None? ==> res == []
    ensures layer.Some? ==> res == ItemsOf(layer.value)
  {
    res := [];
    if layer.None? {
      return;
    }
    var features := layer.value;
    var i := 0;
    while i < |features|
      invariant 0 <= i <= |features|
      invariant res == ItemsOf(features[..i])
    {
      var f := features[i];
      var vulnerabilities := f.vulnerabilities;
      var j := 0;
      while j < |vulnerabilities|
        invariant 0 <= j <= |vulnerabilities|
        invariant res == ItemsOf(features[..i]) + FeatureItems(f)[..j]
      {
        assert FeatureItems(f)[..j + 1] == FeatureItems(f)[..j] + [ItemOf(f, vulnerabilities[j])];
        res := res + [ItemOf(f, vulnerabilities[j])];
        j := j + 1;
      }
      assert features[..i + 1][..i] == features[..i];
      assert FeatureItems(f)[..j] == FeatureItems(f);
      i := i + 1;
    }
    assert features[..i] == features;
  }

  /** Flattening is compositional: the items of two runs of components are the items of each, in order. */
  lemma {:induction false} ItemsOfAppend(fs: seq<ClairFeature>, gs: seq<ClairFeature>)
    ensures ItemsOf(fs + gs) == ItemsOf(fs) + ItemsOf(gs)
    decreases |gs|
  {
    if gs == [] {
      assert fs + gs == fs;
    } else {
      var n := |gs| - 1;
      assert (fs + gs)[..|fs + gs| - 1] == fs + gs[..n];
      assert (fs + gs)[|fs + gs| - 1] == gs[n];
      ItemsOfAppend(fs, gs[..n]);
      calc {
        ItemsOf(fs + gs);
        ItemsOf(fs + gs[..n]) + FeatureItems(gs[n]);
        (ItemsOf(fs) + ItemsOf(gs[..n])) + FeatureItems(gs[n]);
        ItemsOf(fs) + (ItemsOf(gs[..n]) + FeatureItems(gs[n]));
        ItemsOf(fs) + ItemsOf(gs);
      }
    }
  }

  /** Every (component, vulnerability) pair yields its item. */
  lemma {:induction false} ItemsComplete(fs: seq<ClairFeature>, i: nat, k: nat)
    requires i < |fs| && k < |fs[i].vulnerabilities|
    ensures ItemOf(fs[i], fs[i].vulnerabilities[k]) in ItemsOf(fs)
    decreases |fs|
  {
    var n := |fs| - 1;
    if i < n {
      ItemsComplete(fs[..n], i, k);
    } else {
      assert FeatureItems(fs[n])[k] == ItemOf(fs[i], fs[i].vulnerabilities[k]);
    }
  }

  /** Every item comes from some (component, vulnerability) pair. */
  lemma {:induction false} ItemsSound(fs: seq<ClairFeature>, it: VulnerabilityItem)
    requires it in ItemsOf(fs)
    ensures exists i, k :: 0 <= i < |fs| && 0 <= k < |fs[i].vulnerabilities| && it == ItemOf(fs[i], fs[i].vulnerabilities[k])
    decreases |fs|
  {
    var n := |fs| - 1;
    if it in ItemsOf(fs[..n]) {
      ItemsSound(fs[..n], it);
      var i, k :| 0 <= i < n && 0 <= k < |fs[..n][i].vulnerabilities| && it == ItemOf(fs[..n][i], fs[..n][i].vulnerabilities[k]);
      assert fs[..n][i] == fs[i];
    } else {
      var k :| 0 <= k < |FeatureItems(fs[n])| && FeatureItems(fs[n])[k] == it;
      assert it == ItemOf(fs[n], fs[n].vulnerabilities[k]);
    }
  }
}
