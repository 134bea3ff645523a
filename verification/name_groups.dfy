/** Grouping artifacts by name, as both duplicate-repair scripts do
    (`fix_duplicate_artifacts.py` and `fix_remaining_duplicates.py`): a
    `defaultdict(list)` from each name to its artifacts in list order,
    narrowed to the names held by more than one artifact, and the pass that
    renames every member of a group but the first. An artifact in a group is
    represented by its position in the artifact array, so a group refers to
    the same records the array holds, as the Python lists of dictionaries
    do. */
module NameGroups {
  import opened Seqs
  import opened Catalog

  /** The names of the artifacts, in list order. */
  function Names(xs: seq<Artifact>): (r: seq<string>)
    ensures |r| == |xs|
    ensures forall i :: 0 <= i < |xs| ==> r[i] == xs[i].name
  {
    if xs == [] then [] else [xs[0].name] + Names(xs[1..])
  }

  /** The positions holding `n`, in increasing order. */
  function Positions(names: seq<string>, n: string): (r: seq<nat>)
    ensures forall i :: 0 <= i < |r| ==> r[i] < |names| && names[r[i]] == n
    ensures forall i, j :: 0 <= i < j < |r| ==> r[i] < r[j]
    ensures |r| <= |names|
  {
    if names == [] then []
    else
      var k := |names| - 1;
      Positions(names[..k], n) + (if names[k] == n then [k] else [])
  }

  /** A name that is absent has no positions. */
  lemma PositionsAbsent(names: seq<string>, n: string)
    requires n !in names
    ensures Positions(names, n) == []
  {
  }

  /** The index of position `q` inside its name's group: how many earlier
      positions hold the same name. */
  function Rank(names: seq<string>, q: nat): nat
    requires q < |names|
  {
    |Positions(names[..q], names[q])|
  }

  /** A group holds exactly the positions with its name. */
  lemma {:induction false} PositionsComplete(names: seq<string>, n: string, q: nat)
    requires q < |names| && names[q] == n
    ensures q in Positions(names, n)
  {
    var k := |names| - 1;
    if q < k {
      PositionsComplete(names[..k], n, q);
    }
  }

  /** The member at index `i` of a group has rank `i`. */
  lemma {:induction false} RankOfMember(names: seq<string>, n: string, i: nat)
    requires i < |Positions(names, n)|
    ensures Rank(names, Positions(names, n)[i]) == i
    decreases |names|
  {
    var k := |names| - 1;
    var before := Positions(names[..k], n);
    assert Positions(names, n) == before + (if names[k] == n then [k] else []);
    if i < |before| {
      var p := before[i];
      RankOfMember(names[..k], n, i);
      assert names[..k][..p] == names[..p];
    } else {
      assert names[..k] == names[..Positions(names, n)[i]];
    }
  }

  /** A position's rank is smaller than its group's size, and indexes it. */
  lemma RankInGroup(names: seq<string>, q: nat)
    requires q < |names|
    ensures Rank(names, q) < |Positions(names, names[q])|
    ensures Positions(names, names[q])[Rank(names, q)] == q
  {
    var g := Positions(names, names[q]);
    PositionsComplete(names, names[q], q);
    var i :| 0 <= i < |g| && g[i] == q;
    RankOfMember(names, names[q], i);
  }

  /** Two positions with the same name put two members in its group. */
  lemma TwoMembers(names: seq<string>, i: nat, j: nat)
    requires i < j < |names| && names[i] == names[j]
    ensures |Positions(names, names[i])| >= 2
  {
    var g := Positions(names, names[i]);
    PositionsComplete(names, names[i], i);
    PositionsComplete(names, names[i], j);
    var x :| 0 <= x < |g| && g[x] == i;
    var y :| 0 <= y < |g| && g[y] == j;
    assert x != y;
  }

  /** A group of two or more holds two distinct positions with its name. */
  lemma FirstTwoMembers(names: seq<string>, n: string)
    ensures var g := Positions(names, n);
            |g| > 1 ==> g[0] < g[1] && names[g[0]] == n && names[g[1]] == n
  {
  }

  /** No name is held twice exactly when every group has one member. */
  lemma DistinctIffSingletons(names: seq<string>)
    ensures Distinct(names) <==> forall q :: 0 <= q < |names| ==> |Positions(names, names[q])| == 1
  {
    if Distinct(names) {
      forall q | 0 <= q < |names|
        ensures |Positions(names, names[q])| == 1
      {
        var g := Positions(names, names[q]);
        PositionsComplete(names, names[q], q);
        FirstTwoMembers(names, names[q]);
      }
    }
    if forall q :: 0 <= q < |names| ==> |Positions(names, names[q])| == 1 {
      forall i, j | 0 <= i < j < |names|
        ensures names[i] != names[j]
      {
        if names[i] == names[j] {
          TwoMembers(names, i, j);
        }
      }
    }
  }

  /** A duplicate name: held by more than one artifact. */
  predicate IsDuplicate(names: seq<string>, n: string) {
    |Positions(names, n)| > 1
  }

  /** The names of `ks` that are duplicates in `names`, in the order of `ks`. */
  function DuplicatedIn(names: seq<string>, ks: seq<string>): (r: seq<string>)
    ensures forall n :: n in r <==> n in ks && IsDuplicate(names, n)
  {
    if ks == [] then []
    else
      var k := |ks| - 1;
      assert forall n :: n in ks <==> n in ks[..k] || n == ks[k];
      DuplicatedIn(names, ks[..k]) + (if IsDuplicate(names, ks[k]) then [ks[k]] else [])
  }

  /** Keeping only the duplicates of a list without repeats leaves no repeats. */
  lemma {:induction false} DuplicatedInDistinct(names: seq<string>, ks: seq<string>)
    requires Distinct(ks)
    ensures Distinct(DuplicatedIn(names, ks))
  {
    if ks != [] {
      var k := |ks| - 1;
      assert Distinct(ks[..k]);
      DuplicatedInDistinct(names, ks[..k]);
      assert ks[k] !in ks[..k];
    }
  }

  /** The groups of the duplicated names, and those names in order of first
      appearance (the iteration order of the Python dictionary). */
  ghost predicate DuplicatesOf(names: seq<string>, dups: map<string, seq<nat>>, order: seq<string>) {
    (forall n :: n in dups <==> n in names && IsDuplicate(names, n))
    && (forall n :: n in dups ==> dups[n] == Positions(names, n))
    && order == DuplicatedIn(names, Dedup(names))
  }

  /** The `defaultdict(list)` after the positions of `names` were appended
      one by one. */
  function GroupsOf(names: seq<string>): map<string, seq<nat>> {
    if names == [] then map[]
    else
      var k := |names| - 1;
      var g := GroupsOf(names[..k]);
      g[names[k] := (if names[k] in g then g[names[k]] else []) + [k]]
  }

  /** The grouping holds every name present, with all its positions in
      list order. */
  lemma {:induction false} GroupsOfPositions(names: seq<string>)
    ensures forall n :: n in GroupsOf(names) <==> n in names
    ensures forall n :: n in GroupsOf(names) ==> GroupsOf(names)[n] == Positions(names, n)
  {
    if names != [] {
      var k := |names| - 1;
      var front := names[..k];
      GroupsOfPositions(front);
      assert names == front + [names[k]];
      forall n
        ensures n in GroupsOf(names) ==> GroupsOf(names)[n] == Positions(names, n)
      {
        if n == names[k] && n !in GroupsOf(front) {
          PositionsAbsent(front, n);
        }
      }
    }
  }

  /** One step of the `defaultdict(list)` loop: position `p` joins the
      list of its name, and a new name is appended to the keys. */
  method AddPosition(groups0: map<string, seq<nat>>, keys0: seq<string>, ghost prefix: seq<string>, name: string, p: nat)
    returns (groups: map<string, seq<nat>>, keys: seq<string>)
    requires |prefix| == p && groups0 == GroupsOf(prefix) && keys0 == Dedup(prefix)
    requires forall n :: n in groups0 <==> n in keys0
    ensures groups == GroupsOf(prefix + [name]) && keys == Dedup(prefix + [name])
    ensures forall n :: n in groups <==> n in keys
  {
    DedupSnoc(prefix, name);
    assert (prefix + [name])[..p] == prefix;
    groups, keys := groups0, keys0;
    // a missing key starts as an empty list, as in a `defaultdict(list)`
    if name !in groups {
      keys := keys + [name];
    }
    groups := groups[name := (if name in groups then groups[name] else []) + [p]];
  }

  /** The `defaultdict(list)` loop: every name present maps to all its
      positions in list order; the names in insertion order. */
  method GroupByName(a: array<Artifact>) returns (groups: map<string, seq<nat>>, keys: seq<string>)
    ensures groups == GroupsOf(Names(a[..]))
    ensures keys == Dedup(Names(a[..]))
  {
    ghost var xs := a[..];
    ghost var names := Names(xs);
    groups := map[];
    keys := [];
    var p := 0;
    while p < a.Length
      invariant 0 <= p <= a.Length
      invariant groups == GroupsOf(names[..p])
      invariant keys == Dedup(names[..p])
      invariant forall n :: n in groups <==> n in keys
    {
      assert a[p] == xs[p];
      var name := a[p].name;
      assert names[..p + 1] == names[..p] + [name];
      groups, keys := AddPosition(groups, keys, names[..p], name, p);
      p := p + 1;
    }
    assert names[..p] == names;
  }

  /** The duplicate groups found among the names `ks`, in the order of `ks`. */
  ghost predicate DuplicatesAmong(names: seq<string>, ks: seq<string>, dups: map<string, seq<nat>>, order: seq<string>) {
    (forall n :: n in dups <==> n in ks && IsDuplicate(names, n))
    && (forall n :: n in dups ==> dups[n] == Positions(names, n))
    && order == DuplicatedIn(names, ks)
  }

  /** One step of the filtering loop: a group of more than one is kept. */
  method KeepIfDuplicate(dups0: map<string, seq<nat>>, order0: seq<string>, ghost names: seq<string>, ghost ks: seq<string>,
                         name: string, group: seq<nat>)
    returns (dups: map<string, seq<nat>>, order: seq<string>)
    requires group == Positions(names, name) && DuplicatesAmong(names, ks, dups0, order0)
    ensures DuplicatesAmong(names, ks + [name], dups, order)
  {
    assert (ks + [name])[..|ks|] == ks;
    assert forall n :: n in ks + [name] <==> n in ks || n == name;
    dups, order := dups0, order0;
    if |group| > 1 {
      dups := dups[name := group];
      order := order + [name];
    }
  }

  /** The filtering loop: the groups of `keys` with more than one member,
      kept in the order of `keys`. */
  method KeepDuplicates(groups: map<string, seq<nat>>, keys: seq<string>, ghost names: seq<string>)
    returns (dups: map<string, seq<nat>>, order: seq<string>)
    requires forall n :: n in keys ==> n in groups && groups[n] == Positions(names, n)
    ensures DuplicatesAmong(names, keys, dups, order)
  {
    dups := map[];
    order := [];
    var k := 0;
    while k < |keys|
      invariant 0 <= k <= |keys|
      invariant DuplicatesAmong(names, keys[..k], dups, order)
    {
      var name := keys[k];
      assert keys[..k + 1] == keys[..k] + [name];
      dups, order := KeepIfDuplicate(dups, order, names, keys[..k], name, groups[name]);
      k := k + 1;
    }
    assert keys[..k] == keys;
  }

  /** `find_remaining_duplicates` (and the same lines in `fix_duplicate_names`):
      exactly the names held by more than one artifact, each with all its
      artifacts in list order. */
  method FindDuplicates(a: array<Artifact>) returns (dups: map<string, seq<nat>>, order: seq<string>)
    ensures DuplicatesOf(Names(a[..]), dups, order)
  {
    ghost var names := Names(a[..]);
    var groups, keys := GroupByName(a);
    GroupsOfPositions(names);
    dups, order := KeepDuplicates(groups, keys, names);
  }

  /** Whether the pass renames position `q`: a later member of a duplicated
      group that is not skipped. */
  predicate Renames(names: seq<string>, skip: string -> bool, q: nat)
    requires q < |names|
  {
    IsDuplicate(names, names[q]) && !skip(names[q]) && Rank(names, q) > 0
  }

  /** The artifact at `q` after the pass: a renamed member gets
      `rule(group name, artifact, index in group)`; everything else is kept. */
  function AfterPass(xs: seq<Artifact>, names: seq<string>, rule: (string, Artifact, nat) -> string,
                     skip: string -> bool, q: nat): (r: Artifact)
    requires |names| == |xs| && q < |xs|
    ensures r == xs[q].(name := r.name)
  {
    if Renames(names, skip, q) then xs[q].(name := rule(names[q], xs[q], Rank(names, q))) else xs[q]
  }

  /** The loop over one group's members: every member but the first is
      renamed. */
  method RenameGroup(a: array<Artifact>, ghost names: seq<string>, ghost start: seq<Artifact>, ghost done: seq<string>,
                     name: string, members: seq<nat>, rule: (string, Artifact, nat) -> string, skip: string -> bool)
    requires |names| == a.Length == |start| && members == Positions(names, name) && name !in done && !skip(name)
    requires forall q :: 0 <= q < a.Length ==>
               a[q] == if names[q] in done then AfterPass(start, names, rule, skip, q) else start[q]
    modifies a
    ensures forall q :: 0 <= q < a.Length ==>
              a[q] == if names[q] in done || names[q] == name then AfterPass(start, names, rule, skip, q) else start[q]
  {
    var i := 0;
    while i < |members|
      invariant 0 <= i <= |members|
      invariant forall q :: 0 <= q < a.Length ==>
                  a[q] == if names[q] in done || (names[q] == name && Rank(names, q) < i)
                          then AfterPass(start, names, rule, skip, q) else start[q]
    {
      var q := members[i];
      RankOfMember(names, name, i);
      assert q < a.Length && names[q] == name && Rank(names, q) == i;
      assert a[q] == start[q];
      if i > 0 {
        assert Renames(names, skip, q);
        a[q] := a[q].(name := rule(name, a[q], i));
      }
      assert a[q] == AfterPass(start, names, rule, skip, q);
      forall r | 0 <= r < a.Length && names[r] == name && Rank(names, r) == i
        ensures r == q
      {
        RankInGroup(names, r);
      }
      i := i + 1;
    }
    forall q | 0 <= q < a.Length && names[q] == name
      ensures Rank(names, q) < |members|
    {
      RankInGroup(names, q);
    }
  }

  /** A position whose name is not a duplicate, or is skipped, is kept. */
  lemma KeptUnlessRenamed(xs: seq<Artifact>, names: seq<string>, rule: (string, Artifact, nat) -> string,
                          skip: string -> bool, q: nat)
    requires |names| == |xs| && q < |xs| && (!IsDuplicate(names, names[q]) || skip(names[q]))
    ensures AfterPass(xs, names, rule, skip, q) == xs[q]
  {
  }

  /** The renaming loops: for each duplicated name not skipped, every member
      but the first is renamed by `rule`; the groups were computed from
      `names`, before any renaming. */
  method RenameMembers(a: array<Artifact>, ghost names: seq<string>, dups: map<string, seq<nat>>,
                       order: seq<string>, rule: (string, Artifact, nat) -> string, skip: string -> bool)
    requires |names| == a.Length && DuplicatesOf(names, dups, order)
    modifies a
    ensures forall q :: 0 <= q < a.Length ==> a[q] == AfterPass(old(a[..]), names, rule, skip, q)
  {
    ghost var start := a[..];
    DuplicatedInDistinct(names, Dedup(names));
    var g := 0;
    while g < |order|
      invariant 0 <= g <= |order|
      invariant forall q :: 0 <= q < a.Length ==>
                  a[q] == if names[q] in order[..g] then AfterPass(start, names, rule, skip, q) else start[q]
    {
      var name := order[g];
      assert forall n :: n in order[..g + 1] <==> n in order[..g] || n == name;
      assert name !in order[..g];
      assert name in dups;
      var members := dups[name];
      if !skip(name) {
        RenameGroup(a, names, start, order[..g], name, members, rule, skip);
      } else {
        forall q | 0 <= q < a.Length && names[q] == name
          ensures a[q] == AfterPass(start, names, rule, skip, q)
        {
          KeptUnlessRenamed(start, names, rule, skip, q);
        }
      }
      g := g + 1;
    }
    assert order[..g] == order;
    forall q | 0 <= q < a.Length && names[q] !in order
      ensures a[q] == AfterPass(start, names, rule, skip, q)
    {
      assert names[q] in names;
      KeptUnlessRenamed(start, names, rule, skip, q);
    }
  }

  /** The artifacts after one renaming pass over the groups of their own
      names. */
  function Renamed(xs: seq<Artifact>, rule: (string, Artifact, nat) -> string, skip: string -> bool): (r: seq<Artifact>)
    ensures |r| == |xs|
    ensures forall q :: 0 <= q < |xs| ==> r[q] == AfterPass(xs, Names(xs), rule, skip, q)
  {
    seq(|xs|, q requires 0 <= q < |xs| => AfterPass(xs, Names(xs), rule, skip, q))
  }

  /** Grouping by the current names, then renaming the later members of the
      duplicated groups. */
  method RenameDuplicates(a: array<Artifact>, rule: (string, Artifact, nat) -> string, skip: string -> bool)
    modifies a
    ensures a[..] == Renamed(old(a[..]), rule, skip)
  {
    ghost var names := Names(a[..]);
    var dups, order := FindDuplicates(a);
    RenameMembers(a, names, dups, order, rule, skip);
  }
}
