// Mining of contact groups (inbox/contacts/algorithms.py). Weights and similarities are exact
// rationals. A molecule is a group of addresses with the ids of the messages sent to it; the
// source keys groups by their sorted tuple, which is the same as keying by the set.
module ContactGroups {
  import opened Common

  type Group = set<string>
  type MessageId = nat

  datatype Molecule = Molecule(group: Group, messages: set<MessageId>)

  const MIN_GROUP_SIZE := 2
  const MIN_MESSAGE_COUNT := 2.5
  const SELF_IDENTITY_THRESHOLD := 0.3
  const JACCARD_THRESHOLD := 0.35
  const SOCIAL_MOLECULE_EXPANSION_LIMIT := 1000
  const SOCIAL_MOLECULE_LIMIT := 5000

  function Jaccard(a: Group, b: Group): real
    requires a + b != {}
  {
    (|a * b| as real) / (|a + b| as real)
  }

  // Nonempty groups that may stay side by side.
  predicate Dissimilar(a: Molecule, b: Molecule) {
    a.group + b.group != {} && Jaccard(a.group, b.group) <= JACCARD_THRESHOLD
  }

  // Over cardinalities: the groups share at most 7 of every 20 addresses they have together.
  lemma DissimilarIff(a: Molecule, b: Molecule)
    ensures Dissimilar(a, b) <==> a.group + b.group != {} && 20 * |a.group * b.group| <= 7 * |a.group + b.group|
  {
    if a.group + b.group != {} { RatioAtMost(|a.group * b.group| as real, |a.group + b.group| as real); }
  }

  lemma RatioAtMost(x: real, y: real)
    requires y > 0.0
    ensures x / y <= JACCARD_THRESHOLD <==> 20.0 * x <= 7.0 * y
  {
    assert x == (x / y) * y;
    if x / y <= JACCARD_THRESHOLD { assert (x / y) * y <= JACCARD_THRESHOLD * y; }
    else { assert (x / y) * y > JACCARD_THRESHOLD * y; }
  }

  predicate Nonempty(ms: seq<Molecule>) {
    forall i :: 0 <= i < |ms| ==> ms[i].group != {}
  }

  predicate AllDissimilar(ms: seq<Molecule>) {
    forall i, j :: 0 <= i < j < |ms| ==> Dissimilar(ms[i], ms[j])
  }

  predicate Within(a: Molecule, b: Molecule) { a.group <= b.group && a.messages <= b.messages }

  // Every molecule of `ms` lies inside one of `ns`.
  predicate Covered(ms: seq<Molecule>, ns: seq<Molecule>) {
    forall i :: 0 <= i < |ms| ==> HasHome(ms[i], ns)
  }

  predicate HasHome(m: Molecule, ns: seq<Molecule>) {
    exists j :: 0 <= j < |ns| && Within(m, ns[j])
  }

  function Emails(ms: seq<Molecule>): set<string> { set m, e | m in ms && e in m.group :: e }

  function Messages(ms: seq<Molecule>): set<MessageId> { set m, i | m in ms && i in m.messages :: i }

  function Union(a: Molecule, b: Molecule): Molecule { Molecule(a.group + b.group, a.messages + b.messages) }

  // ----- one round of combining -----

  function CountTrue(flags: seq<bool>): nat {
    if flags == [] then 0 else (if flags[0] then 1 else 0) + CountTrue(flags[1..])
  }

  lemma {:induction false} CountTrueSet(flags: seq<bool>, i: nat)
    requires i < |flags| && !flags[i]
    ensures CountTrue(flags[i := true]) == CountTrue(flags) + 1
  {
    if i > 0 {
      assert flags[i := true][1..] == flags[1..][i - 1 := true];
      CountTrueSet(flags[1..], i - 1);
    } else {
      assert flags[0 := true][1..] == flags[1..];
    }
  }

  // [molecule for molecule, flag in zip(ms, flags) if not flag]
  function Unflagged(ms: seq<Molecule>, flags: seq<bool>): seq<Molecule>
    requires |ms| == |flags|
  {
    if ms == [] then [] else (if flags[0] then [] else [ms[0]]) + Unflagged(ms[1..], flags[1..])
  }

  lemma {:induction false} UnflaggedSize(ms: seq<Molecule>, flags: seq<bool>)
    requires |ms| == |flags|
    ensures |Unflagged(ms, flags)| + CountTrue(flags) == |ms|
  {
    if ms != [] { UnflaggedSize(ms[1..], flags[1..]); }
  }

  lemma {:induction false} UnflaggedMembers(ms: seq<Molecule>, flags: seq<bool>)
    requires |ms| == |flags|
    ensures forall i :: 0 <= i < |ms| && !flags[i] ==> ms[i] in Unflagged(ms, flags)
    ensures forall m :: m in Unflagged(ms, flags) ==> m in ms
  {
    if ms != [] {
      UnflaggedMembers(ms[1..], flags[1..]);
      forall i | 0 <= i < |ms| && !flags[i] ensures ms[i] in Unflagged(ms, flags) {
        if i > 0 { assert ms[1..][i - 1] == ms[i] && !flags[1..][i - 1]; }
      }
    }
  }

  // No two unflagged molecules are similar.
  predicate SparseUnflagged(ms: seq<Molecule>, flags: seq<bool>)
    requires |ms| == |flags|
  {
    forall i, j :: 0 <= i < j < |ms| && !flags[i] && !flags[j] ==> Dissimilar(ms[i], ms[j])
  }

  lemma {:induction false} UnflaggedIsSparse(ms: seq<Molecule>, flags: seq<bool>)
    requires |ms| == |flags| && SparseUnflagged(ms, flags)
    ensures AllDissimilar(Unflagged(ms, flags))
  {
    if ms != [] {
      assert forall i :: 0 <= i < |ms[1..]| ==> ms[1..][i] == ms[i + 1] && flags[1..][i] == flags[i + 1];
      UnflaggedIsSparse(ms[1..], flags[1..]);
      var rest := Unflagged(ms[1..], flags[1..]);
      if !flags[0] {
        forall j | 0 <= j < |rest| ensures Dissimilar(ms[0], rest[j]) { UnflaggedIndex(ms[1..], flags[1..], j); }
      }
    }
  }

  lemma {:induction false} UnflaggedIndex(ms: seq<Molecule>, flags: seq<bool>, j: nat)
    requires |ms| == |flags| && j < |Unflagged(ms, flags)|
    ensures exists i :: 0 <= i < |ms| && !flags[i] && ms[i] == Unflagged(ms, flags)[j]
  {
    if flags[0] || j > 0 {
      var j' := if flags[0] then j else j - 1;
      UnflaggedIndex(ms[1..], flags[1..], j');
      var i :| 0 <= i < |ms[1..]| && !flags[1..][i] && ms[1..][i] == Unflagged(ms[1..], flags[1..])[j'];
      assert ms[i + 1] == ms[1..][i] && flags[i + 1] == flags[1..][i];
    }
  }

  // The inner loop: the first earlier molecule, not combined yet, that is similar to the j-th.
  method FindPartner(ms: seq<Molecule>, combined: seq<bool>, j: nat) returns (partner: Option<nat>)
    requires |combined| == |ms| && j < |ms| && Nonempty(ms)
    ensures partner.Some? ==>
      && partner.value < j && !combined[partner.value] && !Dissimilar(ms[partner.value], ms[j])
      && forall i :: 0 <= i < partner.value && !combined[i] ==> Dissimilar(ms[i], ms[j])
    ensures partner.None? ==> forall i :: 0 <= i < j && !combined[i] ==> Dissimilar(ms[i], ms[j])
  {
    var i := 0;
    while i < j
      invariant i <= j && forall x :: 0 <= x < i && !combined[x] ==> Dissimilar(ms[x], ms[j])
    {
      if !combined[i] && Jaccard(ms[i].group, ms[j].group) > JACCARD_THRESHOLD { return Some(i); }
      i := i + 1;
    }
    return None;
  }

  // Every flagged molecule has gone into a new one, and the new ones are made of nothing else.
  predicate Merged(ms: seq<Molecule>, combined: seq<bool>, newGuys: seq<Molecule>)
    requires |combined| == |ms|
  {
    && (forall i :: 0 <= i < |ms| && combined[i] ==> HasHome(ms[i], newGuys))
    && (forall g :: 0 <= g < |newGuys| ==> MadeOf(newGuys[g], ms))
  }

  predicate MadeOf(m: Molecule, ms: seq<Molecule>) {
    exists i, j :: 0 <= i < |ms| && 0 <= j < |ms| && m == Union(ms[i], ms[j])
  }

  lemma MergedGrows(ms: seq<Molecule>, combined: seq<bool>, newGuys: seq<Molecule>, i: nat, j: nat)
    requires |combined| == |ms| && i < |ms| && j < |ms| && Merged(ms, combined, newGuys)
    ensures Merged(ms, combined[i := true][j := true], newGuys + [Union(ms[i], ms[j])])
  {
    var combined', newGuys' := combined[i := true][j := true], newGuys + [Union(ms[i], ms[j])];
    forall x | 0 <= x < |ms| && combined'[x] ensures HasHome(ms[x], newGuys') {
      if x == i || x == j {
        assert Within(ms[x], newGuys'[|newGuys|]);
      } else {
        var g :| 0 <= g < |newGuys| && Within(ms[x], newGuys[g]);
        assert Within(ms[x], newGuys'[g]);
      }
    }
    forall g | 0 <= g < |newGuys'| ensures MadeOf(newGuys'[g], ms) {
      if g < |newGuys| { assert MadeOf(newGuys[g], ms); }
    }
  }

  predicate SparseUpTo(ms: seq<Molecule>, combined: seq<bool>, j: nat)
    requires |combined| == |ms| && j <= |ms|
  {
    forall x, y :: 0 <= x < y < j && !combined[x] && !combined[y] ==> Dissimilar(ms[x], ms[y])
  }

  lemma SparseMerge(ms: seq<Molecule>, combined: seq<bool>, i: nat, j: nat)
    requires |combined| == |ms| && i < j < |ms| && SparseUpTo(ms, combined, j)
    ensures SparseUpTo(ms, combined[i := true][j := true], j + 1)
  {
    var combined' := combined[i := true][j := true];
    assert forall x :: 0 <= x < j + 1 && !combined'[x] ==> x < j && !combined[x];
  }

  // ----- the merges of a round -----

  type Pair = (nat, nat)

  // Which molecules a list of merges uses up, and what it makes.
  function Flags(n: nat, pairs: seq<Pair>): (flags: seq<bool>)
    ensures |flags| == n
  {
    if pairs == [] then seq(n, _ => false)
    else
      var (i, j) := pairs[|pairs| - 1];
      var flags := Flags(n, pairs[..|pairs| - 1]);
      if i < n && j < n then flags[i := true][j := true] else flags
  }

  function Unions(ms: seq<Molecule>, pairs: seq<Pair>): seq<Molecule> {
    if pairs == [] then []
    else
      var (i, j) := pairs[|pairs| - 1];
      Unions(ms, pairs[..|pairs| - 1]) + (if i < |ms| && j < |ms| then [Union(ms[i], ms[j])] else [])
  }

  // Each merge joins two similar molecules that none before it has used.
  predicate SimilarPairs(ms: seq<Molecule>, pairs: seq<Pair>) {
    pairs == [] ||
    var (i, j) := pairs[|pairs| - 1];
    var flags := Flags(|ms|, pairs[..|pairs| - 1]);
    SimilarPairs(ms, pairs[..|pairs| - 1]) && i < j < |ms| && !flags[i] && !flags[j] && !Dissimilar(ms[i], ms[j])
  }

  lemma OnePairMore(ms: seq<Molecule>, pairs: seq<Pair>, i: nat, j: nat)
    requires SimilarPairs(ms, pairs) && i < j < |ms| && !Dissimilar(ms[i], ms[j])
    requires !Flags(|ms|, pairs)[i] && !Flags(|ms|, pairs)[j]
    ensures SimilarPairs(ms, pairs + [(i, j)])
    ensures Flags(|ms|, pairs + [(i, j)]) == Flags(|ms|, pairs)[i := true][j := true]
    ensures Unions(ms, pairs + [(i, j)]) == Unions(ms, pairs) + [Union(ms[i], ms[j])]
  {
    assert (pairs + [(i, j)])[..|pairs|] == pairs;
  }

  // One pass of the outer loop. Each merge uses up two molecules that were not merged before, so
  // the number of molecules drops by the number of merges.
  method CombineRound(ms: seq<Molecule>, start: nat) returns (combined: seq<bool>, newGuys: seq<Molecule>, ghost pairs: seq<Pair>)
    requires start <= |ms| && Nonempty(ms) && AllDissimilar(ms[..start])
    ensures |combined| == |ms| && CountTrue(combined) == 2 * |newGuys|
    ensures SparseUnflagged(ms, combined) && Merged(ms, combined, newGuys)
    ensures SimilarPairs(ms, pairs) && combined == Flags(|ms|, pairs) && newGuys == Unions(ms, pairs)
  {
    combined, newGuys, pairs := seq(|ms|, _ => false), [], [];
    NoneTrue(combined);
    var j := start;
    assert forall x :: 0 <= x < start ==> ms[..start][x] == ms[x];
    while j < |ms|
      invariant start <= j && InRoundBy(ms, combined, newGuys, pairs, j)
    {
      var partner := FindPartner(ms, combined, j);
      if partner.Some? {
        var i := partner.value;
        RoundMerges(ms, combined, newGuys, pairs, i, j);
        pairs := pairs + [(i, j)];
        newGuys := newGuys + [Union(ms[i], ms[j])];
        combined := combined[i := true][j := true];
      } else {
        RoundSkips(ms, combined, newGuys, pairs, j);
      }
      j := j + 1;
    }
  }

  // The state of a round before the j-th molecule.
  predicate InRound(ms: seq<Molecule>, combined: seq<bool>, newGuys: seq<Molecule>, j: nat) {
    && j <= |ms| && |combined| == |ms| && CountTrue(combined) == 2 * |newGuys|
    && (forall x :: j <= x < |ms| ==> !combined[x])
    && SparseUpTo(ms, combined, j) && Merged(ms, combined, newGuys)
  }

  predicate InRoundBy(ms: seq<Molecule>, combined: seq<bool>, newGuys: seq<Molecule>, pairs: seq<Pair>, j: nat) {
    InRound(ms, combined, newGuys, j) && SimilarPairs(ms, pairs) && combined == Flags(|ms|, pairs) && newGuys == Unions(ms, pairs)
  }

  lemma RoundMerges(ms: seq<Molecule>, combined: seq<bool>, newGuys: seq<Molecule>, pairs: seq<Pair>, i: nat, j: nat)
    requires InRoundBy(ms, combined, newGuys, pairs, j) && i < j < |ms| && !combined[i] && !Dissimilar(ms[i], ms[j])
    ensures InRoundBy(ms, combined[i := true][j := true], newGuys + [Union(ms[i], ms[j])], pairs + [(i, j)], j + 1)
  {
    MergeStep(ms, combined, newGuys, i, j);
    OnePairMore(ms, pairs, i, j);
  }

  lemma RoundSkips(ms: seq<Molecule>, combined: seq<bool>, newGuys: seq<Molecule>, pairs: seq<Pair>, j: nat)
    requires InRoundBy(ms, combined, newGuys, pairs, j) && j < |ms|
    requires forall i :: 0 <= i < j && !combined[i] ==> Dissimilar(ms[i], ms[j])
    ensures InRoundBy(ms, combined, newGuys, pairs, j + 1)
  {
    SparseSkip(ms, combined, j);
  }

  lemma SparseSkip(ms: seq<Molecule>, combined: seq<bool>, j: nat)
    requires |combined| == |ms| && j < |ms| && SparseUpTo(ms, combined, j)
    requires forall i :: 0 <= i < j && !combined[i] ==> Dissimilar(ms[i], ms[j])
    ensures SparseUpTo(ms, combined, j + 1)
  {
    forall x, y | 0 <= x < y < j + 1 && !combined[x] && !combined[y] ensures Dissimilar(ms[x], ms[y]) {
      if y < j { assert Dissimilar(ms[x], ms[y]); }
    }
  }

  lemma MergeStep(ms: seq<Molecule>, combined: seq<bool>, newGuys: seq<Molecule>, i: nat, j: nat)
    requires InRound(ms, combined, newGuys, j) && i < j < |ms| && !combined[i]
    ensures InRound(ms, combined[i := true][j := true], newGuys + [Union(ms[i], ms[j])], j + 1)
  {
    MergedGrows(ms, combined, newGuys, i, j);
    SparseMerge(ms, combined, i, j);
    CountTrueSet(combined, i);
    CountTrueSet(combined[i := true], j);
  }

  lemma {:induction false} NoneTrue(flags: seq<bool>)
    requires forall i :: 0 <= i < |flags| ==> !flags[i]
    ensures CountTrue(flags) == 0
  {
    if flags != [] { NoneTrue(flags[1..]); }
  }

  // ----- combining -----

  // What a round makes of the list: survivors first, then the new molecules.
  function NextList(ms: seq<Molecule>, combined: seq<bool>, newGuys: seq<Molecule>): seq<Molecule>
    requires |combined| == |ms|
  {
    Unflagged(ms, combined) + newGuys
  }

  lemma RoundLosesNothing(ms: seq<Molecule>, combined: seq<bool>, newGuys: seq<Molecule>)
    requires |combined| == |ms| && Nonempty(ms) && Merged(ms, combined, newGuys)
    ensures Covered(ms, NextList(ms, combined, newGuys))
    ensures Nonempty(NextList(ms, combined, newGuys))
  {
    var ns := NextList(ms, combined, newGuys);
    UnflaggedMembers(ms, combined);
    var kept := Unflagged(ms, combined);
    forall i | 0 <= i < |ms| ensures HasHome(ms[i], ns) {
      if combined[i] {
        var g :| 0 <= g < |newGuys| && Within(ms[i], newGuys[g]);
        assert ns[|kept| + g] == newGuys[g];
      } else {
        var j :| 0 <= j < |kept| && kept[j] == ms[i];
        assert ns[j] == ms[i];
      }
    }
    forall j | 0 <= j < |ns| ensures ns[j].group != {} {
      if j < |kept| { assert kept[j] in kept; } else { assert MadeOf(newGuys[j - |kept|], ms); }
    }
  }

  // Nothing appears that was not there before.
  lemma RoundAddsNothing(ms: seq<Molecule>, combined: seq<bool>, newGuys: seq<Molecule>)
    requires |combined| == |ms| && Merged(ms, combined, newGuys)
    ensures Emails(NextList(ms, combined, newGuys)) <= Emails(ms)
    ensures Messages(NextList(ms, combined, newGuys)) <= Messages(ms)
  {
    var ns := NextList(ms, combined, newGuys);
    UnflaggedMembers(ms, combined);
    forall m | m in ns ensures m.group <= Emails(ms) && m.messages <= Messages(ms) {
      if m in ms {
        InUnions(m, ms);
      } else {
        var g :| 0 <= g < |newGuys| && newGuys[g] == m;
        assert MadeOf(newGuys[g], ms);
        var i, j :| 0 <= i < |ms| && 0 <= j < |ms| && m == Union(ms[i], ms[j]);
        InUnions(ms[i], ms);
        InUnions(ms[j], ms);
      }
    }
  }

  lemma InUnions(m: Molecule, ms: seq<Molecule>)
    requires m in ms
    ensures m.group <= Emails(ms) && m.messages <= Messages(ms)
  {}

  lemma CoveredKeepsUnions(ms: seq<Molecule>, ns: seq<Molecule>)
    requires Covered(ms, ns)
    ensures Emails(ms) <= Emails(ns) && Messages(ms) <= Messages(ns)
  {
    forall m | m in ms ensures m.group <= Emails(ns) && m.messages <= Messages(ns) {
      var i :| 0 <= i < |ms| && ms[i] == m;
      assert HasHome(ms[i], ns);
      var j :| 0 <= j < |ns| && Within(ms[i], ns[j]);
      assert ns[j] in ns;
    }
  }

  // Everything a round promises about the list it leaves.
  lemma RoundStep(ms: seq<Molecule>, combined: seq<bool>, newGuys: seq<Molecule>)
    requires |combined| == |ms| && Nonempty(ms) && CountTrue(combined) == 2 * |newGuys|
    requires SparseUnflagged(ms, combined) && Merged(ms, combined, newGuys)
    ensures var ns := NextList(ms, combined, newGuys);
      var kept := |Unflagged(ms, combined)|;
      && |ns| == |ms| - |newGuys| && kept == |ms| - 2 * |newGuys|
      && AllDissimilar(ns[..kept]) && Nonempty(ns) && Covered(ms, ns)
      && Emails(ns) == Emails(ms) && Messages(ns) == Messages(ms)
  {
    UnflaggedSize(ms, combined);
    UnflaggedIsSparse(ms, combined);
    RoundLosesNothing(ms, combined, newGuys);
    RoundAddsNothing(ms, combined, newGuys);
    CoveredKeepsUnions(ms, NextList(ms, combined, newGuys));
    assert NextList(ms, combined, newGuys)[..|Unflagged(ms, combined)|] == Unflagged(ms, combined);
  }

  lemma SelfSimilar(g: Group)
    requires g + g != {}
    ensures Jaccard(g, g) == 1.0
  {
    assert g * g == g && g + g == g;
  }

  // Dissimilar groups are different groups.
  lemma DissimilarDistinct(a: Molecule, b: Molecule)
    requires Dissimilar(a, b)
    ensures a.group != b.group
  {
    if a.group == b.group { SelfSimilar(a.group); }
  }

  // The molecule is exactly the union of the molecules of `ms` that lie inside it.
  predicate BuiltFrom(m: Molecule, ms: seq<Molecule>) {
    && (exists i :: 0 <= i < |ms| && Within(ms[i], m))
    && (forall e :: e in m.group ==> exists i :: 0 <= i < |ms| && Within(ms[i], m) && e in ms[i].group)
    && (forall x :: x in m.messages ==> exists i :: 0 <= i < |ms| && Within(ms[i], m) && x in ms[i].messages)
  }

  predicate AllBuiltFrom(ns: seq<Molecule>, ms: seq<Molecule>) {
    forall j :: 0 <= j < |ns| ==> BuiltFrom(ns[j], ms)
  }

  // Every molecule of `ms` lies inside one of `ns`, which are unions of them and nothing else.
  predicate Combines(ms: seq<Molecule>, ns: seq<Molecule>) {
    && Covered(ms, ns)
    && Emails(ns) == Emails(ms)
    && Messages(ns) == Messages(ms)
    && AllBuiltFrom(ns, ms)
  }

  // ----- how molecules come about -----

  // A molecule of the output and the merges that made it.
  datatype Tree = Leaf(molecule: Molecule) | Merge(left: Tree, right: Tree)

  function Value(t: Tree): Molecule {
    match t case Leaf(m) => m case Merge(l, r) => Union(Value(l), Value(r))
  }

  // Only similar molecules were merged.
  predicate Sound(t: Tree) {
    match t case Leaf(_) => true case Merge(l, r) => Sound(l) && Sound(r) && !Dissimilar(Value(l), Value(r))
  }

  function Leaves(t: Tree): multiset<Molecule> {
    match t case Leaf(m) => multiset{m} case Merge(l, r) => Leaves(l) + Leaves(r)
  }

  function AllLeaves(ts: seq<Tree>): multiset<Molecule> {
    if ts == [] then multiset{} else Leaves(ts[0]) + AllLeaves(ts[1..])
  }

  // The trees explain the molecules.
  predicate Explains(ts: seq<Tree>, ms: seq<Molecule>) {
    |ts| == |ms| && forall i :: 0 <= i < |ms| ==> Value(ts[i]) == ms[i] && Sound(ts[i])
  }

  // Every output is made by merging similar molecules, and every input goes into exactly one output.
  ghost predicate MadeBySimilarity(input: seq<Molecule>, output: seq<Molecule>) {
    exists ts :: Explains(ts, output) && AllLeaves(ts) == multiset(input)
  }

  lemma {:induction false} LeavesConcat(a: seq<Tree>, b: seq<Tree>)
    ensures AllLeaves(a + b) == AllLeaves(a) + AllLeaves(b)
  {
    if a == [] {
      assert a + b == b;
    } else {
      assert (a + b)[1..] == a[1..] + b;
      LeavesConcat(a[1..], b);
    }
  }

  function LeftTrees(ts: seq<Tree>, flags: seq<bool>): seq<Tree>
    requires |ts| == |flags|
  {
    if ts == [] then [] else (if flags[0] then [] else [ts[0]]) + LeftTrees(ts[1..], flags[1..])
  }

  function LeftLeaves(ts: seq<Tree>, flags: seq<bool>): multiset<Molecule>
    requires |ts| == |flags|
  {
    if ts == [] then multiset{} else (if flags[0] then multiset{} else Leaves(ts[0])) + LeftLeaves(ts[1..], flags[1..])
  }

  lemma {:induction false} LeftExplained(ts: seq<Tree>, ms: seq<Molecule>, flags: seq<bool>)
    requires Explains(ts, ms) && |flags| == |ms|
    ensures Explains(LeftTrees(ts, flags), Unflagged(ms, flags))
    ensures AllLeaves(LeftTrees(ts, flags)) == LeftLeaves(ts, flags)
  {
    if ms != [] {
      assert forall i :: 0 <= i < |ms[1..]| ==> ts[1..][i] == ts[i + 1] && ms[1..][i] == ms[i + 1];
      LeftExplained(ts[1..], ms[1..], flags[1..]);
      LeavesConcat(if flags[0] then [] else [ts[0]], LeftTrees(ts[1..], flags[1..]));
    }
  }

  // Flagging a tree takes its leaves away.
  lemma {:induction false} LeavesFlag(ts: seq<Tree>, flags: seq<bool>, i: nat)
    requires |flags| == |ts| && i < |ts| && !flags[i]
    ensures LeftLeaves(ts, flags[i := true]) + Leaves(ts[i]) == LeftLeaves(ts, flags)
  {
    if i > 0 {
      assert flags[i := true][1..] == flags[1..][i - 1 := true];
      LeavesFlag(ts[1..], flags[1..], i - 1);
    } else {
      assert flags[0 := true][1..] == flags[1..];
    }
  }

  lemma {:induction false} NoneFlagged(ts: seq<Tree>, flags: seq<bool>)
    requires |flags| == |ts| && forall i :: 0 <= i < |flags| ==> !flags[i]
    ensures LeftLeaves(ts, flags) == AllLeaves(ts)
  {
    if ts != [] { NoneFlagged(ts[1..], flags[1..]); }
  }

  function NewTrees(ts: seq<Tree>, pairs: seq<Pair>): seq<Tree> {
    if pairs == [] then []
    else
      var (i, j) := pairs[|pairs| - 1];
      NewTrees(ts, pairs[..|pairs| - 1]) + (if i < |ts| && j < |ts| then [Merge(ts[i], ts[j])] else [])
  }

  lemma {:induction false} NewExplained(ts: seq<Tree>, ms: seq<Molecule>, pairs: seq<Pair>)
    requires Explains(ts, ms) && SimilarPairs(ms, pairs)
    ensures Explains(NewTrees(ts, pairs), Unions(ms, pairs))
  {
    if pairs != [] {
      NewExplained(ts, ms, pairs[..|pairs| - 1]);
      var (i, j) := pairs[|pairs| - 1];
      assert Explains([Merge(ts[i], ts[j])], [Union(ms[i], ms[j])]);
      ExplainsBoth(NewTrees(ts, pairs[..|pairs| - 1]), Unions(ms, pairs[..|pairs| - 1]), [Merge(ts[i], ts[j])], [Union(ms[i], ms[j])]);
    }
  }

  lemma ExplainsBoth(ts: seq<Tree>, ms: seq<Molecule>, us: seq<Tree>, ns: seq<Molecule>)
    requires Explains(ts, ms) && Explains(us, ns)
    ensures Explains(ts + us, ms + ns)
  {}

  // The merges of a round use nothing twice and lose nothing.
  lemma {:induction false} LeavesKept(ts: seq<Tree>, ms: seq<Molecule>, pairs: seq<Pair>)
    requires |ts| == |ms| && SimilarPairs(ms, pairs)
    ensures LeftLeaves(ts, Flags(|ms|, pairs)) + AllLeaves(NewTrees(ts, pairs)) == AllLeaves(ts)
  {
    if pairs == [] {
      NoneFlagged(ts, Flags(|ms|, pairs));
    } else {
      var before := pairs[..|pairs| - 1];
      var (i, j) := pairs[|pairs| - 1];
      var flags := Flags(|ms|, before);
      LeavesKept(ts, ms, before);
      LeavesFlag(ts, flags, i);
      LeavesFlag(ts, flags[i := true], j);
      LeavesConcat(NewTrees(ts, before), [Merge(ts[i], ts[j])]);
      OneTree(Merge(ts[i], ts[j]));
    }
  }

  lemma OneTree(t: Tree)
    ensures AllLeaves([t]) == Leaves(t)
  {}

  lemma MadeByRound(input: seq<Molecule>, ms: seq<Molecule>, pairs: seq<Pair>)
    requires MadeBySimilarity(input, ms) && SimilarPairs(ms, pairs)
    ensures MadeBySimilarity(input, NextList(ms, Flags(|ms|, pairs), Unions(ms, pairs)))
  {
    var ts :| Explains(ts, ms) && AllLeaves(ts) == multiset(input);
    var left, made := LeftTrees(ts, Flags(|ms|, pairs)), NewTrees(ts, pairs);
    LeftExplained(ts, ms, Flags(|ms|, pairs));
    NewExplained(ts, ms, pairs);
    LeavesKept(ts, ms, pairs);
    LeavesConcat(left, made);
    ExplainsBoth(left, Unflagged(ms, Flags(|ms|, pairs)), made, Unions(ms, pairs));
  }

  lemma MadeOfItself(ms: seq<Molecule>)
    ensures MadeBySimilarity(ms, ms)
  {
    LeavesOfInput(ms);
    assert Explains(AsLeaves(ms), ms);
  }

  // ----- what being made this way means -----

  lemma {:induction false} TreeContents(t: Tree)
    ensures forall m :: m in Leaves(t) ==> Within(m, Value(t))
    ensures exists m :: m in Leaves(t)
    ensures forall e :: e in Value(t).group ==> exists m :: m in Leaves(t) && e in m.group
    ensures forall x :: x in Value(t).messages ==> exists m :: m in Leaves(t) && x in m.messages
  {
    match t
    case Leaf(m) => assert m in Leaves(t);
    case Merge(l, r) =>
      TreeContents(l);
      TreeContents(r);
      assert forall m :: m in Leaves(l) || m in Leaves(r) <==> m in Leaves(t);
  }

  lemma {:induction false} LeafSomewhere(ts: seq<Tree>, m: Molecule)
    ensures m in AllLeaves(ts) <==> exists j :: 0 <= j < |ts| && m in Leaves(ts[j])
  {
    if ts != [] {
      LeafSomewhere(ts[1..], m);
      assert forall j :: 0 <= j < |ts[1..]| ==> ts[1..][j] == ts[j + 1];
      if j :| 0 <= j < |ts| && m in Leaves(ts[j]) { assert j > 0 ==> ts[1..][j - 1] == ts[j]; }
    }
  }

  lemma MadeCovers(ts: seq<Tree>, input: seq<Molecule>, output: seq<Molecule>)
    requires Explains(ts, output) && AllLeaves(ts) == multiset(input)
    ensures Covered(input, output)
  {
    forall i | 0 <= i < |input| ensures HasHome(input[i], output) {
      assert input[i] in multiset(input);
      LeafSomewhere(ts, input[i]);
      var j :| 0 <= j < |ts| && input[i] in Leaves(ts[j]);
      TreeContents(ts[j]);
      assert Within(input[i], output[j]);
    }
  }

  lemma MadeBuilt(ts: seq<Tree>, input: seq<Molecule>, output: seq<Molecule>, j: nat)
    requires Explains(ts, output) && AllLeaves(ts) == multiset(input) && j < |output|
    ensures BuiltFrom(output[j], input)
  {
    TreeContents(ts[j]);
    forall m | m in Leaves(ts[j]) ensures exists i :: 0 <= i < |input| && input[i] == m {
      LeafSomewhere(ts, m);
      assert m in multiset(input);
    }
  }

  lemma BuiltAddsNothing(input: seq<Molecule>, output: seq<Molecule>)
    requires AllBuiltFrom(output, input)
    ensures Emails(output) <= Emails(input) && Messages(output) <= Messages(input)
  {
    forall m | m in output ensures m.group <= Emails(input) && m.messages <= Messages(input) {
      var j :| 0 <= j < |output| && output[j] == m;
      assert BuiltFrom(output[j], input);
    }
  }

  // Every input lies in one output, every output is the union of the inputs inside it, and no
  // address or message appears or is lost.
  lemma MadeCombines(input: seq<Molecule>, output: seq<Molecule>)
    requires MadeBySimilarity(input, output)
    ensures Combines(input, output)
  {
    var ts :| Explains(ts, output) && AllLeaves(ts) == multiset(input);
    MadeCovers(ts, input, output);
    CoveredKeepsUnions(input, output);
    forall j | 0 <= j < |output| ensures BuiltFrom(output[j], input) { MadeBuilt(ts, input, output, j); }
    BuiltAddsNothing(input, output);
  }

  function AsLeaves(ms: seq<Molecule>): (ts: seq<Tree>)
    ensures |ts| == |ms| && forall i :: 0 <= i < |ms| ==> ts[i] == Leaf(ms[i])
  {
    if ms == [] then [] else [Leaf(ms[0])] + AsLeaves(ms[1..])
  }

  lemma {:induction false} LeavesOfInput(ms: seq<Molecule>)
    ensures AllLeaves(AsLeaves(ms)) == multiset(ms)
  {
    if ms != [] {
      LeavesOfInput(ms[1..]);
      assert ms == [ms[0]] + ms[1..];
    }
  }

  // _combine_similar_molecules: it ends, no two remaining groups are similar, every input group
  // and its messages lie inside one output group, and no address or message appears or is lost.
  method CombineSimilarMolecules(input: seq<Molecule>) returns (output: seq<Molecule>)
    requires Nonempty(input)
    ensures AllDissimilar(output) && Nonempty(output)
    ensures forall i, j :: 0 <= i < j < |output| ==> output[i].group != output[j].group
    ensures Combines(input, output)
    ensures MadeBySimilarity(input, output)
  {
    output := input;
    var newGuysStart: nat := 0;
    MadeOfItself(input);
    while newGuysStart < |output|
      invariant InProgress(input, output, newGuysStart)
      decreases |output|, |output| - newGuysStart
    {
      output, newGuysStart := NextRound(input, output, newGuysStart);
    }
    assert output[..newGuysStart] == output;
    AllDistinct(output);
    MadeCombines(input, output);
  }

  lemma AllDistinct(ms: seq<Molecule>)
    requires AllDissimilar(ms)
    ensures forall i, j :: 0 <= i < j < |ms| ==> ms[i].group != ms[j].group
  {
    forall i, j | 0 <= i < j < |ms| ensures ms[i].group != ms[j].group { DissimilarDistinct(ms[i], ms[j]); }
  }

  method NextRound(ghost input: seq<Molecule>, ms: seq<Molecule>, start: nat) returns (ns: seq<Molecule>, newGuysStart: nat)
    requires InProgress(input, ms, start) && start < |ms|
    ensures InProgress(input, ns, newGuysStart)
    ensures |ns| < |ms| || (|ns| == |ms| && newGuysStart == |ns|)
  {
    var combined, newGuys, pairs := CombineRound(ms, start);
    ProgressRound(input, ms, start, combined, newGuys, pairs);
    ns, newGuysStart := NextList(ms, combined, newGuys), |Unflagged(ms, combined)|;
  }

  // Between two rounds: the molecules before `start` are dissimilar already.
  ghost predicate InProgress(input: seq<Molecule>, output: seq<Molecule>, start: nat) {
    start <= |output| && Nonempty(output) && AllDissimilar(output[..start]) && MadeBySimilarity(input, output)
  }

  lemma ProgressRound(input: seq<Molecule>, ms: seq<Molecule>, start: nat, combined: seq<bool>, newGuys: seq<Molecule>, pairs: seq<Pair>)
    requires InProgress(input, ms, start) && |combined| == |ms| && CountTrue(combined) == 2 * |newGuys|
    requires SparseUnflagged(ms, combined) && Merged(ms, combined, newGuys)
    requires SimilarPairs(ms, pairs) && combined == Flags(|ms|, pairs) && newGuys == Unions(ms, pairs)
    ensures InProgress(input, NextList(ms, combined, newGuys), |Unflagged(ms, combined)|)
    ensures |NextList(ms, combined, newGuys)| == |ms| - |newGuys| && |Unflagged(ms, combined)| == |ms| - 2 * |newGuys|
  {
    RoundStep(ms, combined, newGuys);
    MadeByRound(input, ms, pairs);
  }
}
