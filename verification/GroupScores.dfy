// calculate_group_scores and its first two helpers (inbox/contacts/algorithms.py).
module GroupScores {
  import opened ContactGroups
  import opened MoleculePool

  // ----- weights -----

  ghost function Weight(scores: Scores, ids: set<MessageId>): real
    requires ids <= scores.Keys
  {
    if ids == {} then 0.0 else
    var i :| i in ids;
    scores[i] + Weight(scores, ids - {i})
  }

  lemma {:induction false} WeightRemove(scores: Scores, ids: set<MessageId>, i: MessageId)
    requires ids <= scores.Keys && i in ids
    ensures Weight(scores, ids) == scores[i] + Weight(scores, ids - {i})
    decreases |ids|
  {
    var j :| j in ids && Weight(scores, ids) == scores[j] + Weight(scores, ids - {j});
    if i != j {
      WeightRemove(scores, ids - {j}, i);
      WeightRemove(scores, ids - {i}, j);
      assert ids - {j} - {i} == ids - {i} - {j};
    }
  }

  // get_message_list_weight
  method MessageListWeight(scores: Scores, ids: set<MessageId>) returns (w: real)
    requires ids <= scores.Keys
    ensures w == Weight(scores, ids)
  {
    w := 0.0;
    var rest := ids;
    while rest != {}
      invariant rest <= ids && w + Weight(scores, rest) == Weight(scores, ids)
      decreases |rest|
    {
      var i :| i in rest;
      WeightRemove(scores, rest, i);
      w := w + scores[i];
      rest := rest - {i};
    }
  }

  // ----- sorting by group size, largest first; equal sizes keep their order -----

  function InsertBySize(m: Molecule, sorted: seq<Molecule>): seq<Molecule> {
    if sorted == [] then [m] else
    var n := |sorted| - 1;
    if |sorted[n].group| >= |m.group| then sorted + [m]
    else InsertBySize(m, sorted[..n]) + [sorted[n]]
  }

  function SortBySize(ms: seq<Molecule>): seq<Molecule> {
    if ms == [] then [] else InsertBySize(ms[|ms| - 1], SortBySize(ms[..|ms| - 1]))
  }

  predicate Descending(ms: seq<Molecule>) {
    forall i, j :: 0 <= i < j < |ms| ==> |ms[i].group| >= |ms[j].group|
  }

  lemma {:induction false} InsertKeeps(m: Molecule, sorted: seq<Molecule>)
    requires Descending(sorted)
    ensures Descending(InsertBySize(m, sorted))
    ensures forall x :: x in InsertBySize(m, sorted) <==> x == m || x in sorted
  {
    if sorted != [] {
      var n := |sorted| - 1;
      assert sorted == sorted[..n] + [sorted[n]];
      if |sorted[n].group| < |m.group| {
        InsertKeeps(m, sorted[..n]);
        var left := InsertBySize(m, sorted[..n]);
        forall i | 0 <= i < |left| ensures |left[i].group| >= |sorted[n].group| { assert left[i] in left; }
      }
    }
  }

  lemma {:induction false} SortKeeps(ms: seq<Molecule>)
    ensures Descending(SortBySize(ms))
    ensures forall x :: x in SortBySize(ms) <==> x in ms
    ensures |SortBySize(ms)| == |ms| && multiset(SortBySize(ms)) == multiset(ms)
  {
    if ms != [] {
      var n := |ms| - 1;
      SortKeeps(ms[..n]);
      InsertKeeps(ms[n], SortBySize(ms[..n]));
      InsertGrows(ms[n], SortBySize(ms[..n]));
      assert ms == ms[..n] + [ms[n]];
    }
  }

  lemma {:induction false} InsertGrows(m: Molecule, sorted: seq<Molecule>)
    ensures |InsertBySize(m, sorted)| == |sorted| + 1 && multiset(InsertBySize(m, sorted)) == multiset(sorted) + multiset{m}
  {
    if sorted != [] {
      InsertGrows(m, sorted[..|sorted| - 1]);
      assert sorted == sorted[..|sorted| - 1] + [sorted[|sorted| - 1]];
    }
  }

  // ----- subsuming -----

  function SharingError(smaller: Group, smallerWeight: real, bigger: Group, biggerWeight: real): real
    requires bigger != {} && smallerWeight > 0.0
  {
    (((|bigger| - |smaller|) as real) * (smallerWeight - biggerWeight)) / ((|bigger| as real) * smallerWeight)
  }

  // The bigger group takes the smaller one in with little loss.
  predicate Absorbs(bigger: Group, biggerWeight: real, smaller: Group, smallerWeight: real)
    requires bigger != {} && smallerWeight > 0.0
  {
    smaller <= bigger && SharingError(smaller, smallerWeight, bigger, biggerWeight) < SELF_IDENTITY_THRESHOLD
  }

  // Without the quotient: the members the smaller group lacks, times the weight it has more, are
  // less than 3 tenths of the members of the bigger group times its own weight.
  lemma AbsorbsIff(bigger: Group, biggerWeight: real, smaller: Group, smallerWeight: real)
    requires bigger != {} && smallerWeight > 0.0
    ensures Absorbs(bigger, biggerWeight, smaller, smallerWeight) <==>
      && smaller <= bigger
      && 10.0 * (((|bigger| - |smaller|) as real) * (smallerWeight - biggerWeight)) < 3.0 * ((|bigger| as real) * smallerWeight)
  {
    var x := ((|bigger| - |smaller|) as real) * (smallerWeight - biggerWeight);
    var y := (|bigger| as real) * smallerWeight;
    RatioBelow(x, y);
  }

  lemma RatioBelow(x: real, y: real)
    requires y > 0.0
    ensures x / y < SELF_IDENTITY_THRESHOLD <==> 10.0 * x < 3.0 * y
  {
    assert x == (x / y) * y;
    if x / y < SELF_IDENTITY_THRESHOLD { assert (x / y) * y < SELF_IDENTITY_THRESHOLD * y; }
    else { assert (x / y) * y >= SELF_IDENTITY_THRESHOLD * y; }
  }

  ghost predicate Weighed(scores: Scores, m: Molecule) {
    m.group != {} && m.messages <= scores.Keys && Weight(scores, m.messages) > 0.0
  }

  ghost predicate AbsorbsMolecule(scores: Scores, bigger: Molecule, smaller: Molecule)
    requires Weighed(scores, bigger) && Weighed(scores, smaller)
  {
    Absorbs(bigger.group, Weight(scores, bigger.messages), smaller.group, Weight(scores, smaller.messages))
  }

  // The inner loop: the first group before the i-th that is alive and takes it in.
  method FindAbsorber(ms: seq<Molecule>, weights: seq<real>, subsumed: seq<bool>, i: nat) returns (j: nat)
    requires |weights| == |subsumed| == |ms| && i < |ms| && Nonempty(ms) && forall x :: 0 <= x < |ms| ==> weights[x] > 0.0
    ensures j <= i
    ensures j < i ==> !subsumed[j] && Absorbs(ms[j].group, weights[j], ms[i].group, weights[i])
    ensures forall x :: 0 <= x < j && !subsumed[x] ==> !Absorbs(ms[x].group, weights[x], ms[i].group, weights[i])
  {
    j := 0;
    while j < i
      invariant j <= i
      invariant forall x :: 0 <= x < j && !subsumed[x] ==> !Absorbs(ms[x].group, weights[x], ms[i].group, weights[i])
    {
      if !subsumed[j] && Absorbs(ms[j].group, weights[j], ms[i].group, weights[i]) { return; }
      j := j + 1;
    }
  }

  method WeighAll(scores: Scores, ms: seq<Molecule>) returns (weights: seq<real>)
    requires forall m :: m in ms ==> m.messages <= scores.Keys
    ensures |weights| == |ms|
    ensures forall i :: 0 <= i < |ms| ==> ms[i].messages <= scores.Keys && weights[i] == Weight(scores, ms[i].messages)
  {
    weights := [];
    while |weights| < |ms|
      invariant |weights| <= |ms|
      invariant forall i :: 0 <= i < |weights| ==> ms[i].messages <= scores.Keys && weights[i] == Weight(scores, ms[i].messages)
      decreases |ms| - |weights|
    {
      assert ms[|weights|] in ms;
      var w := MessageListWeight(scores, ms[|weights|].messages);
      weights := weights + [w];
    }
  }

  // Which groups of the sorted list are dropped: each for a group before it that stays, and a
  // group stays only if no staying group before it would take it in.
  method MarkSubsumed(ms: seq<Molecule>, weights: seq<real>) returns (subsumed: seq<bool>)
    requires |weights| == |ms| && Nonempty(ms) && forall x :: 0 <= x < |ms| ==> weights[x] > 0.0
    ensures |subsumed| == |ms|
    ensures forall i :: 0 <= i < |ms| && subsumed[i] ==>
      exists j :: 0 <= j < i && !subsumed[j] && Absorbs(ms[j].group, weights[j], ms[i].group, weights[i])
    ensures forall i, j :: 0 <= j < i < |ms| && !subsumed[i] && !subsumed[j] ==>
      !Absorbs(ms[j].group, weights[j], ms[i].group, weights[i])
  {
    subsumed := seq(|ms|, _ => false);
    var i := 1;
    while i < |ms|
      invariant 1 <= i && |subsumed| == |ms| && (|ms| > 0 ==> i <= |ms|)
      invariant forall x :: i <= x < |ms| ==> !subsumed[x]
      invariant forall x :: 0 <= x < i && x < |ms| && subsumed[x] ==>
        exists j :: 0 <= j < x && !subsumed[j] && Absorbs(ms[j].group, weights[j], ms[x].group, weights[x])
      invariant forall x, j :: 0 <= j < x < i && x < |ms| && !subsumed[x] && !subsumed[j] ==>
        !Absorbs(ms[j].group, weights[j], ms[x].group, weights[x])
    {
      var j := FindAbsorber(ms, weights, subsumed, i);
      if j < i {
        ghost var before := subsumed;
        subsumed := subsumed[i := true];
        forall x | 0 <= x < i + 1 && subsumed[x]
          ensures exists y :: 0 <= y < x && !subsumed[y] && Absorbs(ms[y].group, weights[y], ms[x].group, weights[x])
        {
          var y :| 0 <= y < x && !before[y] && Absorbs(ms[y].group, weights[y], ms[x].group, weights[x]);
          assert !subsumed[y];
        }
      }
      i := i + 1;
    }
  }

  // _subsume_molecules: every dropped group lies, with sharing error below the threshold, in a
  // group that stays, and no staying group lies so in a larger one that stays.
  method SubsumeMolecules(scores: Scores, input: seq<Molecule>) returns (output: seq<Molecule>)
    requires forall m :: m in input ==> Weighed(scores, m)
    ensures forall m :: m in output ==> m in input
    ensures forall m :: m in input && m !in output ==> exists b :: b in output && AbsorbsMolecule(scores, b, m)
    ensures forall a, b :: a in output && b in output && a.group < b.group ==> !AbsorbsMolecule(scores, b, a)
  {
    var ms := SortBySize(input);
    SortKeeps(input);
    var weights := WeighAll(scores, ms);
    forall i | 0 <= i < |ms| ensures ms[i].group != {} && weights[i] > 0.0 { assert Weighed(scores, ms[i]); }
    var subsumed := MarkSubsumed(ms, weights);
    output := Unflagged(ms, subsumed);
    UnflaggedMembers(ms, subsumed);
    DroppedAreAbsorbed(scores, ms, weights, subsumed);
    StayingDoNotAbsorb(scores, ms, weights, subsumed);
  }

  // The weights of a list of molecules.
  ghost predicate WeightsOf(scores: Scores, ms: seq<Molecule>, weights: seq<real>) {
    |weights| == |ms| && forall i :: 0 <= i < |ms| ==> Weighed(scores, ms[i]) && weights[i] == Weight(scores, ms[i].messages)
  }

  lemma DroppedAreAbsorbed(scores: Scores, ms: seq<Molecule>, weights: seq<real>, subsumed: seq<bool>)
    requires WeightsOf(scores, ms, weights) && |subsumed| == |ms|
    requires forall i :: 0 <= i < |ms| && subsumed[i] ==>
      exists j :: 0 <= j < i && !subsumed[j] && Absorbs(ms[j].group, weights[j], ms[i].group, weights[i])
    ensures forall m :: m in ms && m !in Unflagged(ms, subsumed) ==>
      exists b :: b in Unflagged(ms, subsumed) && Weighed(scores, b) && Weighed(scores, m) && AbsorbsMolecule(scores, b, m)
  {
    UnflaggedMembers(ms, subsumed);
    forall m | m in ms && m !in Unflagged(ms, subsumed)
      ensures exists b :: b in Unflagged(ms, subsumed) && Weighed(scores, b) && Weighed(scores, m) && AbsorbsMolecule(scores, b, m)
    {
      var i :| 0 <= i < |ms| && ms[i] == m;
      var j :| 0 <= j < i && !subsumed[j] && Absorbs(ms[j].group, weights[j], ms[i].group, weights[i]);
      assert ms[j] in Unflagged(ms, subsumed);
    }
  }

  lemma StayingDoNotAbsorb(scores: Scores, ms: seq<Molecule>, weights: seq<real>, subsumed: seq<bool>)
    requires WeightsOf(scores, ms, weights) && |subsumed| == |ms| && Descending(ms)
    requires forall i, j :: 0 <= j < i < |ms| && !subsumed[i] && !subsumed[j] ==>
      !Absorbs(ms[j].group, weights[j], ms[i].group, weights[i])
    ensures forall a, b :: a in Unflagged(ms, subsumed) && b in Unflagged(ms, subsumed) && a.group < b.group ==>
      Weighed(scores, b) && Weighed(scores, a) && !AbsorbsMolecule(scores, b, a)
  {
    forall a, b | a in Unflagged(ms, subsumed) && b in Unflagged(ms, subsumed) && a.group < b.group
      ensures Weighed(scores, b) && Weighed(scores, a) && !AbsorbsMolecule(scores, b, a)
    {
      var i := StayingIndex(ms, subsumed, a);
      var j := StayingIndex(ms, subsumed, b);
      SmallerIsSmaller(a.group, b.group);
    }
  }

  lemma StayingIndex(ms: seq<Molecule>, flags: seq<bool>, m: Molecule) returns (i: nat)
    requires |flags| == |ms| && m in Unflagged(ms, flags)
    ensures i < |ms| && !flags[i] && ms[i] == m
  {
    var j :| 0 <= j < |Unflagged(ms, flags)| && Unflagged(ms, flags)[j] == m;
    UnflaggedIndex(ms, flags, j);
    i :| 0 <= i < |ms| && !flags[i] && ms[i] == m;
  }

  lemma {:induction false} SmallerIsSmaller(a: Group, b: Group)
    requires a < b
    ensures |a| < |b|
  {
    assert b == a + (b - a) && b - a != {};
    assert |b| == |a| + |b - a|;
  }

  // ----- the whole calculation -----

  // The messages that speak for a group some message was sent to: those sent to at least its
  // members, or with a pool too large to expand those sent to exactly its members.
  function Evidence(mails: seq<Mail>, g: Group): set<MessageId> {
    if |Candidates(mails)| < SOCIAL_MOLECULE_EXPANSION_LIMIT then SentToAll(mails, g) else SentToExactly(mails, g)
  }

  predicate Filed(mails: seq<Mail>, pool: Pool) {
    && (forall g :: g in pool ==> |g| >= MIN_GROUP_SIZE && pool[g] <= SentToAll(mails, g))
    && (forall g :: g in Candidates(mails) ==> g in pool && pool[g] == Evidence(mails, g))
  }

  // The candidates: the groups that messages went to, expanded unless there are too many.
  ghost predicate CandidatePool(mails: seq<Mail>, pool: Pool) {
    exists gathered ::
      && Gathered(mails, gathered)
      && if |gathered| < SOCIAL_MOLECULE_EXPANSION_LIMIT then Expanded(gathered, pool) else pool == gathered
  }

  // The expansion step, skipped for a large pool.
  method ExpandIfSmall(mails: seq<Mail>, pool: Pool) returns (out: Pool)
    requires Gathered(mails, pool)
    ensures Filed(mails, out) && CandidatePool(mails, out)
  {
    out := pool;
    if |pool| < SOCIAL_MOLECULE_EXPANSION_LIMIT {
      out := ExpandMoleculePool(pool);
      forall g | g in out ensures |g| >= MIN_GROUP_SIZE && out[g] <= SentToAll(mails, g) { FiledWasSent(mails, pool, out, g); }
      forall g | g in pool ensures g in out && out[g] == Evidence(mails, g) { OriginalGroupIsComplete(mails, pool, out, g); }
    }
  }

  ghost predicate Frequent(pool: Pool, scores: Scores, m: Molecule) {
    && m.group in pool && m.messages == pool[m.group]
    && m.messages <= scores.Keys && Weight(scores, m.messages) >= MIN_MESSAGE_COUNT
  }

  // The frequent groups, in any order.
  method FrequentMolecules(pool: Pool, scores: Scores) returns (ms: seq<Molecule>)
    requires forall g :: g in pool ==> pool[g] <= scores.Keys
    ensures forall m :: m in ms <==> Frequent(pool, scores, m)
  {
    ms := [];
    var order := Items(pool);
    var i := 0;
    while i < |order|
      invariant i <= |order|
      invariant forall m :: m in ms <==> m.group in order[..i] && Frequent(pool, scores, m)
    {
      var m := Molecule(order[i], pool[order[i]]);
      assert order[..i + 1] == order[..i] + [order[i]];
      var w := MessageListWeight(scores, m.messages);
      if w >= MIN_MESSAGE_COUNT { ms := ms + [m]; }
      i := i + 1;
    }
    assert order[..i] == order;
  }

  function GroupsOf(ms: seq<Molecule>): set<Group> { set m | m in ms :: m.group }

  // The final dictionary: distinct groups never overwrite each other's score.
  method ScoreGroups(scores: Scores, ms: seq<Molecule>) returns (result: map<Group, real>)
    requires forall i, j :: 0 <= i < j < |ms| ==> ms[i].group != ms[j].group
    requires forall m :: m in ms ==> m.messages <= scores.Keys
    ensures result.Keys == GroupsOf(ms) && |result| == |ms|
    ensures forall i :: 0 <= i < |ms| ==>
      && ms[i].messages <= scores.Keys && ms[i].group in result
      && result[ms[i].group] == Weight(scores, ms[i].messages)
  {
    var weights := WeighAll(scores, ms);
    result := Zip(ms, weights);
  }

  method Zip(ms: seq<Molecule>, weights: seq<real>) returns (result: map<Group, real>)
    requires |weights| == |ms| && forall i, j :: 0 <= i < j < |ms| ==> ms[i].group != ms[j].group
    ensures ZippedUpTo(ms, weights, |ms|, result) && result.Keys == GroupsOf(ms)
  {
    result := map[];
    var k := 0;
    while k < |ms|
      invariant ZippedUpTo(ms, weights, k, result)
    {
      ZipOneMore(ms, weights, k, result);
      result := result[ms[k].group := weights[k]];
      k := k + 1;
    }
    assert ms[..k] == ms;
  }

  predicate ZippedUpTo(ms: seq<Molecule>, weights: seq<real>, k: nat, result: map<Group, real>)
    requires |weights| == |ms|
  {
    && k <= |ms| && |result| == k && result.Keys == GroupsOf(ms[..k])
    && forall i :: 0 <= i < k ==> ms[i].group in result && result[ms[i].group] == weights[i]
  }

  lemma ZipOneMore(ms: seq<Molecule>, weights: seq<real>, k: nat, result: map<Group, real>)
    requires |weights| == |ms| && forall i, j :: 0 <= i < j < |ms| ==> ms[i].group != ms[j].group
    requires k < |ms| && ZippedUpTo(ms, weights, k, result)
    ensures ZippedUpTo(ms, weights, k + 1, result[ms[k].group := weights[k]])
  {
    assert ms[..k + 1] == ms[..k] + [ms[k]];
    assert ms[k].group !in GroupsOf(ms[..k]);
  }

  // ----- what the score of a group means -----

  lemma {:induction false} WeightMonotone(scores: Scores, small: set<MessageId>, large: set<MessageId>)
    requires small <= large <= scores.Keys && forall m :: m in scores ==> scores[m] > 0.0
    ensures Weight(scores, small) <= Weight(scores, large)
    decreases |large|
  {
    if m :| m in large && m !in small {
      WeightRemove(scores, large, m);
      WeightMonotone(scores, small, large - {m});
    } else {
      assert small == large;
    }
  }

  // Some message of this id went to at least two members of the group.
  predicate SharesTwo(mails: seq<Mail>, m: MessageId, g: Group) {
    exists mail :: mail in mails && mail.id == m && |mail.participants * g| >= MIN_GROUP_SIZE
  }

  // The score is the weight of a set of messages, each of which went to at least two members.
  ghost predicate Scored(mails: seq<Mail>, scores: Scores, g: Group, score: real, ids: set<MessageId>) {
    && |g| >= MIN_GROUP_SIZE && score >= MIN_MESSAGE_COUNT
    && ids <= scores.Keys && score == Weight(scores, ids)
    && forall m :: m in ids ==> SharesTwo(mails, m, g)
  }

  // A union of frequent groups is a well-scored group.
  lemma CombinedIsScored(mails: seq<Mail>, pool: Pool, scores: Scores, ms: seq<Molecule>, o: Molecule)
    requires Filed(mails, pool) && Weighted(mails, scores)
    requires forall m :: m in ms ==> Frequent(pool, scores, m)
    requires BuiltFrom(o, ms)
    ensures o.messages <= scores.Keys && Scored(mails, scores, o.group, Weight(scores, o.messages), o.messages)
  {
    forall x | x in o.messages ensures x in scores && SharesTwo(mails, x, o.group) {
      var i :| 0 <= i < |ms| && Within(ms[i], o) && x in ms[i].messages;
      assert Frequent(pool, scores, ms[i]);
      FiledSharesTwo(mails, pool, ms[i].group, x, o.group);
    }
    var i :| 0 <= i < |ms| && Within(ms[i], o);
    assert Frequent(pool, scores, ms[i]);
    SubsetIsSmaller(ms[i].group, o.group);
    WeightsArePositive(mails, scores);
    WeightMonotone(scores, ms[i].messages, o.messages);
  }

  lemma WeightsArePositive(mails: seq<Mail>, scores: Scores)
    requires Weighted(mails, scores)
    ensures forall m :: m in scores ==> scores[m] > 0.0
  {}

  lemma FiledSharesTwo(mails: seq<Mail>, pool: Pool, g: Group, m: MessageId, larger: Group)
    requires Filed(mails, pool) && g in pool && m in pool[g] && g <= larger
    ensures SharesTwo(mails, m, larger)
  {
    var mail :| mail in mails && IsCandidate(mail) && g <= mail.participants && mail.id == m;
    SubsetIsSmaller(g, mail.participants * larger);
  }

  ghost predicate InsideSome(g: Group, result: map<Group, real>) {
    exists k :: k in result && g <= k
  }

  // Every frequent group was kept or absorbed, and what was kept ended up inside a reported group.
  lemma FrequentIsReported(scores: Scores, frequent: seq<Molecule>, kept: seq<Molecule>, combined: seq<Molecule>,
                           result: map<Group, real>, m: Molecule)
    requires forall x :: x in frequent ==> Weighed(scores, x)
    requires forall x :: x in kept ==> x in frequent
    requires forall x :: x in frequent && x !in kept ==> exists b :: b in kept && AbsorbsMolecule(scores, b, x)
    requires Covered(kept, combined) && forall i :: 0 <= i < |combined| ==> combined[i].group in result
    requires m in frequent
    ensures InsideSome(m.group, result)
  {
    var b := m;
    if m !in kept { b :| b in kept && AbsorbsMolecule(scores, b, m); }
    var i :| 0 <= i < |kept| && kept[i] == b;
    assert HasHome(kept[i], combined);
    var j :| 0 <= j < |combined| && Within(kept[i], combined[j]);
    assert combined[j].group in result && m.group <= combined[j].group;
  }

  // Each score is at least the minimum and is the weight of messages that went to at least two of
  // the group's members.
  ghost predicate WellScored(mails: seq<Mail>, scores: Scores, result: map<Group, real>) {
    forall g :: g in result ==> exists ids :: Scored(mails, scores, g, result[g], ids)
  }

  predicate PairwiseDissimilar(groups: set<Group>) {
    forall a, b :: a in groups && b in groups && a != b ==> a + b != {} && Jaccard(a, b) <= JACCARD_THRESHOLD
  }

  // Every group with enough evidence lies inside a reported one.
  ghost predicate Complete(mails: seq<Mail>, scores: Scores, result: map<Group, real>) {
    forall g :: g in Candidates(mails) && HasEvidence(mails, scores, g) ==> InsideSome(g, result)
  }

  ghost predicate HasEvidence(mails: seq<Mail>, scores: Scores, g: Group) {
    Evidence(mails, g) <= scores.Keys && Weight(scores, Evidence(mails, g)) >= MIN_MESSAGE_COUNT
  }

  lemma ResultIsWellScored(mails: seq<Mail>, pool: Pool, scores: Scores, kept: seq<Molecule>, combined: seq<Molecule>, result: map<Group, real>)
    requires Filed(mails, pool) && Weighted(mails, scores)
    requires forall m :: m in kept ==> Frequent(pool, scores, m)
    requires AllBuiltFrom(combined, kept) && result.Keys == GroupsOf(combined)
    requires forall i :: 0 <= i < |combined| ==> combined[i].messages <= scores.Keys
    requires forall i :: 0 <= i < |combined| ==> combined[i].group in result && result[combined[i].group] == Weight(scores, combined[i].messages)
    ensures WellScored(mails, scores, result)
  {
    forall g | g in result ensures exists ids :: Scored(mails, scores, g, result[g], ids) {
      var i :| 0 <= i < |combined| && combined[i].group == g;
      CombinedIsScored(mails, pool, scores, kept, combined[i]);
      assert Scored(mails, scores, g, result[g], combined[i].messages);
    }
  }

  lemma ResultIsComplete(mails: seq<Mail>, pool: Pool, scores: Scores, frequent: seq<Molecule>, kept: seq<Molecule>, combined: seq<Molecule>, result: map<Group, real>)
    requires Filed(mails, pool) && forall m :: Frequent(pool, scores, m) ==> m in frequent
    requires forall x :: x in frequent ==> Weighed(scores, x)
    requires forall x :: x in kept ==> x in frequent
    requires forall x :: x in frequent && x !in kept ==> exists b :: b in kept && AbsorbsMolecule(scores, b, x)
    requires Covered(kept, combined) && forall i :: 0 <= i < |combined| ==> combined[i].group in result
    ensures Complete(mails, scores, result)
  {
    forall g | g in Candidates(mails) && HasEvidence(mails, scores, g) ensures InsideSome(g, result) {
      var m := Molecule(g, pool[g]);
      assert Frequent(pool, scores, m);
      FrequentIsReported(scores, frequent, kept, combined, result, m);
    }
  }

  lemma ResultIsDissimilar(combined: seq<Molecule>)
    requires AllDissimilar(combined)
    ensures PairwiseDissimilar(GroupsOf(combined))
  {
    forall a, b | a in GroupsOf(combined) && b in GroupsOf(combined) && a != b
      ensures a + b != {} && Jaccard(a, b) <= JACCARD_THRESHOLD
    {
      ReportedDissimilar(combined, a, b);
    }
  }

  ghost predicate Takes(scores: Scores, b: Molecule, m: Molecule) {
    Weighed(scores, b) && Weighed(scores, m) && AbsorbsMolecule(scores, b, m)
  }

  // The survivors of subsumption: frequent groups, none of which takes in a smaller one, and which
  // take in every frequent group that is not among them.
  ghost predicate Survivors(pool: Pool, scores: Scores, survivors: seq<Molecule>) {
    && (forall m :: m in survivors ==> Frequent(pool, scores, m))
    && (forall a, b :: a in survivors && b in survivors && a.group < b.group ==> !Takes(scores, b, a))
    && (forall m :: Frequent(pool, scores, m) && m !in survivors ==> exists b :: b in survivors && Takes(scores, b, m))
  }

  // The report: the survivors, merged where they are similar, each with the weight of its messages.
  ghost predicate Reports(scores: Scores, survivors: seq<Molecule>, combined: seq<Molecule>, result: map<Group, real>) {
    && MadeBySimilarity(survivors, combined) && AllDissimilar(combined)
    && result.Keys == GroupsOf(combined) && |result| == |combined|
    && forall i :: 0 <= i < |combined| ==>
      && combined[i].messages <= scores.Keys && combined[i].group in result
      && result[combined[i].group] == Weight(scores, combined[i].messages)
  }

  lemma KeptSurvive(pool: Pool, scores: Scores, frequent: seq<Molecule>, kept: seq<Molecule>)
    requires forall m :: m in frequent <==> Frequent(pool, scores, m)
    requires forall m :: m in frequent ==> Weighed(scores, m)
    requires forall m :: m in kept ==> m in frequent
    requires forall m :: m in frequent && m !in kept ==> exists b :: b in kept && AbsorbsMolecule(scores, b, m)
    requires forall a, b :: a in kept && b in kept && a.group < b.group ==> !AbsorbsMolecule(scores, b, a)
    ensures Survivors(pool, scores, kept)
  {
    forall m | Frequent(pool, scores, m) && m !in kept ensures exists b :: b in kept && Takes(scores, b, m) {
      var b :| b in kept && AbsorbsMolecule(scores, b, m);
      assert Takes(scores, b, m);
    }
  }

  // From the pool to the scores: filter, subsume, combine, score.
  method ScorePool(mails: seq<Mail>, pool: Pool, scores: Scores)
    returns (result: map<Group, real>, ghost survivors: seq<Molecule>, ghost combined: seq<Molecule>)
    requires Filed(mails, pool) && Weighted(mails, scores)
    ensures Survivors(pool, scores, survivors) && Reports(scores, survivors, combined, result)
    ensures PairwiseDissimilar(result.Keys)
    ensures WellScored(mails, scores, result)
    ensures Complete(mails, scores, result)
  {
    FiledHaveWeights(mails, pool, scores);
    var frequent := FrequentMolecules(pool, scores);
    FrequentAreWeighed(mails, pool, scores, frequent);
    var kept := SubsumeMolecules(scores, frequent);
    forall i | 0 <= i < |kept| ensures kept[i].group != {} { assert kept[i] in kept; }
    KeptSurvive(pool, scores, frequent, kept);
    var groups := CombineSimilarMolecules(kept);
    CombinedHaveWeights(mails, pool, scores, kept, groups);
    result := ScoreGroups(scores, groups);
    survivors, combined := kept, groups;
    ResultIsDissimilar(groups);
    ResultIsWellScored(mails, pool, scores, kept, groups, result);
    ResultIsComplete(mails, pool, scores, frequent, kept, groups, result);
  }

  lemma FiledHaveWeights(mails: seq<Mail>, pool: Pool, scores: Scores)
    requires Filed(mails, pool) && Weighted(mails, scores)
    ensures forall g :: g in pool ==> pool[g] <= scores.Keys
  {}

  lemma FrequentAreWeighed(mails: seq<Mail>, pool: Pool, scores: Scores, ms: seq<Molecule>)
    requires Filed(mails, pool) && forall m :: m in ms ==> Frequent(pool, scores, m)
    ensures forall m :: m in ms ==> Weighed(scores, m)
  {}

  lemma CombinedHaveWeights(mails: seq<Mail>, pool: Pool, scores: Scores, kept: seq<Molecule>, combined: seq<Molecule>)
    requires Filed(mails, pool) && Weighted(mails, scores) && AllBuiltFrom(combined, kept)
    requires forall m :: m in kept ==> Frequent(pool, scores, m)
    ensures forall m :: m in combined ==> m.messages <= scores.Keys
  {
    forall m | m in combined ensures m.messages <= scores.Keys {
      var i :| 0 <= i < |combined| && combined[i] == m;
      CombinedIsScored(mails, pool, scores, kept, combined[i]);
    }
  }

  // calculate_group_scores
  method CalculateGroupScores(mails: seq<Mail>)
    returns (result: map<Group, real>, ghost scores: Scores, ghost pool: Pool, ghost survivors: seq<Molecule>, ghost combined: seq<Molecule>)
    ensures Weighted(mails, scores)
    ensures |Candidates(mails)| <= SOCIAL_MOLECULE_LIMIT ==>
      && CandidatePool(mails, pool) && Survivors(pool, scores, survivors) && Reports(scores, survivors, combined, result)
    ensures |Candidates(mails)| > SOCIAL_MOLECULE_LIMIT ==> result == map[]
    ensures PairwiseDissimilar(result.Keys)
    ensures WellScored(mails, scores, result)
    ensures |Candidates(mails)| <= SOCIAL_MOLECULE_LIMIT ==> Complete(mails, scores, result)
  {
    var molecules, weights := Gather(mails);
    scores := weights;
    if |molecules| > SOCIAL_MOLECULE_LIMIT { return map[], scores, map[], [], []; }
    molecules := ExpandIfSmall(mails, molecules);
    pool := molecules;
    result, survivors, combined := ScorePool(mails, molecules, weights);
  }

  lemma ReportedDissimilar(ms: seq<Molecule>, a: Group, b: Group)
    requires AllDissimilar(ms) && a != b
    requires exists i :: 0 <= i < |ms| && ms[i].group == a
    requires exists j :: 0 <= j < |ms| && ms[j].group == b
    ensures a + b != {} && Jaccard(a, b) <= JACCARD_THRESHOLD
  {
    var i :| 0 <= i < |ms| && ms[i].group == a;
    var j :| 0 <= j < |ms| && ms[j].group == b;
    if i < j {
      assert Dissimilar(ms[i], ms[j]);
    } else {
      assert Dissimilar(ms[j], ms[i]);
      assert a * b == b * a && a + b == b + a;
    }
  }
}
