// Gathering and expanding the pool of candidate groups (inbox/contacts/algorithms.py:88-147).
module MoleculePool {
  import opened Common
  import opened ContactGroups

  // One sent message: its participants are already lower-cased, without the user's own address.
  datatype Mail = Mail(id: MessageId, participants: Group, age: real)

  type Pool = map<Group, set<MessageId>>
  type Scores = map<MessageId, real>

  const LOOKBACK_TIME := 63072000.0
  const MIN_MESSAGE_WEIGHT := 0.01

  function MessageWeight(age: real): real {
    var w := 1.0 - age / LOOKBACK_TIME;
    if w < MIN_MESSAGE_WEIGHT then MIN_MESSAGE_WEIGHT else w
  }

  // Weight falls from 1 in proportion to the age, reaching 0 at two years, but never below 0.01.
  lemma MessageWeightIs(age: real)
    ensures MessageWeight(age) >= 0.01
    ensures 100.0 * age <= 99.0 * 63072000.0 ==> MessageWeight(age) * 63072000.0 + age == 63072000.0
    ensures 100.0 * age > 99.0 * 63072000.0 ==> MessageWeight(age) == 0.01
  {}

  function At(pool: Pool, g: Group): set<MessageId> { if g in pool then pool[g] else {} }

  // ----- what the mails say, independently of the pool -----

  predicate IsCandidate(mail: Mail) { |mail.participants| >= MIN_GROUP_SIZE }

  function Candidates(mails: seq<Mail>): set<Group> {
    set mail | mail in mails && IsCandidate(mail) :: mail.participants
  }

  // Messages sent to exactly this group, and messages sent to at least this group.
  function SentToExactly(mails: seq<Mail>, g: Group): set<MessageId> {
    set mail | mail in mails && IsCandidate(mail) && mail.participants == g :: mail.id
  }

  function SentToAll(mails: seq<Mail>, g: Group): set<MessageId> {
    set mail | mail in mails && IsCandidate(mail) && g <= mail.participants :: mail.id
  }

  function CandidateIds(mails: seq<Mail>): set<MessageId> {
    set mail | mail in mails && IsCandidate(mail) :: mail.id
  }

  // The pool holds each candidate group with exactly its messages.
  predicate Gathered(mails: seq<Mail>, pool: Pool) {
    && pool.Keys == Candidates(mails)
    && forall g :: g in pool ==> pool[g] == SentToExactly(mails, g)
  }

  // Every candidate message has the weight of a mail of that id.
  predicate Weighted(mails: seq<Mail>, scores: Scores) {
    && scores.Keys == CandidateIds(mails)
    && forall m :: m in scores ==> exists mail :: mail in mails && mail.id == m && scores[m] == MessageWeight(mail.age)
  }

  // The first loop of calculate_group_scores.
  method Gather(mails: seq<Mail>) returns (pool: Pool, scores: Scores)
    ensures Gathered(mails, pool) && Weighted(mails, scores)
  {
    pool, scores := map[], map[];
    var k := 0;
    while k < |mails|
      invariant k <= |mails| && Gathered(mails[..k], pool) && Weighted(mails[..k], scores)
    {
      var mail := mails[k];
      assert mails[..k + 1] == mails[..k] + [mail];
      GatherOne(mails[..k], mail, pool);
      WeighOne(mails[..k], mail, scores);
      if |mail.participants| >= MIN_GROUP_SIZE {
        pool := pool[mail.participants := At(pool, mail.participants) + {mail.id}];
        scores := scores[mail.id := MessageWeight(mail.age)];
      }
      k := k + 1;
    }
    assert mails[..k] == mails;
  }

  lemma GatherOne(mails: seq<Mail>, mail: Mail, pool: Pool)
    requires Gathered(mails, pool)
    ensures Gathered(mails + [mail],
      if IsCandidate(mail) then pool[mail.participants := At(pool, mail.participants) + {mail.id}] else pool)
  {
    var mails' := mails + [mail];
    assert forall x :: x in mails' <==> x in mails || x == mail;
    forall g ensures SentToExactly(mails', g) ==
      SentToExactly(mails, g) + if IsCandidate(mail) && mail.participants == g then {mail.id} else {} {}
    if mail.participants !in pool { assert SentToExactly(mails, mail.participants) == {}; }
  }

  lemma WeighOne(mails: seq<Mail>, mail: Mail, scores: Scores)
    requires Weighted(mails, scores)
    ensures Weighted(mails + [mail], if IsCandidate(mail) then scores[mail.id := MessageWeight(mail.age)] else scores)
  {
    var mails' := mails + [mail];
    assert forall x :: x in mails' <==> x in mails || x == mail;
    var scores' := if IsCandidate(mail) then scores[mail.id := MessageWeight(mail.age)] else scores;
    forall m | m in scores' ensures exists x :: x in mails' && x.id == m && scores'[m] == MessageWeight(x.age) {
      if IsCandidate(mail) && m == mail.id {
        assert mail in mails';
      } else {
        var x :| x in mails && x.id == m && scores[m] == MessageWeight(x.age);
        assert x in mails';
      }
    }
  }

  // ----- expansion -----

  // dict.items(): the keys, each once, in any order.
  method Items(pool: Pool) returns (order: seq<Group>)
    ensures Enumerates(order, pool.Keys)
  {
    order := [];
    var rest := pool.Keys;
    while rest != {}
      invariant rest <= pool.Keys && Enumerates(order, pool.Keys - rest)
      decreases |rest|
    {
      var g :| g in rest;
      order := order + [g];
      rest := rest - {g};
    }
  }

  // Two groups of the pool meet exactly in `g`, and one of them holds the message.
  ghost predicate FromPair(pool: Pool, g: Group, m: MessageId) {
    exists a, b :: a in pool && b in pool && a * b == g && m in pool[a] + pool[b]
  }

  ghost predicate Meet(pool: Pool, g: Group) {
    exists a, b :: a in pool && b in pool && a * b == g
  }

  // The pool with all pairwise intersections of at least two addresses added: each group holds
  // its own messages and those of all pairs that meet in it.
  ghost predicate Expanded(pool: Pool, out: Pool) {
    && (forall g :: g in out <==> g in pool || (|g| >= MIN_GROUP_SIZE && Meet(pool, g)))
    && (forall g, m :: m in At(out, g) <==> m in At(pool, g) || (|g| >= MIN_GROUP_SIZE && FromPair(pool, g, m)))
  }

  // The pairs the two loops still have to visit when they stand at (i, j).
  predicate Ahead(x: int, y: int, i: int, j: int) { x > i || (x == i && y >= j) }

  ghost predicate MeetAhead(order: seq<Group>, i: nat, j: nat, g: Group) {
    exists x, y :: 0 <= x <= y < |order| && Ahead(x, y, i, j) && order[x] * order[y] == g
  }

  ghost predicate PairAhead(pool: Pool, order: seq<Group>, i: nat, j: nat, g: Group, m: MessageId)
    requires forall k :: 0 <= k < |order| ==> order[k] in pool
  {
    exists x, y :: 0 <= x <= y < |order| && Ahead(x, y, i, j) && order[x] * order[y] == g && m in pool[order[x]] + pool[order[y]]
  }

  function AddPair(pool: Pool, out: Pool, a: Group, b: Group): Pool
    requires a in pool && b in pool
  {
    if |a * b| >= MIN_GROUP_SIZE then out[a * b := At(out, a * b) + pool[a] + pool[b]] else out
  }

  lemma PairStep(pool: Pool, order: seq<Group>, i: nat, j: nat, g: Group, m: MessageId)
    requires forall k :: 0 <= k < |order| ==> order[k] in pool
    requires i <= j < |order|
    ensures MeetAhead(order, i, j, g) <==> MeetAhead(order, i, j + 1, g) || order[i] * order[j] == g
    ensures PairAhead(pool, order, i, j, g, m) <==>
      PairAhead(pool, order, i, j + 1, g, m) || (order[i] * order[j] == g && m in pool[order[i]] + pool[order[j]])
  {
    assert forall x, y :: Ahead(x, y, i, j) <==> Ahead(x, y, i, j + 1) || (x == i && y == j);
    assert Ahead(i, j, i, j);
  }

  lemma NextRow(pool: Pool, order: seq<Group>, i: nat, g: Group, m: MessageId)
    requires forall k :: 0 <= k < |order| ==> order[k] in pool
    requires i < |order|
    ensures MeetAhead(order, i, |order|, g) <==> MeetAhead(order, i + 1, i + 1, g)
    ensures PairAhead(pool, order, i, |order|, g, m) <==> PairAhead(pool, order, i + 1, i + 1, g, m)
  {
    assert forall x, y :: 0 <= x <= y < |order| ==> (Ahead(x, y, i, |order|) <==> Ahead(x, y, i + 1, i + 1));
  }

  // What the two loops still have to do from (i, j) on.
  function ExpandFrom(pool: Pool, order: seq<Group>, i: nat, j: nat, out: Pool): Pool
    requires i <= j && forall k :: 0 <= k < |order| ==> order[k] in pool
    decreases |order| - i, |order| - j
  {
    if i >= |order| then out
    else if j >= |order| then ExpandFrom(pool, order, i + 1, i + 1, out)
    else ExpandFrom(pool, order, i, j + 1, AddPair(pool, out, order[i], order[j]))
  }

  lemma {:induction false} ExpandFromIsExact(pool: Pool, order: seq<Group>, i: nat, j: nat, out: Pool, g: Group, m: MessageId)
    requires forall k :: 0 <= k < |order| ==> order[k] in pool
    requires i <= j <= |order|
    ensures g in ExpandFrom(pool, order, i, j, out) <==> g in out || (|g| >= MIN_GROUP_SIZE && MeetAhead(order, i, j, g))
    ensures m in At(ExpandFrom(pool, order, i, j, out), g) <==>
      m in At(out, g) || (|g| >= MIN_GROUP_SIZE && PairAhead(pool, order, i, j, g, m))
    decreases |order| - i, |order| - j
  {
    if i < |order| {
      if j >= |order| {
        NextRow(pool, order, i, g, m);
        ExpandFromIsExact(pool, order, i + 1, i + 1, out, g, m);
      } else {
        PairStep(pool, order, i, j, g, m);
        ExpandFromIsExact(pool, order, i, j + 1, AddPair(pool, out, order[i], order[j]), g, m);
      }
    }
  }

  // In any order of the groups, the unordered pairs are all pairs.
  lemma AllPairs(pool: Pool, order: seq<Group>, g: Group, m: MessageId)
    requires Enumerates(order, pool.Keys) && forall k :: 0 <= k < |order| ==> order[k] in pool
    ensures MeetAhead(order, 0, 0, g) <==> Meet(pool, g)
    ensures PairAhead(pool, order, 0, 0, g, m) <==> FromPair(pool, g, m)
  {
    forall a, b | a in pool && b in pool && a * b == g
      ensures MeetAhead(order, 0, 0, g) && (m in pool[a] + pool[b] ==> PairAhead(pool, order, 0, 0, g, m))
    {
      var x :| 0 <= x < |order| && order[x] == a;
      var y :| 0 <= y < |order| && order[y] == b;
      assert b * a == a * b;
      if x <= y { assert Ahead(x, y, 0, 0); } else { assert Ahead(y, x, 0, 0); }
    }
  }

  // _expand_molecule_pool
  method ExpandMoleculePool(pool: Pool) returns (out: Pool)
    ensures Expanded(pool, out)
  {
    var order := Items(pool);
    out := pool;
    ghost var goal := ExpandFrom(pool, order, 0, 0, pool);
    var i := 0;
    while i < |order|
      invariant i <= |order| && ExpandFrom(pool, order, i, i, out) == goal
    {
      var j := i;
      while j < |order|
        invariant i <= j <= |order| && ExpandFrom(pool, order, i, j, out) == goal
      {
        out := AddPair(pool, out, order[i], order[j]);
        j := j + 1;
      }
      i := i + 1;
    }
    forall g ensures g in out <==> g in pool || (|g| >= MIN_GROUP_SIZE && Meet(pool, g)) {
      ExpandFromIsExact(pool, order, 0, 0, pool, g, 0);
      AllPairs(pool, order, g, 0);
    }
    forall g, m
      ensures m in At(out, g) <==> m in At(pool, g) || (|g| >= MIN_GROUP_SIZE && FromPair(pool, g, m))
    {
      ExpandFromIsExact(pool, order, 0, 0, pool, g, m);
      AllPairs(pool, order, g, m);
    }
  }

  // Every message filed under a group was sent to all its members, so it has a weight.
  lemma FiledWasSent(mails: seq<Mail>, pool: Pool, out: Pool, g: Group)
    requires Gathered(mails, pool) && Expanded(pool, out) && g in out
    ensures |g| >= MIN_GROUP_SIZE && out[g] <= SentToAll(mails, g) && out[g] <= CandidateIds(mails)
  {
    forall m | m in out[g] ensures m in SentToAll(mails, g) {
      assert m in At(out, g);
      if m !in At(pool, g) {
        var a, b :| a in pool && b in pool && a * b == g && m in pool[a] + pool[b];
      }
    }
  }

  // A group that some message was sent to ends up with every message sent to at least its members.
  lemma OriginalGroupIsComplete(mails: seq<Mail>, pool: Pool, out: Pool, g: Group)
    requires Gathered(mails, pool) && Expanded(pool, out) && g in pool
    ensures g in out && out[g] == SentToAll(mails, g)
  {
    FiledWasSent(mails, pool, out, g);
    forall m | m in SentToAll(mails, g) ensures m in out[g] {
      var mail :| mail in mails && IsCandidate(mail) && g <= mail.participants && mail.id == m;
      assert mail.participants * g == g && m in pool[mail.participants] + pool[g];
      assert FromPair(pool, g, m) && m in At(out, g);
    }
  }

  // Message m reached, with its whole group of participants, some candidate group in exactly g.
  ghost predicate ReachesExactly(mails: seq<Mail>, g: Group, m: MessageId) {
    exists mail, b :: mail in mails && IsCandidate(mail) && mail.id == m && b in Candidates(mails) && mail.participants * b == g
  }

  // A pair of the pool that meets in g and holds m comes from a mail of m.
  lemma FromPairIsReached(mails: seq<Mail>, pool: Pool, g: Group, m: MessageId)
    requires Gathered(mails, pool)
    ensures FromPair(pool, g, m) <==> ReachesExactly(mails, g, m)
  {
    if FromPair(pool, g, m) {
      var a, b :| a in pool && b in pool && a * b == g && m in pool[a] + pool[b];
      var x, y := if m in pool[a] then a else b, if m in pool[a] then b else a;
      assert x * y == g && m in SentToExactly(mails, x);
      var mail :| mail in mails && IsCandidate(mail) && mail.participants == x && mail.id == m;
      assert y in Candidates(mails);
    }
    if ReachesExactly(mails, g, m) {
      var mail, b :| mail in mails && IsCandidate(mail) && mail.id == m && b in Candidates(mails) && mail.participants * b == g;
      assert mail.participants in pool && m in pool[mail.participants] + pool[b];
    }
  }

  // The exact condition: after expansion a group holds every message sent to at least its members
  // if and only if each of them reaches some candidate group in exactly this group.
  lemma CompleteIff(mails: seq<Mail>, pool: Pool, out: Pool, g: Group)
    requires Gathered(mails, pool) && Expanded(pool, out) && g in out
    ensures out[g] == SentToAll(mails, g) <==> forall m :: m in SentToAll(mails, g) ==> ReachesExactly(mails, g, m)
  {
    FiledWasSent(mails, pool, out, g);
    forall m ensures m in out[g] <==> ReachesExactly(mails, g, m) { FiledIffReached(mails, pool, out, g, m); }
  }

  lemma FiledIffReached(mails: seq<Mail>, pool: Pool, out: Pool, g: Group, m: MessageId)
    requires Gathered(mails, pool) && Expanded(pool, out) && g in out
    ensures m in out[g] <==> ReachesExactly(mails, g, m)
  {
    FiledWasSent(mails, pool, out, g);
    FromPairIsReached(mails, pool, g, m);
    assert m in out[g] <==> m in At(out, g);
    if m in At(pool, g) {
      assert g * g == g && m in pool[g] + pool[g];
      assert FromPair(pool, g, m);
    }
  }

  // A group that only arises as an intersection can miss a message sent to all its members: message
  // 3 goes to everybody in `p` and `q`, and then no candidate group meets its own in exactly p * q.
  lemma DerivedGroupCanMissMessages(p: Group, q: Group, mails: seq<Mail>, pool: Pool, out: Pool)
    requires !(p <= q) && !(q <= p) && |p * q| >= MIN_GROUP_SIZE
    requires |mails| == 3 && mails[0].id == 1 && mails[1].id == 2 && mails[2].id == 3
    requires mails[0].participants == p && mails[1].participants == q && mails[2].participants == p + q
    requires Gathered(mails, pool) && Expanded(pool, out)
    ensures p * q in out && 3 in SentToAll(mails, p * q) && 3 !in out[p * q]
  {
    ThreeCandidates(p, q, mails);
    MeetIsKey(pool, out, p, q);
    FiledIffReached(mails, pool, out, p * q, 3);
    NotReached(p, q, mails);
  }

  lemma MeetIsKey(pool: Pool, out: Pool, a: Group, b: Group)
    requires Expanded(pool, out) && a in pool && b in pool && |a * b| >= MIN_GROUP_SIZE
    ensures a * b in out
  {
    assert Meet(pool, a * b);
  }

  lemma NotReached(p: Group, q: Group, mails: seq<Mail>)
    requires !(p <= q) && !(q <= p) && Candidates(mails) == {p, q, p + q}
    requires |mails| == 3 && mails[0].id == 1 && mails[1].id == 2 && mails[2].id == 3
    requires mails[2].participants == p + q && IsCandidate(mails[2])
    ensures 3 in SentToAll(mails, p * q) && !ReachesExactly(mails, p * q, 3)
  {
    assert mails[2] in mails && p * q <= mails[2].participants;
    if ReachesExactly(mails, p * q, 3) {
      var mail, b :| mail in mails && IsCandidate(mail) && mail.id == 3 && b in Candidates(mails) && mail.participants * b == p * q;
      UnionMeets(p, q, p + q, b);
    }
  }

  lemma ThreeCandidates(p: Group, q: Group, mails: seq<Mail>)
    requires |p * q| >= MIN_GROUP_SIZE && |mails| == 3
    requires mails[0].participants == p && mails[1].participants == q && mails[2].participants == p + q
    ensures Candidates(mails) == {p, q, p + q} && forall k :: 0 <= k < 3 ==> IsCandidate(mails[k])
  {
    SubsetIsSmaller(p * q, p);
    SubsetIsSmaller(p * q, q);
    SubsetIsSmaller(p, p + q);
    assert mails[0] in mails && mails[1] in mails && mails[2] in mails;
  }

  lemma SubsetIsSmaller(a: Group, b: Group)
    requires a <= b
    ensures |a| <= |b|
  {
    assert b == a + (b - a);
    assert |b| == |a| + |b - a|;
  }

  lemma UnionMeets(p: Group, q: Group, x: Group, y: Group)
    requires !(p <= q) && !(q <= p)
    requires (x == p || x == q || x == p + q) && (y == p || y == q || y == p + q) && x * y == p * q
    ensures x != p + q && y != p + q
  {
    var u := p + q;
    assert p * u == p && q * u == q && u * p == p && u * q == q && u * u == u;
    assert p != p * q && q != p * q && u != p * q;
  }
}
