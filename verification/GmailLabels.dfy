// Gmail label rules (inbox/api/update.py). A message must be in exactly one of the folders
// All Mail, Trash and Spam; adding one of them, or the inbox, moves it.
module GmailLabels {
  import opened Common

  // The category names the code tells apart; a category without a name is Other("").
  datatype Name = All | Trash | Spam | Inbox | Important | Drafts | Sent | Other(text: string)

  datatype Category = Category(id: nat, name: Name, displayName: string)

  type Labels = set<Category>

  datatype Error = OnlyOneFolder | AllFoldersRemoved | FixedLabel | NoSingleAllCategory

  predicate IsFolder(n: Name) { n.All? || n.Trash? || n.Spam? }

  predicate HasRule(n: Name) { IsFolder(n) || n.Inbox? }

  predicate Has(cats: Labels, n: Name) { exists c :: c in cats && c.name == n }

  function Named(cats: Labels, n: Name): Labels { set c | c in cats && c.name == n }

  // ----- refusing a request -----

  function ValidateLabels(added: Labels, removed: Labels): Option<Error> {
    if (Has(added, All) && (Has(added, Trash) || Has(added, Spam))) || (Has(added, Trash) && Has(added, Spam)) then Some(OnlyOneFolder)
    else if Has(removed, All) && Has(removed, Trash) && Has(removed, Spam) then Some(AllFoldersRemoved)
    else None
  }

  predicate Fixed(n: Name) { n.Drafts? || n.Sent? }

  // The checks that come before any change, which depend on the request alone.
  function Refusal(added: Labels, removed: Labels): Option<Error> {
    var invalid := ValidateLabels(added, removed);
    if invalid.Some? then invalid
    else if exists c :: c in added + removed && Fixed(c.name) then Some(FixedLabel)
    else None
  }

  function NamesOf(cats: Labels): set<Name> { set c | c in cats :: c.name }

  const FOLDERS: set<Name> := {All, Trash, Spam}

  lemma HasIsName(cats: Labels, n: Name)
    ensures Has(cats, n) <==> n in NamesOf(cats)
  {}

  // Exactly which requests are refused, and with which error: more than one folder is added, all
  // three are removed, or drafts or sent are touched.
  lemma RefusalIff(added: Labels, removed: Labels)
    ensures var (a, r) := (NamesOf(added), NamesOf(removed));
      && (Refusal(added, removed).None? <==>
            |a * FOLDERS| <= 1 && !(FOLDERS <= r) && Drafts !in a + r && Sent !in a + r)
      && (Refusal(added, removed) == Some(OnlyOneFolder) <==> |a * FOLDERS| > 1)
      && (Refusal(added, removed) == Some(AllFoldersRemoved) <==> |a * FOLDERS| <= 1 && FOLDERS <= r)
      && (Refusal(added, removed) == Some(FixedLabel) <==>
            |a * FOLDERS| <= 1 && !(FOLDERS <= r) && (Drafts in a + r || Sent in a + r))
  {
    var (a, r) := (NamesOf(added), NamesOf(removed));
    forall n ensures Has(added, n) <==> n in a { HasIsName(added, n); }
    forall n ensures Has(removed, n) <==> n in r { HasIsName(removed, n); }
    AtMostOne(a * FOLDERS);
    FixedIsNamed(added, removed);
  }

  lemma AtMostOne(s: set<Name>)
    requires s <= FOLDERS
    ensures |s| > 1 <==> (All in s && (Trash in s || Spam in s)) || (Trash in s && Spam in s)
  {
    var rest := s - {All} - {Trash} - {Spam};
    assert rest == {};
    assert |s| == (if All in s then 1 else 0) + (if Trash in s then 1 else 0) + (if Spam in s then 1 else 0) + |rest|;
  }

  lemma FixedIsNamed(added: Labels, removed: Labels)
    ensures (exists c :: c in added + removed && Fixed(c.name)) <==>
      Drafts in NamesOf(added) + NamesOf(removed) || Sent in NamesOf(added) + NamesOf(removed)
  {
    if c :| c in added + removed && Fixed(c.name) { assert c in added || c in removed; }
    if n :| n in NamesOf(added) + NamesOf(removed) && Fixed(n) {
      if n in NamesOf(added) { var c :| c in added && c.name == n; assert c in added + removed; }
      else { var c :| c in removed && c.name == n; assert c in added + removed; }
    }
  }

  // ----- the rules -----

  datatype Rules = Rules(add: set<Name>, discard: set<Name>)

  function Discards(n: Name): set<Name>
    requires HasRule(n)
  {
    match n
    case Trash => {All, Spam, Inbox}
    case Spam => {All, Trash, Inbox}
    case _ => {Trash, Spam}
  }

  // The loop body: a later category overwrites what an earlier one asked for.
  function NextRules(rules: Rules, n: Name): Rules {
    if !HasRule(n) then rules else Rules(if n == Inbox then {All} else rules.add, Discards(n))
  }

  function RulesFor(order: seq<Category>): Rules {
    if order == [] then Rules({}, {}) else NextRules(RulesFor(order[..|order| - 1]), order[|order| - 1].name)
  }

  // What apply_gmail_label_rules makes of the categories: both tests look at the categories as
  // they were before the rules.
  function ApplyRules(ns: Labels, cats: Labels, rules: Rules): Result<Labels, Error> {
    if All in rules.add && !Has(cats, All) && |Named(ns, All)| != 1 then Err(NoSingleAllCategory)
    else
      var found := if All in rules.add && !Has(cats, All) then Named(ns, All) else {};
      Ok(cats + found - (set c | c in cats && c.name in rules.discard))
  }

  // Added and removed labels before the rules: folders are not removed.
  function Requested(cats: Labels, added: Labels, removed: Labels): Labels {
    cats + added - (set c | c in removed && !IsFolder(c.name))
  }

  // update_message_labels with optimistic updates.
  function UpdateLabels(ns: Labels, cats: Labels, added: Labels, removed: Labels, order: seq<Category>): Result<Labels, Error> {
    var refusal := Refusal(added, removed);
    if refusal.Some? then Err(refusal.value)
    else ApplyRules(ns, Requested(cats, added, removed), RulesFor(order))
  }

  // ----- the invariant -----

  predicate ExactlyOne(cats: Labels) {
    || (Has(cats, All) && !Has(cats, Trash) && !Has(cats, Spam))
    || (!Has(cats, All) && Has(cats, Trash) && !Has(cats, Spam))
    || (!Has(cats, All) && !Has(cats, Trash) && Has(cats, Spam))
  }

  function FolderOf(cats: Labels): Name
    requires ExactlyOne(cats)
  {
    if Has(cats, All) then All else if Has(cats, Trash) then Trash else Spam
  }

  // The request does not add the inbox together with Trash or Spam.
  predicate Unmixed(added: Labels) {
    !(Has(added, Inbox) && (Has(added, Trash) || Has(added, Spam)))
  }

  // ----- what the loop over the added labels computes -----

  // The last label in iteration order that has a rule.
  function LastRule(order: seq<Category>): Option<Name> {
    if order == [] then None
    else if HasRule(order[|order| - 1].name) then Some(order[|order| - 1].name)
    else LastRule(order[..|order| - 1])
  }

  lemma {:induction false} LastRuleWins(order: seq<Category>)
    ensures RulesFor(order).add == if exists c :: c in order && c.name == Inbox then {All} else {}
    ensures LastRule(order).None? ==> RulesFor(order).discard == {} && forall c :: c in order ==> !HasRule(c.name)
    ensures LastRule(order).Some? ==>
      && HasRule(LastRule(order).value)
      && RulesFor(order).discard == Discards(LastRule(order).value)
      && exists c :: c in order && c.name == LastRule(order).value
  {
    if order != [] {
      var n := |order| - 1;
      LastRuleWins(order[..n]);
      assert order == order[..n] + [order[n]];
    }
  }

  // The same for the set that was iterated over.
  lemma RulesOfSet(order: seq<Category>, added: Labels)
    requires Enumerates(order, added)
    ensures RulesFor(order).add == if Has(added, Inbox) then {All} else {}
    ensures LastRule(order).None? ==>
      && RulesFor(order).discard == {}
      && !Has(added, All) && !Has(added, Trash) && !Has(added, Spam) && !Has(added, Inbox)
    ensures LastRule(order).Some? ==>
      && HasRule(LastRule(order).value)
      && RulesFor(order).discard == Discards(LastRule(order).value)
      && Has(added, LastRule(order).value)
  {
    LastRuleWins(order);
  }

  // Which folder names, and whether the inbox, are there afterwards.
  lemma NamesAfter(ns: Labels, cats: Labels, rules: Rules, n: Name)
    requires HasRule(n) && ApplyRules(ns, cats, rules).Ok?
    ensures Has(ApplyRules(ns, cats, rules).value, n) <==>
      (Has(cats, n) && n !in rules.discard) || (n == All && All in rules.add && !Has(cats, All))
  {
    var after := ApplyRules(ns, cats, rules).value;
    if Has(cats, n) && n !in rules.discard {
      var c :| c in cats && c.name == n;
      assert c in after;
    }
    if n == All && All in rules.add && !Has(cats, All) {
      assert Named(ns, All) != {};
      var c :| c in Named(ns, All);
      assert c in after;
    }
  }

  lemma NamesRequested(cats: Labels, added: Labels, removed: Labels, n: Name)
    requires IsFolder(n)
    ensures Has(Requested(cats, added, removed), n) <==> Has(cats, n) || Has(added, n)
  {
    if c :| c in cats && c.name == n { assert c in Requested(cats, added, removed); }
    if c :| c in added && c.name == n { assert c in Requested(cats, added, removed); }
  }

  // Folder names after a whole update.
  lemma FoldersAfter(ns: Labels, cats: Labels, added: Labels, removed: Labels, order: seq<Category>, n: Name)
    requires Enumerates(order, added) && IsFolder(n) && UpdateLabels(ns, cats, added, removed, order).Ok?
    ensures var rules := RulesFor(order);
      Has(UpdateLabels(ns, cats, added, removed, order).value, n) <==>
        || ((Has(cats, n) || Has(added, n)) && n !in rules.discard)
        || (n == All && Has(added, Inbox) && !Has(cats, All) && !Has(added, All))
  {
    RulesOfSet(order, added);
    NamesRequested(cats, added, removed, n);
    NamesRequested(cats, added, removed, All);
    NamesAfter(ns, Requested(cats, added, removed), RulesFor(order), n);
  }

  // Exactly which updates go through: the request is not refused, and if it adds the inbox to a
  // message that is not in All Mail, that category is there exactly once.
  lemma AcceptedIff(ns: Labels, cats: Labels, added: Labels, removed: Labels, order: seq<Category>)
    requires Enumerates(order, added)
    ensures UpdateLabels(ns, cats, added, removed, order).Ok? <==>
      && Refusal(added, removed).None?
      && (Has(added, Inbox) && !Has(cats, All) && !Has(added, All) ==> |Named(ns, All)| == 1)
    ensures Refusal(added, removed).None? && UpdateLabels(ns, cats, added, removed, order).Err? ==>
      UpdateLabels(ns, cats, added, removed, order) == Err(NoSingleAllCategory)
  {
    RulesOfSet(order, added);
    NamesRequested(cats, added, removed, All);
  }

  // The exact condition: the invariant survives an update unless the inbox is added together with
  // Trash or Spam, the iteration meets that folder after the inbox, and the message was not in
  // All Mail before.
  lemma ExactlyOneIff(ns: Labels, cats: Labels, added: Labels, removed: Labels, order: seq<Category>)
    requires Enumerates(order, added) && ExactlyOne(cats) && UpdateLabels(ns, cats, added, removed, order).Ok?
    ensures ExactlyOne(UpdateLabels(ns, cats, added, removed, order).value) <==>
      !(Has(added, Inbox) && (LastRule(order) == Some(Trash) || LastRule(order) == Some(Spam)) && !Has(cats, All))
  {
    RulesOfSet(order, added);
    FoldersAfter(ns, cats, added, removed, order, All);
    FoldersAfter(ns, cats, added, removed, order, Trash);
    FoldersAfter(ns, cats, added, removed, order, Spam);
  }

  // Within the guard the message ends up in the folder that was added, or in All Mail if the inbox
  // was, or else stays where it was.
  lemma FolderAfter(ns: Labels, cats: Labels, added: Labels, removed: Labels, order: seq<Category>)
    requires Enumerates(order, added) && Unmixed(added) && ExactlyOne(cats)
    requires UpdateLabels(ns, cats, added, removed, order).Ok?
    ensures var after := UpdateLabels(ns, cats, added, removed, order).value;
      && ExactlyOne(after)
      && FolderOf(after) ==
         if Has(added, Trash) then Trash else if Has(added, Spam) then Spam
         else if Has(added, All) || Has(added, Inbox) then All else FolderOf(cats)
  {
    RulesOfSet(order, added);
    ExactlyOneIff(ns, cats, added, removed, order);
    FoldersAfter(ns, cats, added, removed, order, All);
    FoldersAfter(ns, cats, added, removed, order, Trash);
    FoldersAfter(ns, cats, added, removed, order, Spam);
  }

  // Moving a message from All Mail, or anywhere, to the trash, whatever other labels go, is accepted.
  lemma MoveToTrash(ns: Labels, cats: Labels, trash: Category, removed: Labels)
    requires ExactlyOne(cats) && trash.name == Trash
    requires !(FOLDERS <= NamesOf(removed)) && Drafts !in NamesOf(removed) && Sent !in NamesOf(removed)
    ensures UpdateLabels(ns, cats, {trash}, removed, [trash]).Ok?
    ensures var after := UpdateLabels(ns, cats, {trash}, removed, [trash]).value; ExactlyOne(after) && FolderOf(after) == Trash
  {
    var added := {trash};
    assert NamesOf(added) == {Trash} && {Trash} * FOLDERS == {Trash};
    RefusalIff(added, removed);
    assert Enumerates([trash], added) && trash in added && !Has(added, Inbox);
    AcceptedIff(ns, cats, added, removed, [trash]);
    FolderAfter(ns, cats, added, removed, [trash]);
  }

  // Every other label is there exactly if it was there or was added, and was not removed; only the
  // inbox also goes when Trash or Spam is added.
  lemma OtherLabelsAfter(ns: Labels, cats: Labels, added: Labels, removed: Labels, order: seq<Category>, c: Category)
    requires Enumerates(order, added) && Unmixed(added) && !IsFolder(c.name)
    requires UpdateLabels(ns, cats, added, removed, order).Ok?
    ensures c in UpdateLabels(ns, cats, added, removed, order).value <==>
      && (c in cats || c in added) && c !in removed
      && !(c.name == Inbox && (Has(added, Trash) || Has(added, Spam)))
  {
    RulesOfSet(order, added);
  }

  // Adding the inbox puts the message in the inbox and in All Mail.
  lemma InboxIsInAll(ns: Labels, cats: Labels, added: Labels, removed: Labels, order: seq<Category>)
    requires Enumerates(order, added) && Unmixed(added) && ExactlyOne(cats) && Has(added, Inbox) && added !! removed
    requires UpdateLabels(ns, cats, added, removed, order).Ok?
    ensures var after := UpdateLabels(ns, cats, added, removed, order).value;
      ExactlyOne(after) && FolderOf(after) == All && Has(after, Inbox)
  {
    FolderAfter(ns, cats, added, removed, order);
    var c :| c in added && c.name == Inbox;
    OtherLabelsAfter(ns, cats, added, removed, order, c);
  }

  // ----- iteration order -----

  lemma UnmixedRules(added: Labels, removed: Labels, order: seq<Category>)
    requires Enumerates(order, added) && Unmixed(added) && Refusal(added, removed).None?
    ensures RulesFor(order).discard ==
      if Has(added, Trash) then Discards(Trash) else if Has(added, Spam) then Discards(Spam)
      else if Has(added, All) || Has(added, Inbox) then {Trash, Spam} else {}
  {
    RulesOfSet(order, added);
  }

  ghost predicate OrderIrrelevant(ns: Labels, cats: Labels, added: Labels, removed: Labels) {
    forall o, p :: Enumerates(o, added) && Enumerates(p, added) ==>
      UpdateLabels(ns, cats, added, removed, o) == UpdateLabels(ns, cats, added, removed, p)
  }

  // A request has a result independent of the iteration order exactly if it fails in every order
  // or is within the guard. It fails in every order if it is refused or needs an All Mail category
  // that cannot be found.
  lemma OrderIrrelevantIff(ns: Labels, cats: Labels, added: Labels, removed: Labels)
    ensures OrderIrrelevant(ns, cats, added, removed) <==>
      Refusal(added, removed).Some? || Unmixed(added) || (|Named(ns, All)| != 1 && !Has(cats, All))
  {
    if Refusal(added, removed).None? {
      if Unmixed(added) {
        forall o, p | Enumerates(o, added) && Enumerates(p, added)
          ensures UpdateLabels(ns, cats, added, removed, o) == UpdateLabels(ns, cats, added, removed, p)
        {
          SameForOrders(ns, cats, added, removed, o, p);
        }
      } else if |Named(ns, All)| != 1 && !Has(cats, All) {
        forall o | Enumerates(o, added) ensures UpdateLabels(ns, cats, added, removed, o) == Err(NoSingleAllCategory) {
          RulesOfSet(o, added);
          NamesRequested(cats, added, removed, All);
        }
      } else {
        MixedDependsOnOrder(ns, cats, added, removed);
      }
    }
  }

  lemma SameForOrders(ns: Labels, cats: Labels, added: Labels, removed: Labels, o: seq<Category>, p: seq<Category>)
    requires Unmixed(added) && Enumerates(o, added) && Enumerates(p, added)
    ensures UpdateLabels(ns, cats, added, removed, o) == UpdateLabels(ns, cats, added, removed, p)
  {
    if Refusal(added, removed).None? {
      UnmixedRules(added, removed, o);
      UnmixedRules(added, removed, p);
      RulesOfSet(o, added);
      RulesOfSet(p, added);
    }
  }

  lemma MixedDependsOnOrder(ns: Labels, cats: Labels, added: Labels, removed: Labels)
    requires (|Named(ns, All)| == 1 || Has(cats, All)) && Refusal(added, removed).None? && !Unmixed(added)
    ensures !OrderIrrelevant(ns, cats, added, removed)
  {
    var i :| i in added && i.name == Inbox;
    var f :| f in added && (f.name == Trash || f.name == Spam);
    var o := OrderEndingIn(added, i);
    var p := OrderEndingIn(added, f);
    LastDecides(ns, cats, added, removed, o, f);
    LastDecides(ns, cats, added, removed, p, f);
    assert UpdateLabels(ns, cats, added, removed, o) != UpdateLabels(ns, cats, added, removed, p);
  }

  // With the inbox and a folder added, the message is in the folder only if the folder comes last.
  lemma LastDecides(ns: Labels, cats: Labels, added: Labels, removed: Labels, order: seq<Category>, f: Category)
    requires Enumerates(order, added) && Refusal(added, removed).None? && (|Named(ns, All)| == 1 || Has(cats, All))
    requires f in added && (f.name == Trash || f.name == Spam) && order != []
    ensures UpdateLabels(ns, cats, added, removed, order).Ok?
    ensures order[|order| - 1].name == Inbox ==> !Has(UpdateLabels(ns, cats, added, removed, order).value, f.name)
    ensures order[|order| - 1] == f ==> Has(UpdateLabels(ns, cats, added, removed, order).value, f.name)
  {
    RulesOfSet(order, added);
    NamesRequested(cats, added, removed, All);
    FoldersAfter(ns, cats, added, removed, order, f.name);
  }

  lemma {:induction false} SomeOrder(cats: Labels) returns (order: seq<Category>)
    ensures Enumerates(order, cats)
    decreases |cats|
  {
    order := [];
    if c :| c in cats { order := OrderEndingIn(cats, c); }
  }

  lemma {:induction false} OrderEndingIn(cats: Labels, c: Category) returns (order: seq<Category>)
    requires c in cats
    ensures Enumerates(order, cats) && |order| > 0 && order[|order| - 1] == c
    decreases |cats|, 0
  {
    var rest := SomeOrder(cats - {c});
    order := rest + [c];
  }

  // A message in Trash that is given the inbox and Spam at once: iterated in this order, it ends
  // up in both All Mail and Spam.
  lemma MixedRequestBreaksExclusivity(all: Category, trash: Category, spam: Category, inbox: Category)
    requires all.name == All && trash.name == Trash && spam.name == Spam && inbox.name == Inbox
    ensures Unmixed({inbox}) && !Unmixed({inbox, spam}) && ExactlyOne({trash})
    ensures UpdateLabels({all, trash, spam, inbox}, {trash}, {inbox, spam}, {trash}, [inbox, spam]).Ok?
    ensures !ExactlyOne(UpdateLabels({all, trash, spam, inbox}, {trash}, {inbox, spam}, {trash}, [inbox, spam]).value)
  {
    var ns, order := {all, trash, spam, inbox}, [inbox, spam];
    assert Enumerates(order, {inbox, spam});
    assert Named(ns, All) == {all};
    assert inbox in {inbox, spam} && spam in {inbox, spam} && trash in {trash};
    assert LastRule(order) == Some(Spam);
    assert Refusal({inbox, spam}, {trash}).None?;
    ExactlyOneIff(ns, {trash}, {inbox, spam}, {trash}, order);
  }

  // ----- whole runs -----

  datatype Mail = Mail(labels: Labels, draft: bool, thread: nat)

  type Mailbox = map<nat, Mail>

  // A label request with the iteration order of the added set for each message it reaches.
  datatype Request =
    | OnMessage(message: nat, labels: Labels, optimistic: bool, orders: map<nat, seq<Category>>)
    | OnThread(thread: nat, labels: Labels, optimistic: bool, orders: map<nat, seq<Category>>)

  function ThreadLabels(box: Mailbox, thread: nat): Labels {
    set m, c | m in box && box[m].thread == thread && c in box[m].labels :: c
  }

  // The labels the request is compared with: the message's own, or those of the whole thread.
  function Current(box: Mailbox, r: Request): Labels {
    match r
    case OnMessage(m, _, _, _) => if m in box then box[m].labels else {}
    case OnThread(t, _, _, _) => ThreadLabels(box, t)
  }

  function Added(box: Mailbox, r: Request): Labels { r.labels - Current(box, r) }

  function Removed(box: Mailbox, r: Request): Labels { Current(box, r) - r.labels }

  // Thread-level requests skip drafts.
  predicate Reaches(box: Mailbox, r: Request, m: nat) {
    m in box && match r case OnMessage(x, _, _, _) => m == x case OnThread(t, _, _, _) => box[m].thread == t && !box[m].draft
  }

  function Order(r: Request, m: nat): seq<Category> { if m in r.orders then r.orders[m] else [] }

  function Outcome(ns: Labels, box: Mailbox, r: Request, m: nat): Result<Labels, Error>
    requires m in box
  {
    UpdateLabels(ns, box[m].labels, Added(box, r), Removed(box, r), Order(r, m))
  }

  // A request with no labels, or that fails for some message, changes nothing; neither does one
  // without optimistic updates, which only schedules the change.
  predicate Accepted(ns: Labels, box: Mailbox, r: Request) {
    r.labels != {} && r.optimistic && forall m :: m in box && Reaches(box, r, m) ==> Outcome(ns, box, r, m).Ok?
  }

  function Serve(ns: Labels, box: Mailbox, r: Request): Mailbox {
    if !Accepted(ns, box, r) then box
    else map m | m in box :: if Reaches(box, r, m) then Mail(Outcome(ns, box, r, m).value, box[m].draft, box[m].thread) else box[m]
  }

  ghost predicate Iterated(box: Mailbox, r: Request) {
    forall m :: Reaches(box, r, m) ==> Enumerates(Order(r, m), Added(box, r))
  }

  ghost predicate IsRun(ns: Labels, boxes: seq<Mailbox>, requests: seq<Request>) {
    && |boxes| == |requests| + 1
    && forall i :: 0 <= i < |requests| ==>
      && Iterated(boxes[i], requests[i])
      && Unmixed(Added(boxes[i], requests[i]))
      && boxes[i + 1] == Serve(ns, boxes[i], requests[i])
  }

  // A message in the inbox is in All Mail.
  predicate InboxInAll(cats: Labels) { Has(cats, Inbox) ==> Has(cats, All) }

  lemma InboxInAllKept(ns: Labels, cats: Labels, added: Labels, removed: Labels, order: seq<Category>)
    requires Enumerates(order, added) && Unmixed(added) && ExactlyOne(cats) && InboxInAll(cats)
    requires UpdateLabels(ns, cats, added, removed, order).Ok?
    ensures InboxInAll(UpdateLabels(ns, cats, added, removed, order).value)
  {
    FolderAfter(ns, cats, added, removed, order);
    var after := UpdateLabels(ns, cats, added, removed, order).value;
    if c :| c in after && c.name == Inbox { OtherLabelsAfter(ns, cats, added, removed, order, c); }
  }

  lemma ServeKeeps(ns: Labels, box: Mailbox, r: Request, m: nat)
    requires Iterated(box, r) && Unmixed(Added(box, r)) && m in box
    ensures m in Serve(ns, box, r)
    ensures ExactlyOne(box[m].labels) ==> ExactlyOne(Serve(ns, box, r)[m].labels)
    ensures ExactlyOne(box[m].labels) && InboxInAll(box[m].labels) ==> InboxInAll(Serve(ns, box, r)[m].labels)
  {
    if Accepted(ns, box, r) && Reaches(box, r, m) && ExactlyOne(box[m].labels) {
      FolderAfter(ns, box[m].labels, Added(box, r), Removed(box, r), Order(r, m));
      if InboxInAll(box[m].labels) {
        InboxInAllKept(ns, box[m].labels, Added(box, r), Removed(box, r), Order(r, m));
      }
    }
  }

  // Exactly which requests take effect.
  lemma ServedIff(ns: Labels, box: Mailbox, r: Request)
    requires Iterated(box, r)
    ensures Accepted(ns, box, r) <==>
      && r.labels != {} && r.optimistic
      && forall m :: Reaches(box, r, m) ==>
           && Refusal(Added(box, r), Removed(box, r)).None?
           && (Has(Added(box, r), Inbox) && !Has(box[m].labels, All) && !Has(Added(box, r), All) ==> |Named(ns, All)| == 1)
  {
    forall m | Reaches(box, r, m)
      ensures Outcome(ns, box, r, m).Ok? <==>
        && Refusal(Added(box, r), Removed(box, r)).None?
        && (Has(Added(box, r), Inbox) && !Has(box[m].labels, All) && !Has(Added(box, r), All) ==> |Named(ns, All)| == 1)
    {
      AcceptedIff(ns, box[m].labels, Added(box, r), Removed(box, r), Order(r, m));
    }
  }

  // What a request that takes effect does: the messages it reaches go to the folder it asks for and
  // get its other labels, everything else stays.
  lemma ServeDoes(ns: Labels, box: Mailbox, r: Request, m: nat, c: Category)
    requires Iterated(box, r) && Unmixed(Added(box, r)) && m in box && ExactlyOne(box[m].labels) && !IsFolder(c.name)
    ensures Serve(ns, box, r).Keys == box.Keys
    ensures Serve(ns, box, r)[m].draft == box[m].draft && Serve(ns, box, r)[m].thread == box[m].thread
    ensures !Accepted(ns, box, r) || (r.OnMessage? && m != r.message) || (r.OnThread? && (box[m].thread != r.thread || box[m].draft)) ==>
      Serve(ns, box, r)[m] == box[m]
    ensures Accepted(ns, box, r) && (if r.OnMessage? then m == r.message else box[m].thread == r.thread && !box[m].draft) ==>
      var (added, removed, before, after) := (Added(box, r), Removed(box, r), box[m].labels, Serve(ns, box, r)[m].labels);
      && ExactlyOne(after)
      && FolderOf(after) == (if Has(added, Trash) then Trash else if Has(added, Spam) then Spam
                             else if Has(added, All) || Has(added, Inbox) then All else FolderOf(before))
      && (c in after <==> (c in before || c in added) && c !in removed && !(c.name == Inbox && (Has(added, Trash) || Has(added, Spam))))
  {
    if Accepted(ns, box, r) && Reaches(box, r, m) {
      FolderAfter(ns, box[m].labels, Added(box, r), Removed(box, r), Order(r, m));
      OtherLabelsAfter(ns, box[m].labels, Added(box, r), Removed(box, r), Order(r, m), c);
    }
  }

  // Gmail exclusivity over every run of guarded requests.
  lemma {:induction false} ExclusiveForever(ns: Labels, boxes: seq<Mailbox>, requests: seq<Request>, m: nat)
    requires IsRun(ns, boxes, requests) && m in boxes[0] && ExactlyOne(boxes[0][m].labels)
    ensures m in boxes[|requests|] && ExactlyOne(boxes[|requests|][m].labels)
    ensures InboxInAll(boxes[0][m].labels) ==> InboxInAll(boxes[|requests|][m].labels)
    decreases |requests|
  {
    if requests != [] {
      var n := |requests| - 1;
      ExclusiveForever(ns, boxes[..n + 1], requests[..n], m);
      ServeKeeps(ns, boxes[n], requests[n], m);
    }
  }

  // Thread requests are refused before anything changes: the checks see the same sets for every message.
  lemma RefusedForAllOrNone(ns: Labels, box: Mailbox, r: Request, m: nat, k: nat)
    requires m in box && k in box && Outcome(ns, box, r, m).Err? && Outcome(ns, box, r, m).error != NoSingleAllCategory
    ensures Outcome(ns, box, r, k) == Outcome(ns, box, r, m) && (Reaches(box, r, k) ==> Serve(ns, box, r) == box)
  {}

  // The next mailbox does not depend on the iteration orders.
  lemma ServeIgnoresOrder(ns: Labels, box: Mailbox, r: Request, q: Request)
    requires Iterated(box, r) && Iterated(box, q) && Unmixed(Added(box, r))
    requires r.OnMessage? ==> q == OnMessage(r.message, r.labels, r.optimistic, q.orders)
    requires r.OnThread? ==> q == OnThread(r.thread, r.labels, r.optimistic, q.orders)
    ensures Serve(ns, box, r) == Serve(ns, box, q)
  {
    forall m | m in box && Reaches(box, r, m) ensures Reaches(box, q, m) && Outcome(ns, box, r, m) == Outcome(ns, box, q, m) {
      SameForOrders(ns, box[m].labels, Added(box, r), Removed(box, r), Order(r, m), Order(q, m));
    }
  }
}
