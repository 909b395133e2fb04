// The label part of inbox/api/update.py as it runs: messages changed in place, loops over sets in
// whatever order Python iterates them.
module LabelUpdates {
  import opened Common
  import opened GmailLabels

  // Special categories are unique in a namespace.
  predicate UniqueNames(ns: Labels) {
    forall c, d :: c in ns && d in ns && c.name == d.name && HasRule(c.name) ==> c == d
  }

  // The scheduled `change_labels` action.
  datatype ChangeLabels = ChangeLabels(added: seq<string>, removed: seq<string>)

  function LabelText(c: Category): string {
    match c.name
    case Inbox => "\\Inbox"
    case Important => "\\Important"
    case All => "\\All"
    case Trash => "\\Trash"
    case Spam => "\\Spam"
    case _ => c.displayName
  }

  const SPECIAL_LABELS: map<Name, string> :=
    map[Inbox := "\\Inbox", Important := "\\Important", All := "\\All", Trash := "\\Trash", Spam := "\\Spam"]

  // Exactly the special labels go by their Gmail name, each by a different one.
  lemma LabelTextIs(c: Category, d: Category)
    ensures LabelText(c) == if c.name in SPECIAL_LABELS then SPECIAL_LABELS[c.name] else c.displayName
    ensures c.name in SPECIAL_LABELS && d.name in SPECIAL_LABELS && LabelText(c) == LabelText(d) ==> c.name == d.name
  {
    if c.name in SPECIAL_LABELS && d.name in SPECIAL_LABELS {
      assert LabelText(c) == LabelText(d) ==> |LabelText(c)| == |LabelText(d)|;
      if c.name == Trash && d.name == Inbox { assert LabelText(c)[1] == 'T'; }
      if c.name == Inbox && d.name == Trash { assert LabelText(c)[1] == 'I'; }
    }
  }

  function Texts(order: seq<Category>): seq<string> {
    seq(|order|, i requires 0 <= i < |order| => LabelText(order[i]))
  }

  // The texts of a list of categories, or None at the first one that cannot be changed.
  method LabelTexts(order: seq<Category>) returns (texts: Option<seq<string>>)
    ensures texts.None? <==> exists c :: c in order && Fixed(c.name)
    ensures texts.Some? ==> texts.value == Texts(order)
  {
    var list: seq<string> := [];
    var i := 0;
    while i < |order|
      invariant i <= |order| && |list| == i
      invariant forall j :: 0 <= j < i ==> list[j] == LabelText(order[j]) && !Fixed(order[j].name)
    {
      if Fixed(order[i].name) {
        assert order[i] in order;
        return None;
      }
      list := list + [LabelText(order[i])];
      i := i + 1;
    }
    return Some(list);
  }

  // Everything that can refuse the request, before anything changes.
  method CheckLabels(added: Labels, removed: Labels, order: seq<Category>, removedOrder: seq<Category>)
    returns (checked: Result<ChangeLabels, Error>)
    requires Enumerates(order, added) && Enumerates(removedOrder, removed)
    ensures checked.Err? ==> Refusal(added, removed) == Some(checked.error) && checked.error != NoSingleAllCategory
    ensures checked.Ok? ==> Refusal(added, removed).None? && checked.value == ChangeLabels(Texts(order), Texts(removedOrder))
  {
    var invalid := ValidateLabels(added, removed);
    if invalid.Some? { return Err(invalid.value); }
    AnyFixed(added, removed, order, removedOrder);
    var addedLabels := LabelTexts(order);
    if addedLabels.None? { return Err(FixedLabel); }
    var removedLabels := LabelTexts(removedOrder);
    if removedLabels.None? { return Err(FixedLabel); }
    return Ok(ChangeLabels(addedLabels.value, removedLabels.value));
  }

  // The first loop of apply_gmail_label_rules.
  method CollectRules(order: seq<Category>) returns (rules: Rules)
    ensures rules == RulesFor(order)
  {
    var add: set<Name>, discard: set<Name> := {}, {};
    var i := 0;
    while i < |order|
      invariant i <= |order| && Rules(add, discard) == RulesFor(order[..i])
    {
      assert order[..i + 1][..i] == order[..i];
      match order[i].name {
        case All => discard := {Trash, Spam};
        case Trash => discard := {All, Spam, Inbox};
        case Spam => discard := {All, Trash, Inbox};
        case Inbox => add := {All}; discard := {Trash, Spam};
        case _ =>
      }
      i := i + 1;
    }
    assert order[..i] == order;
    return Rules(add, discard);
  }

  // {c.name: c for c in message.categories}
  method IndexByName(cats: Labels) returns (index: map<Name, Category>)
    ensures forall n :: n in index <==> Has(cats, n)
    ensures forall n :: n in index ==> index[n] in cats && index[n].name == n
  {
    index := map[];
    var rest := cats;
    while rest != {}
      invariant rest <= cats
      invariant forall n :: n in index <==> Has(cats - rest, n)
      invariant forall n :: n in index ==> index[n] in cats && index[n].name == n
      decreases |rest|
    {
      var c :| c in rest;
      index := index[c.name := c];
      rest := rest - {c};
    }
    assert cats - rest == cats;
  }

  class Message {
    const isDraft: bool
    var categories: Labels
    var categoriesChanges: bool

    constructor (isDraft: bool, categories: Labels)
      ensures this.isDraft == isDraft && this.categories == categories && !categoriesChanges
    {
      this.isDraft, this.categories, this.categoriesChanges := isDraft, categories, false;
    }

    method AddAll(added: Labels)
      modifies this`categories
      ensures categories == old(categories) + added
    {
      var rest := added;
      while rest != {}
        invariant rest <= added && categories == old(categories) + (added - rest)
        decreases |rest|
      {
        var c :| c in rest;
        categories := categories + {c};
        rest := rest - {c};
      }
    }

    // Removing a folder does not move the message, so folders stay.
    method DiscardAll(removed: Labels)
      modifies this`categories
      ensures categories == old(categories) - (set c | c in removed && !IsFolder(c.name))
    {
      var rest := removed;
      while rest != {}
        invariant rest <= removed
        invariant categories == old(categories) - (set c | c in removed - rest && !IsFolder(c.name))
        decreases |rest|
      {
        var c :| c in rest;
        if !IsFolder(c.name) { categories := categories - {c}; }
        rest := rest - {c};
      }
    }

    method DiscardNamed(names: set<Name>, index: map<Name, Category>)
      modifies this`categories
      ensures categories == old(categories) - (set n | n in names && n in index :: index[n])
    {
      var rest := names;
      while rest != {}
        invariant rest <= names
        invariant categories == old(categories) - (set n | n in names - rest && n in index :: index[n])
        decreases |rest|
      {
        var n :| n in rest;
        if n in index { categories := categories - {index[n]}; }
        rest := rest - {n};
      }
    }

    // apply_gmail_label_rules
    method ApplyGmailLabelRules(ns: Labels, order: seq<Category>) returns (error: Option<Error>)
      requires UniqueNames(ns) && categories <= ns
      modifies this`categories
      ensures error.None? ==> ApplyRules(ns, old(categories), RulesFor(order)) == Ok(categories)
      ensures error.Some? ==>
        ApplyRules(ns, old(categories), RulesFor(order)) == Err(error.value) && categories == old(categories)
    {
      var rules := CollectRules(order);
      var index := IndexByName(categories);
      RulesHaveRules(order);
      if All in rules.add && All !in index {
        var found := Named(ns, All);
        if |found| != 1 { return Some(NoSingleAllCategory); }
        categories := categories + found;
      }
      DiscardNamed(rules.discard, index);
      DiscardedByName(ns, old(categories), index, rules.discard);
      assert old(categories) + {} == old(categories);
      return None;
    }

    // update_message_labels: a refused request leaves the message alone.
    method UpdateMessageLabels(ns: Labels, added: Labels, removed: Labels, order: seq<Category>, removedOrder: seq<Category>, optimistic: bool)
      returns (result: Result<Option<ChangeLabels>, Error>)
      requires UniqueNames(ns) && categories <= ns && added <= ns
      requires Enumerates(order, added) && Enumerates(removedOrder, removed)
      modifies this
      ensures result.Err? && (!optimistic || result.error != NoSingleAllCategory) ==>
        Refusal(added, removed) == Some(result.error) && categories == old(categories) && categoriesChanges == old(categoriesChanges)
      ensures result.Err? && result.error == NoSingleAllCategory ==>
        && optimistic && Has(added, Inbox) && !Has(categories, All) && |Named(ns, All)| != 1
        && categories == Requested(old(categories), added, removed)
      ensures result.Ok? ==> Refusal(added, removed).None?
      ensures result.Ok? && !optimistic ==> categories == old(categories) && categoriesChanges == old(categoriesChanges)
      ensures optimistic ==>
        match UpdateLabels(ns, old(categories), added, removed, order)
        case Ok(after) => result.Ok? && categories == after
        case Err(e) => result == Err(e)
      ensures result.Ok? && optimistic ==> categoriesChanges == (old(categoriesChanges) || added + removed != {})
      ensures result.Ok? ==> (result.value.None? <==> added + removed == {})
      ensures result.Ok? && result.value.Some? ==>
        result.value.value == ChangeLabels(Texts(order), Texts(removedOrder))
    {
      var checked := CheckLabels(added, removed, order, removedOrder);
      if checked.Err? { return Err(checked.error); }
      EmptyOrders(added, removed, order, removedOrder);
      if optimistic {
        var error := UpdateOptimistically(ns, added, removed, order);
        if error.Some? { return Err(error.value); }
        if checked.value.added != [] || checked.value.removed != [] { categoriesChanges := true; }
      }
      return Ok(if checked.value.added != [] || checked.value.removed != [] then Some(checked.value) else None);
    }

    // The change of the categories of an accepted request.
    method UpdateOptimistically(ns: Labels, added: Labels, removed: Labels, order: seq<Category>) returns (error: Option<Error>)
      requires UniqueNames(ns) && categories <= ns && added <= ns && Enumerates(order, added) && Refusal(added, removed).None?
      modifies this`categories
      ensures error.None? ==> UpdateLabels(ns, old(categories), added, removed, order) == Ok(categories)
      ensures error.Some? ==>
        && error.value == NoSingleAllCategory && UpdateLabels(ns, old(categories), added, removed, order) == Err(error.value)
        && Has(added, Inbox) && !Has(categories, All) && |Named(ns, All)| != 1 && categories == Requested(old(categories), added, removed)
    {
      AddAll(added);
      DiscardAll(removed);
      RulesOfSet(order, added);
      error := ApplyGmailLabelRules(ns, order);
    }

    // The label part of update_message.
    method UpdateMessage(ns: Labels, labels: Labels, order: seq<Category>, removedOrder: seq<Category>, optimistic: bool)
      returns (result: Result<Option<ChangeLabels>, Error>)
      requires UniqueNames(ns) && categories <= ns && labels <= ns
      requires Enumerates(order, labels - categories) && Enumerates(removedOrder, categories - labels)
      modifies this
      ensures optimistic ==>
        match UpdateLabels(ns, old(categories), labels - old(categories), old(categories) - labels, order)
        case Ok(after) => result.Ok? && categories == after
        case Err(e) => result == Err(e)
      ensures !optimistic ==> categories == old(categories)
      ensures !optimistic ==> match Refusal(labels - old(categories), old(categories) - labels)
        case None => result.Ok?
        case Some(e) => result == Err(e)
      ensures result.Ok? ==> (result.value.None? <==> labels == old(categories))
      ensures result.Ok? && result.value.Some? ==> result.value.value == ChangeLabels(Texts(order), Texts(removedOrder))
    {
      assert labels - categories + (categories - labels) == {} <==> labels == categories;
      result := UpdateMessageLabels(ns, labels - categories, categories - labels, order, removedOrder, optimistic);
    }
  }

  lemma {:induction false} RulesHaveRules(order: seq<Category>)
    ensures RulesFor(order).add <= {All} && forall n :: n in RulesFor(order).discard ==> HasRule(n)
  {
    if order != [] { RulesHaveRules(order[..|order| - 1]); }
  }

  // Discarding the indexed category of each name discards all categories of these names.
  lemma DiscardedByName(ns: Labels, cats: Labels, index: map<Name, Category>, names: set<Name>)
    requires UniqueNames(ns) && cats <= ns && forall n :: n in names ==> HasRule(n)
    requires forall n :: n in index <==> Has(cats, n)
    requires forall n :: n in index ==> index[n] in cats && index[n].name == n
    ensures (set n | n in names && n in index :: index[n]) == (set c | c in cats && c.name in names)
  {
    forall c | c in cats && c.name in names ensures c in set n | n in names && n in index :: index[n] {
      assert index[c.name] == c;
    }
  }

  lemma AnyFixed(added: Labels, removed: Labels, order: seq<Category>, removedOrder: seq<Category>)
    requires Enumerates(order, added) && Enumerates(removedOrder, removed)
    ensures (exists c :: c in added + removed && Fixed(c.name)) <==>
      (exists c :: c in order && Fixed(c.name)) || (exists c :: c in removedOrder && Fixed(c.name))
  {
    forall c ensures c in added + removed <==> c in order || c in removedOrder {}
  }

  lemma EmptyOrders(added: Labels, removed: Labels, order: seq<Category>, removedOrder: seq<Category>)
    requires Enumerates(order, added) && Enumerates(removedOrder, removed)
    ensures added + removed == {} <==> order == [] && removedOrder == []
  {
    if order != [] { assert order[0] in added + removed; }
    if removedOrder != [] { assert removedOrder[0] in added + removed; }
  }

  // ----- threads -----

  ghost function CategoriesIn(messages: seq<Message>): Labels
    reads messages
  {
    set i, c | 0 <= i < |messages| && c in messages[i].categories :: c
  }

  // Thread.categories
  method ThreadCategories(messages: seq<Message>) returns (labels: Labels)
    ensures labels == CategoriesIn(messages)
  {
    labels := {};
    var i := 0;
    while i < |messages|
      invariant i <= |messages| && labels == CategoriesIn(messages[..i])
    {
      assert messages[..i + 1] == messages[..i] + [messages[i]];
      labels := labels + messages[i].categories;
      i := i + 1;
    }
    assert messages[..i] == messages;
  }

  // What one message of a thread looks like after the request.
  predicate UpdatedOk(ns: Labels, before: Labels, after: Labels, skip: bool, added: Labels, removed: Labels, order: seq<Category>) {
    if skip then after == before else UpdateLabels(ns, before, added, removed, order) == Ok(after)
  }

  // The loop of update_thread over the messages: drafts are skipped, every other message is
  // updated, and a refused request leaves every message alone.
  method UpdateThreadMessages(messages: seq<Message>, ns: Labels, added: Labels, removed: Labels,
                              order: seq<Category>, removedOrder: seq<Category>, optimistic: bool)
    returns (error: Option<Error>, failed: nat, scheduled: set<nat>)
    requires forall i, j :: 0 <= i < j < |messages| ==> messages[i] != messages[j]
    requires UniqueNames(ns) && added <= ns && forall i :: 0 <= i < |messages| ==> messages[i].categories <= ns
    requires Enumerates(order, added) && Enumerates(removedOrder, removed)
    modifies messages
    ensures error.Some? && error.value != NoSingleAllCategory ==>
      Refusal(added, removed) == error && forall i :: 0 <= i < |messages| ==> messages[i].categories == old(messages[i].categories)
    ensures error == Some(NoSingleAllCategory) ==> optimistic && Has(added, Inbox) && |Named(ns, All)| != 1
    // The lookup of the All Mail category fails at the first message that needs it: those before
    // it are updated, it has its labels without the rules, and those after it are untouched.
    ensures error == Some(NoSingleAllCategory) ==>
      && failed < |messages| && !messages[failed].isDraft && !Has(old(messages[failed].categories), All)
      && messages[failed].categories == Requested(old(messages[failed].categories), added, removed)
      && (forall i :: failed < i < |messages| ==> messages[i].categories == old(messages[i].categories))
      && (forall i :: 0 <= i < failed ==>
            UpdatedOk(ns, old(messages[i].categories), messages[i].categories, messages[i].isDraft || !optimistic, added, removed, order))
    ensures error.None? ==> forall i :: 0 <= i < |messages| ==>
      UpdatedOk(ns, old(messages[i].categories), messages[i].categories, messages[i].isDraft || !optimistic, added, removed, order)
    // A change is scheduled for every message that is not a draft, if there is one to make.
    ensures error.None? ==> forall i: nat :: i in scheduled <==> i < |messages| && !messages[i].isDraft && added + removed != {}
  {
    failed, scheduled := |messages|, {};
    var k := 0;
    while k < |messages|
      invariant k <= |messages|
      invariant forall i :: k <= i < |messages| ==> messages[i].categories == old(messages[i].categories)
      invariant forall i :: 0 <= i < k ==>
        UpdatedOk(ns, old(messages[i].categories), messages[i].categories, messages[i].isDraft || !optimistic, added, removed, order)
      invariant forall i: nat :: i in scheduled <==> i < k && !messages[i].isDraft && added + removed != {}
    {
      if !messages[k].isDraft {
        var result := messages[k].UpdateMessageLabels(ns, added, removed, order, removedOrder, optimistic);
        if result.Err? {
          NamesRequested(old(messages[k].categories), added, removed, All);
          return Some(result.error), k, scheduled;
        }
        if result.value.Some? { scheduled := scheduled + {k}; }
      }
      k := k + 1;
    }
    return None, |messages|, scheduled;
  }

  // The label part of update_thread.
  method UpdateThread(messages: seq<Message>, ns: Labels, labels: Labels, order: seq<Category>, removedOrder: seq<Category>, optimistic: bool)
    returns (error: Option<Error>, failed: nat, scheduled: set<nat>)
    requires forall i, j :: 0 <= i < j < |messages| ==> messages[i] != messages[j]
    requires UniqueNames(ns) && labels <= ns && forall i :: 0 <= i < |messages| ==> messages[i].categories <= ns
    requires Enumerates(order, labels - CategoriesIn(messages)) && Enumerates(removedOrder, CategoriesIn(messages) - labels)
    modifies messages
    ensures error.Some? && error.value != NoSingleAllCategory ==>
      forall i :: 0 <= i < |messages| ==> messages[i].categories == old(messages[i].categories)
    ensures error == Some(NoSingleAllCategory) ==>
      && failed < |messages| && !Has(old(messages[failed].categories), All)
      && messages[failed].categories ==
         Requested(old(messages[failed].categories), labels - old(CategoriesIn(messages)), old(CategoriesIn(messages)) - labels)
      && (forall i :: failed < i < |messages| ==> messages[i].categories == old(messages[i].categories))
      && (forall i :: 0 <= i < failed ==>
            UpdatedOk(ns, old(messages[i].categories), messages[i].categories, messages[i].isDraft || !optimistic,
                      labels - old(CategoriesIn(messages)), old(CategoriesIn(messages)) - labels, order))
    ensures error.None? && Unmixed(labels - old(CategoriesIn(messages))) ==>
      forall i :: 0 <= i < |messages| && ExactlyOne(old(messages[i].categories)) ==> ExactlyOne(messages[i].categories)
    ensures error.None? ==> forall i :: 0 <= i < |messages| ==>
      UpdatedOk(ns, old(messages[i].categories), messages[i].categories, messages[i].isDraft || !optimistic,
                labels - old(CategoriesIn(messages)), old(CategoriesIn(messages)) - labels, order)
    ensures error.None? ==> forall i: nat :: i in scheduled <==>
      i < |messages| && !messages[i].isDraft && labels != old(CategoriesIn(messages))
  {
    var current := ThreadCategories(messages);
    assert labels - current + (current - labels) == {} <==> labels == current;
    error, failed, scheduled := UpdateThreadMessages(messages, ns, labels - current, current - labels, order, removedOrder, optimistic);
    if error.None? && Unmixed(labels - current) {
      forall i | 0 <= i < |messages| && ExactlyOne(old(messages[i].categories)) ensures ExactlyOne(messages[i].categories) {
        if !messages[i].isDraft && optimistic {
          FolderAfter(ns, old(messages[i].categories), labels - current, current - labels, order);
        }
      }
    }
  }
}
