/** What a policy document means, told from the items that are written in it. */
module PolicyDocuments {
  import opened Json
  import opened Events
  import opened Policy
  import opened PolicyLoader
  import opened PolicyLayers

  // ---------------------------------------------------------------- what is written

  /** The text that stands for an action in legacy rules and risk levels. */
  function ActionText(a: Action): string
  {
    match a
    case Allow => "allow"
    case Deny => "deny"
    case Block => "block"
    case RequireApproval => "require_approval"
    case Warn => "warn"
  }

  /** The items of the section for an action; only legacy rules block or warn. */
  function ItemsFor(raw: RawPolicy, a: Action): seq<RawItem>
  {
    match a
    case Deny => Items(raw.deny)
    case RequireApproval => Items(raw.requireApproval)
    case Allow => Items(raw.allow)
    case _ => []
  }

  predicate AllHold(t: Text, conditions: seq<Condition>, q: Request)
  {
    forall i :: 0 <= i < |conditions| ==> Holds(t, conditions[i], q.context, q.payload)
  }

  /** The capability of the item matches and all its conditions hold. */
  predicate ItemApplies(t: Text, i: RawItem, q: Request)
  {
    match i
    case Plain(capability) => CapabilityMatches(capability, q.capability)
    case Guarded(capability, conditions, _) =>
      CapabilityMatches(capability, q.capability) && AllHold(t, conditions, q)
    case Malformed => false
  }

  /** A legacy rule with this action applies; one that names no capability is for all of them. */
  predicate LegacyApplies(t: Text, r: RawRule, action: string, q: Request)
  {
    && r.RawRule? && r.action == Some(action) && AllHold(t, r.keywords, q)
    && (r.capability.Some? ==> CapabilityMatches(r.capability.value, q.capability))
  }

  /** An item of the section for the action applies, or a legacy rule with the action does. */
  ghost predicate Says(t: Text, raw: RawPolicy, a: Action, q: Request)
  {
    || (exists i :: i in ItemsFor(raw, a) && ItemApplies(t, i, q))
    || exists r :: r in Items(raw.rules) && LegacyApplies(t, r, ActionText(a), q)
  }

  /** The first legacy rule that allows or warns warns. */
  ghost predicate WarnsFirst(t: Text, raw: RawPolicy, q: Request)
  {
    exists k :: WarnsAt(t, Items(raw.rules), q, k)
  }

  predicate WarnsAt(t: Text, rules: seq<RawRule>, q: Request, k: int)
  {
    && 0 <= k < |rules| && LegacyApplies(t, rules[k], "warn", q)
    && forall j :: 0 <= j < k ==> !LegacyApplies(t, rules[j], "allow", q) && !LegacyApplies(t, rules[j], "warn", q)
  }

  /** The last entry for the level gives it this action. */
  ghost predicate Gives(levels: seq<RawLevel>, level: string, action: string)
  {
    exists i :: GivesAt(levels, level, action, i)
  }

  predicate GivesAt(levels: seq<RawLevel>, level: string, action: string, i: int)
  {
    && 0 <= i < |levels| && levels[i] == RawLevel(level, Some(action))
    && forall j :: i < j < |levels| ==> levels[j].level != level
  }

  /** What the document says about the level of the request. */
  ghost predicate SaysOfLevel(raw: RawPolicy, q: Request, action: string)
  {
    Get(q.context, "risk_level").JStr? && Gives(Items(raw.riskLevels), Get(q.context, "risk_level").s, action)
  }

  /** The ruling of a document, read off its items. */
  ghost function DocumentRuling(t: Text, raw: RawPolicy, q: Request): Ruling
  {
    if Says(t, raw, Deny, q) || Says(t, raw, Block, q) then Denied
    else if Says(t, raw, RequireApproval, q) then ApprovalRequired
    else if SaysOfLevel(raw, q, "deny") || SaysOfLevel(raw, q, "block") then Denied
    else if SaysOfLevel(raw, q, "require_approval") then ApprovalRequired
    else if SaysOfLevel(raw, q, "warn") || WarnsFirst(t, raw, q) then Warned
    else if Says(t, raw, Allow, q) then Allowed
    else DefaultDenied
  }

  // ---------------------------------------------------------------- a document means what is written

  lemma ActionNamedIff(s: string, a: Action)
    ensures ActionNamed(s) == Some(a) <==> s == ActionText(a)
  {
  }

  lemma ItemRuleApplies(t: Text, i: RawItem, a: Action, q: Request)
    requires ValidItem(i)
    ensures Selected(t, ItemRule(i, a), {a}, q) <==> ItemApplies(t, i, q)
  {
  }

  lemma LegacyRuleApplies(t: Text, r: RawRule, a: Action, q: Request)
    requires ValidRule(r)
    ensures Selected(t, LegacyRule(r), {a}, q) <==> LegacyApplies(t, r, ActionText(a), q)
  {
    StarMatches(q.capability);
    ActionNamedIff(r.action.value, a);
  }

  lemma AnyOfBoth(t: Text, a: seq<Rule>, b: seq<Rule>, actions: set<Action>, q: Request)
    ensures AnyMatch(t, a + b, actions, q) <==> AnyMatch(t, a, actions, q) || AnyMatch(t, b, actions, q)
  {
    assert forall r :: r in a + b <==> r in a || r in b;
  }

  /** The rules of a section match when an item of it applies, for the action of the section. */
  lemma {:induction false} SectionMatches(t: Text, items: seq<RawItem>, section: Action, a: Action, q: Request)
    requires forall i :: 0 <= i < |items| ==> ValidItem(items[i])
    ensures AnyMatch(t, ItemRules(items, section), {a}, q)
            <==> a == section && exists i :: i in items && ItemApplies(t, i, q)
  {
    hide ItemApplies, Matches;
    var rules := ItemRules(items, section);
    forall k | 0 <= k < |items|
      ensures rules[k] in rules && (Selected(t, rules[k], {a}, q) <==> a == section && ItemApplies(t, items[k], q))
    {
      ItemRuleApplies(t, items[k], section, q);
      assert rules[k].action == section;
    }
  }

  lemma {:induction false} LegacyMatches(t: Text, items: seq<RawRule>, a: Action, q: Request)
    requires forall i :: 0 <= i < |items| ==> ValidRule(items[i])
    ensures AnyMatch(t, LegacyRules(items), {a}, q)
            <==> exists r :: r in items && LegacyApplies(t, r, ActionText(a), q)
  {
    hide LegacyApplies, Selected;
    var rules := LegacyRules(items);
    forall k | 0 <= k < |items|
      ensures rules[k] in rules
      ensures Selected(t, rules[k], {a}, q) <==> LegacyApplies(t, items[k], ActionText(a), q)
    {
      LegacyRuleApplies(t, items[k], a, q);
    }
  }

  /** A rule of the document with the action matches if and only if an item of its section applies, or a legacy rule
      that names the action does. */
  lemma {:induction false} RulesAreItems(t: Text, raw: RawPolicy, a: Action, q: Request)
    requires Own(raw).Ok?
    ensures AnyMatch(t, Own(raw).value.rules, {a}, q) <==> Says(t, raw, a, q)
  {
    hide AnyMatch, ItemApplies, LegacyApplies, ItemRules, LegacyRules;
    var legacy, deny := LegacyRules(Items(raw.rules)), ItemRules(Items(raw.deny), Deny);
    var approval, allow := ItemRules(Items(raw.requireApproval), RequireApproval), ItemRules(Items(raw.allow), Allow);
    AnyOfBoth(t, legacy + deny + approval, allow, {a}, q);
    AnyOfBoth(t, legacy + deny, approval, {a}, q);
    AnyOfBoth(t, legacy, deny, {a}, q);
    LegacyMatches(t, Items(raw.rules), a, q);
    SectionMatches(t, Items(raw.deny), Deny, a, q);
    SectionMatches(t, Items(raw.requireApproval), RequireApproval, a, q);
    SectionMatches(t, Items(raw.allow), Allow, a, q);
  }

  lemma LegacyPermits(t: Text, r: RawRule, q: Request)
    requires ValidRule(r)
    ensures LegacyRule(r).action == Warn <==> r.action == Some("warn")
    ensures Selected(t, LegacyRule(r), PERMITS, q)
            <==> LegacyApplies(t, r, "allow", q) || LegacyApplies(t, r, "warn", q)
  {
    hide Matches, LegacyApplies;
    LegacyRuleApplies(t, r, Allow, q);
    LegacyRuleApplies(t, r, Warn, q);
  }

  /** The first rule that permits warns if and only if the first legacy rule that allows or warns does. */
  lemma {:induction false} WarningComesFirst(t: Text, raw: RawPolicy, q: Request)
    requires Own(raw).Ok?
    ensures FirstPermit(t, Own(raw).value.rules, q, Warn) <==> WarnsFirst(t, raw, q)
  {
    hide LegacyApplies, Selected;
    var legacy, rules := Items(raw.rules), Own(raw).value.rules;
    assert forall k :: 0 <= k < |legacy| ==> rules[k] == LegacyRule(legacy[k]);
    forall k | 0 <= k < |legacy|
      ensures LegacyRule(legacy[k]).action == Warn <==> legacy[k].action == Some("warn")
      ensures Selected(t, rules[k], PERMITS, q)
              <==> LegacyApplies(t, legacy[k], "allow", q) || LegacyApplies(t, legacy[k], "warn", q)
    {
      LegacyPermits(t, legacy[k], q);
    }
    if k: nat :| IsFirst(t, rules, PERMITS, q, k) && rules[k].action == Warn {
      OnlyLegacyRulesWarn(raw, k);
      NamesOneAction(t, legacy[k], q);
      assert WarnsAt(t, legacy, q, k);
    }
    if k :| WarnsAt(t, legacy, q, k) {
      NamesOneAction(t, legacy[k], q);
      assert IsFirst(t, rules, PERMITS, q, k);
    }
  }

  lemma NamesOneAction(t: Text, r: RawRule, q: Request)
    ensures LegacyApplies(t, r, "warn", q) ==> r.RawRule? && r.action == Some("warn")
    ensures r.RawRule? && r.action == Some("warn") ==> !LegacyApplies(t, r, "allow", q)
  {
  }

  lemma {:induction false} OnlyLegacyRulesWarn(raw: RawPolicy, k: nat)
    requires Own(raw).Ok? && k < |Own(raw).value.rules| && Own(raw).value.rules[k].action == Warn
    ensures k < |Items(raw.rules)|
  {
  }

  /** A level means what the last entry for it gives. */
  lemma {:induction false} LevelsAreEntries(raw: RawPolicy, level: string, a: Action)
    requires Own(raw).Ok?
    ensures Level(Own(raw).value, level) == Some(a) <==> Gives(Items(raw.riskLevels), level, ActionText(a))
  {
    LastEntryCounts(Items(raw.riskLevels), level, a);
  }

  lemma {:induction false} LastEntryCounts(levels: seq<RawLevel>, level: string, a: Action)
    requires forall i :: 0 <= i < |levels| ==> ValidLevel(levels[i])
    ensures level in ParsedLevels(levels) && ParsedLevels(levels)[level] == a
            <==> Gives(levels, level, ActionText(a))
  {
    hide ActionText, ActionNamed, Gives;
    if levels == [] {
      NothingGiven(level, ActionText(a));
    } else {
      var n := |levels| - 1;
      LastEntryCounts(levels[..n], level, a);
      ActionNamedIff(levels[n].action.value, a);
      GivesSnoc(levels[..n], levels[n], level, ActionText(a));
      assert levels == levels[..n] + [levels[n]] && ValidLevel(levels[n]);
    }
  }

  lemma NothingGiven(level: string, action: string)
    ensures !Gives([], level, action)
  {
  }

  lemma {:induction false} GivesSnoc(levels: seq<RawLevel>, last: RawLevel, level: string, action: string)
    ensures Gives(levels + [last], level, action)
            <==> if last.level == level then last.action == Some(action) else Gives(levels, level, action)
  {
    var all := levels + [last];
    assert all[|levels|] == last && forall j :: 0 <= j < |levels| ==> all[j] == levels[j];
    if last.level == level {
      assert last.action == Some(action) ==> GivesAt(all, level, action, |levels|);
    } else if i :| GivesAt(levels, level, action, i) {
      assert GivesAt(all, level, action, i);
    } else if i :| GivesAt(all, level, action, i) {
      assert GivesAt(levels, level, action, i);
    }
  }

  /** The ruling of a parsed document is the one read off its items. */
  lemma {:induction false} DocumentMeansWhatIsWritten(t: Text, raw: RawPolicy, q: Request)
    requires Own(raw).Ok?
    ensures Evaluate(t, Own(raw).value, q) == DocumentRuling(t, raw, q)
  {
    hide Own, Explain, Says, WarnsFirst, FirstPermit, Gives;
    var p := Own(raw).value;
    ExplainRefinesMeaning(t, p, q);
    PairMatches(t, p.rules, Deny, Block, q);
    PairMatches(t, p.rules, Allow, Warn, q);
    OneActionComesFirst(t, p.rules, q);
    ActionIsWritten(t, raw, Deny, q);
    ActionIsWritten(t, raw, Block, q);
    ActionIsWritten(t, raw, RequireApproval, q);
    ActionIsWritten(t, raw, Allow, q);
    ActionIsWritten(t, raw, Warn, q);
    WarningComesFirst(t, raw, q);
  }

  lemma {:induction false} ActionIsWritten(t: Text, raw: RawPolicy, a: Action, q: Request)
    requires Own(raw).Ok?
    ensures AnyMatch(t, Own(raw).value.rules, {a}, q) <==> Says(t, raw, a, q)
    ensures RiskAction(Own(raw).value, q) == Some(a) <==> SaysOfLevel(raw, q, ActionText(a))
  {
    hide Own, AnyMatch, Says, Gives;
    RulesAreItems(t, raw, a, q);
    var level := Get(q.context, "risk_level");
    if level.JStr? {
      LevelsAreEntries(raw, level.s, a);
    }
  }

  /** The first permitting match, if there is one, has one action. */
  lemma OneActionComesFirst(t: Text, rules: seq<Rule>, q: Request)
    ensures AnyMatch(t, rules, PERMITS, q) <==> FirstPermit(t, rules, q, Allow) || FirstPermit(t, rules, q, Warn)
    ensures !(FirstPermit(t, rules, q, Allow) && FirstPermit(t, rules, q, Warn))
    ensures FirstPermit(t, rules, q, Allow) ==> AnyMatch(t, rules, {Allow}, q)
  {
    SomePermitIffAny(t, rules, q);
    if i: nat, j: nat :| && IsFirst(t, rules, PERMITS, q, i) && rules[i].action == Allow
                         && IsFirst(t, rules, PERMITS, q, j) && rules[j].action == Warn {
      assert false;
    }
    if i: nat :| IsFirst(t, rules, PERMITS, q, i) && rules[i].action == Allow {
      assert Selected(t, rules[i], {Allow}, q);
    }
  }

  lemma PairMatches(t: Text, rules: seq<Rule>, a: Action, b: Action, q: Request)
    ensures AnyMatch(t, rules, {a, b}, q) <==> AnyMatch(t, rules, {a}, q) || AnyMatch(t, rules, {b}, q)
  {
    assert forall r :: Selected(t, r, {a, b}, q) <==> Selected(t, r, {a}, q) || Selected(t, r, {b}, q);
  }

  // ---------------------------------------------------------------- which documents are refused

  const ACTION_TEXTS: set<string> := {"allow", "deny", "block", "require_approval", "warn"}

  ghost predicate FaultyItems(s: PolicyLoader.Section<RawItem>)
  {
    || s.NotAList?
    || exists i :: i in Items(s) && (i == Malformed || (i.Guarded? && (i.capability == "" || i.unknownConditions)))
  }

  /** What is wrong with a document that is refused. */
  ghost predicate Faulty(raw: RawPolicy)
  {
    || raw.unknownKeys || FaultyItems(raw.deny) || FaultyItems(raw.requireApproval) || FaultyItems(raw.allow)
    || raw.rules.NotAList? || raw.riskLevels.NotAList?
    || (exists r :: r in Items(raw.rules) && (r == NotAMapping || r.unknownKeys || r.action == None
          || r.action.value !in ACTION_TEXTS))
    || exists l :: l in Items(raw.riskLevels) && (l.action == None || l.action.value !in ACTION_TEXTS)
  }

  /** A document fails validation if and only if something in it is faulty. */
  lemma {:induction false} RefusedIffFaulty(raw: RawPolicy)
    ensures Own(raw) == Raised(PolicyLoadError) <==> Faulty(raw)
  {
    ItemsValidIff(raw.deny);
    ItemsValidIff(raw.requireApproval);
    ItemsValidIff(raw.allow);
    hide ItemRules, LegacyRules, ParsedLevels, FaultyItems, ValidItem;
    assert ValidSection(raw.rules, ValidRule) || raw.rules.NotAList?
        || exists r :: r in raw.rules.items && !ValidRule(r);
    assert ValidSection(raw.riskLevels, ValidLevel) || raw.riskLevels.NotAList?
        || exists l :: l in raw.riskLevels.items && !ValidLevel(l);
    assert forall r :: r in Items(raw.rules) ==> exists i :: 0 <= i < |raw.rules.items| && raw.rules.items[i] == r;
    assert forall l :: l in Items(raw.riskLevels) ==>
      exists i :: 0 <= i < |raw.riskLevels.items| && raw.riskLevels.items[i] == l;
  }

  lemma {:induction false} ItemsValidIff(s: PolicyLoader.Section<RawItem>)
    ensures ValidSection(s, ValidItem) <==> !FaultyItems(s)
  {
    if !s.NotAList? && !FaultyItems(s) {
      assert forall i :: 0 <= i < |Items(s)| ==> Items(s)[i] in Items(s);
    }
    if !s.NotAList? && FaultyItems(s) {
      var x :| x in Items(s) && (x == Malformed || (x.Guarded? && (x.capability == "" || x.unknownConditions)));
      var i :| 0 <= i < |s.items| && s.items[i] == x;
      assert !ValidItem(s.items[i]);
    }
  }

  // ---------------------------------------------------------------- files on top of each other

  ghost predicate FirstBelow(d: Disk, path: string, i: int)
  {
    && 0 <= i < |d.searchPaths| && d.searchPaths[i] + "/" + path in d.files
    && forall j :: 0 <= j < i ==> d.searchPaths[j] + "/" + path !in d.files
  }

  /** A relative name is the file of that name below the first search path that has one, if one does; an absolute name,
      and one that is found below none, is itself. */
  lemma {:induction false} FoundBelowFirst(d: Disk, path: string)
    ensures forall i :: FirstBelow(d, path, i) && !StartsWith(path, "/") ==>
      Locate(d, path) == d.searchPaths[i] + "/" + path
    ensures StartsWith(path, "/") || (forall i :: !FirstBelow(d, path, i)) ==> Locate(d, path) == path
  {
    FoundFrom(d, path, 0);
  }

  lemma {:induction false} FoundFrom(d: Disk, path: string, n: nat)
    requires n <= |d.searchPaths| && forall j :: 0 <= j < n ==> d.searchPaths[j] + "/" + path !in d.files
    ensures forall i :: FirstBelow(d, path, i) ==>
      LocateIn(d, path, d.searchPaths[n..]) == d.searchPaths[i] + "/" + path
    ensures (forall i :: !FirstBelow(d, path, i)) ==> LocateIn(d, path, d.searchPaths[n..]) == path
    decreases |d.searchPaths| - n
  {
    if n < |d.searchPaths| {
      assert d.searchPaths[n..][1..] == d.searchPaths[n + 1..];
      if d.searchPaths[n] + "/" + path in d.files {
        assert FirstBelow(d, path, n);
        assert forall i :: FirstBelow(d, path, i) ==> i == n;
      } else {
        FoundFrom(d, path, n + 1);
      }
    }
  }

  /** A file that `path` reaches says this of the request. */
  ghost predicate SaidByReached(t: Text, d: Disk, path: string, a: Action, q: Request, rank: string -> nat)
    requires Acyclic(d, rank)
  {
    exists name :: Reaches(d, path, name, rank) && Loadable(d, name) && Says(t, d.files[Locate(d, name)].raw, a, q)
  }

  lemma {:induction false} ReachedMatchIsSaid(t: Text, d: Disk, path: string, a: Action, q: Request,
          rank: string -> nat)
    requires Acyclic(d, rank)
    ensures ReachedMatch(t, d, path, {a}, q, rank) <==> SaidByReached(t, d, path, a, q, rank)
  {
    hide Own, Says, Selected, Reaches;
    forall name | Loadable(d, name)
      ensures OwnAt(d, name).Ok?
      ensures AnyMatch(t, OwnAt(d, name).value.rules, {a}, q) <==> Says(t, d.files[Locate(d, name)].raw, a, q)
    {
      LoadableIffOwn(d, name);
      RulesAreItems(t, d.files[Locate(d, name)].raw, a, q);
    }
    if name, r :| Contributes(d, path, name, r, rank) && Selected(t, r, {a}, q) {
      LoadableIffOwn(d, name);
      assert AnyMatch(t, OwnAt(d, name).value.rules, {a}, q);
    }
    if name :| Reaches(d, path, name, rank) && Loadable(d, name) && Says(t, d.files[Locate(d, name)].raw, a, q) {
      var r :| r in OwnAt(d, name).value.rules && Selected(t, r, {a}, q);
      assert Contributes(d, path, name, r, rank);
    }
  }

  lemma LoadableIffOwn(d: Disk, name: string)
    ensures Loadable(d, name) <==> OwnAt(d, name).Ok?
    ensures Loadable(d, name) ==> OwnAt(d, name) == Own(d.files[Locate(d, name)].raw)
  {
  }

  /** What a loaded file permits, read off the items of the files it reaches: none of them says deny, block or
      require_approval of the request, and the level of the request warns, or it is absent or allowed and one of them
      says allow or warn. */
  lemma {:induction false} PermittedAsWritten(t: Text, d: Disk, path: string, q: Request, rank: string -> nat)
    requires Acyclic(d, rank) && Flatten(d, path, rank).Ok?
    ensures var level := RiskSaid(d, path, q, rank);
      Permits(Evaluate(t, Flatten(d, path, rank).value, q)) <==>
        && !SaidByReached(t, d, path, Deny, q, rank) && !SaidByReached(t, d, path, Block, q, rank)
        && !SaidByReached(t, d, path, RequireApproval, q, rank)
        && (|| level == Some(Warn)
            || ((level == None || level == Some(Allow))
                && (SaidByReached(t, d, path, Allow, q, rank) || SaidByReached(t, d, path, Warn, q, rank))))
  {
    hide SaidByReached, Evaluate, Flatten;
    PermittedIff(t, d, path, q, rank);
    ReachedMatchIsSaid(t, d, path, Deny, q, rank);
    ReachedMatchIsSaid(t, d, path, Block, q, rank);
    ReachedMatchIsSaid(t, d, path, RequireApproval, q, rank);
    ReachedMatchIsSaid(t, d, path, Allow, q, rank);
    ReachedMatchIsSaid(t, d, path, Warn, q, rank);
    OneOfThese(t, d, path, q, rank);
  }

  lemma OneOfThese(t: Text, d: Disk, path: string, q: Request, rank: string -> nat)
    requires Acyclic(d, rank)
    ensures ReachedMatch(t, d, path, FORBIDS, q, rank) <==>
      || ReachedMatch(t, d, path, {Deny}, q, rank) || ReachedMatch(t, d, path, {Block}, q, rank)
      || ReachedMatch(t, d, path, {RequireApproval}, q, rank)
    ensures ReachedMatch(t, d, path, PERMITS, q, rank) <==>
      ReachedMatch(t, d, path, {Allow}, q, rank) || ReachedMatch(t, d, path, {Warn}, q, rank)
  {
    hide Contributes, Matches;
    assert forall r :: Selected(t, r, FORBIDS, q) <==>
      Selected(t, r, {Deny}, q) || Selected(t, r, {Block}, q) || Selected(t, r, {RequireApproval}, q);
    assert forall r :: Selected(t, r, PERMITS, q) <==> Selected(t, r, {Allow}, q) || Selected(t, r, {Warn}, q);
  }
}
