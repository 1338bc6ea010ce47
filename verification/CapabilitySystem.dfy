/** The capability system of capfence/core/capabilities.py:99-201: a policy, and beside it three plain lists
    that answer when there is no policy. */
module CapabilitySystem {
  import opened Json
  import opened Events
  import opened Capabilities
  import opened Policy
  import opened PolicyLoader

  datatype Lists = Lists(allowed: seq<Capability>, requireApproval: seq<Capability>, denied: seq<Capability>)

  const NO_LISTS := Lists([], [], [])

  datatype Bucket = AllowedList | ApprovalList | DeniedList

  function BucketOf(a: Action): Bucket
  {
    if a in DENIES then DeniedList else if a == RequireApproval then ApprovalList else AllowedList
  }

  /** One capability text on its way into a list. */
  datatype Entry = Entry(bucket: Bucket, text: string)

  function Append(l: Lists, b: Bucket, c: Capability): Lists
  {
    match b
    case AllowedList => l.(allowed := l.allowed + [c])
    case ApprovalList => l.(requireApproval := l.requireApproval + [c])
    case DeniedList => l.(denied := l.denied + [c])
  }

  function ItemEntries(items: seq<RawItem>, b: Bucket): seq<Entry>
    requires forall i :: 0 <= i < |items| ==> ValidItem(items[i])
  {
    seq(|items|, i requires 0 <= i < |items| => assert ValidItem(items[i]); Entry(b, items[i].capability))
  }

  /** A legacy rule that names no capability enters no list. */
  function RuleEntries(items: seq<RawRule>): seq<Entry>
    requires forall i :: 0 <= i < |items| ==> ValidRule(items[i])
  {
    if items == [] then []
    else
      var r := items[|items| - 1];
      assert ValidRule(r);
      RuleEntries(items[..|items| - 1])
      + if r.capability.Some? then [Entry(BucketOf(ActionNamed(r.action.value).value), r.capability.value)] else []
  }

  /** The texts of a document, in the order they are read into the lists. */
  function ListEntries(raw: RawPolicy): seq<Entry>
    requires Validates(raw)
  {
    ItemEntries(Items(raw.allow), AllowedList) + ItemEntries(Items(raw.requireApproval), ApprovalList)
    + ItemEntries(Items(raw.deny), DeniedList) + RuleEntries(Items(raw.rules))
  }

  predicate AllParse(es: seq<Entry>)
  {
    forall i :: 0 <= i < |es| ==> Parse(es[i].text).Some?
  }

  /** The lists after reading entries up to the first text that is not a capability. */
  function Read(l: Lists, es: seq<Entry>): Lists
    decreases |es|
  {
    if es == [] || Parse(es[0].text).None? then l
    else Read(Append(l, es[0].bucket, Parse(es[0].text).value), es[1..])
  }

  /** Reading stops at the first text that is no capability, with what came before it read. */
  lemma {:induction false} ReadStops(l: Lists, read: seq<Entry>, bad: Entry, rest: seq<Entry>)
    requires AllParse(read) && Parse(bad.text).None?
    ensures Read(l, read + [bad] + rest) == Read(l, read)
    decreases |read|
  {
    hide Parse;
    if read == [] {
      assert read + [bad] + rest == [bad] + rest;
    } else {
      var l' := Append(l, read[0].bucket, Parse(read[0].text).value);
      ReadStops(l', read[1..], bad, rest);
      assert (read + [bad] + rest)[0] == read[0] && (read + [bad] + rest)[1..] == read[1..] + [bad] + rest;
    }
  }

  ghost predicate SomeCovers(cs: seq<Capability>, required: Capability)
  {
    exists c :: c in cs && Covers(c, required)
  }

  predicate AnyCovers(cs: seq<Capability>, required: Capability)
  {
    cs != [] && (Covers(cs[0], required) || AnyCovers(cs[1..], required))
  }

  lemma {:induction false} AnyCoversIffSome(cs: seq<Capability>, required: Capability)
    ensures AnyCovers(cs, required) <==> SomeCovers(cs, required)
  {
    if cs == [] {
    } else {
      AnyCoversIffSome(cs[1..], required);
      assert cs == [cs[0]] + cs[1..];
    }
  }

  /** The scan of the three lists. */
  function Scan(l: Lists, required: Capability): Ruling
  {
    if AnyCovers(l.denied, required) then Denied
    else if AnyCovers(l.requireApproval, required) then ApprovalRequired
    else if AnyCovers(l.allowed, required) then Allowed
    else DefaultDenied
  }

  function Answer(t: Text, policy: Option<PolicyRules>, l: Lists, q: Request): Result<Ruling>
  {
    if policy.Some? then Ok(Evaluate(t, policy.value, q))
    else if l == NO_LISTS then Ok(DefaultDenied)
    else if Parse(q.capability).None? then Raised(InvalidCapability(q.capability))
    else Ok(Scan(l, Parse(q.capability).value))
  }

  class CapabilitySystem {
    const text: Text
    var allowed: seq<Capability>
    var requireApproval: seq<Capability>
    var denied: seq<Capability>
    var policy: Option<PolicyRules>

    constructor (text: Text)
      ensures this.text == text && Contents() == NO_LISTS && policy == None
    {
      this.text := text;
      allowed, requireApproval, denied, policy := [], [], [], None;
    }

    function Contents(): Lists
      reads this
    {
      Lists(allowed, requireApproval, denied)
    }

    /** Loading a document sets the policy and adds to the lists. A text that is not a capability raises when it
        is reached: the policy is set by then and the texts before it are in the lists. */
    method LoadPolicy(raw: RawPolicy) returns (error: Option<Exn>)
      modifies this
      ensures Own(raw).Raised? ==>
        error == Some(Own(raw).error) && Contents() == old(Contents()) && policy == old(policy)
      ensures Own(raw).Ok? ==>
        && policy == Some(Own(raw).value)
        && Contents() == Read(old(Contents()), ListEntries(raw))
        && (error == None <==> AllParse(ListEntries(raw)))
    {
      var own := Own(raw);
      if own.Raised? {
        return Some(own.error);
      }
      policy := Some(own.value);
      error := ReadAll(ListEntries(raw));
    }

    /** Loading a file: the policy is the one the loader gives, with everything the file extends, while the lists
        are read from the file alone. */
    method LoadPolicyFile(disk: Disk, path: string, ghost rank: string -> nat) returns (error: Option<Exn>)
      requires Acyclic(disk, rank) && disk.searchPaths == []
      modifies this
      ensures path !in disk.files ==> error == Some(FileMissing)
      ensures path in disk.files && disk.files[path].NotYaml? ==> error == Some(NotYamlText)
      ensures path in disk.files && disk.files[path].Document? && Flatten(disk, path, rank).Raised? ==>
        error == Some(Flatten(disk, path, rank).error)
      ensures Flatten(disk, path, rank).Raised? ==> Contents() == old(Contents()) && policy == old(policy)
      ensures Flatten(disk, path, rank).Ok? ==>
        && path in disk.files && disk.files[path].Document? && Validates(disk.files[path].raw)
        && policy == Some(Flatten(disk, path, rank).value)
        && Contents() == Read(old(Contents()), ListEntries(disk.files[path].raw))
        && (error == None <==> AllParse(ListEntries(disk.files[path].raw)))
    {
      assert Locate(disk, path) == path;
      if path !in disk.files {
        return Some(FileMissing);
      }
      if disk.files[path].NotYaml? {
        return Some(NotYamlText);
      }
      var loader := new Loader(disk);
      var loaded := loader.Load(path, rank);
      if loaded.Raised? {
        return Some(loaded.error);
      }
      policy := Some(loaded.value.Value());
      error := ReadAll(ListEntries(disk.files[path].raw));
    }

    /** The loops over the allow, require_approval, deny and legacy sections, one after the other. */
    method ReadAll(es: seq<Entry>) returns (error: Option<Exn>)
      modifies this`allowed, this`requireApproval, this`denied
      ensures Contents() == Read(old(Contents()), es)
      ensures error == None <==> AllParse(es)
    {
      hide Parse;
      for i := 0 to |es|
        invariant AllParse(es[..i])
        invariant Read(Contents(), es[i..]) == Read(old(Contents()), es)
      {
        assert es[i..][1..] == es[i + 1..];
        var c := Parse(es[i].text);
        if c.None? {
          return Some(InvalidCapability(es[i].text));
        }
        match es[i].bucket {
          case AllowedList => allowed := allowed + [c.value];
          case ApprovalList => requireApproval := requireApproval + [c.value];
          case DeniedList => denied := denied + [c.value];
        }
      }
      return None;
    }

    method EvaluateCapability(q: Request) returns (r: Result<Ruling>)
      ensures r == Answer(text, policy, Contents(), q)
    {
      if policy.Some? {
        return Ok(Evaluate(text, policy.value, q));
      }
      if allowed == [] && denied == [] && requireApproval == [] {
        return Ok(DefaultDenied);
      }
      var required := Parse(q.capability);
      if required.None? {
        return Raised(InvalidCapability(q.capability));
      }
      r := Ok(Scan(Contents(), required.value));
    }
  }

  // ---------------------------------------------------------------- the two evaluators agree

  function ListOf(l: Lists, b: Bucket): seq<Capability>
  {
    match b
    case AllowedList => l.allowed
    case ApprovalList => l.requireApproval
    case DeniedList => l.denied
  }

  ghost predicate Listed(es: seq<Entry>, b: Bucket, c: Capability)
  {
    exists e :: e in es && e.bucket == b && Parse(e.text) == Some(c)
  }

  lemma {:induction false} ReadMembers(l: Lists, es: seq<Entry>, b: Bucket, c: Capability)
    requires AllParse(es)
    ensures c in ListOf(Read(l, es), b) <==> c in ListOf(l, b) || Listed(es, b, c)
    decreases |es|
  {
    hide Parse;
    if es == [] {
    } else {
      var l' := Append(l, es[0].bucket, Parse(es[0].text).value);
      ReadMembers(l', es[1..], b, c);
      assert es == [es[0]] + es[1..];
      assert c in ListOf(l', b) <==> c in ListOf(l, b) || (es[0].bucket == b && Parse(es[0].text) == Some(c));
    }
  }

  /** The document has this text in the section of the list, or in a legacy rule whose action belongs to the list. */
  ghost predicate Written(raw: RawPolicy, b: Bucket, text: string)
  {
    || (exists i :: i in Items(match b case AllowedList => raw.allow case ApprovalList => raw.requireApproval
                                 case DeniedList => raw.deny) && !i.Malformed? && i.capability == text)
    || exists r :: r in Items(raw.rules) && RuleWrites(r, b, text)
  }

  predicate RuleWrites(r: RawRule, b: Bucket, text: string)
  {
    && r.RawRule? && r.capability == Some(text) && r.action.Some?
    && match b
       case AllowedList => r.action.value in {"allow", "warn"}
       case ApprovalList => r.action.value == "require_approval"
       case DeniedList => r.action.value in {"deny", "block"}
  }

  /** What is read into a list are exactly the texts that are written for it; a legacy rule without a capability adds
      nothing. */
  lemma {:induction false} EntriesAreWritten(raw: RawPolicy, b: Bucket, text: string)
    requires Validates(raw)
    ensures Entry(b, text) in ListEntries(raw) <==> Written(raw, b, text)
  {
    hide ItemEntries, RuleEntries;
    ItemsRead(Items(raw.allow), AllowedList, b, text);
    ItemsRead(Items(raw.requireApproval), ApprovalList, b, text);
    ItemsRead(Items(raw.deny), DeniedList, b, text);
    RulesRead(Items(raw.rules), b, text);
  }

  lemma {:induction false} ItemsRead(items: seq<RawItem>, section: Bucket, b: Bucket, text: string)
    requires forall i :: 0 <= i < |items| ==> ValidItem(items[i])
    ensures Entry(b, text) in ItemEntries(items, section)
            <==> b == section && exists i :: i in items && !i.Malformed? && i.capability == text
  {
    if b == section {
      if i :| i in items && !i.Malformed? && i.capability == text {
        var k :| 0 <= k < |items| && items[k] == i;
        assert ItemEntries(items, section)[k] == Entry(b, text);
      }
    }
  }

  lemma {:induction false} RulesRead(items: seq<RawRule>, b: Bucket, text: string)
    requires forall i :: 0 <= i < |items| ==> ValidRule(items[i])
    ensures Entry(b, text) in RuleEntries(items) <==> exists r :: r in items && RuleWrites(r, b, text)
  {
    if items == [] {
    } else {
      var front, last := items[..|items| - 1], items[|items| - 1];
      assert ValidRule(last) && items == front + [last];
      RulesRead(front, b, text);
      var e := Entry(b, text);
      assert e in RuleEntries(items) <==> e in RuleEntries(front) || RuleWrites(last, b, text);
    }
  }

  /** A text that is no capability keeps all later sections out, in the order allow, require_approval, deny, legacy
      rules: the lists are then those of the document without these sections. */
  lemma {:induction false} LaterSectionsUnread(raw: RawPolicy, l: Lists)
    requires Validates(raw)
    ensures HasBadText(Items(raw.allow)) ==>
      Read(l, ListEntries(raw))
      == Read(l, ListEntries(raw.(requireApproval := Absent, deny := Absent, rules := Absent)))
    ensures HasBadText(Items(raw.requireApproval)) ==>
      Read(l, ListEntries(raw)) == Read(l, ListEntries(raw.(deny := Absent, rules := Absent)))
    ensures HasBadText(Items(raw.deny)) ==>
      Read(l, ListEntries(raw)) == Read(l, ListEntries(raw.(rules := Absent)))
  {
    hide Parse, HasBadText, AllParse, Read, ListEntries, ItemEntries, RuleEntries;
    var allow := ItemEntries(Items(raw.allow), AllowedList);
    var approval := ItemEntries(Items(raw.requireApproval), ApprovalList);
    var deny, legacy := ItemEntries(Items(raw.deny), DeniedList), RuleEntries(Items(raw.rules));
    SectionBySection(raw);
    SectionEntries(Items(raw.allow), AllowedList);
    SectionEntries(Items(raw.requireApproval), ApprovalList);
    SectionEntries(Items(raw.deny), DeniedList);
    if HasBadText(Items(raw.allow)) {
      ReadStopsWithin(l, allow, approval + deny + legacy);
    }
    if HasBadText(Items(raw.requireApproval)) {
      BadWithin(allow, approval);
      ReadStopsWithin(l, allow + approval, deny + legacy);
    }
    if HasBadText(Items(raw.deny)) {
      BadWithin(allow + approval, deny);
      ReadStopsWithin(l, allow + approval + deny, legacy);
    }
  }

  lemma {:induction false} SectionBySection(raw: RawPolicy)
    requires Validates(raw)
    ensures var allow, approval := ItemEntries(Items(raw.allow), AllowedList),
            ItemEntries(Items(raw.requireApproval), ApprovalList);
      var deny, legacy := ItemEntries(Items(raw.deny), DeniedList), RuleEntries(Items(raw.rules));
      && ListEntries(raw) == allow + (approval + deny + legacy)
      && ListEntries(raw) == (allow + approval) + (deny + legacy)
      && ListEntries(raw) == (allow + approval + deny) + legacy
      && ListEntries(raw.(requireApproval := Absent, deny := Absent, rules := Absent)) == allow
      && ListEntries(raw.(deny := Absent, rules := Absent)) == allow + approval
      && ListEntries(raw.(rules := Absent)) == allow + approval + deny
  {
    NoEntries();
    hide ItemEntries, RuleEntries;
    Regrouped(ItemEntries(Items(raw.allow), AllowedList), ItemEntries(Items(raw.requireApproval), ApprovalList),
      ItemEntries(Items(raw.deny), DeniedList), RuleEntries(Items(raw.rules)));
  }

  lemma Regrouped<T>(a: seq<T>, b: seq<T>, c: seq<T>, d: seq<T>)
    ensures a + b + c + d == a + (b + c + d) && a + b + c + d == (a + b) + (c + d)
    ensures a + b + c + [] == a + b + c && a + b + [] + [] == a + b && a + [] + [] + [] == a
  {
  }

  lemma NoEntries()
    ensures RuleEntries([]) == [] && forall b :: ItemEntries([], b) == []
  {
  }

  lemma BadWithin(a: seq<Entry>, b: seq<Entry>)
    requires !AllParse(b)
    ensures !AllParse(a + b)
  {
    hide Parse;
    var k :| 0 <= k < |b| && Parse(b[k].text).None?;
    assert (a + b)[|a| + k] == b[k];
  }

  /** An item of the section has a text that is no capability. */
  ghost predicate HasBadText(items: seq<RawItem>)
  {
    exists i :: i in items && !i.Malformed? && Parse(i.capability).None?
  }

  lemma {:induction false} SectionEntries(items: seq<RawItem>, section: Bucket)
    requires forall i :: 0 <= i < |items| ==> ValidItem(items[i])
    ensures HasBadText(items) <==> !AllParse(ItemEntries(items, section))
  {
    hide Parse;
    var es := ItemEntries(items, section);
    if HasBadText(items) {
      var i :| i in items && !i.Malformed? && Parse(i.capability).None?;
      var k :| 0 <= k < |items| && items[k] == i;
      assert es[k].text == i.capability;
    }
    if k :| 0 <= k < |es| && Parse(es[k].text).None? {
      assert items[k] in items && ValidItem(items[k]);
    }
  }

  lemma {:induction false} ReadStopsWithin(l: Lists, a: seq<Entry>, b: seq<Entry>)
    requires !AllParse(a)
    ensures Read(l, a + b) == Read(l, a)
    decreases |a|
  {
    hide Parse;
    assert (a + b)[0] == a[0] && (a + b)[1..] == a[1..] + b;
    if Parse(a[0].text).Some? {
      assert a == [a[0]] + a[1..];
      ReadStopsWithin(Append(l, a[0].bucket, Parse(a[0].text).value), a[1..], b);
    }
  }

  /** What the lists answer without a policy: nothing loaded denies by default; a malformed capability raises; and else
      a denied capability that covers the one asked for decides before one that needs approval, and that before one that
      is allowed. */
  lemma ListsDecide(t: Text, l: Lists, q: Request)
    ensures var answer, required := Answer(t, None, l, q), Parse(q.capability);
      && (answer == Raised(InvalidCapability(q.capability)) <==> l != NO_LISTS && required == None)
      && (answer.Raised? ==> required == None)
      && (required.Some? ==>
            && (answer == Ok(Denied) <==> SomeCovers(l.denied, required.value))
            && (answer == Ok(ApprovalRequired)
                <==> !SomeCovers(l.denied, required.value) && SomeCovers(l.requireApproval, required.value))
            && (answer == Ok(Allowed)
                <==> && !SomeCovers(l.denied, required.value) && !SomeCovers(l.requireApproval, required.value)
                     && SomeCovers(l.allowed, required.value)))
      && (answer.Ok? ==> answer.value in {Denied, ApprovalRequired, Allowed, DefaultDenied})
  {
    if Parse(q.capability).Some? {
      AnyCoversIffSome(l.denied, Parse(q.capability).value);
      AnyCoversIffSome(l.requireApproval, Parse(q.capability).value);
      AnyCoversIffSome(l.allowed, Parse(q.capability).value);
    }
  }

  /** No conditions, no risk levels, and every legacy rule names its capability. */
  predicate Simple(raw: RawPolicy)
    requires Validates(raw)
  {
    && (forall i :: 0 <= i < |ParsedRules(raw)| ==> ParsedRules(raw)[i].conditions == [])
    && Items(raw.riskLevels) == []
    && forall i :: 0 <= i < |Items(raw.rules)| ==> Items(raw.rules)[i].capability.Some?
  }

  predicate Stands(e: Entry, r: Rule)
  {
    e == Entry(BucketOf(r.action), r.capability)
  }

  /** The entries of a simple document are its rules, section by section. */
  lemma EntriesAreRules(raw: RawPolicy)
    requires Validates(raw) && Simple(raw)
    ensures forall e :: e in ListEntries(raw) ==> exists r :: r in ParsedRules(raw) && Stands(e, r)
    ensures forall r :: r in ParsedRules(raw) ==> exists e :: e in ListEntries(raw) && Stands(e, r)
  {
    var legacy, deny, approval, allow := Items(raw.rules), Items(raw.deny), Items(raw.requireApproval),
        Items(raw.allow);
    LegacyStands(legacy);
    PairUp(RuleEntries(legacy), LegacyRules(legacy));
    PairUp(ItemEntries(deny, DeniedList), ItemRules(deny, Deny));
    PairUp(ItemEntries(approval, ApprovalList), ItemRules(approval, RequireApproval));
    PairUp(ItemEntries(allow, AllowedList), ItemRules(allow, Allow));
  }

  lemma {:induction false} LegacyStands(items: seq<RawRule>)
    requires forall k :: 0 <= k < |items| ==> ValidRule(items[k]) && items[k].capability.Some?
    ensures |RuleEntries(items)| == |items|
    ensures forall i :: 0 <= i < |items| ==> Stands(RuleEntries(items)[i], LegacyRules(items)[i])
  {
    if items == [] {
    } else {
      var n := |items| - 1;
      LegacyStands(items[..n]);
      assert ValidRule(items[n]) && items[n].capability.Some?;
      assert LegacyRules(items) == LegacyRules(items[..n]) + [LegacyRule(items[n])];
    }
  }

  lemma PairUp(es: seq<Entry>, rs: seq<Rule>)
    requires |es| == |rs| && forall i :: 0 <= i < |es| ==> Stands(es[i], rs[i])
    ensures forall e :: e in es ==> exists r :: r in rs && Stands(e, r)
    ensures forall r :: r in rs ==> exists e :: e in es && Stands(e, r)
  {
    forall r | r in rs
      ensures exists e :: e in es && Stands(e, r)
    {
      var i :| 0 <= i < |rs| && rs[i] == r;
      assert es[i] in es;
    }
  }

  /** A capability in list `b` covers the request exactly when a rule with an action of that list matches. */
  lemma ListCoversIffRuleMatches(t: Text, raw: RawPolicy, b: Bucket, actions: set<Action>, q: Request)
    requires Validates(raw) && Simple(raw) && AllParse(ListEntries(raw)) && Parse(q.capability).Some?
    requires forall a :: a in actions <==> BucketOf(a) == b
    ensures AnyCovers(ListOf(Read(NO_LISTS, ListEntries(raw)), b), Parse(q.capability).value)
            <==> AnyMatch(t, ParsedRules(raw), actions, q)
  {
    var cs, required := ListOf(Read(NO_LISTS, ListEntries(raw)), b), Parse(q.capability).value;
    AnyCoversIffSome(cs, required);
    EntriesAreRules(raw);
    if SomeCovers(cs, required) {
      var c :| c in cs && Covers(c, required);
      ReadMembers(NO_LISTS, ListEntries(raw), b, c);
      var e :| e in ListEntries(raw) && e.bucket == b && Parse(e.text) == Some(c);
      var r :| r in ParsedRules(raw) && Stands(e, r);
      assert Selected(t, r, actions, q);
    }
    if AnyMatch(t, ParsedRules(raw), actions, q) {
      var r :| r in ParsedRules(raw) && Selected(t, r, actions, q);
      var e :| e in ListEntries(raw) && Stands(e, r);
      assert Parse(e.text).Some?;
      ReadMembers(NO_LISTS, ListEntries(raw), b, Parse(e.text).value);
      assert Covers(Parse(e.text).value, required);
    }
  }

  /** After loading one simple document into an empty system, scanning the lists gives the ruling of the policy
      for every well-formed capability, context and payload, but for warnings, which the lists do not know. */
  lemma EvaluatorsAgree(t: Text, raw: RawPolicy, q: Request)
    requires Own(raw).Ok? && Simple(raw) && AllParse(ListEntries(raw)) && Parse(q.capability).Some?
    ensures var scan, ruling := Answer(t, None, Read(NO_LISTS, ListEntries(raw)), q),
            Answer(t, Some(Own(raw).value), Read(NO_LISTS, ListEntries(raw)), q);
      scan == if ruling == Ok(Warned) then Ok(Allowed) else ruling
  {
    hide Evaluate, Read, AnyMatch, Own, Simple, ListEntries, AllParse;
    SimpleRules(raw);
    SimpleMeaning(t, Own(raw).value, q);
    ListCoversIffRuleMatches(t, raw, DeniedList, DENIES, q);
    ListCoversIffRuleMatches(t, raw, ApprovalList, APPROVALS, q);
    ListCoversIffRuleMatches(t, raw, AllowedList, PERMITS, q);
  }

  /** What a policy without risk levels means, warnings aside. */
  lemma SimpleMeaning(t: Text, p: PolicyRules, q: Request)
    requires p.riskLevels == map[]
    ensures (if Evaluate(t, p, q) == Warned then Allowed else Evaluate(t, p, q)) ==
      if AnyMatch(t, p.rules, DENIES, q) then Denied
      else if AnyMatch(t, p.rules, APPROVALS, q) then ApprovalRequired
      else if AnyMatch(t, p.rules, PERMITS, q) then Allowed
      else DefaultDenied
  {
    hide Explain, AnyMatch, FirstPermit;
    ExplainRefinesMeaning(t, p, q);
    SomePermitIffAny(t, p.rules, q);
  }

  lemma SimpleRules(raw: RawPolicy)
    requires Own(raw).Ok? && Simple(raw)
    ensures Validates(raw) && Own(raw).value.rules == ParsedRules(raw) && Own(raw).value.riskLevels == map[]
  {
  }
}
