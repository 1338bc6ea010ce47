/** Policies as files: validation, parsing, layering and the memoizing loader of capfence/core/policy.py:184-320
    and 403-451. A YAML document is given by the parts of it that the code looks at. */
module PolicyLoader {
  import opened Json
  import opened Events
  import opened Policy

  /** A section of the document: missing, present but null, a list, or something else. */
  datatype Section<T> = Absent | Null | Listed(items: seq<T>) | NotAList

  /** An item of a deny, require_approval or allow section. */
  datatype RawItem =
    | Plain(capability: string)
    | Guarded(capability: string, conditions: seq<Condition>, unknownConditions: bool)
    | Malformed

  /** An item of the legacy rules section; of its conditions only keywords and patterns are kept. */
  datatype RawRule =
    | RawRule(capability: Option<string>, action: Option<string>, keywords: seq<Condition>, unknownKeys: bool)
    | NotAMapping

  datatype RawLevel = RawLevel(level: string, action: Option<string>)

  datatype RawPolicy = RawPolicy(
    unknownKeys: bool, deny: Section<RawItem>, requireApproval: Section<RawItem>, allow: Section<RawItem>,
    rules: Section<RawRule>, riskLevels: Section<RawLevel>, bases: seq<string>)

  const EMPTY_POLICY := RawPolicy(false, Absent, Absent, Absent, Absent, Absent, [])

  function ActionNamed(s: string): Option<Action>
  {
    if s == "allow" then Some(Allow)
    else if s == "deny" then Some(Deny)
    else if s == "block" then Some(Block)
    else if s == "require_approval" then Some(RequireApproval)
    else if s == "warn" then Some(Warn)
    else None
  }

  // ---------------------------------------------------------------- validation

  predicate ValidItem(i: RawItem)
  {
    match i
    case Plain(_) => true
    case Guarded(capability, _, unknown) => capability != "" && !unknown
    case Malformed => false
  }

  predicate ValidRule(r: RawRule)
  {
    r.RawRule? && r.action.Some? && ActionNamed(r.action.value).Some? && !r.unknownKeys
  }

  predicate ValidLevel(l: RawLevel)
  {
    l.action.Some? && ActionNamed(l.action.value).Some?
  }

  predicate ValidSection<T>(s: Section<T>, valid: T -> bool)
  {
    !s.NotAList? && (s.Listed? ==> forall i :: 0 <= i < |s.items| ==> valid(s.items[i]))
  }

  /** `Policy.validate`; it lets null sections pass. */
  predicate Validates(raw: RawPolicy)
  {
    && !raw.unknownKeys
    && ValidSection(raw.deny, ValidItem) && ValidSection(raw.requireApproval, ValidItem)
    && ValidSection(raw.allow, ValidItem)
    && ValidSection(raw.rules, ValidRule) && ValidSection(raw.riskLevels, ValidLevel)
  }

  /** Parsing iterates over each section, over the items of `risk_levels`, and so fails on a null one. */
  predicate HasNull(raw: RawPolicy)
  {
    raw.deny.Null? || raw.requireApproval.Null? || raw.allow.Null? || raw.rules.Null? || raw.riskLevels.Null?
  }

  // ---------------------------------------------------------------- parsing

  function Items<T>(s: Section<T>): seq<T>
  {
    if s.Listed? then s.items else []
  }

  function ItemRule(i: RawItem, a: Action): Rule
    requires ValidItem(i)
  {
    match i
    case Plain(capability) => Rule(capability, a, [])
    case Guarded(capability, conditions, _) => Rule(capability, a, conditions)
  }

  function ItemRules(items: seq<RawItem>, a: Action): (rules: seq<Rule>)
    requires forall i :: 0 <= i < |items| ==> ValidItem(items[i])
  {
    seq(|items|, i requires 0 <= i < |items| => ItemRule(items[i], a))
  }

  function LegacyRule(r: RawRule): Rule
    requires ValidRule(r)
  {
    Rule(if r.capability.Some? then r.capability.value else "*", ActionNamed(r.action.value).value, r.keywords)
  }

  function LegacyRules(items: seq<RawRule>): seq<Rule>
    requires forall i :: 0 <= i < |items| ==> ValidRule(items[i])
  {
    seq(|items|, i requires 0 <= i < |items| => LegacyRule(items[i]))
  }

  function ParsedRules(raw: RawPolicy): seq<Rule>
    requires Validates(raw)
  {
    LegacyRules(Items(raw.rules)) + ItemRules(Items(raw.deny), Deny)
    + ItemRules(Items(raw.requireApproval), RequireApproval) + ItemRules(Items(raw.allow), Allow)
  }

  function ParsedLevels(levels: seq<RawLevel>): map<string, Action>
    requires forall i :: 0 <= i < |levels| ==> ValidLevel(levels[i])
  {
    if levels == [] then map[]
    else
      var l := levels[|levels| - 1];
      assert ValidLevel(l);
      ParsedLevels(levels[..|levels| - 1])[l.level := ActionNamed(l.action.value).value]
  }

  /** The rules a document stands for on its own. */
  function Own(raw: RawPolicy): Result<PolicyRules>
  {
    if !Validates(raw) then Raised(PolicyLoadError)
    else if HasNull(raw) then Raised(WrongType)
    else Ok(PolicyRules(ParsedRules(raw), ParsedLevels(Items(raw.riskLevels))))
  }

  /** A validated document fails to parse if and only if one of its sections is present but null; and any section of
      any validated document may be null without failing validation. */
  lemma ParsesIffNoSectionNull(raw: RawPolicy)
    requires Validates(raw)
    ensures Own(raw) == Raised(WrongType)
            <==> Null in {raw.deny, raw.requireApproval, raw.allow} || raw.rules == Null || raw.riskLevels == Null
    ensures Own(raw).Ok? <==> Own(raw) != Raised(WrongType)
    ensures NullPassesOnlyValidation(raw.(deny := Null)) && NullPassesOnlyValidation(raw.(requireApproval := Null))
    ensures NullPassesOnlyValidation(raw.(allow := Null)) && NullPassesOnlyValidation(raw.(rules := Null))
    ensures NullPassesOnlyValidation(raw.(riskLevels := Null))
  {
  }

  predicate NullPassesOnlyValidation(raw: RawPolicy)
  {
    Validates(raw) && Own(raw) == Raised(WrongType)
  }

  // ---------------------------------------------------------------- layering

  /** `base.merge(other)`: the rules of `other` come first, its risk levels override. */
  function Merged(base: PolicyRules, other: PolicyRules): PolicyRules
  {
    PolicyRules(other.rules + base.rules, base.riskLevels + other.riskLevels)
  }

  class LoadedPolicy {
    var rules: seq<Rule>
    var riskLevels: map<string, Action>

    function Value(): PolicyRules
      reads this
    {
      PolicyRules(rules, riskLevels)
    }

    /** A document that passed validation and has no null section. */
    constructor (raw: RawPolicy)
      requires Validates(raw) && !HasNull(raw)
      ensures Own(raw) == Ok(Value())
    {
      hide LegacyRules, ItemRules, ParsedLevels;
      rules, riskLevels := [], map[];
      new;
      ParseLegacy(Items(raw.rules));
      ParseSection(Items(raw.deny), Deny);
      ParseSection(Items(raw.requireApproval), RequireApproval);
      ParseSection(Items(raw.allow), Allow);
      assert rules == ParsedRules(raw);
      ParseLevels(Items(raw.riskLevels));
    }

    method ParseLegacy(items: seq<RawRule>)
      requires forall i :: 0 <= i < |items| ==> ValidRule(items[i])
      modifies this`rules
      ensures rules == old(rules) + LegacyRules(items)
    {
      for i := 0 to |items|
        invariant rules == old(rules) + LegacyRules(items[..i])
      {
        rules := rules + [LegacyRule(items[i])];
      }
      assert items[..|items|] == items;
    }

    method ParseLevels(levels: seq<RawLevel>)
      requires riskLevels == map[] && forall i :: 0 <= i < |levels| ==> ValidLevel(levels[i])
      modifies this`riskLevels
      ensures riskLevels == ParsedLevels(levels)
    {
      for i := 0 to |levels|
        invariant riskLevels == ParsedLevels(levels[..i])
      {
        assert levels[..i + 1][..i] == levels[..i];
        riskLevels := riskLevels[levels[i].level := ActionNamed(levels[i].action.value).value];
      }
      assert levels[..|levels|] == levels;
    }

    method ParseSection(items: seq<RawItem>, a: Action)
      requires forall i :: 0 <= i < |items| ==> ValidItem(items[i])
      modifies this`rules
      ensures rules == old(rules) + ItemRules(items, a)
    {
      for i := 0 to |items|
        invariant rules == old(rules) + ItemRules(items[..i], a)
      {
        rules := rules + [ItemRule(items[i], a)];
      }
      assert items[..|items|] == items;
    }

    method Merge(other: LoadedPolicy)
      modifies this
      ensures Value() == Merged(old(Value()), old(other.Value()))
    {
      rules := other.rules + rules;
      riskLevels := riskLevels + other.riskLevels;
    }
  }

  // ---------------------------------------------------------------- the loader

  /** A policy file: a document, or text that is not YAML. */
  datatype File = Document(raw: RawPolicy) | NotYaml

  /** The file system as the loader sees it: the files by path, and its search paths. */
  datatype Disk = Disk(files: map<string, File>, searchPaths: seq<string>)

  predicate IsAbsolute(path: string)
  {
    StartsWith(path, "/")
  }

  /** A relative path is looked up below each search path in turn. */
  function Locate(d: Disk, path: string): string
  {
    if IsAbsolute(path) then path else LocateIn(d, path, d.searchPaths)
  }

  function LocateIn(d: Disk, path: string, searchPaths: seq<string>): string
  {
    if searchPaths == [] then path
    else if searchPaths[0] + "/" + path in d.files then searchPaths[0] + "/" + path
    else LocateIn(d, path, searchPaths[1..])
  }

  /** The names a file extends, in order. */
  function Bases(d: Disk, path: string): seq<string>
  {
    if Locate(d, path) in d.files && d.files[Locate(d, path)].Document? then d.files[Locate(d, path)].raw.bases else []
  }

  /** No file extends itself, directly or not: names can be ranked so that bases rank lower. */
  ghost predicate Acyclic(d: Disk, rank: string -> nat)
  {
    forall path, i :: 0 <= i < |Bases(d, path)| ==> rank(Bases(d, path)[i]) < rank(path)
  }

  function OwnAt(d: Disk, path: string): Result<PolicyRules>
  {
    var at := Locate(d, path);
    if at !in d.files || d.files[at].NotYaml? then Raised(PolicyLoadError) else Own(d.files[at].raw)
  }

  /** The policy a name stands for, computed without a cache. */
  ghost function Flatten(d: Disk, path: string, rank: string -> nat): Result<PolicyRules>
    requires Acyclic(d, rank)
    decreases rank(path), 1, 0
  {
    match OwnAt(d, path)
    case Raised(e) => Raised(e)
    case Ok(own) =>
      if Bases(d, path) == [] then Ok(own)
      else
        match Layers(d, path, |Bases(d, path)|, rank)
        case Raised(e) => Raised(e)
        case Ok(base) => Ok(Merged(base, own))
  }

  /** The first `n` bases of `path` merged over the empty policy. */
  ghost function Layers(d: Disk, path: string, n: nat, rank: string -> nat): Result<PolicyRules>
    requires Acyclic(d, rank) && n <= |Bases(d, path)|
    decreases rank(path), 0, n
  {
    if n == 0 then Ok(PolicyRules([], map[]))
    else
      match Layers(d, path, n - 1, rank)
      case Raised(e) => Raised(e)
      case Ok(base) =>
        match Flatten(d, Bases(d, path)[n - 1], rank)
        case Raised(e) => Raised(e)
        case Ok(parent) => Ok(Merged(base, parent))
  }

  class Loader {
    const disk: Disk
    var cache: map<string, LoadedPolicy>

    constructor (disk: Disk)
      ensures this.disk == disk && cache == map[]
    {
      this.disk := disk;
      cache := map[];
    }

    /** Every cached policy is the one an uncached load would give. */
    ghost predicate Valid(rank: string -> nat)
      requires Acyclic(disk, rank)
      reads this, cache.Values
    {
      forall k :: k in cache ==> Flatten(disk, k, rank) == Ok(cache[k].Value())
    }

    /** Loading gives the policy of the name, whatever the cache holds; policies already cached are neither
        replaced nor altered. */
    method Load(path: string, ghost rank: string -> nat) returns (r: Result<LoadedPolicy>)
      requires Acyclic(disk, rank) && Valid(rank)
      modifies this`cache
      ensures Valid(rank)
      ensures r.Ok? ==> Flatten(disk, path, rank) == Ok(r.value.Value())
      ensures r.Raised? ==> Flatten(disk, path, rank) == Raised(r.error)
      ensures r.Ok? ==> path in cache && cache[path] == r.value
      ensures CacheGrew(old(cache))
      ensures forall k :: k in cache && k !in old(cache) ==> fresh(cache[k])
      decreases rank(path), 1, 0
    {
      if path in cache {
        return Ok(cache[path]);
      }
      var at := Locate(disk, path);
      if at !in disk.files {
        return Raised(PolicyLoadError);
      }
      var file := disk.files[at];
      if file.NotYaml? || !Validates(file.raw) {
        return Raised(PolicyLoadError);
      }
      if HasNull(file.raw) {
        return Raised(WrongType);
      }
      var policy := new LoadedPolicy(file.raw);
      if file.raw.bases != [] {
        var base := LoadBases(path, rank);
        if base.Raised? {
          return Raised(base.error);
        }
        base.value.Merge(policy);
        policy := base.value;
      }
      cache := cache[path := policy];
      return Ok(policy);
    }

    /** `Policy({}, policy_id="merged")`. */
    static method EmptyPolicy() returns (p: LoadedPolicy)
      ensures fresh(p) && p.Value() == PolicyRules([], map[])
    {
      p := new LoadedPolicy(EMPTY_POLICY);
    }

    /** The loop of `load` over the names a file extends: a new policy with each of them merged in. */
    method LoadBases(path: string, ghost rank: string -> nat) returns (r: Result<LoadedPolicy>)
      requires Acyclic(disk, rank) && Valid(rank)
      modifies this`cache
      ensures Valid(rank) && CacheGrew(old(cache))
      ensures forall k :: k in cache && k !in old(cache) ==> fresh(cache[k])
      ensures r.Ok? ==> fresh(r.value) && r.value !in cache.Values
      ensures r.Ok? ==> Layers(disk, path, |Bases(disk, path)|, rank) == Ok(r.value.Value())
      ensures r.Raised? ==> Layers(disk, path, |Bases(disk, path)|, rank) == Raised(r.error)
      decreases rank(path), 0, 1
    {
      hide Flatten, Layers;
      var bases := Bases(disk, path);
      var base := EmptyPolicy();
      NoLayers(disk, path, rank);
      for i := 0 to |bases|
        invariant Valid(rank) && CacheGrew(old(cache))
        invariant forall k :: k in cache && k !in old(cache) ==> fresh(cache[k])
        invariant fresh(base) && base !in cache.Values
        invariant Layers(disk, path, i, rank) == Ok(base.Value())
      {
        var failed := LoadBase(path, i, base, rank);
        if failed.Some? {
          LayersStop(disk, path, i + 1, rank);
          return Raised(failed.value);
        }
      }
      r := Ok(base);
    }

    /** One turn of that loop: load the next base and merge it in. */
    method LoadBase(path: string, i: nat, base: LoadedPolicy, ghost rank: string -> nat) returns (failed: Option<Exn>)
      requires Acyclic(disk, rank) && Valid(rank)
      requires i < |Bases(disk, path)| && base !in cache.Values
      requires Layers(disk, path, i, rank) == Ok(base.Value())
      modifies this`cache, base
      ensures Valid(rank) && CacheGrew(old(cache)) && base !in cache.Values
      ensures forall k :: k in cache && k !in old(cache) ==> fresh(cache[k])
      ensures Layers(disk, path, i + 1, rank) == if failed.Some? then Raised(failed.value) else Ok(base.Value())
      decreases rank(path), 0, 0
    {
      var parent := Load(Bases(disk, path)[i], rank);
      if parent.Raised? {
        return Some(parent.error);
      }
      base.Merge(parent.value);
      return None;
    }

    /** Nothing cached before has been replaced. */
    predicate CacheGrew(before: map<string, LoadedPolicy>)
      reads this
    {
      forall k :: k in before ==> k in cache && cache[k] == before[k]
    }
  }

  lemma {:induction false} NoLayers(d: Disk, path: string, rank: string -> nat)
    requires Acyclic(d, rank)
    ensures Layers(d, path, 0, rank) == Ok(PolicyRules([], map[]))
  {
  }

  /** Once a base fails to load, so does every longer list of bases. */
  lemma {:induction false} LayersStop(d: Disk, path: string, n: nat, rank: string -> nat)
    requires Acyclic(d, rank) && n <= |Bases(d, path)| && Layers(d, path, n, rank).Raised?
    ensures Layers(d, path, |Bases(d, path)|, rank) == Layers(d, path, n, rank)
    decreases |Bases(d, path)| - n
  {
    hide Flatten;
    if n < |Bases(d, path)| {
      LayersStop(d, path, n + 1, rank);
    }
  }
}
