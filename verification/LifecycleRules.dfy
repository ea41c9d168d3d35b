/** The rules of an ECR lifecycle policy: functions/artifact/apis/v1alpha1/repository.go and BuildLifecyclePolicy
    of functions/artifact/service/repository.go. */
module LifecycleRules {
  import opened Wrappers

  const MAX_LIFECYCLE_RULES := 25

  datatype Rule = Rule(
    tagPrefixes: seq<string>, tagPatterns: seq<string>, untagged: bool, keepCount: Option<int>, expireAfterDays: Option<int>)

  datatype Error = TooMany | Invalid(index: nat) | MatchesAllBeforeLast(index: nat)

  datatype Count = MoreThan(number: int) | SincePushed(days: int)

  datatype Tags = AnyStatus | Untagged | Prefixes(prefixes: seq<string>) | Patterns(patterns: seq<string>)

  datatype PolicyRule = PolicyRule(priority: nat, tags: Tags, count: Count)

  // ---- Validation ----

  predicate AtMostOne(a: bool, b: bool, c: bool) { !(a && b) && !(a && c) && !(b && c) }

  predicate IsValid(rule: Rule) {
    && AtMostOne(rule.tagPrefixes != [], rule.tagPatterns != [], rule.untagged)
    && "" !in rule.tagPrefixes && "" !in rule.tagPatterns
    && (rule.keepCount.Some? <==> rule.expireAfterDays.None?)
    && (rule.keepCount.Some? ==> rule.keepCount.value >= 1)
    && (rule.expireAfterDays.Some? ==> rule.expireAfterDays.value >= 1)
  }

  predicate MatchesAllImages(rule: Rule) { rule.tagPrefixes == [] && rule.tagPatterns == [] && !rule.untagged }

  method Validate(rule: Rule) returns (ok: bool)
    ensures ok <==> IsValid(rule)
  {
    var selectors := 0;
    if |rule.tagPrefixes| > 0 {
      selectors := selectors + 1;
    }
    if |rule.tagPatterns| > 0 {
      selectors := selectors + 1;
    }
    if rule.untagged {
      selectors := selectors + 1;
    }
    if selectors > 1 || "" in rule.tagPrefixes || "" in rule.tagPatterns {
      return false;
    }
    if rule.keepCount.None? == rule.expireAfterDays.None? {
      return false;
    }
    if rule.keepCount.Some? && rule.keepCount.value < 1 {
      return false;
    }
    ok := rule.expireAfterDays.None? || rule.expireAfterDays.value >= 1;
  }

  predicate IsAdmissible(rules: seq<Rule>, i: int)
    requires 0 <= i < |rules|
  {
    IsValid(rules[i]) && (MatchesAllImages(rules[i]) ==> i == |rules| - 1)
  }

  /** No error exactly for at most 25 valid rules of which only the last may match all images; otherwise the
      error names the first offending rule. */
  method ValidateLifecycleRules(rules: seq<Rule>) returns (error: Option<Error>)
    ensures error.None? <==> |rules| <= MAX_LIFECYCLE_RULES && forall i :: 0 <= i < |rules| ==> IsAdmissible(rules, i)
    ensures error == Some(TooMany) <==> |rules| > MAX_LIFECYCLE_RULES
    ensures error.Some? && error.value.Invalid? ==>
      var i := error.value.index;
      i < |rules| && !IsValid(rules[i]) && forall k :: 0 <= k < i ==> IsAdmissible(rules, k)
    ensures error.Some? && error.value.MatchesAllBeforeLast? ==>
      var i := error.value.index;
      i < |rules| - 1 && IsValid(rules[i]) && MatchesAllImages(rules[i]) && forall k :: 0 <= k < i ==> IsAdmissible(rules, k)
  {
    hide IsValid;
    hide MatchesAllImages;
    if |rules| > MAX_LIFECYCLE_RULES {
      return Some(TooMany);
    }
    for i := 0 to |rules|
      invariant forall k :: 0 <= k < i ==> IsAdmissible(rules, k)
    {
      var ok := Validate(rules[i]);
      if !ok {
        assert !IsAdmissible(rules, i);
        return Some(Invalid(i));
      }
      if MatchesAllImages(rules[i]) && i != |rules| - 1 {
        assert !IsAdmissible(rules, i);
        return Some(MatchesAllBeforeLast(i));
      }
    }
    error := None;
  }

  // ---- The policy ----

  function TagsOf(rule: Rule): Tags {
    if rule.tagPrefixes != [] then Prefixes(rule.tagPrefixes)
    else if rule.tagPatterns != [] then Patterns(rule.tagPatterns)
    else if rule.untagged then Untagged
    else AnyStatus
  }

  function CountOf(rule: Rule): Count
    requires IsValid(rule)
  {
    if rule.keepCount.Some? then MoreThan(rule.keepCount.value) else SincePushed(rule.expireAfterDays.value)
  }

  predicate IsEntry(entry: PolicyRule, rules: seq<Rule>, i: int)
    requires 0 <= i < |rules|
  {
    IsAdmissible(rules, i) && entry == PolicyRule(i + 1, TagsOf(rules[i]), CountOf(rules[i]))
  }

  method BuildLifecyclePolicy(rules: seq<Rule>) returns (policy: Result<seq<PolicyRule>, Error>)
    ensures policy.Ok? <==> |rules| <= MAX_LIFECYCLE_RULES && forall i :: 0 <= i < |rules| ==> IsAdmissible(rules, i)
    ensures policy.Ok? ==> IsPolicyOf(policy.value, rules)
  {
    var error := ValidateLifecycleRules(rules);
    if error.Some? {
      return Err(error.value);
    }
    var built: seq<PolicyRule> := [];
    for i := 0 to |rules|
      invariant |built| == i
      invariant forall k :: 0 <= k < i ==> IsEntry(built[k], rules, k)
    {
      assert IsAdmissible(rules, i);
      built := built + [PolicyRule(i + 1, TagsOf(rules[i]), CountOf(rules[i]))];
    }
    policy := Ok(built);
  }

  predicate IsPolicyOf(policy: seq<PolicyRule>, rules: seq<Rule>) {
    && |policy| == |rules|
    && forall i :: 0 <= i < |rules| ==> IsEntry(policy[i], rules, i)
  }

  /** Priorities are distinct and ascend, and whatever matches any image comes last, with the highest. */
  lemma AnyComesLast(policy: seq<PolicyRule>, rules: seq<Rule>, i: int, k: int)
    requires IsPolicyOf(policy, rules) && 0 <= i < |policy| && 0 <= k < |policy| && i != k
    ensures policy[i].priority != policy[k].priority
    ensures policy[i].tags == AnyStatus ==> policy[k].tags != AnyStatus && policy[k].priority < policy[i].priority
  {
    assert IsEntry(policy[i], rules, i) && IsEntry(policy[k], rules, k);
  }

  /** A rule says one thing: no selector and no count of a valid rule is lost in the policy. */
  lemma RulesAreRecoverable(a: Rule, b: Rule)
    requires IsValid(a) && IsValid(b) && TagsOf(a) == TagsOf(b) && CountOf(a) == CountOf(b)
    ensures a == b
  {}
}
