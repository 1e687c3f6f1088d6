/** Container filtering of the Docker check: `get_filters` turns the
    instance's exclude and include rules into patterns, and
    `_are_tags_filtered` decides from a container's tags.  Regular expressions
    stay abstract: `matches(pattern, tag)` stands for `re.match`, which
    anchors at the start of the tag. */
module DockerFilters {
  import opened Wrappers
  import opened Text

  /** The `exclude` and `include` keys of the instance configuration, `None`
      when the key is missing. */
  datatype Instance = Instance(excludeRules: Option<seq<string>>, includeRules: Option<seq<string>>)

  datatype Filters = Filters(excludePatterns: set<string>, includePatterns: set<string>, tagNames: set<string>)

  /** `rule.split(':')[0]`: the tag name a rule is about. */
  function RuleTagName(rule: string): (n: string)
    ensures ':' !in n && StartsWith(rule, n)
    ensures ':' in rule ==> StartsWith(rule, n + ":")
  {
    var parts := SplitFirst(rule, ':');
    assert parts.rest.Some? ==> rule == parts.head + ":" + parts.rest.value;
    parts.head
  }

  /** The exclude rules, or the empty list when the key is missing or empty. */
  function Rules(o: Option<seq<string>>): seq<string> {
    if o.Some? then o.value else []
  }

  /** `get_filters`: nothing when there is no non-empty exclude list (the check
      then runs without filtering); otherwise the two pattern sets and the
      tag names both kinds of rule talk about. */
  function GetFilters(inst: Instance): (r: Option<Filters>)
    ensures r.None? <==> Rules(inst.excludeRules) == []
    ensures r.Some? ==> r.value.excludePatterns == (set i | 0 <= i < |Rules(inst.excludeRules)| :: Rules(inst.excludeRules)[i])
    ensures r.Some? ==> r.value.includePatterns == (set i | 0 <= i < |Rules(inst.includeRules)| :: Rules(inst.includeRules)[i])
    ensures r.Some? ==> forall n :: n in r.value.tagNames <==>
      exists rule :: (rule in r.value.excludePatterns || rule in r.value.includePatterns) && n == RuleTagName(rule)
  {
    var ex := Rules(inst.excludeRules);
    var inc := Rules(inst.includeRules);
    if ex == [] then None
    else
      var exclude := set i | 0 <= i < |ex| :: ex[i];
      var incl := set i | 0 <= i < |inc| :: inc[i];
      Some(Filters(exclude, incl, set rule | rule in exclude + incl :: RuleTagName(rule)))
  }

  /** Whether some tag matches some pattern. */
  ghost predicate MatchesAny(tags: seq<string>, patterns: set<string>, matches: (string, string) -> bool) {
    exists p, i :: p in patterns && 0 <= i < |tags| && matches(p, tags[i])
  }

  /** `_tags_match_patterns`: the two nested loops with their early exit,
      over the patterns in whatever order the set yields them. */
  method TagsMatchPatterns(tags: seq<string>, patterns: set<string>, matches: (string, string) -> bool)
    returns (found: bool)
    ensures found <==> MatchesAny(tags, patterns, matches)
  {
    var todo := patterns;
    while todo != {}
      invariant todo <= patterns
      invariant forall p :: p in patterns && p !in todo ==> forall i :: 0 <= i < |tags| ==> !matches(p, tags[i])
      decreases |todo|
    {
      var rule :| rule in todo;
      var i := 0;
      while i < |tags|
        invariant 0 <= i <= |tags|
        invariant forall k :: 0 <= k < i ==> !matches(rule, tags[k])
      {
        if matches(rule, tags[i]) {
          return true;
        }
        i := i + 1;
      }
      todo := todo - {rule};
    }
    assert forall p :: p in patterns ==> forall i :: 0 <= i < |tags| ==> !matches(p, tags[i]);
    return false;
  }

  /** `_are_tags_filtered`: a container is filtered out when one of its tags
      matches an exclude pattern and none matches an include pattern. */
  method AreTagsFiltered(tags: seq<string>, f: Filters, matches: (string, string) -> bool)
    returns (filtered: bool)
    ensures filtered <==> MatchesAny(tags, f.excludePatterns, matches) && !MatchesAny(tags, f.includePatterns, matches)
  {
    var excluded := TagsMatchPatterns(tags, f.excludePatterns, matches);
    if excluded {
      var included := TagsMatchPatterns(tags, f.includePatterns, matches);
      if included {
        return false;
      }
      return true;
    }
    return false;
  }

  /** Include rules win: a container whose tags match an include pattern is
      never filtered, whatever the exclude rules say. */
  lemma IncludeOverridesExclude(tags: seq<string>, f: Filters, matches: (string, string) -> bool,
                                p: string, i: nat)
    requires p in f.includePatterns && i < |tags| && matches(p, tags[i])
    ensures !(MatchesAny(tags, f.excludePatterns, matches) && !MatchesAny(tags, f.includePatterns, matches))
  {
  }

  /** A tag set that matches an exclude pattern is filtered exactly when it
      matches no include pattern; with no include rules it always is. */
  lemma ExcludedWithoutIncludes(tags: seq<string>, f: Filters, matches: (string, string) -> bool, p: string, i: nat)
    requires p in f.excludePatterns && i < |tags| && matches(p, tags[i])
    requires f.includePatterns == {}
    ensures MatchesAny(tags, f.excludePatterns, matches) && !MatchesAny(tags, f.includePatterns, matches)
  {
  }

  /** A rule written "name:pattern" filters on the tag name before the
      first colon, whatever the pattern contains (colons included); a rule
      without a colon names itself. */
  lemma {:induction false} RuleTagNameOfTaggedRule(name: string, pattern: string)
    requires ':' !in name
    ensures RuleTagName(name + ":" + pattern) == name
    ensures RuleTagName(name) == name
  {
    var s := name + ":" + pattern;
    var parts := SplitFirst(s, ':');
    assert s[|name|] == ':';
    var h := parts.head;
    assert s == h + ":" + parts.rest.value;
    assert forall k :: 0 <= k < |name| ==> s[k] == name[k];
    assert forall k :: 0 <= k < |h| ==> s[k] == h[k];
    assert h == s[..|h|] && name == s[..|name|];
  }

  /** Filtering is on exactly when the exclude list is non-empty, and then
      every rule's tag name is among the filtered tag names. */
  lemma RuleNamesAreFiltered(inst: Instance, rule: string)
    requires Rules(inst.excludeRules) != []
    requires rule in Rules(inst.excludeRules) || rule in Rules(inst.includeRules)
    ensures GetFilters(inst).Some?
    ensures RuleTagName(rule) in GetFilters(inst).value.tagNames
  {
    var f := GetFilters(inst).value;
    if rule in Rules(inst.excludeRules) {
      var i :| 0 <= i < |Rules(inst.excludeRules)| && Rules(inst.excludeRules)[i] == rule;
      assert rule in f.excludePatterns;
    } else {
      var i :| 0 <= i < |Rules(inst.includeRules)| && Rules(inst.includeRules)[i] == rule;
      assert rule in f.includePatterns;
    }
  }
}
