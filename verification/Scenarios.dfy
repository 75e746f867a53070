/** The selection of test scenarios by tag options, which also rewrites the tags of what it selects. */
module Scenarios {
  import opened Options
  import opened Strings

  datatype Error = IndexError

  // ---------------------------------------------------------------------------
  // Options
  // ---------------------------------------------------------------------------

  predicate Negated(t: string) {
    t != "" && t[0] == '~'
  }

  function NormaliseTag(t: string): Option<string> {
    if t == "" then None
    else if t[0] == '~' then
      if |t| == 1 then None else Some(if t[1] != '@' then "~@" + t[1..] else t)
    else Some(if t[0] != '@' then "@" + t else t)
  }

  function NormaliseTags(ts: seq<string>): Option<seq<string>> {
    if ts == [] then Some([])
    else
      var first, others := NormaliseTag(ts[0]), NormaliseTags(ts[1..]);
      if first.None? || others.None? then None else Some([first.value] + others.value)
  }

  /** None where the source raises IndexError: an empty tag, or a lone `~`. */
  function Normalise(option: string): Option<string> {
    var tags := NormaliseTags(Split(option, ','));
    if tags.None? then None else Some(Join(tags.value, ','))
  }

  predicate Normal(t: string) {
    "@" <= t || "~@" <= t
  }

  /** The tag with the `@` that is missing, behind the `~` if there is one. */
  ghost predicate IsTagOf(tag: string, t: string) {
    if "@" <= t || "~@" <= t then tag == t
    else if "~" <= t then t == "~" + t[1..] && tag == "~@" + t[1..]
    else tag == "@" + t
  }

  lemma NormalTag(t: string)
    requires ',' !in t
    ensures NormaliseTag(t).Some? ==> IsTagOf(NormaliseTag(t).value, t)
    ensures NormaliseTag(t).None? <==> t == "" || t == "~"
    ensures NormaliseTag(t).Some? ==>
              && Normal(NormaliseTag(t).value) && ',' !in NormaliseTag(t).value
              && NormaliseTag(NormaliseTag(t).value) == NormaliseTag(t)
  {
  }

  lemma {:induction false} NormalTags(ts: seq<string>)
    requires forall t | t in ts :: ',' !in t
    ensures NormaliseTags(ts).None? <==> "" in ts || "~" in ts
    ensures NormaliseTags(ts).Some? ==>
              && |NormaliseTags(ts).value| == |ts|
              && (forall t | t in NormaliseTags(ts).value :: Normal(t) && ',' !in t)
              && (forall i | 0 <= i < |ts| :: IsTagOf(NormaliseTags(ts).value[i], ts[i]))
              && NormaliseTags(NormaliseTags(ts).value) == NormaliseTags(ts)
  {
    if ts == [] {
    } else {
      NormalTag(ts[0]);
      NormalTags(ts[1..]);
      assert ts == [ts[0]] + ts[1..];
      if NormaliseTags(ts).Some? {
        var first, others := NormaliseTag(ts[0]).value, NormaliseTags(ts[1..]).value;
        assert ([first] + others)[1..] == others;
      }
    }
  }

  /** Adding the missing `@` again changes nothing. */
  lemma NormaliseTwice(option: string)
    ensures Normalise(option).None? <==> "" in Split(option, ',') || "~" in Split(option, ',')
    ensures Normalise(option).Some? ==>
              && Normalise(Normalise(option).value) == Normalise(option)
              && Split(Normalise(option).value, ',') == NormaliseTags(Split(option, ',')).value
  {
    var parts := Split(option, ',');
    NormalTags(parts);
    if Normalise(option).Some? {
      SplitJoin(NormaliseTags(parts).value, ',');
    }
  }

  /** An option and its normal form list the same tags, but for the `@` that was missing. */
  lemma OnlyMissingAts(option: string)
    requires Normalise(option).Some?
    ensures var tags, parts := Split(Normalise(option).value, ','), Split(option, ',');
            |tags| == |parts| && forall i | 0 <= i < |parts| :: IsTagOf(tags[i], parts[i])
  {
    NormaliseTwice(option);
    NormalTags(Split(option, ','));
  }

  // ---------------------------------------------------------------------------
  // What a group of options selects
  // ---------------------------------------------------------------------------

  /** The test of the source: the first tag decides how the whole group is read. */
  predicate Passes(group: seq<string>, tags: set<string>)
    requires group != []
  {
    if Negated(group[0]) then forall t | t in tags :: "~" + t !in group
    else exists t | t in group :: t in tags
  }

  /** The documented meaning: one of the tags, or the absence of one of the negated tags. */
  predicate Documented(group: seq<string>, tags: set<string>) {
    exists t | t in group :: Holds(t, tags)
  }

  predicate Holds(t: string, tags: set<string>) {
    if Negated(t) then t[1..] !in tags else t in tags
  }

  /** Tags of features and scenarios start with `@`. */
  ghost predicate AreTags(tags: set<string>) {
    forall t | t in tags :: "@" <= t
  }

  ghost predicate AlwaysDocumented(group: seq<string>)
    requires group != []
  {
    forall tags: set<string> | AreTags(tags) :: Passes(group, tags) <==> Documented(group, tags)
  }

  predicate AllPositive(group: seq<string>) {
    forall t | t in group :: !Negated(t)
  }

  /** One negated tag, perhaps repeated. */
  predicate OneNegated(group: seq<string>)
    requires group != []
  {
    Negated(group[0]) && forall t | t in group :: t == group[0]
  }

  lemma NegatedPasses(group: seq<string>, tags: set<string>)
    requires group != [] && OneNegated(group)
    ensures Passes(group, tags) <==> Documented(group, tags)
  {
    assert group[0] in group && group[0] == "~" + group[0][1..];
    if Documented(group, tags) {
      assert forall t | t in tags :: ("~" + t)[1..] == t;
    } else {
      assert !Holds(group[0], tags);
      assert "~" + group[0][1..] in group;
    }
  }

  /** A tag set on which a mixed group, or one with two negated tags, is not read as documented. */
  lemma Misread(group: seq<string>) returns (tags: set<string>)
    requires group != [] && (forall t | t in group :: Normal(t)) && !AllPositive(group) && !OneNegated(group)
    ensures AreTags(tags) && Documented(group, tags) && !Passes(group, tags)
  {
    if Negated(group[0]) {
      var t :| t in group && t != group[0];
      assert group[0] == "~" + group[0][1..] && group[0] in group;
      tags := if Negated(t) then {group[0][1..]} else {group[0][1..], t};
      assert group[0][1..] in tags;
      assert Negated(t) ==> t[1..] != group[0][1..] by {
        assert Negated(t) ==> t == "~" + t[1..];
      }
      assert Holds(t, tags);
    } else {
      tags := {};
      var t :| t in group && Negated(t);
      assert Holds(t, tags);
    }
  }

  /**
   A group is read as documented on every set of tags exactly when none of its tags is negated or it is
   a single negated tag.
   */
  lemma DocumentedIff(group: seq<string>)
    requires group != [] && forall t | t in group :: Normal(t)
    ensures AlwaysDocumented(group) <==> AllPositive(group) || OneNegated(group)
  {
    if AllPositive(group) {
      assert group[0] in group;
      assert forall t, tags: set<string> | t in group :: Holds(t, tags) <==> t in tags;
    } else if OneNegated(group) {
      forall tags: set<string> ensures Passes(group, tags) <==> Documented(group, tags) {
        NegatedPasses(group, tags);
      }
    } else {
      var tags := Misread(group);
    }
  }

  /**
   How any group is read: behind a negated tag, as an AND of its negated tags, the others being ignored; behind any
   other, as an OR of those, the negated ones being ignored.
   */
  lemma PassesIff(group: seq<string>, tags: set<string>)
    requires group != [] && AreTags(tags)
    ensures Passes(group, tags)
       <==> if "~" <= group[0] then forall t | t in group && "~" <= t :: t[1..] !in tags
            else exists t | t in group && !("~" <= t) :: t in tags
  {
    if Negated(group[0]) {
      assert forall t | t in tags :: ("~" + t)[1..] == t;
      assert forall t | t in group && "~" <= t :: t == "~" + t[1..];
    } else {
      assert forall t | t in tags :: t[0] == '@';
    }
  }

  ghost predicate AreGroups(groups: seq<seq<string>>) {
    forall g | g in groups :: g != [] && forall t | t in g :: Normal(t)
  }

  /** Every group. */
  predicate Selects(groups: seq<seq<string>>, tags: set<string>)
    requires forall g | g in groups :: g != []
  {
    forall g | g in groups :: Passes(g, tags)
  }

  /** An AND of ORs, when every group is of one of the two kinds read as documented. */
  lemma AndOfOrs(groups: seq<seq<string>>, tags: set<string>)
    requires AreGroups(groups) && AreTags(tags) && forall g | g in groups :: AllPositive(g) || OneNegated(g)
    ensures Selects(groups, tags) <==> forall g | g in groups :: Documented(g, tags)
  {
    forall g | g in groups ensures Passes(g, tags) <==> Documented(g, tags) {
      DocumentedIff(g);
      assert AlwaysDocumented(g);
    }
  }

  // ---------------------------------------------------------------------------
  // The tags that are left
  // ---------------------------------------------------------------------------

  function TagSet(tags: seq<string>): set<string> {
    set t | t in tags
  }

  /** `@T` and three digits. */
  predicate IsTestId(t: string) {
    |t| >= 5 && t[0] == '@' && t[1] == 'T' && forall i | 2 <= i < 5 :: '0' <= t[i] <= '9'
  }

  function TestIds(tags: seq<string>): seq<string> {
    if tags == [] then []
    else TestIds(tags[..|tags| - 1]) + if IsTestId(tags[|tags| - 1]) then [tags[|tags| - 1]] else []
  }

  /** The tags of all groups that are not negated. */
  function Relevant(groups: seq<seq<string>>): set<string> {
    set g, t | g in groups && t in g && !Negated(t) :: t
  }

  function InsertTag(t: string, sorted: seq<string>): seq<string> {
    if sorted == [] || Less(t, sorted[0]) then [t] + sorted
    else if t == sorted[0] then sorted
    else [sorted[0]] + InsertTag(t, sorted[1..])
  }

  /** Those of the tags that are relevant, sorted and each once. */
  function SortedCommon(tags: seq<string>, relevant: set<string>): seq<string> {
    if tags == [] then []
    else
      var others := SortedCommon(tags[1..], relevant);
      if tags[0] in relevant then InsertTag(tags[0], others) else others
  }

  ghost predicate Increasing(tags: seq<string>) {
    forall i, j | 0 <= i < j < |tags| :: Less(tags[i], tags[j])
  }

  lemma {:induction false} InsertIncreasing(t: string, sorted: seq<string>)
    requires Increasing(sorted)
    ensures Increasing(InsertTag(t, sorted)) && forall x :: x in InsertTag(t, sorted) <==> x == t || x in sorted
  {
    if sorted == [] {
    } else if Less(t, sorted[0]) {
      forall j | 1 <= j < |sorted| ensures Less(t, sorted[j]) {
        LessIsTransitive(t, sorted[0], sorted[j]);
      }
    } else if t != sorted[0] {
      LessIsTotal(t, sorted[0]);
      InsertIncreasing(t, sorted[1..]);
      var more := InsertTag(t, sorted[1..]);
      forall j | 0 <= j < |more| ensures Less(sorted[0], more[j]) {
        assert more[j] in more;
      }
      assert sorted == [sorted[0]] + sorted[1..];
    }
  }

  lemma {:induction false} SortedCommonIs(tags: seq<string>, relevant: set<string>)
    ensures Increasing(SortedCommon(tags, relevant))
    ensures TagSet(SortedCommon(tags, relevant)) == TagSet(tags) * relevant
  {
    if tags == [] {
    } else {
      SortedCommonIs(tags[1..], relevant);
      var others := SortedCommon(tags[1..], relevant);
      InsertIncreasing(tags[0], others);
      assert tags == [tags[0]] + tags[1..];
      assert forall x :: x in others <==> x in TagSet(others);
    }
  }

  function Rewritten(tags: seq<string>, featureTags: seq<string>, relevant: set<string>): seq<string> {
    TestIds(tags) + SortedCommon(featureTags + tags, relevant)
  }

  lemma {:induction false} TestIdsAre(tags: seq<string>)
    ensures forall t :: t in TestIds(tags) <==> t in tags && IsTestId(t)
  {
    if tags == [] {
    } else {
      TestIdsAre(tags[..|tags| - 1]);
      assert tags == tags[..|tags| - 1] + [tags[|tags| - 1]];
    }
  }

  /**
   What a rewritten scenario has for tags: its test ids, and whatever the options mention of its own
   and its feature's.
   */
  lemma RewrittenIs(tags: seq<string>, featureTags: seq<string>, relevant: set<string>)
    ensures forall t :: t in Rewritten(tags, featureTags, relevant)
                        <==> (t in tags && IsTestId(t)) || (t in relevant && (t in tags || t in featureTags))
    ensures Increasing(SortedCommon(featureTags + tags, relevant))
  {
    TestIdsAre(tags);
    SortedCommonIs(featureTags + tags, relevant);
    forall t
      ensures t in SortedCommon(featureTags + tags, relevant) <==> t in relevant && (t in tags || t in featureTags)
    {
      assert t in TagSet(SortedCommon(featureTags + tags, relevant)) <==> t in TagSet(featureTags + tags) * relevant;
    }
  }

  /**
   A selected scenario is selected again with the tags it is left with, so its rewriting loses nothing
   the same options ask for.
   */
  lemma SelectedAgain(groups: seq<seq<string>>, tags: seq<string>, featureTags: seq<string>,
                      newFeatureTags: seq<string>)
    requires AreGroups(groups) && AreTags(TagSet(featureTags + tags)) && Selects(groups, TagSet(featureTags + tags))
    requires TagSet(newFeatureTags) == TagSet(featureTags) * Relevant(groups)
    ensures Selects(groups, TagSet(newFeatureTags + Rewritten(tags, featureTags, Relevant(groups))))
  {
    var relevant := Relevant(groups);
    var before, after := TagSet(featureTags + tags), TagSet(newFeatureTags + Rewritten(tags, featureTags, relevant));
    RewrittenIs(tags, featureTags, relevant);
    forall g | g in groups ensures Passes(g, after) {
      assert Passes(g, before);
      if Negated(g[0]) {
        forall t | t in after ensures "~" + t !in g {
          assert t in newFeatureTags ==> t in TagSet(newFeatureTags);
          assert t in before;
        }
      } else {
        var t :| t in g && t in before;
        assert t in relevant;
        assert t in Rewritten(tags, featureTags, relevant);
      }
    }
  }

  // ---------------------------------------------------------------------------
  // Selecting, in place
  // ---------------------------------------------------------------------------

  class Scenario {
    const name: string
    var tags: seq<string>

    constructor (name: string, tags: seq<string>)
      ensures this.name == name && this.tags == tags
    {
      this.name, this.tags := name, tags;
    }
  }

  class Feature {
    const name: string
    var tags: seq<string>
    var scenarios: seq<Scenario>

    constructor (name: string, tags: seq<string>)
      ensures this.name == name && this.tags == tags && scenarios == []
    {
      this.name, this.tags, scenarios := name, tags, [];
    }
  }

  /** No scenario object occurs twice. */
  ghost predicate Once(scenarios: seq<Scenario>) {
    forall i, j | 0 <= i < j < |scenarios| :: scenarios[i] != scenarios[j]
  }

  /** The scenarios selected by the tags they had and their feature's, in their order. */
  function KeptOf(scenarios: seq<Scenario>, before: map<Scenario, seq<string>>, featureTags: seq<string>,
                  groups: seq<seq<string>>): (kept: seq<Scenario>)
    requires (forall s | s in scenarios :: s in before) && forall g | g in groups :: g != []
    ensures forall s | s in kept :: s in scenarios
    ensures Once(scenarios) ==> Once(kept)
  {
    if scenarios == [] then []
    else
      var n := |scenarios| - 1;
      assert Once(scenarios) ==> Once(scenarios[..n]) && scenarios[n] !in scenarios[..n];
      KeptOf(scenarios[..n], before, featureTags, groups)
      + if Selects(groups, TagSet(featureTags + before[scenarios[n]])) then [scenarios[n]] else []
  }

  method ParseOptions(options: seq<string>) returns (groups: Result<seq<seq<string>>, Error>)
    ensures groups.Err? <==> exists o | o in options :: Normalise(o).None?
    ensures groups.Ok? ==> |groups.value| == |options| && AreGroups(groups.value)
    ensures groups.Ok? ==>
              forall i | 0 <= i < |options| :: NormaliseTags(Split(options[i], ',')) == Some(groups.value[i])
  {
    var parsed: seq<seq<string>> := [];
    for i := 0 to |options|
      invariant |parsed| == i && AreGroups(parsed)
      invariant forall k | 0 <= k < i :: NormaliseTags(Split(options[k], ',')) == Some(parsed[k])
    {
      NormaliseTwice(options[i]);
      NormalTags(Split(options[i], ','));
      var option := Normalise(options[i]);
      if option.None? {
        return Err(IndexError);
      }
      parsed := parsed + [Split(option.value, ',')];
    }
    return Ok(parsed);
  }

  method Collect(f: Feature, groups: seq<seq<string>>, ghost before: map<Scenario, seq<string>>)
    returns (selected: Feature)
    requires AreGroups(groups) && forall s | s in f.scenarios :: s in before && s.tags == before[s]
    ensures fresh(selected) && Copies(selected, f, KeptOf(f.scenarios, before, f.tags, groups), groups)
  {
    var kept := [];
    for i := 0 to |f.scenarios|
      invariant kept == KeptOf(f.scenarios[..i], before, f.tags, groups)
    {
      assert f.scenarios[..i + 1][..i] == f.scenarios[..i];
      if Selects(groups, TagSet(f.tags + f.scenarios[i].tags)) {
        kept := kept + [f.scenarios[i]];
      }
    }
    assert f.scenarios[..|f.scenarios|] == f.scenarios;
    SortedCommonIs(f.tags, Relevant(groups));
    selected := new Feature(f.name, SortedCommon(f.tags, Relevant(groups)));
    selected.scenarios := kept;
  }

  /** A selected feature against the one it was made from. */
  predicate Copies(selected: Feature, f: Feature, kept: seq<Scenario>, groups: seq<seq<string>>)
    reads selected, f
  {
    selected.name == f.name && selected.scenarios == kept && TagSet(selected.tags) == TagSet(f.tags) * Relevant(groups)
  }

  /** The features, in their order, whose lists are not empty. */
  function NonEmpty(features: seq<Feature>, kept: seq<seq<Scenario>>): seq<Feature>
    requires |features| == |kept|
  {
    if features == [] then []
    else
      var n := |features| - 1;
      NonEmpty(features[..n], kept[..n]) + if kept[n] != [] then [features[n]] else []
  }

  lemma NonEmptyNext(features: seq<Feature>, kept: seq<seq<Scenario>>, f: Feature, list: seq<Scenario>)
    requires |features| == |kept|
    ensures NonEmpty(features + [f], kept + [list]) == NonEmpty(features, kept) + if list != [] then [f] else []
  {
    assert (features + [f])[..|features|] == features && (kept + [list])[..|kept|] == kept;
  }

  /** It is one of the features, and its list there is not empty. */
  ghost predicate HasScenarios(features: seq<Feature>, kept: seq<seq<Scenario>>, f: Feature)
    requires |features| == |kept|
  {
    exists i :: 0 <= i < |kept| && features[i] == f && kept[i] != []
  }

  lemma HasScenariosLast(features: seq<Feature>, kept: seq<seq<Scenario>>, f: Feature)
    requires |features| == |kept| > 0
    ensures HasScenarios(features, kept, f)
       <==> || HasScenarios(features[..|features| - 1], kept[..|kept| - 1], f)
            || (features[|features| - 1] == f && kept[|kept| - 1] != [])
  {
    var n := |features| - 1;
    if HasScenarios(features[..n], kept[..n], f) {
      var i :| 0 <= i < n && features[..n][i] == f && kept[..n][i] != [];
      assert features[i] == f && kept[i] != [];
    }
    if i :| 0 <= i < n && features[i] == f && kept[i] != [] {
      assert features[..n][i] == f && kept[..n][i] != [];
    }
  }

  /** Those whose lists are not empty and no others. */
  lemma {:induction false} NonEmptyIs(features: seq<Feature>, kept: seq<seq<Scenario>>, f: Feature)
    requires |features| == |kept|
    ensures f in NonEmpty(features, kept) <==> HasScenarios(features, kept, f)
  {
    if features == [] {
    } else {
      var n := |features| - 1;
      HasScenariosLast(features, kept, f);
      NonEmptyIs(features[..n], kept[..n], f);
    }
  }

  /** `parts[i]` has the scenarios of feature i; no two features share one. */
  ghost predicate Distinct(features: seq<Feature>, parts: seq<set<Scenario>>)
    reads features
  {
    && |parts| == |features|
    && (forall i | 0 <= i < |features| :: Holding(features[i], parts[i]))
    && forall i, j | 0 <= i < j < |parts| :: parts[i] !! parts[j]
  }

  ghost predicate Holding(f: Feature, part: set<Scenario>)
    reads f
  {
    Once(f.scenarios) && forall s | s in f.scenarios :: s in part
  }

  /** The scenarios still have the tags they had. */
  ghost predicate Untouched(part: set<Scenario>, before: map<Scenario, seq<string>>)
    reads part
  {
    forall s | s in part :: s in before && s.tags == before[s]
  }

  /** What was selected of a feature, and the tags it is left with; the others keep theirs. */
  ghost predicate Done(f: Feature, part: set<Scenario>, kept: seq<Scenario>, before: map<Scenario, seq<string>>,
                       groups: seq<seq<string>>)
    reads f, part
  {
    && Holding(f, part) && (forall s | s in part :: s in before) && (forall g | g in groups :: g != [])
    && kept == KeptOf(f.scenarios, before, f.tags, groups)
    && forall s | s in part :: s.tags == if s in kept then Rewritten(before[s], f.tags, Relevant(groups)) else before[s]
  }

  method Rewrite(scenarios: seq<Scenario>, featureTags: seq<string>, relevant: set<string>, ghost part: set<Scenario>)
    requires Once(scenarios) && forall s | s in scenarios :: s in part
    modifies part
    ensures forall s | s in scenarios :: s.tags == Rewritten(old(s.tags), featureTags, relevant)
    ensures forall s | s in part && s !in scenarios :: s.tags == old(s.tags)
  {
    for i := 0 to |scenarios|
      invariant forall k | 0 <= k < i :: scenarios[k].tags == Rewritten(old(scenarios[k].tags), featureTags, relevant)
      invariant forall k | i <= k < |scenarios| :: scenarios[k].tags == old(scenarios[k].tags)
      invariant forall s | s in part && s !in scenarios :: s.tags == old(s.tags)
    {
      scenarios[i].tags := Rewritten(scenarios[i].tags, featureTags, relevant);
    }
  }

  method SelectScenarios(f: Feature, groups: seq<seq<string>>, ghost part: set<Scenario>,
                         ghost before: map<Scenario, seq<string>>)
    returns (selected: Feature)
    requires AreGroups(groups) && Holding(f, part) && Untouched(part, before)
    modifies part
    ensures fresh(selected) && Copies(selected, f, selected.scenarios, groups)
    ensures Done(f, part, selected.scenarios, before, groups)
  {
    selected := Collect(f, groups, before);
    Rewrite(selected.scenarios, f.tags, Relevant(groups), part);
  }

  /**
   The features with a scenario selected, in their order, each with those scenarios, in their
   order; `kept[i]` is what the options select of feature i by the tags its scenarios had before.
   */
  method SelectFeatures(features: seq<Feature>, options: seq<string>, ghost parts: seq<set<Scenario>>,
                        ghost before: map<Scenario, seq<string>>)
    returns (result: Result<seq<Feature>, Error>, ghost groups: seq<seq<string>>,
             ghost copies: seq<Feature>, ghost kept: seq<seq<Scenario>>)
    requires Distinct(features, parts) && forall i | 0 <= i < |parts| :: Untouched(parts[i], before)
    modifies set i, s | 0 <= i < |parts| && s in parts[i] :: s
    ensures options == [] ==> result == Ok(features)
    ensures result.Err? <==> exists o | o in options :: Normalise(o).None?
    ensures result.Ok? && options != [] ==>
              && |groups| == |options| && AreGroups(groups)
              && (forall i | 0 <= i < |options| :: NormaliseTags(Split(options[i], ',')) == Some(groups[i]))
              && |kept| == |features| && DoneSoFar(features, parts, kept, copies, before, groups)
              && result.value == NonEmpty(copies, kept)
  {
    if options == [] {
      return Ok(features), [], [], [];
    }
    var parsed := ParseOptions(options);
    if parsed.Err? {
      return Err(parsed.error), [], [], [];
    }
    groups := parsed.value;
    var selected;
    selected, copies, kept := SelectEach(features, parsed.value, parts, before);
    result := Ok(selected);
  }

  /** The features done so far. */
  ghost predicate DoneSoFar(features: seq<Feature>, parts: seq<set<Scenario>>, kept: seq<seq<Scenario>>,
                            copies: seq<Feature>,
                            before: map<Scenario, seq<string>>, groups: seq<seq<string>>)
    reads features, copies, set i, s | 0 <= i < |parts| && s in parts[i] :: s
  {
    && |kept| == |copies| <= |features| == |parts|
    && (forall k | 0 <= k < |kept| :: Done(features[k], parts[k], kept[k], before, groups))
    && forall k | 0 <= k < |kept| :: Copies(copies[k], features[k], kept[k], groups)
  }

  method SelectNext(features: seq<Feature>, i: nat, groups: seq<seq<string>>, ghost parts: seq<set<Scenario>>,
                    ghost before: map<Scenario, seq<string>>, ghost kept: seq<seq<Scenario>>,
                    ghost copies: seq<Feature>)
    returns (collected: Feature)
    requires AreGroups(groups) && Distinct(features, parts) && i == |kept| < |features|
    requires DoneSoFar(features, parts, kept, copies, before, groups)
    requires forall k | i <= k < |features| :: Untouched(parts[k], before)
    modifies parts[i]
    ensures DoneSoFar(features, parts, kept + [collected.scenarios], copies + [collected], before, groups)
    ensures forall k | i < k < |features| :: Untouched(parts[k], before)
  {
    collected := SelectScenarios(features[i], groups, parts[i], before);
    ghost var kept', copies' := kept + [collected.scenarios], copies + [collected];
    forall k | 0 <= k <= i ensures Done(features[k], parts[k], kept'[k], before, groups) {
      if k < i {
        assert kept'[k] == kept[k];
        assert Done(features[k], parts[k], kept[k], before, groups);
      }
    }
    forall k | 0 <= k <= i ensures Copies(copies'[k], features[k], kept'[k], groups) {
      if k < i {
        assert kept'[k] == kept[k] && copies'[k] == copies[k];
        assert Copies(copies[k], features[k], kept[k], groups);
      }
    }
  }

  method SelectEach(features: seq<Feature>, groups: seq<seq<string>>, ghost parts: seq<set<Scenario>>,
                    ghost before: map<Scenario, seq<string>>)
    returns (selected: seq<Feature>, ghost copies: seq<Feature>, ghost kept: seq<seq<Scenario>>)
    requires AreGroups(groups) && Distinct(features, parts)
    requires forall i | 0 <= i < |parts| :: Untouched(parts[i], before)
    modifies set i, s | 0 <= i < |parts| && s in parts[i] :: s
    ensures |kept| == |features| && DoneSoFar(features, parts, kept, copies, before, groups)
    ensures selected == NonEmpty(copies, kept)
  {
    selected, copies, kept := [], [], [];
    for i := 0 to |features|
      invariant |kept| == i && DoneSoFar(features, parts, kept, copies, before, groups)
      invariant forall k | i <= k < |features| :: Untouched(parts[k], before)
      invariant selected == NonEmpty(copies, kept)
    {
      var collected := SelectNext(features, i, groups, parts, before, kept, copies);
      NonEmptyNext(copies, kept, collected, collected.scenarios);
      kept, copies := kept + [collected.scenarios], copies + [collected];
      if collected.scenarios != [] {
        selected := selected + [collected];
      }
    }
  }

  // ---------------------------------------------------------------------------
  // Selecting with more options, or again
  // ---------------------------------------------------------------------------

  /** A scenario is kept exactly when it is there and the options select it. */
  lemma {:induction false} KeptIff(scenarios: seq<Scenario>, before: map<Scenario, seq<string>>,
                                   featureTags: seq<string>,
                                   groups: seq<seq<string>>, s: Scenario)
    requires (forall x | x in scenarios :: x in before) && forall g | g in groups :: g != []
    ensures s in KeptOf(scenarios, before, featureTags, groups)
            <==> s in scenarios && Selects(groups, TagSet(featureTags + before[s]))
  {
    if scenarios == [] {
    } else {
      var n := |scenarios| - 1;
      KeptIff(scenarios[..n], before, featureTags, groups, s);
      assert scenarios == scenarios[..n] + [scenarios[n]];
    }
  }

  /** One more option never adds a scenario. */
  lemma NeverMore(scenarios: seq<Scenario>, before: map<Scenario, seq<string>>, featureTags: seq<string>,
                  groups: seq<seq<string>>, more: seq<string>, s: Scenario)
    requires (forall x | x in scenarios :: x in before) && (forall g | g in groups :: g != []) && more != []
    requires s in KeptOf(scenarios, before, featureTags, groups + [more])
    ensures s in KeptOf(scenarios, before, featureTags, groups)
  {
    KeptIff(scenarios, before, featureTags, groups + [more], s);
    KeptIff(scenarios, before, featureTags, groups, s);
    assert forall g | g in groups :: g in groups + [more];
  }

  lemma {:induction false} AllKeptAgain(kept: seq<Scenario>, after: map<Scenario, seq<string>>,
                                        featureTags: seq<string>, groups: seq<seq<string>>)
    requires (forall g | g in groups :: g != [])
    requires forall s | s in kept :: s in after && Selects(groups, TagSet(featureTags + after[s]))
    ensures KeptOf(kept, after, featureTags, groups) == kept
  {
    if kept == [] {
    } else {
      var n := |kept| - 1;
      assert kept[n] in kept && kept == kept[..n] + [kept[n]];
      assert Selects(groups, TagSet(featureTags + after[kept[n]]));
      AllKeptAgain(kept[..n], after, featureTags, groups);
    }
  }

  /** The same options again, on the tags that the first selection left: every scenario is kept. */
  lemma KeptAgain(f: Feature, part: set<Scenario>, kept: seq<Scenario>, before: map<Scenario, seq<string>>,
                  groups: seq<seq<string>>,
                  copy: Feature, after: map<Scenario, seq<string>>)
    requires AreGroups(groups) && Done(f, part, kept, before, groups) && Copies(copy, f, kept, groups)
    requires forall s | s in part :: AreTags(TagSet(f.tags + before[s])) && s in after && after[s] == s.tags
    ensures KeptOf(copy.scenarios, after, copy.tags, groups) == copy.scenarios
  {
    forall s | s in kept ensures Selects(groups, TagSet(copy.tags + after[s])) {
      KeptIff(f.scenarios, before, f.tags, groups, s);
      SelectedAgain(groups, before[s], f.tags, copy.tags);
    }
    AllKeptAgain(kept, after, copy.tags, groups);
  }
}
