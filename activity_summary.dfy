/**
 * The scoring and feedback pass that the activity summary screen runs on
 * every change of the responses (app/scenes/ActivitySummary/index.js): per
 * item scores, cumulative scores per compute rule, the feedback messages whose
 * trigger expressions hold, and the merge of newly triggered follow-up
 * activities into the stored `<activity id>/nextActivity` list.
 */
module ActivitySummary {
  import opened Wrappers
  import opened Js
  import opened Filtering

  /** An entry of `activity.compute`: a named cumulative variable. */
  datatype ComputeRule = ComputeRule(variableName: string, jsExpression: string)

  /**
   * An entry of `activity.messages`. An absent `outputType` or `nextActivity`
   * is the empty string (both are only compared with 'percentage' or tested
   * for truthiness).
   */
  datatype MessageRule = MessageRule(jsExpression: string, message: string, outputType: string, nextActivity: string)

  /** The activity: its items are opaque values that are only tested for truthiness here. */
  datatype Activity = Activity(id: string, items: seq<Value>, compute: seq<ComputeRule>, messages: seq<MessageRule>)

  /** One entry of `reportMessages`. */
  datatype Report = Report(category: string, message: string, score: string, compute: Option<ComputeRule>)

  /**
   * The code the pass calls but that is not part of this model:
   * `getScoreFromResponse(item, response)`, `getMaxScore(item)`,
   * `evaluateScore(jsExpression, items, scores)`, the truthiness of
   * `parser.parse(text).evaluate(bindings)` (expr-eval), and JavaScript's
   * conversion of a value to a string.
   */
  datatype Externals = Externals(
    scoreFromResponse: (Value, Value) -> real,
    maxScore: Value -> real,
    evaluateScore: (string, seq<Value>, seq<real>) -> real,
    evaluate: (string, map<string, Value>) -> bool,
    toText: Value -> string)

  // ---------------------------------------------------------------------------
  // Per-item scores (lines 113-121)

  /** Item `i` is scored when both the item and its response are truthy. */
  predicate IsScored(items: seq<Value>, responses: seq<Value>, i: nat) {
    i < |items| && Truthy(items[i]) && Truthy(ValueAt(responses, i))
  }

  function ScoredAt(items: seq<Value>, responses: seq<Value>): nat -> bool {
    (i: nat) => IsScored(items, responses, i)
  }

  /** The indices of the scored items, in item order. */
  function ScoredIndices(items: seq<Value>, responses: seq<Value>): seq<nat> {
    Indices(|items|, ScoredAt(items, responses))
  }

  function ScoreAt(items: seq<Value>, responses: seq<Value>, ext: Externals): nat -> real {
    (i: nat) => if i < |items| then ext.scoreFromResponse(items[i], ValueAt(responses, i)) else 0.0
  }

  function MaxScoreAt(items: seq<Value>, ext: Externals): nat -> real {
    (i: nat) => if i < |items| then ext.maxScore(items[i]) else 0.0
  }

  /** `scores` after the loop. */
  function Scores(items: seq<Value>, responses: seq<Value>, ext: Externals): seq<real> {
    FilterMap(|items|, ScoredAt(items, responses), ScoreAt(items, responses, ext))
  }

  /** `maxScores` after the loop. */
  function MaxScores(items: seq<Value>, responses: seq<Value>, ext: Externals): seq<real> {
    FilterMap(|items|, ScoredAt(items, responses), MaxScoreAt(items, ext))
  }

  /**
   * The loop of lines 113-121: one score and one maximum score per item whose
   * item and response are both truthy, in item order. A falsy response
   * (`0`, `''`, `false`, `null`, `undefined`, or one past the end of
   * `responses`) is skipped, not scored as zero.
   */
  method CollectScores(items: seq<Value>, responses: seq<Value>, ext: Externals)
    returns (scores: seq<real>, maxScores: seq<real>)
    ensures scores == Scores(items, responses, ext) && maxScores == MaxScores(items, responses, ext)
    ensures |scores| == |maxScores| == |ScoredIndices(items, responses)|
    ensures forall k :: 0 <= k < |scores| ==>
      var i := ScoredIndices(items, responses)[k];
      i < |items| && Truthy(items[i]) && Truthy(ValueAt(responses, i)) &&
      scores[k] == ext.scoreFromResponse(items[i], ValueAt(responses, i)) &&
      maxScores[k] == ext.maxScore(items[i])
    ensures forall i :: 0 <= i < |items| && Truthy(items[i]) && Truthy(ValueAt(responses, i)) ==>
      i in ScoredIndices(items, responses)
  {
    scores, maxScores := [], [];
    var i := 0;
    while i < |items|
      invariant 0 <= i <= |items|
      invariant scores == FilterMap(i, ScoredAt(items, responses), ScoreAt(items, responses, ext))
      invariant maxScores == FilterMap(i, ScoredAt(items, responses), MaxScoreAt(items, ext))
    {
      if !Truthy(items[i]) || !Truthy(ValueAt(responses, i)) {
        i := i + 1;
        continue;
      }
      var score := ext.scoreFromResponse(items[i], ValueAt(responses, i));
      scores := scores + [score];
      maxScores := maxScores + [ext.maxScore(items[i])];
      i := i + 1;
    }
    IndicesExactly(|items|, ScoredAt(items, responses));
    FilterMapOfIndices(|items|, ScoredAt(items, responses), ScoreAt(items, responses, ext));
    FilterMapOfIndices(|items|, ScoredAt(items, responses), MaxScoreAt(items, ext));
  }

  // ---------------------------------------------------------------------------
  // Variable names (lines 126, 133, 142) and their display (line 180)

  /** `name.trim().replace(/\s/g, '__')` */
  function NormaliseName(name: string): string
  {
    ReplaceWhitespace(Trim(name), "__")
  }

  /**
   * A normalised name has no whitespace left, and its characters are those
   * of the name and underscores.
   */
  lemma NormalisedNameHasNoWhitespace(name: string)
    ensures NoWhitespace(NormaliseName(name))
    ensures forall c :: c in NormaliseName(name) ==> c in name || c == '_'
  {
    TrimKeepsChars(name);
    ReplaceLeavesNoWhitespace(Trim(name), "__");
    ReplaceKeepsChars(Trim(name), "__");
  }

  /**
   * Inside a name, each whitespace character becomes `__`: two words around
   * one whitespace character are joined by a double underscore.
   */
  lemma NormaliseJoinsWords(a: string, c: char, b: string)
    requires a != [] && b != [] && NoWhitespace(a) && NoWhitespace(b) && IsWhitespace(c)
    ensures NormaliseName(a + [c] + b) == a + "__" + b
  {
    var s := a + [c] + b;
    assert s[0] == a[0] && s[|s| - 1] == b[|b| - 1];
    TrimOfTrimmed(s);
    ReplaceConcat(a + [c], b, "__");
    ReplaceConcat(a, [c], "__");
    ReplaceSingle(c, "__");
    ReplaceWithoutWhitespace(a, "__");
    ReplaceWithoutWhitespace(b, "__");
  }

  /** The compute rule `Total Score` is keyed `Total__Score`. */
  lemma NormaliseExample()
    ensures NormaliseName("Total Score") == "Total__Score"
  {
    var a, b := "Total", "Score";
    assert NoWhitespace(a) by {
      forall i | 0 <= i < |a| ensures !IsWhitespace(a[i]) {
      }
    }
    assert NoWhitespace(b) by {
      forall i | 0 <= i < |b| ensures !IsWhitespace(b[i]) {
      }
    }
    assert "Total Score" == a + [' '] + b;
    NormaliseJoinsWords(a, ' ', b);
    assert a + "__" + b == "Total__Score";
  }

  /** A normalised name is its own normal form. */
  lemma NormaliseIdempotent(name: string)
    ensures NormaliseName(NormaliseName(name)) == NormaliseName(name)
  {
    var key := NormaliseName(name);
    NormalisedNameHasNoWhitespace(name);
    TrimOfTrimmed(key);
    ReplaceWithoutWhitespace(key, "__");
  }

  /** `category.replace(/_/g, ' ')`: how a category is shown. */
  function DisplayCategory(category: string): (shown: string)
    ensures |shown| == |category| && '_' !in shown
    ensures forall i :: 0 <= i < |category| ==> shown[i] == (if category[i] == '_' then ' ' else category[i])
  {
    if category == [] then []
    else [if category[0] == '_' then ' ' else category[0]] + DisplayCategory(category[1..])
  }

  lemma {:induction false} DisplayConcat(a: string, b: string)
    ensures DisplayCategory(a + b) == DisplayCategory(a) + DisplayCategory(b)
  {
    if a != [] {
      var head := [if a[0] == '_' then ' ' else a[0]];
      assert (a + b)[0] == a[0];
      assert (a + b)[1..] == a[1..] + b;
      calc {
        DisplayCategory(a + b);
        head + DisplayCategory(a[1..] + b);
        { DisplayConcat(a[1..], b); }
        head + (DisplayCategory(a[1..]) + DisplayCategory(b));
        (head + DisplayCategory(a[1..])) + DisplayCategory(b);
        DisplayCategory(a) + DisplayCategory(b);
      }
    } else {
      assert a + b == b;
    }
  }

  /**
   * Showing a normalised name that had no underscore turns every whitespace
   * character of the trimmed name into two spaces.
   */
  lemma {:induction false} DisplayOfReplaced(s: string)
    requires '_' !in s
    ensures DisplayCategory(ReplaceWhitespace(s, "__")) == ReplaceWhitespace(s, "  ")
  {
    if s != [] {
      var head := if IsWhitespace(s[0]) then "__" else [s[0]];
      DisplayConcat(head, ReplaceWhitespace(s[1..], "__"));
      assert '_' !in s[1..] by {
        forall c | c in s[1..] ensures c != '_' { assert c in s; }
      }
      DisplayOfReplaced(s[1..]);
    }
  }

  lemma DisplayOfNormalisedName(name: string)
    requires '_' !in name
    ensures DisplayCategory(NormaliseName(name)) == ReplaceWhitespace(Trim(name), "  ")
  {
    TrimKeepsChars(name);
    DisplayOfReplaced(Trim(name));
  }

  // ---------------------------------------------------------------------------
  // Cumulative scores (lines 123-135)

  /** Rule `i` exists and `key` is its normalised name. */
  predicate IsRuleKey(rules: seq<ComputeRule>, i: nat, key: string) {
    i < |rules| && NormaliseName(rules[i].variableName) == key
  }

  /** The keys of the cumulative maps: the normalised names of all compute rules. */
  function RuleKeys(rules: seq<ComputeRule>): (keys: set<string>)
    ensures forall i :: 0 <= i < |rules| ==> NormaliseName(rules[i].variableName) in keys
    ensures forall key :: key in keys ==> exists i: nat :: IsRuleKey(rules, i, key)
  {
    if rules == [] then {}
    else
      var init := rules[..|rules| - 1];
      var keys := RuleKeys(init) + {NormaliseName(rules[|rules| - 1].variableName)};
      assert forall i :: 0 <= i < |init| ==> init[i] == rules[i];
      assert forall key :: key in keys ==> exists i: nat :: IsRuleKey(rules, i, key) by {
        forall key | key in keys ensures exists i: nat :: IsRuleKey(rules, i, key) {
          if key in RuleKeys(init) {
            var i: nat :| IsRuleKey(init, i, key);
            assert IsRuleKey(rules, i, key);
          } else {
            assert IsRuleKey(rules, |rules| - 1, key);
          }
        }
      }
      keys
  }

  /**
   * `rules.reduce((acc, rule) => ({ ...acc, [NormaliseName(rule.variableName)]: value(rule) }), {})`:
   * later rules overwrite earlier ones with the same normalised name.
   */
  function Cumulate(rules: seq<ComputeRule>, value: ComputeRule -> real): (m: map<string, real>)
    ensures m.Keys == RuleKeys(rules)
  {
    if rules == [] then map[]
    else
      var last := rules[|rules| - 1];
      Cumulate(rules[..|rules| - 1], value)[NormaliseName(last.variableName) := value(last)]
  }

  /**
   * The value stored under a rule's normalised name is that rule's value,
   * provided no later rule has the same normalised name.
   */
  lemma {:induction false} CumulateLastWins(rules: seq<ComputeRule>, value: ComputeRule -> real, i: nat)
    requires i < |rules|
    requires forall j :: i < j < |rules| ==>
      NormaliseName(rules[j].variableName) != NormaliseName(rules[i].variableName)
    ensures NormaliseName(rules[i].variableName) in Cumulate(rules, value)
    ensures Cumulate(rules, value)[NormaliseName(rules[i].variableName)] == value(rules[i])
  {
    if i < |rules| - 1 {
      var init := rules[..|rules| - 1];
      assert init[i] == rules[i];
      CumulateLastWins(init, value, i);
    }
  }

  function RuleValue(items: seq<Value>, scores: seq<real>, ext: Externals): ComputeRule -> real {
    (rule: ComputeRule) => ext.evaluateScore(rule.jsExpression, items, scores)
  }

  /** `cumulativeScores` */
  function CumulativeScores(activity: Activity, responses: seq<Value>, ext: Externals): map<string, real> {
    Cumulate(activity.compute, RuleValue(activity.items, Scores(activity.items, responses, ext), ext))
  }

  /** `cumulativeMaxScores` */
  function CumulativeMaxScores(activity: Activity, responses: seq<Value>, ext: Externals): map<string, real> {
    Cumulate(activity.compute, RuleValue(activity.items, MaxScores(activity.items, responses, ext), ext))
  }

  // ---------------------------------------------------------------------------
  // Trigger expressions (lines 141-143)

  /** The position of the first `>` or `<` in `e`, or `|e|` if there is none. */
  function ComparisonIndex(e: string): (k: nat)
    ensures k <= |e|
    ensures forall i :: 0 <= i < k ==> e[i] != '<' && e[i] != '>'
    ensures k < |e| ==> e[k] == '<' || e[k] == '>'
  {
    if e == [] || e[0] == '<' || e[0] == '>' then 0 else 1 + ComparisonIndex(e[1..])
  }

  /** `e.split(/[><]/g)[0]` */
  function VariableNameOf(e: string): string {
    e[..ComparisonIndex(e)]
  }

  /** `category` at line 142. */
  function CategoryOf(e: string): string {
    NormaliseName(VariableNameOf(e))
  }

  /** `category + e.substr(variableName.length)`: the text handed to the parser. */
  function RebuiltExpression(e: string): string {
    CategoryOf(e) + e[ComparisonIndex(e)..]
  }

  lemma ComparisonIndexOfConcat(a: string, b: string)
    requires forall i :: 0 <= i < |a| ==> a[i] != '<' && a[i] != '>'
    requires b == [] || b[0] == '<' || b[0] == '>'
    ensures ComparisonIndex(a + b) == |a|
  {
    assert forall i :: 0 <= i < |a| ==> (a + b)[i] == a[i];
    assert |b| > 0 ==> (a + b)[|a|] == b[0];
  }

  /**
   * The rebuilt expression splits at the same comparison: its variable name is
   * the category, and after the category it is the original expression from
   * the first comparison on.
   */
  lemma RebuiltSplitsAtCategory(e: string)
    ensures ComparisonIndex(RebuiltExpression(e)) == |CategoryOf(e)|
    ensures VariableNameOf(RebuiltExpression(e)) == CategoryOf(e)
    ensures RebuiltExpression(e)[|CategoryOf(e)|..] == e[ComparisonIndex(e)..]
    ensures CategoryOf(RebuiltExpression(e)) == CategoryOf(e)
  {
    var name := VariableNameOf(e);
    var cat := CategoryOf(e);
    var rest := e[ComparisonIndex(e)..];
    NormalisedNameHasNoWhitespace(name);
    assert forall c :: c in name ==> c != '<' && c != '>';
    assert forall i :: 0 <= i < |cat| ==> cat[i] != '<' && cat[i] != '>' by {
      forall i | 0 <= i < |cat| ensures cat[i] != '<' && cat[i] != '>' {
        assert cat[i] in cat;
      }
    }
    ComparisonIndexOfConcat(cat, rest);
    assert (cat + rest)[..|cat|] == cat;
    NormaliseIdempotent(name);
  }

  /** Rebuilding an already rebuilt expression changes nothing. */
  lemma RebuildIdempotent(e: string)
    ensures RebuiltExpression(RebuiltExpression(e)) == RebuiltExpression(e)
  {
    RebuiltSplitsAtCategory(e);
    var r := RebuiltExpression(e);
    assert r == CategoryOf(e) + r[|CategoryOf(e)|..];
  }

  // ---------------------------------------------------------------------------
  // The value bound to the category (lines 145-147)

  const Percentage := "percentage"

  /** `Math.round(x)`: the nearest integer, halves rounded up. */
  function Round(x: real): (r: int)
    ensures r as real - 0.5 <= x < r as real + 0.5
  {
    (x + 0.5).Floor
  }

  /**
   * `variableScores[category]`: in percentage mode the rounded percentage of
   * the cumulative maximum, 0 when that maximum is missing or zero; otherwise
   * the cumulative score itself (`undefined` when the category is not a key).
   */
  function VariableScore(outputType: string, category: string, cs: map<string, real>, cm: map<string, real>): (v: Value)
    ensures outputType == Percentage && (category !in cm || cm[category] == 0.0) ==> v == Num(0.0)
    ensures outputType == Percentage && category in cm && cm[category] != 0.0 && category in cs ==>
      v == Num(Round(cs[category] * 100.0 / cm[category]) as real)
    ensures outputType == Percentage && category in cm && cm[category] != 0.0 && category !in cs ==> v == NaN
    ensures outputType != Percentage ==> v == if category in cs then Num(cs[category]) else Undefined
  {
    if outputType == Percentage then
      if category in cm && cm[category] != 0.0 then
        if category in cs then Num(Round(cs[category] * 100.0 / cm[category]) as real) else NaN
      else Num(0.0)
    else if category in cs then Num(cs[category]) else Undefined
  }

  /** A score between zero and its maximum gives a percentage between 0 and 100. */
  lemma PercentageInRange(score: real, max: real)
    requires 0.0 <= score <= max && max != 0.0
    ensures 0 <= Round(score * 100.0 / max) <= 100
  {
  }

  /** Both percentage inputs of the end-to-end example: 7 of 10 is 70 percent. */
  lemma SeventyPercent()
    ensures VariableScore(Percentage, "Total__Score", map["Total__Score" := 7.0], map["Total__Score" := 10.0])
      == Num(70.0)
  {
  }

  // ---------------------------------------------------------------------------
  // Message selection (lines 137-161)

  /** The single binding `{ [category]: variableScores[category] }`. */
  function Bindings(m: MessageRule, cs: map<string, real>, cm: map<string, real>): map<string, Value> {
    var category := CategoryOf(m.jsExpression);
    map[category := VariableScore(m.outputType, category, cs, cm)]
  }

  /**
   * Whether the rule fires. A parse or evaluation error inside the `async`
   * callback only rejects that callback's promise before anything is pushed,
   * so it acts as a falsy result; `evaluate` yields false for it.
   */
  predicate Triggers(m: MessageRule, cs: map<string, real>, cm: map<string, real>, ext: Externals) {
    ext.evaluate(RebuiltExpression(m.jsExpression), Bindings(m, cs, cm))
  }

  /** The position of the first rule whose trimmed name equals `Trim(name)`, from `from` on. */
  function FirstComputeFrom(rules: seq<ComputeRule>, name: string, from: nat): (r: Option<nat>)
    ensures r.Some? ==> from <= r.value < |rules| && Trim(rules[r.value].variableName) == Trim(name)
    ensures forall j :: from <= j < |rules| && (r.None? || j < r.value) ==>
      Trim(rules[j].variableName) != Trim(name)
    decreases |rules| - from
  {
    if from >= |rules| then None
    else if Trim(rules[from].variableName) == Trim(name) then Some(from)
    else FirstComputeFrom(rules, name, from + 1)
  }

  /** Rule `i` is the first rule whose trimmed name equals `Trim(name)`. */
  predicate IsFirstCompute(rules: seq<ComputeRule>, name: string, i: nat) {
    i < |rules| && Trim(rules[i].variableName) == Trim(name) &&
    forall j :: 0 <= j < i ==> Trim(rules[j].variableName) != Trim(name)
  }

  /** `compute.find(rule => rule.variableName.trim() == name.trim())` */
  function FindCompute(rules: seq<ComputeRule>, name: string): (r: Option<ComputeRule>)
    ensures r.None? ==> forall i :: 0 <= i < |rules| ==> Trim(rules[i].variableName) != Trim(name)
    ensures r.Some? ==> exists i: nat :: IsFirstCompute(rules, name, i) && rules[i] == r.value
  {
    match FirstComputeFrom(rules, name, 0)
    case None => None
    case Some(i) =>
      assert IsFirstCompute(rules, name, i);
      Some(rules[i])
  }

  /** The report pushed for a rule that fires. */
  function ReportFor(m: MessageRule, rules: seq<ComputeRule>, cs: map<string, real>, cm: map<string, real>, ext: Externals): (r: Report)
    ensures r.category == CategoryOf(m.jsExpression) && r.message == m.message
    ensures var shown := ext.toText(VariableScore(m.outputType, r.category, cs, cm));
      r.score == if m.outputType == Percentage then shown + "%" else shown
    ensures r.compute == FindCompute(rules, VariableNameOf(m.jsExpression))
  {
    var category := CategoryOf(m.jsExpression);
    var shown := ext.toText(VariableScore(m.outputType, category, cs, cm));
    Report(category, m.message, shown + (if m.outputType == Percentage then "%" else ""),
      FindCompute(rules, VariableNameOf(m.jsExpression)))
  }

  function TriggeredAt(messages: seq<MessageRule>, cs: map<string, real>, cm: map<string, real>, ext: Externals): nat -> bool {
    (i: nat) => i < |messages| && Triggers(messages[i], cs, cm, ext)
  }

  function ReportAt(messages: seq<MessageRule>, rules: seq<ComputeRule>, cs: map<string, real>, cm: map<string, real>, ext: Externals): nat -> Report {
    (i: nat) => if i < |messages| then ReportFor(messages[i], rules, cs, cm, ext) else Report("", "", "", None)
  }

  function HasNextAt(messages: seq<MessageRule>, cs: map<string, real>, cm: map<string, real>, ext: Externals): nat -> bool {
    (i: nat) => i < |messages| && Triggers(messages[i], cs, cm, ext) && messages[i].nextActivity != ""
  }

  function NextAt(messages: seq<MessageRule>): nat -> string {
    (i: nat) => if i < |messages| then messages[i].nextActivity else ""
  }

  /** `reportMessages` after the loop. */
  function Reports(messages: seq<MessageRule>, rules: seq<ComputeRule>, cs: map<string, real>, cm: map<string, real>, ext: Externals): seq<Report> {
    FilterMap(|messages|, TriggeredAt(messages, cs, cm, ext), ReportAt(messages, rules, cs, cm, ext))
  }

  /** `cumActivities` after the loop. */
  function TriggeredNext(messages: seq<MessageRule>, cs: map<string, real>, cm: map<string, real>, ext: Externals): seq<string> {
    FilterMap(|messages|, HasNextAt(messages, cs, cm, ext), NextAt(messages))
  }

  /**
   * The `forEach` of lines 139-161: one report per rule that fires, in rule
   * order, and the follow-up activity of each firing rule that names one,
   * in the same order.
   */
  method SelectMessages(messages: seq<MessageRule>, rules: seq<ComputeRule>, cs: map<string, real>, cm: map<string, real>, ext: Externals)
    returns (reports: seq<Report>, next: seq<string>)
    ensures reports == Reports(messages, rules, cs, cm, ext)
    ensures next == TriggeredNext(messages, cs, cm, ext)
  {
    reports, next := [], [];
    var i := 0;
    while i < |messages|
      invariant 0 <= i <= |messages|
      invariant reports == FilterMap(i, TriggeredAt(messages, cs, cm, ext), ReportAt(messages, rules, cs, cm, ext))
      invariant next == FilterMap(i, HasNextAt(messages, cs, cm, ext), NextAt(messages))
    {
      SelectStep(messages, rules, cs, cm, ext, i);
      reports, next := OnMessage(messages[i], rules, cs, cm, ext, reports, next);
      i := i + 1;
    }
  }

  /** The body of the `forEach` callback for one message. */
  method OnMessage(m: MessageRule, rules: seq<ComputeRule>, cs: map<string, real>, cm: map<string, real>, ext: Externals,
                   reports: seq<Report>, next: seq<string>)
    returns (reports': seq<Report>, next': seq<string>)
    ensures reports' == reports + if Triggers(m, cs, cm, ext) then [ReportFor(m, rules, cs, cm, ext)] else []
    ensures next' == next + if Triggers(m, cs, cm, ext) then (if m.nextActivity != "" then [m.nextActivity] else []) else []
  {
    reports', next' := reports, next;
    if Triggers(m, cs, cm, ext) {
      if m.nextActivity != "" {
        next' := next' + [m.nextActivity];
      }
      reports' := reports' + [ReportFor(m, rules, cs, cm, ext)];
    }
  }

  /** What one more message adds to the two collected lists. */
  lemma SelectStep(messages: seq<MessageRule>, rules: seq<ComputeRule>, cs: map<string, real>, cm: map<string, real>, ext: Externals, i: nat)
    requires i < |messages|
    ensures FilterMap(i + 1, TriggeredAt(messages, cs, cm, ext), ReportAt(messages, rules, cs, cm, ext)) ==
      FilterMap(i, TriggeredAt(messages, cs, cm, ext), ReportAt(messages, rules, cs, cm, ext)) +
      if Triggers(messages[i], cs, cm, ext) then [ReportFor(messages[i], rules, cs, cm, ext)] else []
    ensures FilterMap(i + 1, HasNextAt(messages, cs, cm, ext), NextAt(messages)) ==
      FilterMap(i, HasNextAt(messages, cs, cm, ext), NextAt(messages)) +
      if Triggers(messages[i], cs, cm, ext) then (if messages[i].nextActivity != "" then [messages[i].nextActivity] else []) else []
  {
  }

  /**
   * One report per rule that fires, in rule order: the `k`-th report is the
   * report of the `k`-th firing rule, and every firing rule has one.
   */
  lemma ReportsFollowFiringRules(messages: seq<MessageRule>, rules: seq<ComputeRule>, cs: map<string, real>, cm: map<string, real>, ext: Externals)
    ensures var fired := Indices(|messages|, TriggeredAt(messages, cs, cm, ext));
      var reports := Reports(messages, rules, cs, cm, ext);
      |reports| == |fired| &&
      (forall k :: 0 <= k < |fired| ==> (fired[k] < |messages| && Triggers(messages[fired[k]], cs, cm, ext) &&
        reports[k] == ReportFor(messages[fired[k]], rules, cs, cm, ext))) &&
      (forall i :: 0 <= i < |messages| && Triggers(messages[i], cs, cm, ext) ==> i in fired)
  {
    var fired := Indices(|messages|, TriggeredAt(messages, cs, cm, ext));
    IndicesExactly(|messages|, TriggeredAt(messages, cs, cm, ext));
    FilterMapOfIndices(|messages|, TriggeredAt(messages, cs, cm, ext), ReportAt(messages, rules, cs, cm, ext));
    forall k | 0 <= k < |fired|
      ensures fired[k] < |messages| && Triggers(messages[fired[k]], cs, cm, ext)
    {
      assert TriggeredAt(messages, cs, cm, ext)(fired[k]);
    }
    forall i | 0 <= i < |messages| && Triggers(messages[i], cs, cm, ext) ensures i in fired {
      assert TriggeredAt(messages, cs, cm, ext)(i);
    }
  }

  /**
   * Every collected follow-up activity is the non-empty `nextActivity` of a
   * rule that fires, and every firing rule that has one contributes it, in
   * rule order.
   */
  lemma NextActivitiesFollowFiringRules(messages: seq<MessageRule>, cs: map<string, real>, cm: map<string, real>, ext: Externals)
    ensures var withNext := Indices(|messages|, HasNextAt(messages, cs, cm, ext));
      var next := TriggeredNext(messages, cs, cm, ext);
      |next| == |withNext| &&
      (forall k :: 0 <= k < |withNext| ==> (withNext[k] < |messages| &&
        Triggers(messages[withNext[k]], cs, cm, ext) && next[k] == messages[withNext[k]].nextActivity != "")) &&
      (forall i :: 0 <= i < |messages| && Triggers(messages[i], cs, cm, ext) && messages[i].nextActivity != "" ==>
        i in withNext)
  {
    var withNext := Indices(|messages|, HasNextAt(messages, cs, cm, ext));
    IndicesExactly(|messages|, HasNextAt(messages, cs, cm, ext));
    FilterMapOfIndices(|messages|, HasNextAt(messages, cs, cm, ext), NextAt(messages));
    forall k | 0 <= k < |withNext|
      ensures withNext[k] < |messages| && Triggers(messages[withNext[k]], cs, cm, ext) &&
        messages[withNext[k]].nextActivity != ""
    {
      assert HasNextAt(messages, cs, cm, ext)(withNext[k]);
    }
    forall i | 0 <= i < |messages| && Triggers(messages[i], cs, cm, ext) && messages[i].nextActivity != ""
      ensures i in withNext
    {
      assert HasNextAt(messages, cs, cm, ext)(i);
    }
  }

  // ---------------------------------------------------------------------------
  // Follow-up activities (lines 163-171)

  function AbsentFrom(a: seq<string>, b: seq<string>): nat -> bool {
    (i: nat) => i < |a| && a[i] !in b
  }

  function ElementOf(a: seq<string>): nat -> string {
    (i: nat) => if i < |a| then a[i] else ""
  }

  /**
   * `_.difference(a, b)`: the elements of `a` that are not in `b`, in their
   * order in `a`, with their repetitions in `a`.
   */
  function Difference(a: seq<string>, b: seq<string>): (r: seq<string>)
    ensures forall x :: x in r <==> x in a && x !in b
  {
    KeptMembers(a, b);
    FilterMap(|a|, AbsentFrom(a, b), ElementOf(a))
  }

  /** The filter behind `Difference`, one element of `a` at a time from the back. */
  lemma KeptSnoc(a: seq<string>, x: string, b: seq<string>)
    ensures FilterMap(|a + [x]|, AbsentFrom(a + [x], b), ElementOf(a + [x]))
         == FilterMap(|a|, AbsentFrom(a, b), ElementOf(a)) + (if x in b then [] else [x])
  {
    var ax := a + [x];
    assert forall i: nat :: i < |a| ==> ax[i] == a[i];
    FilterMapAgree(|a|, AbsentFrom(ax, b), ElementOf(ax), AbsentFrom(a, b), ElementOf(a));
    assert AbsentFrom(ax, b)(|a|) == (x !in b);
    assert ElementOf(ax)(|a|) == x;
  }

  /** The elements the filter behind `Difference` keeps are those of `a` outside `b`. */
  lemma {:induction false} KeptMembers(a: seq<string>, b: seq<string>)
    ensures forall x :: x in FilterMap(|a|, AbsentFrom(a, b), ElementOf(a)) <==> x in a && x !in b
    decreases |a|
  {
    if a != [] {
      var init, y := a[..|a| - 1], a[|a| - 1];
      assert a == init + [y];
      KeptMembers(init, b);
      KeptSnoc(init, y, b);
    }
  }

  /** Appending to `a` appends to the difference exactly when the new element is not in `b`. */
  lemma DifferenceSnoc(a: seq<string>, x: string, b: seq<string>)
    ensures Difference(a + [x], b) == Difference(a, b) + (if x in b then [] else [x])
  {
    KeptSnoc(a, x, b);
  }

  /**
   * The difference walks `a` from the front: its first element is kept
   * exactly when it is not in `b`, ahead of the difference of the rest.
   */
  lemma {:induction false} DifferenceCons(x: string, a: seq<string>, b: seq<string>)
    ensures Difference([x] + a, b) == (if x in b then [] else [x]) + Difference(a, b)
    decreases |a|
  {
    if a == [] {
      DifferenceSnoc([], x, b);
      assert [x] + a == [] + [x];
    } else {
      var init, y := a[..|a| - 1], a[|a| - 1];
      assert a == init + [y];
      assert [x] + a == ([x] + init) + [y];
      DifferenceCons(x, init, b);
      DifferenceSnoc([x] + init, y, b);
      DifferenceSnoc(init, y, b);
    }
  }

  /**
   * The difference keeps every repetition: an element of `a` that is not in
   * `b` occurs in it as often as in `a`, and an element of `b` not at all.
   */
  lemma {:induction false} DifferenceCounts(a: seq<string>, b: seq<string>)
    ensures forall x :: multiset(Difference(a, b))[x] == if x in b then 0 else multiset(a)[x]
    decreases |a|
  {
    if a != [] {
      var init, y := a[..|a| - 1], a[|a| - 1];
      assert a == init + [y];
      DifferenceCounts(init, b);
      DifferenceSnoc(init, y, b);
    }
  }

  /** `` `${activity.id}/nextActivity` `` */
  function NextActivityKey(activityId: string): string {
    activityId + "/nextActivity"
  }

  /**
   * The list passed to `setCumulativeActivities` under `key`, or `None` when
   * there is no call: with a stored list, the stored list followed by the
   * newly triggered ids it lacks, written only when there are some; without
   * one, the triggered ids, always.
   */
  function MergeNextActivities(stored: map<string, seq<string>>, key: string, triggered: seq<string>): (w: Option<seq<string>>)
    ensures key !in stored ==> w == Some(triggered)
    ensures key in stored ==> (w.None? <==> forall x :: x in triggered ==> x in stored[key])
    ensures key in stored && w.Some? ==> w.value == stored[key] + Difference(triggered, stored[key])
    ensures w.Some? ==> forall x :: x in triggered ==> x in w.value
    ensures key in stored && w.Some? ==> (stored[key] <= w.value &&
      forall x :: x in w.value ==> x in stored[key] || x in triggered)
  {
    if key in stored then
      var added := Difference(triggered, stored[key]);
      if |added| > 0 then
        assert added[0] in added;
        Some(stored[key] + added)
      else
        assert added == [];
        None
    else Some(triggered)
  }

  /** The two merges listed as examples: only new ids are appended, and nothing new means no write. */
  lemma MergeExamples()
    ensures MergeNextActivities(map["a1/nextActivity" := ["a", "b"]], "a1/nextActivity", ["b", "c"]) == Some(["a", "b", "c"])
    ensures MergeNextActivities(map["a1/nextActivity" := ["a", "b"]], "a1/nextActivity", ["a", "b"]) == None
  {
    var stored, triggered := ["a", "b"], ["b", "c"];
    var keep, at := AbsentFrom(triggered, stored), ElementOf(triggered);
    assert stored[1] == "b" && !keep(0);
    assert keep(1) && at(1) == "c";
    assert FilterMap(1, keep, at) == [];
    assert Difference(triggered, stored) == FilterMap(2, keep, at) == ["c"];
    assert stored + ["c"] == ["a", "b", "c"];
    var none := AbsentFrom(stored, stored);
    assert stored[0] == "a" && !none(0) && !none(1);
    assert Difference(stored, stored) == FilterMap(2, none, ElementOf(stored)) == [];
  }

  // ---------------------------------------------------------------------------
  // The whole pass (lines 105-174)

  /**
   * One run of the effect: the reports given to `setMessages`, and the list
   * written under `<activity id>/nextActivity`, if any. `stored` is the
   * cumulative-activities store (an absent store behaves as an empty one).
   */
  method Summarize(activity: Activity, responses: seq<Value>, stored: map<string, seq<string>>, ext: Externals)
    returns (reports: seq<Report>, write: Option<seq<string>>)
    ensures var cs := CumulativeScores(activity, responses, ext);
      var cm := CumulativeMaxScores(activity, responses, ext);
      cs.Keys == cm.Keys == RuleKeys(activity.compute) &&
      reports == Reports(activity.messages, activity.compute, cs, cm, ext) &&
      write == MergeNextActivities(stored, NextActivityKey(activity.id), TriggeredNext(activity.messages, cs, cm, ext))
  {
    var scores, maxScores := CollectScores(activity.items, responses, ext);
    var cumulativeScores := Cumulate(activity.compute, RuleValue(activity.items, scores, ext));
    var cumulativeMaxScores := Cumulate(activity.compute, RuleValue(activity.items, maxScores, ext));
    var next;
    reports, next := SelectMessages(activity.messages, activity.compute, cumulativeScores, cumulativeMaxScores, ext);
    var key := NextActivityKey(activity.id);
    if key in stored {
      var added := Difference(next, stored[key]);
      if |added| > 0 {
        write := Some(stored[key] + added);
      } else {
        write := None;
      }
    } else {
      write := Some(next);
    }
  }
}
