/**
 * The rule engine: declarative rules matched against one stored email.
 *
 * A rule is a list of (field, predicate, value) conditions combined with
 * "all" (AND) or "any" (OR); an email collects the actions of every rule
 * it matches, in rule order. Every failure inside a condition (absent
 * field, unknown predicate, unparseable date) makes that condition false.
 */
module Engine {

  import opened Wrappers
  import opened Text
  import opened Store

  // ---------------------------------------------------------------------
  // Rule records
  // ---------------------------------------------------------------------

  datatype Condition = Condition(field: string, predicateName: string, value: string)

  /** An action to run on a matching email; `destination` defaults to "". */
  datatype Action = Action(kind: string, destination: string := "")

  /** A rule; `logic` defaults to "all". */
  datatype Rule = Rule(name: string, conditions: seq<Condition>, actions: seq<Action>, logic: string := "all")

  /** What reading and validating the rules file produced. */
  datatype RuleDocument = Parsed(rules: seq<Rule>) | Unreadable

  /** Loading the rules file: any failure yields an empty rule list. */
  function LoadRules(doc: RuleDocument): (rules: seq<Rule>)
    ensures doc.Unreadable? ==> rules == []
    ensures doc.Parsed? ==> rules == doc.rules
  {
    match doc
    case Parsed(rs) => rs
    case Unreadable => []
  }

  // ---------------------------------------------------------------------
  // Field lookup
  // ---------------------------------------------------------------------

  datatype FieldValue = TextValue(s: string) | TimeValue(t: Instant)

  function LiftText(o: Option<string>): Option<FieldValue> {
    match o
    case Some(s) => Some(TextValue(s))
    case None => None
  }

  /** The email attribute a condition's field name selects (names compared lower-cased). */
  function FieldValueOf(email: Email, field: string): Option<FieldValue> {
    var f := Lower(field);
    if f == "from" then LiftText(email.sender)
    else if f == "to" then LiftText(email.recipient)
    else if f == "subject" then LiftText(email.subject)
    else if f == "message" then LiftText(email.body)
    else if f == "received_date" then
      (match email.receivedAt
       case Some(t) => Some(TimeValue(t))
       case None => None)
    else None
  }

  /** `str(field_value)` */
  function Rendered(v: FieldValue): string {
    match v
    case TextValue(s) => s
    case TimeValue(t) => t.text
  }

  // ---------------------------------------------------------------------
  // Relative dates: "<int> <unit> ago"
  // ---------------------------------------------------------------------

  const Hour: int := 3600
  const Day: int := 24 * Hour
  const Week: int := 7 * Day
  const Month: int := 30 * Day

  /** The length of one unit; units are recognised by their prefix. */
  function UnitSeconds(unit: string): Option<int> {
    if StartsWith(unit, "day") then Some(Day)
    else if StartsWith(unit, "hour") then Some(Hour)
    else if StartsWith(unit, "week") then Some(Week)
    else if StartsWith(unit, "month") then Some(Month)
    else None
  }

  /** The instant a relative-date expression names, or `None` if it is malformed. */
  function ParseRelativeDate(expr: string, now: int): Option<int> {
    var parts := Words(Lower(expr));
    if |parts| == 3 && parts[2] == "ago" then
      match ParseInt(parts[0])
      case None => None
      case Some(amount) =>
        match UnitSeconds(parts[1])
        case None => None
        case Some(unit) => Some(now - amount * unit)
    else None
  }

  datatype Direction = After | Before

  /** `greater_than` / `less_than`: strict comparison of a timestamp field with the parsed target. */
  function CompareDates(v: FieldValue, target: string, dir: Direction, now: int): bool {
    match v
    case TextValue(_) => false
    case TimeValue(t) =>
      match ParseRelativeDate(target, now)
      case None => false
      case Some(d) => if dir == After then t.seconds > d else t.seconds < d
  }

  // ---------------------------------------------------------------------
  // Conditions, rules, rule sets
  // ---------------------------------------------------------------------

  /** A lower-cased predicate name applied to a present field value. */
  function ApplyPredicate(p: string, v: FieldValue, value: string, now: int): bool {
    var text := Lower(Rendered(v));
    var target := Lower(value);
    if p == "contains" then Occurs(target, text)
    else if p == "not_contains" then !Occurs(target, text)
    else if p == "equals" then text == target
    else if p == "not_equals" then text != target
    else if p == "greater_than" then CompareDates(v, value, After, now)
    else if p == "less_than" then CompareDates(v, value, Before, now)
    else false
  }

  function EvalCondition(email: Email, c: Condition, now: int): bool {
    match FieldValueOf(email, c.field)
    case None => false
    case Some(v) => ApplyPredicate(Lower(c.predicateName), v, c.value, now)
  }

  /** The per-condition outcomes, in condition order. */
  function ConditionResults(email: Email, conds: seq<Condition>, now: int): (rs: seq<bool>)
    ensures |rs| == |conds|
    ensures forall k :: 0 <= k < |conds| ==> rs[k] == EvalCondition(email, conds[k], now)
  {
    seq(|conds|, k requires 0 <= k < |conds| => EvalCondition(email, conds[k], now))
  }

  /** Python's `all(bs)` */
  function AllTrue(bs: seq<bool>): bool
    decreases |bs|
  {
    bs == [] || (bs[0] && AllTrue(bs[1..]))
  }

  /** Python's `any(bs)` */
  function AnyTrue(bs: seq<bool>): bool
    decreases |bs|
  {
    bs != [] && (bs[0] || AnyTrue(bs[1..]))
  }

  predicate RuleMatches(rule: Rule, email: Email, now: int) {
    var rs := ConditionResults(email, rule.conditions, now);
    if rule.logic == "all" then AllTrue(rs)
    else if rule.logic == "any" then AnyTrue(rs)
    else false
  }

  function ActionsIfMatched(rule: Rule, email: Email, now: int): seq<Action> {
    if RuleMatches(rule, email, now) then rule.actions else []
  }

  /** The actions of the matching rules, concatenated in rule order. */
  function MatchedActions(rules: seq<Rule>, email: Email, now: int): seq<Action>
    decreases |rules|
  {
    if rules == [] then []
    else MatchedActions(rules[..|rules| - 1], email, now) + ActionsIfMatched(rules[|rules| - 1], email, now)
  }

  // ---------------------------------------------------------------------
  // The engine object
  // ---------------------------------------------------------------------

  class RuleEngine {
    const rules: seq<Rule>

    constructor (doc: RuleDocument)
      ensures rules == LoadRules(doc)
    {
      rules := LoadRules(doc);
    }

    /** Every rule is checked; the actions of each match are appended. */
    method EvaluateEmail(email: Email, now: int) returns (actions: seq<Action>)
      ensures actions == MatchedActions(rules, email, now)
    {
      actions := [];
      var i := 0;
      while i < |rules|
        invariant 0 <= i <= |rules|
        invariant actions == MatchedActions(rules[..i], email, now)
      {
        var matched := EvaluateRule(email, rules[i], now);
        if matched {
          actions := actions + rules[i].actions;
        }
        assert rules[..i + 1][..i] == rules[..i];
        i := i + 1;
      }
      assert rules[..i] == rules;
    }

    /** All conditions are evaluated, then combined by the rule's logic. */
    method EvaluateRule(email: Email, rule: Rule, now: int) returns (matched: bool)
      ensures matched == RuleMatches(rule, email, now)
    {
      var results: seq<bool> := [];
      var i := 0;
      while i < |rule.conditions|
        invariant 0 <= i <= |rule.conditions|
        invariant |results| == i
        invariant forall k :: 0 <= k < i ==> results[k] == EvalCondition(email, rule.conditions[k], now)
      {
        results := results + [EvalCondition(email, rule.conditions[i], now)];
        i := i + 1;
      }
      assert results == ConditionResults(email, rule.conditions, now);
      if rule.logic == "all" {
        matched := AllTrue(results);
      } else if rule.logic == "any" {
        matched := AnyTrue(results);
      } else {
        matched := false;
      }
    }
  }
}
