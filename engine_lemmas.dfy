/** What the rule engine promises, stated over the functions of module Engine. */
module EngineLemmas {

  import opened Wrappers
  import opened Text
  import opened Store
  import opened Engine

  // ---------------------------------------------------------------------
  // Combining condition outcomes
  // ---------------------------------------------------------------------

  lemma {:induction false} AllTrueIff(bs: seq<bool>)
    ensures AllTrue(bs) <==> forall k :: 0 <= k < |bs| ==> bs[k]
    decreases |bs|
  {
    if bs != [] {
      AllTrueIff(bs[1..]);
      assert forall k :: 1 <= k < |bs| ==> bs[k] == bs[1..][k - 1];
    }
  }

  lemma {:induction false} AnyTrueIff(bs: seq<bool>)
    ensures AnyTrue(bs) <==> exists k :: 0 <= k < |bs| && bs[k]
    decreases |bs|
  {
    if bs != [] {
      AnyTrueIff(bs[1..]);
      assert forall k :: 1 <= k < |bs| ==> bs[k] == bs[1..][k - 1];
    }
  }

  /** "all" is a conjunction and "any" a disjunction of the conditions; any other logic never matches. */
  lemma RuleMatchesIff(rule: Rule, email: Email, now: int)
    ensures RuleMatches(rule, email, now) <==>
      (rule.logic == "all" && forall k :: 0 <= k < |rule.conditions| ==> EvalCondition(email, rule.conditions[k], now))
      || (rule.logic == "any" && exists k :: 0 <= k < |rule.conditions| && EvalCondition(email, rule.conditions[k], now))
  {
    var rs := ConditionResults(email, rule.conditions, now);
    AllTrueIff(rs);
    AnyTrueIff(rs);
  }

  /** A rule without conditions matches every email under "all" and none under "any". */
  lemma ZeroConditions(rule: Rule, email: Email, now: int)
    requires rule.conditions == []
    ensures RuleMatches(rule, email, now) <==> rule.logic == "all"
  {
    RuleMatchesIff(rule, email, now);
  }

  // ---------------------------------------------------------------------
  // Accumulating actions across rules
  // ---------------------------------------------------------------------

  /** Rules are independent: the actions of a split rule list are the two halves' actions, in order. */
  lemma {:induction false} MatchedActionsAppend(rs1: seq<Rule>, rs2: seq<Rule>, email: Email, now: int)
    ensures MatchedActions(rs1 + rs2, email, now) == MatchedActions(rs1, email, now) + MatchedActions(rs2, email, now)
    decreases |rs2|
  {
    if rs2 == [] {
      assert rs1 + rs2 == rs1;
    } else {
      var init := rs2[..|rs2| - 1];
      var last := rs2[|rs2| - 1];
      var n := |rs1 + rs2| - 1;
      assert (rs1 + rs2)[..n] == rs1 + init;
      assert (rs1 + rs2)[n] == last;
      MatchedActionsAppend(rs1, init, email, now);
      calc {
        MatchedActions(rs1 + rs2, email, now);
        MatchedActions(rs1 + init, email, now) + ActionsIfMatched(last, email, now);
        (MatchedActions(rs1, email, now) + MatchedActions(init, email, now)) + ActionsIfMatched(last, email, now);
        MatchedActions(rs1, email, now) + (MatchedActions(init, email, now) + ActionsIfMatched(last, email, now));
        MatchedActions(rs1, email, now) + MatchedActions(rs2, email, now);
      }
    }
  }

  /** The actions of the rules `keep` selects, concatenated in rule order. */
  function Selected(rules: seq<Rule>, keep: Rule -> bool): seq<Action>
    decreases |rules|
  {
    if rules == [] then []
    else
      var last := rules[|rules| - 1];
      Selected(rules[..|rules| - 1], keep) + (if keep(last) then last.actions else [])
  }

  lemma {:induction false} SelectedMembership(rules: seq<Rule>, keep: Rule -> bool, a: Action)
    ensures a in Selected(rules, keep) <==> exists k :: 0 <= k < |rules| && keep(rules[k]) && a in rules[k].actions
    decreases |rules|
  {
    if rules != [] {
      var init := rules[..|rules| - 1];
      SelectedMembership(init, keep, a);
      assert forall k :: 0 <= k < |init| ==> init[k] == rules[k];
    }
  }

  /** The engine's actions are those of the rules that match. */
  lemma {:induction false} MatchedIsSelected(rules: seq<Rule>, email: Email, now: int)
    ensures MatchedActions(rules, email, now) == Selected(rules, r => RuleMatches(r, email, now))
    decreases |rules|
  {
    if rules != [] {
      MatchedIsSelected(rules[..|rules| - 1], email, now);
    }
  }

  /** An action is emitted exactly when some matching rule lists it. */
  lemma MatchedActionsMembership(rules: seq<Rule>, email: Email, now: int, a: Action)
    ensures a in MatchedActions(rules, email, now) <==>
      exists k :: 0 <= k < |rules| && RuleMatches(rules[k], email, now) && a in rules[k].actions
  {
    var keep := r => RuleMatches(r, email, now);
    MatchedIsSelected(rules, email, now);
    SelectedMembership(rules, keep, a);
  }

  /** `sum(lists, [])`: the lists concatenated front to back. */
  function Flatten(xss: seq<seq<Action>>): seq<Action>
    decreases |xss|
  {
    if xss == [] then [] else xss[0] + Flatten(xss[1..])
  }

  lemma {:induction false} FlattenSnoc(xss: seq<seq<Action>>, xs: seq<Action>)
    ensures Flatten(xss + [xs]) == Flatten(xss) + xs
    decreases |xss|
  {
    if xss == [] {
      assert ([] + [xs])[1..] == [];
    } else {
      assert (xss + [xs])[0] == xss[0];
      assert (xss + [xs])[1..] == xss[1..] + [xs];
      FlattenSnoc(xss[1..], xs);
    }
  }

  /** Each rule's contribution: its actions if `keep` selects it, else nothing. */
  function PerRule(rules: seq<Rule>, keep: Rule -> bool): (xss: seq<seq<Action>>)
    ensures |xss| == |rules|
  {
    seq(|rules|, k requires 0 <= k < |rules| => if keep(rules[k]) then rules[k].actions else [])
  }

  lemma {:induction false} SelectedIsFlatten(rules: seq<Rule>, keep: Rule -> bool)
    ensures Selected(rules, keep) == Flatten(PerRule(rules, keep))
    decreases |rules|
  {
    if rules != [] {
      var n := |rules| - 1;
      var last := if keep(rules[n]) then rules[n].actions else [];
      SelectedIsFlatten(rules[..n], keep);
      assert PerRule(rules, keep) == PerRule(rules[..n], keep) + [last];
      FlattenSnoc(PerRule(rules[..n], keep), last);
    }
  }

  /**
   * The engine's result, read front to back: one action list per rule (the
   * rule's actions when it matches, nothing otherwise), concatenated.
   */
  lemma MatchedActionsFlattened(rules: seq<Rule>, email: Email, now: int)
    ensures MatchedActions(rules, email, now)
         == Flatten(seq(|rules|, k requires 0 <= k < |rules| => ActionsIfMatched(rules[k], email, now)))
  {
    var keep := r => RuleMatches(r, email, now);
    MatchedIsSelected(rules, email, now);
    SelectedIsFlatten(rules, keep);
    assert PerRule(rules, keep) == seq(|rules|, k requires 0 <= k < |rules| => ActionsIfMatched(rules[k], email, now));
  }

  /** With no rules (for instance after a failed load) no email gets any action. */
  lemma NoRulesNoActions(doc: RuleDocument, email: Email, now: int)
    requires doc.Unreadable? || doc == Parsed([])
    ensures MatchedActions(LoadRules(doc), email, now) == []
  {
  }

  /** Two matching rules that both emit an action emit it twice: nothing is deduplicated. */
  lemma DuplicatesKept(r1: Rule, r2: Rule, email: Email, now: int)
    requires RuleMatches(r1, email, now) && RuleMatches(r2, email, now)
    ensures MatchedActions([r1, r2], email, now) == r1.actions + r2.actions
  {
    assert [r1, r2][..1] == [r1];
    assert [r1][..0] == [];
    calc {
      MatchedActions([r1, r2], email, now);
      MatchedActions([r1], email, now) + ActionsIfMatched(r2, email, now);
      MatchedActions([], email, now) + ActionsIfMatched(r1, email, now) + r2.actions;
      r1.actions + r2.actions;
    }
  }

  // ---------------------------------------------------------------------
  // Conditions
  // ---------------------------------------------------------------------

  /** An absent field (unknown name or missing value) fails every predicate. */
  lemma AbsentFieldNeverMatches(email: Email, c: Condition, now: int)
    requires FieldValueOf(email, c.field).None?
    ensures !EvalCondition(email, c, now)
  {
  }

  /** The six predicate names are already lower-case. */
  lemma PredicateNamesLowerCase()
    ensures Lower("contains") == "contains" && Lower("not_contains") == "not_contains"
    ensures Lower("equals") == "equals" && Lower("not_equals") == "not_equals"
    ensures Lower("greater_than") == "greater_than" && Lower("less_than") == "less_than"
  {
    LowerIsLowerCase("contains");
    LowerIsLowerCase("not_contains");
    LowerIsLowerCase("equals");
    LowerIsLowerCase("not_equals");
    LowerIsLowerCase("greater_than");
    LowerIsLowerCase("less_than");
  }

  /** The field names the examples use are already lower-case. */
  lemma FieldNamesLowerCase()
    ensures Lower("from") == "from" && Lower("subject") == "subject" && Lower("received_date") == "received_date"
  {
    LowerIsLowerCase("from");
    LowerIsLowerCase("subject");
    LowerIsLowerCase("received_date");
  }

  /** With the field present, a condition is its predicate applied to the field's value. */
  lemma EvalPresent(email: Email, c: Condition, now: int, v: FieldValue)
    requires FieldValueOf(email, c.field) == Some(v)
    ensures EvalCondition(email, c, now) == ApplyPredicate(Lower(c.predicateName), v, c.value, now)
  {
  }

  /** What each text predicate name selects. */
  lemma ApplyText(v: FieldValue, value: string, now: int)
    ensures ApplyPredicate("contains", v, value, now) == Occurs(Lower(value), Lower(Rendered(v)))
    ensures ApplyPredicate("not_contains", v, value, now) == !Occurs(Lower(value), Lower(Rendered(v)))
    ensures ApplyPredicate("equals", v, value, now) == (Lower(Rendered(v)) == Lower(value))
    ensures ApplyPredicate("not_equals", v, value, now) == (Lower(Rendered(v)) != Lower(value))
  {
  }

  /** What each date predicate name selects. */
  lemma ApplyDate(v: FieldValue, value: string, now: int)
    ensures ApplyPredicate("greater_than", v, value, now) == CompareDates(v, value, After, now)
    ensures ApplyPredicate("less_than", v, value, now) == CompareDates(v, value, Before, now)
  {
  }

  /** For a present field, `not_contains` and `not_equals` are exactly the negations. */
  lemma NegatedPredicates(email: Email, field: string, value: string, now: int)
    requires FieldValueOf(email, field).Some?
    ensures EvalCondition(email, Condition(field, "not_contains", value), now)
         == !EvalCondition(email, Condition(field, "contains", value), now)
    ensures EvalCondition(email, Condition(field, "not_equals", value), now)
         == !EvalCondition(email, Condition(field, "equals", value), now)
  {
    var v := FieldValueOf(email, field).value;
    PredicateNamesLowerCase();
    EvalPresent(email, Condition(field, "not_contains", value), now, v);
    EvalPresent(email, Condition(field, "contains", value), now, v);
    EvalPresent(email, Condition(field, "not_equals", value), now, v);
    EvalPresent(email, Condition(field, "equals", value), now, v);
    ApplyText(v, value, now);
  }

  /** On a text field, `contains` is a substring test on the lower-cased texts. */
  lemma ContainsIgnoresCase(email: Email, field: string, s: string, value: string, now: int)
    requires FieldValueOf(email, field) == Some(TextValue(s))
    ensures EvalCondition(email, Condition(field, "contains", value), now) <==> Occurs(Lower(value), Lower(s))
  {
    PredicateNamesLowerCase();
    EvalPresent(email, Condition(field, "contains", value), now, TextValue(s));
    ApplyText(TextValue(s), value, now);
  }

  /** On a text field, `equals` compares the lower-cased texts. */
  lemma EqualsIgnoresCase(email: Email, field: string, s: string, value: string, now: int)
    requires FieldValueOf(email, field) == Some(TextValue(s))
    ensures EvalCondition(email, Condition(field, "equals", value), now) <==> Lower(s) == Lower(value)
  {
    PredicateNamesLowerCase();
    EvalPresent(email, Condition(field, "equals", value), now, TextValue(s));
    ApplyText(TextValue(s), value, now);
  }

  lemma FieldNameIgnoresCase(email: Email, field: string)
    ensures FieldValueOf(email, Lower(field)) == FieldValueOf(email, field)
  {
    LowerIdempotent(field);
  }

  lemma ValueIgnoresCase(p: string, v: FieldValue, value: string, now: int)
    ensures ApplyPredicate(p, v, Lower(value), now) == ApplyPredicate(p, v, value, now)
  {
    LowerIdempotent(value);
    ParseRelativeDateIgnoresCase(value, now);
  }

  /** Field names, predicate names and values are all compared case-insensitively. */
  lemma CaseInsensitive(email: Email, c: Condition, now: int)
    ensures EvalCondition(email, Condition(Lower(c.field), Lower(c.predicateName), Lower(c.value)), now)
         == EvalCondition(email, c, now)
  {
    FieldNameIgnoresCase(email, c.field);
    LowerIdempotent(c.predicateName);
    match FieldValueOf(email, c.field)
    case None =>
    case Some(v) => ValueIgnoresCase(Lower(c.predicateName), v, c.value, now);
  }

  /** A predicate outside the six known ones never matches. */
  lemma UnknownPredicateNeverMatches(email: Email, c: Condition, now: int)
    requires Lower(c.predicateName) !in ["contains", "not_contains", "equals", "not_equals", "greater_than", "less_than"]
    ensures !EvalCondition(email, c, now)
  {
  }

  /** `greater_than` is "strictly after" and `less_than` "strictly before" the parsed target; both need a timestamp field. */
  lemma DatePredicates(email: Email, field: string, value: string, now: int)
    ensures EvalCondition(email, Condition(field, "greater_than", value), now) <==>
      (FieldValueOf(email, field).Some? && FieldValueOf(email, field).value.TimeValue?
       && ParseRelativeDate(value, now).Some?
       && FieldValueOf(email, field).value.t.seconds > ParseRelativeDate(value, now).value)
    ensures EvalCondition(email, Condition(field, "less_than", value), now) <==>
      (FieldValueOf(email, field).Some? && FieldValueOf(email, field).value.TimeValue?
       && ParseRelativeDate(value, now).Some?
       && FieldValueOf(email, field).value.t.seconds < ParseRelativeDate(value, now).value)
  {
    PredicateNamesLowerCase();
    match FieldValueOf(email, field)
    case None =>
    case Some(v) =>
      EvalPresent(email, Condition(field, "greater_than", value), now, v);
      EvalPresent(email, Condition(field, "less_than", value), now, v);
      ApplyDate(v, value, now);
  }

  // ---------------------------------------------------------------------
  // Relative dates
  // ---------------------------------------------------------------------

  lemma ParseRelativeDateIgnoresCase(expr: string, now: int)
    ensures ParseRelativeDate(Lower(expr), now) == ParseRelativeDate(expr, now)
  {
    LowerIdempotent(expr);
  }

  /** `"<n> <unit> ago"` parses back to `now - n` units, for every integer `n`. */
  lemma ParsePhrase(amount: int, unit: string, now: int)
    requires unit != [] && NoSpace(unit) && HasNoUpper(unit)
    requires UnitSeconds(unit).Some?
    ensures ParseRelativeDate(IntToString(amount) + " " + unit + " ago", now)
         == Some(now - amount * UnitSeconds(unit).value)
  {
    var n := IntToString(amount);
    IntToStringShape(amount);
    var expr := n + " " + unit + " ago";
    var ws := [n, unit, "ago"];
    assert JoinSpaced(ws) == expr by {
      assert JoinSpaced(ws[2..]) == "ago";
      assert JoinSpaced(ws[1..]) == unit + " " + "ago";
    }
    assert NoSpace("ago") && HasNoUpper(" ago") && HasNoUpper(" ");
    WordsOfJoined(ws);
    LowerAppend(n + " " + unit, " ago");
    LowerAppend(n + " ", unit);
    LowerAppend(n, " ");
    LowerIsLowerCase(n);
    LowerIsLowerCase(unit);
    LowerIsLowerCase(" ");
    LowerIsLowerCase(" ago");
    assert Lower(expr) == expr;
    ParseIntOfString(amount);
    WellFormedExpression(expr, now, amount, UnitSeconds(unit).value);
  }

  /**
   * An expression is rejected exactly when it is not three words ending in
   * "ago", or its first word is not an integer, or its second word starts
   * with no known unit.
   */
  lemma MalformedExpression(expr: string, now: int)
    ensures var ws := Words(Lower(expr));
      ParseRelativeDate(expr, now).None? <==>
        |ws| != 3 || ws[2] != "ago" || ParseInt(ws[0]).None? || UnitSeconds(ws[1]).None?
  {
  }

  /** A well-formed expression names `now` minus its amount times its unit. */
  lemma WellFormedExpression(expr: string, now: int, amount: int, unit: int)
    requires var ws := Words(Lower(expr));
      |ws| == 3 && ws[2] == "ago" && ParseInt(ws[0]) == Some(amount) && UnitSeconds(ws[1]) == Some(unit)
    ensures ParseRelativeDate(expr, now) == Some(now - amount * unit)
  {
  }

  /** The words of the spaced example, after lower-casing. */
  lemma SpacedWords()
    ensures Words(Lower(" 7  Days\tago\n")) == ["7", "days", "ago"]
  {
    assert Lower(" 7  Days\tago\n") == " 7  days\tago\n";
    var ws := ["7", "days", "ago"];
    var seps := ["  ", "\t"];
    assert Interleave(ws, seps) == "7  days\tago" by {
      assert Interleave(ws[2..], seps[2..]) == "ago";
      assert Interleave(ws[1..], seps[1..]) == "days\tago";
    }
    assert " " + Interleave(ws, seps) + "\n" == " 7  days\tago\n";
    WordsOfSpaced(" ", ws, seps, "\n");
  }

  /** Any whitespace may separate and surround the three words, and the unit may be capitalised. */
  lemma SpacedPhrase(now: int)
    ensures ParseRelativeDate(" 7  Days\tago\n", now) == Some(now - 7 * Day)
  {
    SpacedWords();
    assert ParseInt("7") == Some(7);
    assert StartsWith("days", "day");
    assert UnitSeconds("days") == Some(Day);
    WellFormedExpression(" 7  Days\tago\n", now, 7, Day);
  }

  // ---------------------------------------------------------------------
  // The behaviours exercised by the repository's tests
  // ---------------------------------------------------------------------

  function SampleEmail(sender: string, subject: string, received: Instant): Email {
    Email("test1", "thread1", "test1", Some(sender), None, Some(subject), Some("Test message"),
          Some(received), false, [])
  }

  lemma SevenDaysAgo(now: int)
    ensures ParseRelativeDate("7 days ago", now) == Some(now - 7 * Day)
  {
    assert IntToString(7) == "7";
    assert StartsWith("days", "day");
    assert NoSpace("days") && HasNoUpper("days");
    ParsePhrase(7, "days", now);
    assert "7" + " " + "days" + " ago" == "7 days ago";
  }

  /** A ten-day-old email is `less_than "7 days ago"` and not `greater_than` it. */
  lemma TenDayOldEmail(now: int, text: string)
    ensures var e := SampleEmail("test@example.com", "Old Email", Instant(now - 10 * Day, text));
      EvalCondition(e, Condition("received_date", "less_than", "7 days ago"), now)
      && !EvalCondition(e, Condition("received_date", "greater_than", "7 days ago"), now)
  {
    var e := SampleEmail("test@example.com", "Old Email", Instant(now - 10 * Day, text));
    SevenDaysAgo(now);
    FieldNamesLowerCase();
    assert FieldValueOf(e, "received_date") == Some(TimeValue(Instant(now - 10 * Day, text)));
    DatePredicates(e, "received_date", "7 days ago", now);
  }

  /** The single-rule scenario: a sender containing "noreply" yields exactly `[mark_read]`. */
  lemma NoreplyScenario(received: Instant, now: int)
    ensures var rule := Rule("R1", [Condition("from", "contains", "noreply")], [Action("mark_read")], "all");
      MatchedActions([rule], SampleEmail("noreply@example.com", "Test Subject", received), now)
        == [Action("mark_read")]
  {
    var rule := Rule("R1", [Condition("from", "contains", "noreply")], [Action("mark_read")], "all");
    var e := SampleEmail("noreply@example.com", "Test Subject", received);
    FieldNamesLowerCase();
    assert FieldValueOf(e, "from") == Some(TextValue("noreply@example.com"));
    ContainsIgnoresCase(e, "from", "noreply@example.com", "noreply", now);
    assert OccursAt("noreply", "noreply@example.com", 0);
    LowerKeepsOccurrence("noreply", "noreply@example.com", 0);
    assert EvalCondition(e, rule.conditions[0], now);
    RuleMatchesIff(rule, e, now);
    assert RuleMatches(rule, e, now);
    assert [rule][..0] == [];
    assert MatchedActions([rule], e, now) == MatchedActions([], e, now) + ActionsIfMatched(rule, e, now);
  }

  /** Under "any", one satisfied condition is enough. */
  lemma AnyLogicExample(received: Instant, now: int)
    ensures var rule := Rule("Test Rule", [Condition("from", "contains", "noreply"), Condition("subject", "contains", "Newsletter")],
                             [Action("mark_read")], "any");
      RuleMatches(rule, SampleEmail("user@example.com", "Newsletter", received), now)
  {
    var rule := Rule("Test Rule", [Condition("from", "contains", "noreply"), Condition("subject", "contains", "Newsletter")],
                     [Action("mark_read")], "any");
    var e := SampleEmail("user@example.com", "Newsletter", received);
    FieldNamesLowerCase();
    assert FieldValueOf(e, "subject") == Some(TextValue("Newsletter"));
    ContainsIgnoresCase(e, "subject", "Newsletter", "Newsletter", now);
    assert OccursAt("Newsletter", "Newsletter", 0);
    LowerKeepsOccurrence("Newsletter", "Newsletter", 0);
    assert EvalCondition(e, rule.conditions[1], now);
    RuleMatchesIff(rule, e, now);
  }
}
