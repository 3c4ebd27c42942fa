/** What the rule order of `generateResponse` implies: first match wins,
    which triggers can never decide a reply, and which replies a roll reaches. */
module ResponderFacts {
  import opened JsText
  import opened Responder

  /** The position of a category's rule in the rule order; Default comes
      after all of them. */
  function Rank(c: Category): nat {
    match c
    case Greeting => 0
    case About => 1
    case Projects => 2
    case Skills => 3
    case Contact => 4
    case Experience => 5
    case TechStack => 6
    case Availability => 7
    case Rate => 8
    case Location => 9
    case Default => 10
  }

  /** Each rule of `rules` has the category of its own position, so no two
      rules share a category and none of them is Default. */
  predicate Ranked(rules: seq<Rule>) {
    |rules| <= Rank(Default) &&
    forall j :: 0 <= j < |rules| ==> Rank(rules[j].category) == j
  }

  /** The site's rules are in the order of their categories. */
  lemma RulesRanked()
    ensures Ranked(Rules)
  {
  }

  /** The rule that decides from index `from` on is never an earlier one. */
  lemma {:induction false} FirstMatchRank(rules: seq<Rule>, text: string, from: nat)
    requires Ranked(rules) && from <= |rules|
    ensures Rank(FirstMatch(rules, text, from)) >= from
    decreases |rules| - from
  {
    if from < |rules| && !ContainsAny(text, rules[from].triggers) {
      FirstMatchRank(rules, text, from + 1);
    }
  }

  /** Rule `i` decides the category from index `from` on exactly when it
      fires and no rule between `from` and `i` does. */
  lemma {:induction false} FirstMatchIs(rules: seq<Rule>, text: string, from: nat, i: nat)
    requires Ranked(rules) && from <= i < |rules|
    ensures FirstMatch(rules, text, from) == rules[i].category <==>
              ContainsAny(text, rules[i].triggers) &&
              forall j :: from <= j < i ==> !ContainsAny(text, rules[j].triggers)
    decreases i - from
  {
    if from < i && !ContainsAny(text, rules[from].triggers) {
      FirstMatchIs(rules, text, from + 1, i);
    } else if from == i && !ContainsAny(text, rules[i].triggers) {
      FirstMatchRank(rules, text, i + 1);
    }
  }

  /** A rule's category is never Default, so the default applies exactly
      when no rule from `from` on fires. */
  lemma {:induction false} FirstMatchNeverDefault(rules: seq<Rule>, text: string, from: nat)
    requires Ranked(rules) && from <= |rules|
    ensures FirstMatch(rules, text, from) == Default <==>
              forall j :: from <= j < |rules| ==> !ContainsAny(text, rules[j].triggers)
    decreases |rules| - from
  {
    if from < |rules| && !ContainsAny(text, rules[from].triggers) {
      FirstMatchNeverDefault(rules, text, from + 1);
    }
  }

  /** First match wins: the category is rule `i`'s exactly when rule `i`
      fires and no earlier rule does. */
  lemma ClassifyIsRule(text: string, i: nat)
    requires i < |Rules|
    ensures Classify(text) == Rules[i].category <==>
              ContainsAny(text, Rules[i].triggers) && NoneBefore(text, i)
  {
    RulesRanked();
    FirstMatchIs(Rules, text, 0, i);
  }

  /** The default category is used exactly when no rule fires. */
  lemma ClassifyIsDefault(text: string)
    ensures Classify(text) == Default <==> NoneBefore(text, |Rules|)
  {
    RulesRanked();
    FirstMatchNeverDefault(Rules, text, 0);
  }

  /** Any input containing "hi" is a greeting, whatever else it contains. */
  lemma ContainsHiIsGreeting(text: string)
    requires Includes(text, "hi")
    ensures Classify(text) == Greeting
  {
    ContainsAnyIff(text, Rules[0].triggers);
    assert "hi" in Rules[0].triggers;
    ClassifyIsRule(text, 0);
  }

  /** "hire" contains "hi": any input with "hire" in it is a greeting, so the
      "hire" triggers of the contact and availability rules never decide. */
  lemma HireIsGreeting(text: string)
    requires Includes(text, "hire")
    ensures Includes(text, "hi")
    ensures Classify(text) == Greeting
  {
    IncludesIff(text, "hire");
    var i: nat :| OccursAt(text, "hire", i);
    assert text[i..i + 2] == text[i..i + 4][..2];
    IncludesAt(text, "hi", i);
    ContainsHiIsGreeting(text);
  }

  /** An input holding "hire" fires the greeting rule. */
  lemma HireFiresGreetingRule(text: string)
    ensures Includes(text, "hire") ==> ContainsAny(text, Rules[0].triggers)
  {
    if Includes(text, "hire") {
      HireIsGreeting(text);
      ContainsAnyIff(text, Rules[0].triggers);
      assert "hi" in Rules[0].triggers;
    }
  }

  /** An input holding "work" fires the projects rule. */
  lemma WorkFiresProjectsRule(text: string)
    ensures Includes(text, "work") ==> ContainsAny(text, Rules[2].triggers)
  {
    ContainsAnyIff(text, Rules[2].triggers);
    assert "work" in Rules[2].triggers;
  }

  /** Any input with "work" in it that is not a greeting or an about question
      is a projects question, so "work" never selects the availability reply. */
  lemma WorkIsProjects(text: string)
    requires Includes(text, "work")
    ensures Classify(text) in {Greeting, About, Projects}
  {
    WorkFiresProjectsRule(text);
    ClassifyIsRule(text, 0);
    ClassifyIsRule(text, 1);
    ClassifyIsRule(text, 2);
  }

  /** The availability reply is chosen exactly when "available" or
      "freelance" occurs and none of the seven earlier rules fires. */
  lemma AvailabilityIff(text: string)
    ensures Classify(text) == Availability <==>
              (Includes(text, "available") || Includes(text, "freelance")) && NoneBefore(text, 7)
  {
    ClassifyIsRule(text, 7);
    HireFiresGreetingRule(text);
    WorkFiresProjectsRule(text);
    var ts := Rules[7].triggers;
    assert ts == ["available", "freelance", "hire", "work"];
    ContainsAnyIff(text, ts);
    if ContainsAny(text, ts) && NoneBefore(text, 7) {
      var k :| k in ts && Includes(text, k);
      assert k == "available" || k == "freelance";
    }
  }

  /** The contact reply never comes from "hire": one of its other triggers
      must occur. */
  lemma ContactNeedsOwnTrigger(text: string)
    requires Classify(text) == Contact
    ensures Includes(text, "contact") || Includes(text, "email") ||
            Includes(text, "reach") || Includes(text, "get in touch")
  {
    ClassifyIsRule(text, 4);
    HireFiresGreetingRule(text);
    var ts := Rules[4].triggers;
    assert ts == ["contact", "email", "reach", "get in touch", "hire"];
    ContainsAnyIff(text, ts);
    var k :| k in ts && Includes(text, k);
    assert !ContainsAny(text, Rules[0].triggers);
  }

  /** "which" holds "hi", so it is classified as a greeting. */
  lemma WhichIsGreeting()
    ensures Classify("which") == Greeting
  {
    assert "which"[1..3] == "hi";
    IncludesAt("which", "hi", 1);
    ContainsHiIsGreeting("which");
  }

  /** "hi" and "Hello" are answered from the greetings pool. */
  lemma HiGetsGreeting(t: ReplyTexts, roll: real)
    requires ValidTexts(t) && IsRoll(roll)
    ensures GenerateResponse(t, "hi", roll) in t.responses["greetings"]
    ensures GenerateResponse(t, "Hello", roll) in t.responses["greetings"]
  {
    LowerCaseFixed("hi");
    assert OccursAt("hi", "hi", 0);
    ContainsHiIsGreeting("hi");
    assert ToLowerCase("Hello") == "hello";
    assert OccursAt("hello", "hello", 0);
    assert "hello" in Rules[0].triggers;
    ClassifyIsRule("hello", 0);
  }

  /** A request to hire for a project is a greeting, not a projects question:
      the greeting rule comes first and "hire" holds "hi". */
  lemma HireForProjectIsGreeting()
    ensures Classify("i'd like to hire you for a project") == Greeting
  {
    assert "i'd like to hire you for a project"[12..14] == "hi";
    IncludesAt("i'd like to hire you for a project", "hi", 12);
    ContainsHiIsGreeting("i'd like to hire you for a project");
  }

  /** The reply depends only on the lower-cased message. */
  lemma {:induction false} ResponseIgnoresCase(t: ReplyTexts, userMessage: string, roll: real)
    requires ValidTexts(t) && IsRoll(roll)
    ensures GenerateResponse(t, ToLowerCase(userMessage), roll) == GenerateResponse(t, userMessage, roll)
  {
    LowerCaseFixed(ToLowerCase(userMessage));
  }

  /** Every reply of every category is produced by some roll. */
  lemma ReplyCovers(t: ReplyTexts, c: Category, i: nat)
    requires ValidTexts(t) && i < |Replies(t, c)|
    ensures IsRoll(i as real / |Replies(t, c)| as real)
    ensures Reply(t, c, i as real / |Replies(t, c)| as real) == Replies(t, c)[i]
  {
    PickCovers(|Replies(t, c)|, i);
  }

  /** With no rule firing, the reply is a member of the default pool. */
  lemma UnmatchedGetsDefault(t: ReplyTexts, userMessage: string, roll: real)
    requires ValidTexts(t) && IsRoll(roll)
    requires NoneBefore(ToLowerCase(userMessage), |Rules|)
    ensures GenerateResponse(t, userMessage, roll) in t.responses["default"]
  {
    ClassifyIsDefault(ToLowerCase(userMessage));
  }
}
