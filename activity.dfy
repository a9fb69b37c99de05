/** `getActivityType` (src/App.js:125-131) and the list of tracked types `ACTIVITY_TYPES`
    (src/App.js:18): a summary is classed by the first of the keywords "launch", "unstake" and
    "sell" that its lower-cased text contains. */
module Activity {
  import opened Strings

  datatype ActivityType = Launch | Unstake | Sell | Other

  /** `ACTIVITY_TYPES` */
  const ActivityTypes: seq<string> := ["Launch", "Unstake", "Sell"]

  /** The display name the source returns for each type. */
  function Name(t: ActivityType): string {
    match t
    case Launch => "Launch"
    case Unstake => "Unstake"
    case Sell => "Sell"
    case Other => "Other"
  }

  /** `getActivityType(summary)` */
  function GetActivityType(summary: string): ActivityType {
    var lower := Lower(summary);
    if Contains(lower, "launch") then Launch
    else if Contains(lower, "unstake") then Unstake
    else if Contains(lower, "sell") then Sell
    else Other
  }

  /** The keyword each tracked type is matched by is its name, lower-cased. */
  lemma KeywordsAreLoweredNames()
    ensures Lower(ActivityTypes[0]) == "launch" && Name(Launch) == ActivityTypes[0]
    ensures Lower(ActivityTypes[1]) == "unstake" && Name(Unstake) == ActivityTypes[1]
    ensures Lower(ActivityTypes[2]) == "sell" && Name(Sell) == ActivityTypes[2]
  {
    LowerLaunch();
    LowerUnstake();
    LowerSell();
  }

  lemma LowerLaunch()
    ensures Lower("Launch") == "launch"
  {
    LowerCapitalized('L', "aunch");
    assert "Launch" == ['L'] + "aunch";
  }

  lemma LowerUnstake()
    ensures Lower("Unstake") == "unstake"
  {
    LowerCapitalized('U', "nstake");
    assert "Unstake" == ['U'] + "nstake";
  }

  lemma LowerSell()
    ensures Lower("Sell") == "sell"
  {
    LowerCapitalized('S', "ell");
    assert "Sell" == ['S'] + "ell";
  }

  /** A capitalised word lowers to its first letter lowered, followed by the rest unchanged. */
  lemma LowerCapitalized(c: char, rest: string)
    requires 'A' <= c <= 'Z' && NoCapitals(rest)
    ensures Lower([c] + rest) == [(c as int + 32) as char] + rest
  {
    LowerOfNoCapitals(rest);
    assert ([c] + rest)[1..] == rest;
  }

  /** A summary is classed as one of the tracked types exactly when its lower-cased text contains
      the lower-cased name of one of `ACTIVITY_TYPES`. */
  lemma TrackedIffKeyword(summary: string)
    ensures GetActivityType(summary) != Other <==>
      exists i :: 0 <= i < |ActivityTypes| && Contains(Lower(summary), Lower(ActivityTypes[i]))
  {
    ClassByKeywords(summary);
    KeywordOfSomeType(Lower(summary));
  }

  /** `getActivityType` tests the three keywords, spelled out. */
  lemma ClassByKeywords(summary: string)
    ensures GetActivityType(summary) != Other <==>
      Contains(Lower(summary), "launch") || Contains(Lower(summary), "unstake") || Contains(Lower(summary), "sell")
  {
  }

  /** The three keywords are the lower-cased entries of `ACTIVITY_TYPES`. */
  lemma KeywordOfSomeType(text: string)
    ensures (Contains(text, "launch") || Contains(text, "unstake") || Contains(text, "sell")) <==>
      exists i :: 0 <= i < |ActivityTypes| && Contains(text, Lower(ActivityTypes[i]))
  {
    KeywordsAreLoweredNames();
    ContainsOneOfThree(text, ActivityTypes, ["launch", "unstake", "sell"]);
  }

  /** Containing one of three keywords, spelled out, is containing the lower-cased form of one of
      three names that lower to them. */
  lemma ContainsOneOfThree(text: string, names: seq<string>, keywords: seq<string>)
    requires |names| == 3 && |keywords| == 3
    requires forall i :: 0 <= i < 3 ==> Lower(names[i]) == keywords[i]
    ensures (Contains(text, keywords[0]) || Contains(text, keywords[1]) || Contains(text, keywords[2])) <==>
      exists i :: 0 <= i < |names| && Contains(text, Lower(names[i]))
  {
    if Contains(text, keywords[0]) {
      assert Contains(text, Lower(names[0]));
    } else if Contains(text, keywords[1]) {
      assert Contains(text, Lower(names[1]));
    } else if Contains(text, keywords[2]) {
      assert Contains(text, Lower(names[2]));
    }
  }

  /** The class of a tracked summary is the first of `ACTIVITY_TYPES` whose lower-cased name its
      lower-cased text contains. */
  lemma FirstKeywordWins(summary: string)
    requires GetActivityType(summary) != Other
    ensures var i := if GetActivityType(summary) == Launch then 0 else if GetActivityType(summary) == Unstake then 1 else 2;
      && Name(GetActivityType(summary)) == ActivityTypes[i]
      && Contains(Lower(summary), Lower(ActivityTypes[i]))
      && forall j :: 0 <= j < i ==> !Contains(Lower(summary), Lower(ActivityTypes[j]))
  {
    KeywordsAreLoweredNames();
  }

  /** Matching ignores case: a summary and its upper-case form get the same class. */
  lemma ClassIgnoresCase(summary: string)
    ensures GetActivityType(Upper(summary)) == GetActivityType(summary)
    ensures GetActivityType(Lower(summary)) == GetActivityType(summary)
  {
    LowerOfUpper(summary);
    LowerIdempotent(summary);
  }

}
