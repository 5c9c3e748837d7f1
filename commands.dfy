/** The command layer of the `chat` handler (handlers/minecraftEvents.js):
    an ordered, first-match-wins list of rules over the lower-cased line, the
    rating grammar `bot rate <digit> <feedback word>`, and the replies the
    rules send. A line that no rule claims goes on to the conversational
    path (`Converse`). */
module Commands {
  import opened Wrappers
  import opened Text

  // ---------------------------------------------------------------------------
  // Replies
  // ---------------------------------------------------------------------------

  const HelpReply := "✦ AI: I'm an AI bot! Use Discord commands or just chat with me naturally. ✨"
  const FeedbackHintReply := "To rate my response, say: \"bot rate [1-5] [helpful/unhelpful/accurate/inaccurate]\""
  const StoppedReply := "Stopped!"
  const RatingRangeReply := "Rating must be 1-5 stars!"

  function FollowingReply(username: string): string {
    "Following " + username + "!"
  }

  function ThanksReply(username: string, rating: nat, feedbackType: string): string {
    "Thanks " + username + "! Feedback: " + Repeat("⭐", rating) + " " + feedbackType
  }

  // ---------------------------------------------------------------------------
  // The rating grammar
  // ---------------------------------------------------------------------------

  /** The alternatives of the regular expression's second group, in the order
      they are tried. */
  const FeedbackTypes: seq<string> :=
    ["helpful", "unhelpful", "accurate", "inaccurate", "appropriate", "inappropriate"]

  /** What a match of `/bot rate (\d) (helpful|...)/` captures. */
  datatype RateRequest = RateRequest(digit: char, feedbackType: string)

  /** `parseInt` of the captured digit. */
  function Rating(q: RateRequest): nat
    requires IsDigit(q.digit)
  {
    DigitValue(q.digit)
  }

  /** The text matched by the expression for capture `q`. */
  function RatePattern(q: RateRequest): string {
    "bot rate " + [q.digit] + " " + q.feedbackType
  }

  /** The expression matches `s` at index `i` with captures `q`. */
  predicate RatingAt(s: string, i: int, q: RateRequest) {
    IsDigit(q.digit) && q.feedbackType in FeedbackTypes && OccursAt(s, RatePattern(q), i)
  }

  /** The first alternative, in order, that `rest` begins with. */
  function FirstAlternative(rest: string, alts: seq<string>): (r: Option<string>)
    ensures r.Some? ==> r.value in alts && StartsWith(rest, r.value)
    ensures r.None? ==> forall k :: 0 <= k < |alts| ==> !StartsWith(rest, alts[k])
  {
    if alts == [] then None
    else if StartsWith(rest, alts[0]) then Some(alts[0])
    else
      var r := FirstAlternative(rest, alts[1..]);
      assert forall k :: 1 <= k < |alts| ==> alts[k] == alts[1..][k - 1];
      r
  }

  /** A match at `i` is the literal prefix, a digit, a space and an
      alternative that the rest of the line starts with. */
  lemma RatingAtParts(s: string, i: nat, q: RateRequest)
    requires i <= |s|
    ensures RatingAt(s, i, q) <==>
      && IsDigit(q.digit) && q.feedbackType in FeedbackTypes
      && i + 11 <= |s| && s[i..i + 9] == "bot rate " && s[i + 9] == q.digit && s[i + 10] == ' '
      && StartsWith(s[i + 11..], q.feedbackType)
  {
    var pat := RatePattern(q);
    assert |pat| == 11 + |q.feedbackType|;
    assert pat[..9] == "bot rate " && pat[9] == q.digit && pat[10] == ' ' && pat[11..] == q.feedbackType;
    if i + |pat| <= |s| {
      var m := s[i..i + |pat|];
      assert m[..9] == s[i..i + 9] && m[11..] == s[i + 11..][..|q.feedbackType|];
      if m[..9] == pat[..9] && m[9] == pat[9] && m[10] == pat[10] && m[11..] == pat[11..] {
        assert m == m[..9] + [m[9]] + [m[10]] + m[11..];
        assert pat == pat[..9] + [pat[9]] + [pat[10]] + pat[11..];
      }
    }
  }

  /** The expression tried at index `i` alone. */
  function MatchAt(s: string, i: nat): (r: Option<RateRequest>)
    requires i <= |s|
    ensures r.Some? ==> RatingAt(s, i, r.value)
    ensures r.None? ==> forall q :: !RatingAt(s, i, q)
  {
    if i + 11 <= |s| && s[i..i + 9] == "bot rate " && IsDigit(s[i + 9]) && s[i + 10] == ' ' then
      match FirstAlternative(s[i + 11..], FeedbackTypes)
      case Some(w) =>
        RatingAtParts(s, i, RateRequest(s[i + 9], w));
        Some(RateRequest(s[i + 9], w))
      case None =>
        assert forall q :: !RatingAt(s, i, q) by {
          forall q ensures !RatingAt(s, i, q) {
            RatingAtParts(s, i, q);
          }
        }
        None
    else
      assert forall q :: !RatingAt(s, i, q) by {
        forall q ensures !RatingAt(s, i, q) {
          RatingAtParts(s, i, q);
        }
      }
      None
  }

  /** The expression matches nowhere from index `i` up to, not including,
      index `j`. */
  ghost predicate NoMatchBetween(s: string, i: int, j: int) {
    forall k, q :: i <= k < j ==> !RatingAt(s, k, q)
  }

  /** The leftmost match at or after index `i`. */
  function SearchFrom(s: string, i: nat): (r: Option<RateRequest>)
    requires i <= |s|
    ensures r.None? ==> NoMatchBetween(s, i, |s| + 1)
    ensures r.Some? ==> exists j :: i <= j <= |s| && RatingAt(s, j, r.value) && NoMatchBetween(s, i, j)
    decreases |s| - i
  {
    match MatchAt(s, i)
    case Some(q) =>
      assert RatingAt(s, i, q) && NoMatchBetween(s, i, i);
      Some(q)
    case None =>
      if i == |s| then None
      else
        var r := SearchFrom(s, i + 1);
        assert forall j :: NoMatchBetween(s, i + 1, j) && i + 1 <= j ==> NoMatchBetween(s, i, j);
        r
  }

  /** `lowerMessage.match(/bot rate (\d) (helpful|unhelpful|accurate|
      inaccurate|appropriate|inappropriate)/)`: the captures of the leftmost
      match, or none when the expression matches nowhere. */
  function ParseRating(s: string): (r: Option<RateRequest>)
    ensures r.None? <==> forall j, q :: !RatingAt(s, j, q)
    ensures r.Some? ==> exists j :: RatingAt(s, j, r.value) && NoMatchBetween(s, 0, j)
  {
    var r := SearchFrom(s, 0);
    assert forall j, q :: RatingAt(s, j, q) ==> 0 <= j <= |s|;
    r
  }

  /** Every line the rating expression matches contains "bot rate". */
  lemma RatingMatchMentionsRate(s: string)
    requires ParseRating(s).Some?
    ensures Contains(s, "bot rate")
  {
    var q := ParseRating(s).value;
    var j :| RatingAt(s, j, q);
    assert RatePattern(q)[..8] == "bot rate";
    PrefixOccurs(s, RatePattern(q), "bot rate", j);
  }

  // ---------------------------------------------------------------------------
  // Dispatch
  // ---------------------------------------------------------------------------

  datatype Command =
    | Help
    | Status
    | FollowMe
    | Stop
    | FeedbackHint
    | Rate(request: RateRequest)
    | Converse

  /** The rules of the chat handler, tried top to bottom on the lower-cased
      line; the first that applies decides. */
  function Classify(lower: string): Command {
    if Contains(lower, "bot help") || lower == "!help" then Help
    else if Contains(lower, "bot status") || lower == "!status" then Status
    else if Contains(lower, "bot follow me") then FollowMe
    else if Contains(lower, "bot stop") then Stop
    else if Contains(lower, "bot rate") || Contains(lower, "bot feedback") then FeedbackHint
    else
      match ParseRating(lower)
      case Some(q) => Rate(q)
      case None => Converse
  }

  /** The rating rule can never fire: every line it matches contains
      "bot rate" and was already answered with the feedback hint. */
  lemma RatingRuleUnreachable(lower: string)
    ensures !Classify(lower).Rate?
  {
    if ParseRating(lower).Some? {
      RatingMatchMentionsRate(lower);
    }
  }

  /** A line mentions one of the command words. */
  predicate MentionsCommand(lower: string) {
    || Contains(lower, "bot help") || lower == "!help"
    || Contains(lower, "bot status") || lower == "!status"
    || Contains(lower, "bot follow me") || Contains(lower, "bot stop")
    || Contains(lower, "bot rate") || Contains(lower, "bot feedback")
  }

  /** The conversational path is taken exactly when no command word occurs
      in the line. */
  lemma ConverseIffNoCommand(lower: string)
    ensures Classify(lower) == Converse <==> !MentionsCommand(lower)
  {
    RatingRuleUnreachable(lower);
  }

  /** Every line that is exactly what the rating expression describes, such
      as "bot rate 5 helpful" from the hint itself, is answered with the hint
      and never recorded. */
  lemma RatingExampleGetsHint(q: RateRequest)
    requires IsDigit(q.digit) && q.feedbackType in FeedbackTypes
    ensures RatingAt(RatePattern(q), 0, q)
    ensures Classify(RatePattern(q)) == FeedbackHint
  {
    var line := RatePattern(q);
    assert OccursAt(line, RatePattern(q), 0);
    PatternLetters(q);
    NoEarlierRule(line);
    HintRule(line);
  }

  /** The letters of a pattern line that decide the earlier rules. */
  lemma PatternLetters(q: RateRequest)
    requires IsDigit(q.digit) && q.feedbackType in FeedbackTypes
    ensures var line := RatePattern(q);
      && |line| > 8 && line[..8] == "bot rate"
      && 'b' !in line[1..] && 's' !in line && 'w' !in line
  {
    var rest := "ot rate " + [q.digit] + " " + q.feedbackType;
    var line := RatePattern(q);
    assert line == "b" + rest;
    assert line[1..] == rest;
    FeedbackTypeLetters(q.feedbackType);
    assert 'b' !in "ot rate " && 's' !in "bot rate " && 'w' !in "bot rate ";
  }

  /** No feedback word holds a 'b', an 's' or a 'w'. */
  lemma FeedbackTypeLetters(w: string)
    requires w in FeedbackTypes
    ensures 'b' !in w && 's' !in w && 'w' !in w
  {
  }

  /** A line that starts with "bot rate", has no other 'b', and holds no 's'
      and no 'w' mentions "bot rate" and none of the commands tried before
      it. */
  lemma NoEarlierRule(line: string)
    requires |line| > 8 && line[..8] == "bot rate"
    requires 'b' !in line[1..] && 's' !in line && 'w' !in line
    ensures !Contains(line, "bot help") && line != "!help"
    ensures !Contains(line, "bot status") && line != "!status"
    ensures !Contains(line, "bot follow me") && !Contains(line, "bot stop")
    ensures Contains(line, "bot rate")
  {
    assert OccursAt(line, "bot rate", 0);
    assert line[4] == 'r';
    AbsentCharExcludes(line[1..], "bot help", 'b');
    AbsentCharExcludes(line, "bot status", 's');
    AbsentCharExcludes(line, "bot stop", 's');
    AbsentCharExcludes(line, "bot follow me", 'w');
  }

  /** The feedback-hint rule applies when no earlier rule does. */
  lemma HintRule(lower: string)
    requires !Contains(lower, "bot help") && lower != "!help"
    requires !Contains(lower, "bot status") && lower != "!status"
    requires !Contains(lower, "bot follow me") && !Contains(lower, "bot stop")
    requires Contains(lower, "bot rate")
    ensures Classify(lower) == FeedbackHint
  {
  }
}
