/**
 * The game messages the plugin recognises, after markup tags have been
 * stripped: the slayer-task completion message, recognised by a prefix, a
 * marker and a pattern search, and three fixed literals.
 */
module ChatMessages {
  import opened Strings
  import opened Decimal

  /** Prefix the message must start with to be considered a task completion. */
  const CompletedLead := "You've completed"

  /** One of these must occur somewhere in a task completion message. */
  const MasterMarkerLower := "Slayer master"
  const MasterMarkerUpper := "Slayer Master"

  // The two bracelet literals are written in pieces so that the verifier can
  // look at their individual characters; each is one sentence pair.
  const SlaughterMessage := "Your bracelet " + "of slaughter prevents " + "your slayer count " + "from decreasing. " + "It then crumbles to dust."
  const ExpeditiousMessage := "Your expeditious " + "bracelet helps you " + "progress your slayer " + "task faster. " + "It then crumbles to dust."
  const CannonBreakMessage := "Your cannon has broken!"

  // The completion pattern is
  //   "You've completed " ("at least ")? [0-9,]+ " " ("Wilderness ")? "task" "s"? (points clause)?
  // Everything after "task" is optional, so a match exists at an offset exactly
  // when the mandatory part is found there.
  const PatternLead := "You've completed "
  const AtLeast := "at least "
  const Wilderness := "Wilderness "
  const TaskWord := "task"

  predicate IsCountChar(c: char)
  {
    IsDigit(c) || c == ','
  }

  /** A run of `[0-9,]+`. */
  predicate IsCountRun(s: string)
  {
    |s| >= 1 && forall i | 0 <= i < |s| :: IsCountChar(s[i])
  }

  /** `("Wilderness ")? "task"` at the start of `u`. */
  predicate TaskWordAt(u: string)
  {
    StartsWith(u, TaskWord) || StartsWith(u, Wilderness + TaskWord)
  }

  /** `[0-9,]+ " " ("Wilderness ")? "task"` at the start of `t`. */
  predicate CountThenTask(t: string)
  {
    exists k | 1 <= k < |t| :: IsCountRun(t[..k]) && t[k] == ' ' && TaskWordAt(t[k + 1..])
  }

  /** The mandatory part of the completion pattern matches at the start of `t`. */
  predicate PatternAt(t: string)
  {
    && StartsWith(t, PatternLead)
    && var u := t[|PatternLead|..];
       CountThenTask(u) || (StartsWith(u, AtLeast) && CountThenTask(u[|AtLeast|..]))
  }

  /** `Matcher.find()` on the completion pattern: a match starts at some offset. */
  predicate PatternFinds(msg: string)
  {
    exists i | 0 <= i <= |msg| :: PatternAt(msg[i..])
  }

  /** The three tests the plugin applies, all of which must pass, for a task completion. */
  predicate IsTaskCompletion(msg: string)
  {
    && StartsWith(msg, CompletedLead)
    && (Contains(msg, MasterMarkerLower) || Contains(msg, MasterMarkerUpper))
    && PatternFinds(msg)
  }

  /**
   * The search itself: the leftmost offset at which the pattern matches, as
   * `Matcher.find()` reports it.
   */
  method Find(msg: string) returns (found: bool, start: nat)
    ensures found <==> PatternFinds(msg)
    ensures found ==> start <= |msg| && PatternAt(msg[start..])
    ensures found ==> forall j | 0 <= j < start :: !PatternAt(msg[j..])
  {
    var i := 0;
    while i <= |msg|
      invariant 0 <= i <= |msg| + 1
      invariant forall j | 0 <= j < i :: !PatternAt(msg[j..])
    {
      if PatternAt(msg[i..]) {
        return true, i;
      }
      i := i + 1;
    }
    return false, 0;
  }

  /**
   * No two rules can match the same message: the three literals differ from
   * one another and none of them starts like a task completion.
   */
  lemma RulesExclusive()
    ensures SlaughterMessage != ExpeditiousMessage
    ensures SlaughterMessage != CannonBreakMessage
    ensures ExpeditiousMessage != CannonBreakMessage
    ensures !IsTaskCompletion(SlaughterMessage)
    ensures !IsTaskCompletion(ExpeditiousMessage)
    ensures !IsTaskCompletion(CannonBreakMessage)
  {
    assert SlaughterMessage[5] != ExpeditiousMessage[5];
    assert SlaughterMessage[..|CompletedLead|][3] != CompletedLead[3];
    assert ExpeditiousMessage[..|CompletedLead|][3] != CompletedLead[3];
    assert CannonBreakMessage[..|CompletedLead|][3] != CompletedLead[3];
  }

  /** A completion message as the game words it is recognised as one. */
  lemma CompletionExample()
    ensures IsTaskCompletion("You've completed 25 tasks; " + "return to a Slayer master.")
  {
    var msg := "You've completed 25 tasks; " + "return to a Slayer master.";
    assert msg[..|CompletedLead|] == CompletedLead;
    assert StartsWith(msg[39..], MasterMarkerLower);
    var u := msg[|PatternLead|..];
    assert u[..2] == "25" && u[2] == ' ';
    assert StartsWith(u[3..], TaskWord);
    assert IsCountRun(u[..2]);
    assert CountThenTask(u);
    assert PatternAt(msg[0..]);
  }

}
