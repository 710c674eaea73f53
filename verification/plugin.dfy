/**
 * The plugin's counting core: the four in-memory counts next to the
 * persisted configuration, the per-message step that classifies a chat
 * message and bumps, saves and announces one count, the refresh-on-read
 * getters, start-up loading and the `!tasks` reply.
 *
 * Messages reach `Step` with their markup tags already stripped.
 */
module Plugin {
  import opened Wrappers
  import opened Strings
  import opened Decimal
  import opened Config
  import opened ChatMessages
  import Summary

  /** The plugin's four int fields. */
  datatype Counts = Counts(tasks: int, slaughter: int, expeditious: int, cannonBreaks: int)
  {
    function Get(c: CountItem): int
    {
      match c
      case TaskCount => tasks
      case SlaughterCount => slaughter
      case ExpeditiousCount => expeditious
      case CannonBreakCount => cannonBreaks
    }

    /** The same fields with the one for `c` replaced by `v`. */
    function With(c: CountItem, v: int): (r: Counts)
      ensures r.Get(c) == v
      ensures forall d :: d != c ==> r.Get(d) == Get(d)
    {
      match c
      case TaskCount => this.(tasks := v)
      case SlaughterCount => this.(slaughter := v)
      case ExpeditiousCount => this.(expeditious := v)
      case CannonBreakCount => this.(cannonBreaks := v)
    }
  }

  /** Counts are equal when every field is. */
  lemma CountsEqual(a: Counts, b: Counts)
    requires forall c :: a.Get(c) == b.Get(c)
    ensures a == b
  {
    assert a.Get(TaskCount) == b.Get(TaskCount);
    assert a.Get(SlaughterCount) == b.Get(SlaughterCount);
    assert a.Get(ExpeditiousCount) == b.Get(ExpeditiousCount);
    assert a.Get(CannonBreakCount) == b.Get(CannonBreakCount);
  }

  /** In-memory counts and the persisted configuration. */
  datatype State = State(counts: Counts, store: Store)

  /** The state after a message, and the console notices it produced, in order. */
  datatype StepResult = StepResult(state: State, notices: seq<string>)

  /** The in-memory counts agree with what the configuration getters return. */
  ghost predicate Synced(s: State)
  {
    forall c :: s.counts.Get(c) == ReadCount(s.store, c)
  }

  // ---------------------------------------------------------------- saving

  /** The group and key names the plugin writes a count under. */
  const SaveGroup := "slayertaskcounter"

  function SaveKeyName(c: CountItem): string
  {
    match c
    case TaskCount => "taskCount"
    case SlaughterCount => "slaughterCount"
    case ExpeditiousCount => "expeditiousCount"
    case CannonBreakCount => "cannonBreakCount"
  }

  /**
   * Saving count `c` as `v`. The plugin's group and key names are those of
   * the configuration interface, so the getter for `c` reads back `v`, and
   * no other count and no toggle is disturbed.
   */
  function Save(store: Store, c: CountItem, v: int): (r: Store)
    ensures ReadCount(r, c) == v
    ensures forall d :: d != c ==> ReadCount(r, d) == ReadCount(store, d)
    ensures forall t :: ReadToggle(r, t) == ReadToggle(store, t)
  {
    KeysDistinct();
    assert Key(SaveGroup, SaveKeyName(c)) == CountKey(c);
    store[Key(SaveGroup, SaveKeyName(c)) := IntValue(v)]
  }

  // ---------------------------------------------------------------- one message

  function NoticeLabel(c: CountItem): string
  {
    match c
    case TaskCount => "Slayer task completed! Total tasks: "
    case SlaughterCount => "Bracelet of Slaughter used! Total used: "
    case ExpeditiousCount => "Expeditious Bracelet used! Total used: "
    case CannonBreakCount => "Cannon broken! Total breaks: "
  }

  /**
   * The console notice for count `c` having reached `v`: the rule's label,
   * and after it text that reads back as `v`.
   */
  function Notice(c: CountItem, v: int): (r: string)
    ensures StartsWith(r, NoticeLabel(c))
    ensures EndsWith(r, IntToString(v))
    ensures ParseInt(r[|NoticeLabel(c)|..]) == Some(v)
  {
    StartsWithAppend(NoticeLabel(c), IntToString(v));
    EndsWithAppend(NoticeLabel(c), IntToString(v));
    IntRoundTrip(v);
    assert (NoticeLabel(c) + IntToString(v))[|NoticeLabel(c)|..] == IntToString(v);
    NoticeLabel(c) + IntToString(v)
  }

  /**
   * A rule firing for count `c`: the field goes up by one, the new value is
   * saved, and, when task messages are shown, a notice is queued.
   */
  function Fire(r: StepResult, c: CountItem): (r': StepResult)
    ensures r'.state.counts == r.state.counts.With(c, r.state.counts.Get(c) + 1)
    ensures ReadCount(r'.state.store, c) == r.state.counts.Get(c) + 1
    ensures forall d :: d != c ==> ReadCount(r'.state.store, d) == ReadCount(r.state.store, d)
    ensures forall t :: ReadToggle(r'.state.store, t) == ReadToggle(r.state.store, t)
    ensures r'.notices == if ReadToggle(r.state.store, ShowTaskMessages)
                          then r.notices + [Notice(c, r.state.counts.Get(c) + 1)] else r.notices
  {
    var v := r.state.counts.Get(c) + 1;
    var store := Save(r.state.store, c, v);
    var notices := if ReadToggle(store, ShowTaskMessages) then r.notices + [Notice(c, v)] else r.notices;
    StepResult(State(r.state.counts.With(c, v), store), notices)
  }

  /**
   * `onChatMessage`: the task rule, then the two bracelet rules when
   * bracelets are tracked, then the cannon rule when cannon breaks are
   * tracked, each checked on its own against the same message.
   */
  function Step(s: State, msg: string): (r: StepResult)
    ensures |r.notices| <= 1
    ensures forall t :: ReadToggle(r.state.store, t) == ReadToggle(s.store, t)
  {
    RulesExclusive();
    var r0 := StepResult(s, []);
    var r1 := if IsTaskCompletion(msg) then Fire(r0, TaskCount) else r0;
    var r2 :=
      if ReadToggle(r1.state.store, TrackBracelets) then
        var ra := if msg == SlaughterMessage then Fire(r1, SlaughterCount) else r1;
        if msg == ExpeditiousMessage then Fire(ra, ExpeditiousCount) else ra
      else r1;
    if ReadToggle(r2.state.store, TrackCannon) && msg == CannonBreakMessage then Fire(r2, CannonBreakCount) else r2
  }

  /**
   * The rule a message satisfies under the configured toggles, if any. Since
   * the rules exclude one another, this names the one count a message can
   * change.
   */
  function Classify(store: Store, msg: string): Option<CountItem>
  {
    if IsTaskCompletion(msg) then Some(TaskCount)
    else if ReadToggle(store, TrackBracelets) && msg == SlaughterMessage then Some(SlaughterCount)
    else if ReadToggle(store, TrackBracelets) && msg == ExpeditiousMessage then Some(ExpeditiousCount)
    else if ReadToggle(store, TrackCannon) && msg == CannonBreakMessage then Some(CannonBreakCount)
    else None
  }

  /**
   * A message changes nothing unless it satisfies a rule, and then exactly
   * that rule fires once.
   */
  lemma StepClassifies(s: State, msg: string)
    ensures Step(s, msg) == match Classify(s.store, msg)
                            case None => StepResult(s, [])
                            case Some(c) => Fire(StepResult(s, []), c)
  {
    RulesExclusive();
    var r0 := StepResult(s, []);
    if IsTaskCompletion(msg) {
      assert msg != SlaughterMessage && msg != ExpeditiousMessage && msg != CannonBreakMessage;
      assert Step(s, msg) == Fire(r0, TaskCount);
    } else if msg == SlaughterMessage || msg == ExpeditiousMessage || msg == CannonBreakMessage {
      assert Classify(s.store, msg) == None ==> Step(s, msg) == r0;
    } else {
      assert Step(s, msg) == r0;
    }
  }

  /**
   * A task completion message adds exactly one to the task count and saves
   * it, whatever numbers the message carries; the other counts are unchanged.
   */
  lemma TaskAddsOne(s: State, msg: string)
    requires IsTaskCompletion(msg)
    ensures Step(s, msg).state.counts == s.counts.(tasks := s.counts.tasks + 1)
    ensures ReadCount(Step(s, msg).state.store, TaskCount) == s.counts.tasks + 1
  {
    StepClassifies(s, msg);
  }

  /** Two task completion messages, whatever their numbers, have the same effect. */
  lemma TaskIgnoresNumbers(s: State, m1: string, m2: string)
    requires IsTaskCompletion(m1) && IsTaskCompletion(m2)
    ensures Step(s, m1) == Step(s, m2)
  {
    StepClassifies(s, m1);
    StepClassifies(s, m2);
  }

  /**
   * A message that does not start with "You've completed", or that names no
   * Slayer master, leaves the task count and its saved value alone.
   */
  lemma NonTaskKeepsTasks(s: State, msg: string)
    requires !StartsWith(msg, CompletedLead) || (!Contains(msg, MasterMarkerLower) && !Contains(msg, MasterMarkerUpper))
    ensures Step(s, msg).state.counts.tasks == s.counts.tasks
    ensures ReadCount(Step(s, msg).state.store, TaskCount) == ReadCount(s.store, TaskCount)
  {
    StepClassifies(s, msg);
    assert !IsTaskCompletion(msg);
    var c := Classify(s.store, msg);
    if c.Some? {
      assert c.value != TaskCount;
      KeysDistinct();
    }
  }

  /**
   * The bracelet literals do nothing when bracelets are not tracked; when
   * they are, each adds one to its own count only.
   */
  lemma BraceletRules(s: State, msg: string)
    requires msg == SlaughterMessage || msg == ExpeditiousMessage
    ensures !ReadToggle(s.store, TrackBracelets) ==> Step(s, msg) == StepResult(s, [])
    ensures ReadToggle(s.store, TrackBracelets) ==>
      var c := if msg == SlaughterMessage then SlaughterCount else ExpeditiousCount;
      && Step(s, msg).state.counts == s.counts.With(c, s.counts.Get(c) + 1)
      && ReadCount(Step(s, msg).state.store, c) == s.counts.Get(c) + 1
  {
    RulesExclusive();
    StepClassifies(s, msg);
  }

  /**
   * The cannon literal does nothing when breaks are not tracked; when they
   * are, it adds one to the break count only.
   */
  lemma CannonRule(s: State)
    ensures !ReadToggle(s.store, TrackCannon) ==> Step(s, CannonBreakMessage) == StepResult(s, [])
    ensures ReadToggle(s.store, TrackCannon) ==>
      && Step(s, CannonBreakMessage).state.counts == s.counts.(cannonBreaks := s.counts.cannonBreaks + 1)
      && ReadCount(Step(s, CannonBreakMessage).state.store, CannonBreakCount) == s.counts.cannonBreaks + 1
  {
    RulesExclusive();
    StepClassifies(s, CannonBreakMessage);
  }

  /**
   * At most one count changes per message and it goes up by one; the saved
   * value of a changed count is its new value; and a message no rule
   * accepts leaves counts and configuration untouched.
   */
  lemma AtMostOneChange(s: State, msg: string)
    ensures forall c :: Step(s, msg).state.counts.Get(c) != s.counts.Get(c) ==>
      && Classify(s.store, msg) == Some(c)
      && Step(s, msg).state.counts.Get(c) == s.counts.Get(c) + 1
      && ReadCount(Step(s, msg).state.store, c) == s.counts.Get(c) + 1
    ensures Classify(s.store, msg) == None ==> Step(s, msg).state == s
    ensures |Step(s, msg).notices| <= 1
  {
    StepClassifies(s, msg);
  }

  /**
   * A notice appears exactly when a rule fired and task messages are shown,
   * and after the rule's label it reads back as the new value of the count
   * that rule changed.
   */
  lemma NoticeOnlyWhenFired(s: State, msg: string)
    ensures Step(s, msg).notices != [] <==> Classify(s.store, msg).Some? && ReadToggle(s.store, ShowTaskMessages)
    ensures Step(s, msg).notices != [] ==>
      && StartsWith(Step(s, msg).notices[0], NoticeLabel(Classify(s.store, msg).value))
      && EndsWith(Step(s, msg).notices[0], IntToString(Step(s, msg).state.counts.Get(Classify(s.store, msg).value)))
      && ParseInt(Step(s, msg).notices[0][|NoticeLabel(Classify(s.store, msg).value)|..])
         == Some(Step(s, msg).state.counts.Get(Classify(s.store, msg).value))
  {
    StepClassifies(s, msg);
  }

  /** A step preserves agreement between the counts and their saved values. */
  lemma StepKeepsSynced(s: State, msg: string)
    requires Synced(s)
    ensures Synced(Step(s, msg).state)
  {
    StepClassifies(s, msg);
  }

  // ---------------------------------------------------------------- getters and start-up

  /**
   * `getCurrentTaskCount()` and its three siblings: the field is refreshed
   * from the configuration and then returned.
   */
  function Refresh(s: State, c: CountItem): (r: (State, int))
    ensures r.0.counts.Get(c) == r.1 == ReadCount(s.store, c)
    ensures forall d :: d != c ==> r.0.counts.Get(d) == s.counts.Get(d)
    ensures r.0.store == s.store
  {
    var v := ReadCount(s.store, c);
    (State(s.counts.With(c, v), s.store), v)
  }

  /** A getter called right after a rule fired returns the incremented value. */
  lemma ReadAfterIncrement(s: State, msg: string, c: CountItem)
    requires Classify(s.store, msg) == Some(c)
    ensures Refresh(Step(s, msg).state, c).1 == s.counts.Get(c) + 1
  {
    StepClassifies(s, msg);
  }

  /** The counts the getters return for a configuration. */
  function LoadCounts(store: Store): (r: Counts)
    ensures forall c :: r.Get(c) == ReadCount(store, c)
  {
    Counts(ReadCount(store, TaskCount), ReadCount(store, SlaughterCount),
           ReadCount(store, ExpeditiousCount), ReadCount(store, CannonBreakCount))
  }

  /** `startUp`: the four fields are loaded from the configuration. */
  function StartUp(store: Store): (s: State)
    ensures Synced(s)
    ensures s.store == store
  {
    State(LoadCounts(store), store)
  }

  /** On a fresh install every count starts at 0 and every toggle is on. */
  lemma FreshInstall()
    ensures StartUp(map[]).counts == Counts(0, 0, 0, 0)
    ensures ReadToggle(map[], ShowTaskMessages) && ReadToggle(map[], TrackBracelets) && ReadToggle(map[], TrackCannon)
  {
  }

  // ---------------------------------------------------------------- the !tasks reply

  /**
   * `tasksLookup`: each count is refreshed from the configuration through
   * its getter, and the reply line is built from the refreshed values and
   * the current toggles.
   */
  function TasksLookup(s: State): (r: (State, string))
    ensures r.0.store == s.store && Synced(r.0)
    ensures StartsWith(r.1, Summary.TasksLabel + GroupInt(ReadCount(s.store, TaskCount)))
    ensures Summary.ParseSummary(r.1) == Some(Summary.Intended(
      ReadCount(s.store, TaskCount), ReadCount(s.store, SlaughterCount),
      ReadCount(s.store, ExpeditiousCount), ReadCount(s.store, CannonBreakCount),
      ReadToggle(s.store, TrackBracelets), ReadToggle(s.store, TrackCannon)))
  {
    var (s1, tasks) := Refresh(s, TaskCount);
    var (s2, slaughter) := Refresh(s1, SlaughterCount);
    var (s3, expeditious) := Refresh(s2, ExpeditiousCount);
    var (s4, breaks) := Refresh(s3, CannonBreakCount);
    var trackBracelets := ReadToggle(s4.store, TrackBracelets);
    var trackCannon := ReadToggle(s4.store, TrackCannon);
    Summary.SummaryRoundTrip(tasks, slaughter, expeditious, breaks, trackBracelets, trackCannon);
    (s4, Summary.SummaryText(tasks, slaughter, expeditious, breaks, trackBracelets, trackCannon))
  }

  /** On a fresh install the reply is the task segment alone, reporting 0. */
  lemma FreshInstallReply()
    ensures TasksLookup(StartUp(map[])).1 == "Slayer Tasks Completed: 0"
  {
    Summary.SummaryExampleFresh();
  }

  // ---------------------------------------------------------------- message streams

  /** The messages delivered one after another. */
  function Run(s: State, msgs: seq<string>): (r: State)
    ensures forall c :: r.counts.Get(c) >= s.counts.Get(c)
    ensures forall t :: ReadToggle(r.store, t) == ReadToggle(s.store, t)
    decreases |msgs|
  {
    if |msgs| == 0 then s
    else
      StepClassifies(s, msgs[0]);
      Run(Step(s, msgs[0]).state, msgs[1..])
  }

  /** How many of `msgs` satisfy the rule for count `c`. */
  function Occurrences(store: Store, c: CountItem, msgs: seq<string>): nat
    decreases |msgs|
  {
    if |msgs| == 0 then 0
    else (if Classify(store, msgs[0]) == Some(c) then 1 else 0) + Occurrences(store, c, msgs[1..])
  }

  /** Steps never write a toggle, so the rules in force stay the same. */
  lemma StepKeepsToggles(s: State, msg: string)
    ensures forall t :: ReadToggle(Step(s, msg).state.store, t) == ReadToggle(s.store, t)
    ensures forall m :: Classify(Step(s, msg).state.store, m) == Classify(s.store, m)
  {
    StepClassifies(s, msg);
  }

  /**
   * Over a stream of messages each count rises by exactly the number of
   * messages that satisfy its rule.
   */
  lemma {:induction false} RunCounts(s: State, msgs: seq<string>, c: CountItem)
    ensures Run(s, msgs).counts.Get(c) == s.counts.Get(c) + Occurrences(s.store, c, msgs)
    decreases |msgs|
  {
    if |msgs| > 0 {
      var s' := Step(s, msgs[0]).state;
      StepClassifies(s, msgs[0]);
      StepKeepsToggles(s, msgs[0]);
      RunCounts(s', msgs[1..], c);
      OccurrencesSameToggles(s.store, s'.store, c, msgs[1..]);
    }
  }

  lemma {:induction false} OccurrencesSameToggles(a: Store, b: Store, c: CountItem, msgs: seq<string>)
    requires forall m :: Classify(a, m) == Classify(b, m)
    ensures Occurrences(a, c, msgs) == Occurrences(b, c, msgs)
    decreases |msgs|
  {
    if |msgs| > 0 {
      OccurrencesSameToggles(a, b, c, msgs[1..]);
    }
  }

  /** N task completion messages raise the task count by exactly N. */
  lemma TaskMessagesCount(s: State, msgs: seq<string>)
    requires forall i | 0 <= i < |msgs| :: IsTaskCompletion(msgs[i])
    ensures Run(s, msgs).counts.tasks == s.counts.tasks + |msgs|
  {
    RunCounts(s, msgs, TaskCount);
    AllTasksOccur(s.store, msgs);
  }

  lemma {:induction false} AllTasksOccur(store: Store, msgs: seq<string>)
    requires forall i | 0 <= i < |msgs| :: IsTaskCompletion(msgs[i])
    ensures Occurrences(store, TaskCount, msgs) == |msgs|
    decreases |msgs|
  {
    if |msgs| > 0 {
      AllTasksOccur(store, msgs[1..]);
    }
  }

  /** A stream that starts in agreement with the configuration stays so. */
  lemma {:induction false} RunKeepsSynced(s: State, msgs: seq<string>)
    requires Synced(s)
    ensures Synced(Run(s, msgs))
    decreases |msgs|
  {
    if |msgs| > 0 {
      StepKeepsSynced(s, msgs[0]);
      RunKeepsSynced(Step(s, msgs[0]).state, msgs[1..]);
    }
  }

  /**
   * Restart durability: loading the configuration after any stream of
   * messages gives back the counts held in memory before the restart.
   */
  lemma RestartRestoresCounts(s: State, msgs: seq<string>)
    requires Synced(s)
    ensures StartUp(Run(s, msgs).store).counts == Run(s, msgs).counts
  {
    RunKeepsSynced(s, msgs);
    var after := Run(s, msgs);
    CountsEqual(StartUp(after.store).counts, after.counts);
  }

}
