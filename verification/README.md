# Slayer Task Counter — a Dafny model of the counting core

The Slayer Task Counter plugin watches the game's chat. When a message says a
slayer task was completed, that a bracelet of slaughter or an expeditious
bracelet crumbled, or that the player's cannon broke, it adds one to the
matching count, saves the count in the plugin's configuration group
`slayertaskcounter`, and, when "Show Task Messages" is on, prints a notice
to the console. The `!tasks` chat command replies with one line such as
`Slayer Tasks Completed: 1,234 | Bracelets Used - Slaughter: 2, Expeditious: 0 | Cannon Breaks: 5`.

This project models that core as pure functions:

- `wrappers.dfy` — `Option`.
- `strings.dfy` (`Strings`) — `startsWith`, `endsWith` and `contains`.
- `decimal.dfy` (`Decimal`) — `String.valueOf(int)` and `String.format("%,d", int)`, with parsers that undo them.
- `config.dfy` (`Config`) — the configuration interface. The store maps a (group, key) pair to a value. Each getter returns the stored value, or the item's default: 0 for the four counts and `true` for the three toggles.
- `chat_messages.dfy` (`ChatMessages`) — the recognised messages. The completion pattern is a predicate, and `Find` models the search `Matcher.find()` performs.
- `summary.dfy` (`Summary`) — the plain text of the `!tasks` reply and a parser for it.
- `plugin.dfy` (`Plugin`) — the in-memory counts beside the store. It defines `Step` (`onChatMessage`), the refresh-on-read getters, `StartUp`, `TasksLookup` and `Run`, a stream of messages.

The counting rules are applied one after another, exactly as in `onChatMessage`. `Plugin.Classify` is a second, independent definition that names the single rule a message satisfies. `Plugin.StepClassifies` proves the two agree, and most facts about a step are derived from that lemma. The reply line is linked to its meaning by a round trip: `Summary.ParseSummary` reads the line back and gets exactly the intended content.

Two details of the plugin's code:

- The Slayer-master marker is not matched case-insensitively. Only the two spellings `"Slayer master"` and `"Slayer Master"` are accepted.
- An increment does not re-read the stored count. It adds one to the in-memory field, which is loaded at start-up and refreshed by the getters, and saves the result. `Plugin.Synced` states when the field and the store agree, and the lemmas show that agreement is kept.

## Model

| member | source | states |
|---|---|---|
| ChatMessages.Find | src/main/java/com/example/SlayerTaskCounterPlugin.java:145-147 | the search reports a match exactly when the completion pattern matches at some offset, and returns the leftmost such offset |
| ChatMessages.RulesExclusive | src/main/java/com/example/SlayerTaskCounterPlugin.java:57-61 | the three literals differ pairwise, and none of them passes the task-completion test |
| ChatMessages.CompletionExample | src/main/java/com/example/SlayerTaskCounterPlugin.java:142-147 | a completion message worded as the game words it passes all three tests |
| Plugin.Step | src/main/java/com/example/SlayerTaskCounterPlugin.java:136-227 | one message produces at most one notice and never changes a toggle; its full effect is given by Plugin.StepClassifies |
| Plugin.Fire | src/main/java/com/example/SlayerTaskCounterPlugin.java:149-158 | a firing rule raises its count by 1 and saves the new value, leaving the other saved counts and the toggles alone; a notice with the new value is appended exactly when task messages are shown (the same shape at lines 173-178, 190-195 and 209-214); Plugin.NoticeOnlyWhenFired lifts this to a whole step |
| Plugin.StepClassifies | src/main/java/com/example/SlayerTaskCounterPlugin.java:142-222 | the four rules applied in sequence act as the single rule `Classify` picks: when no rule matches, the state is untouched and nothing is emitted; otherwise that one rule fires exactly once |
| Plugin.TaskAddsOne | src/main/java/com/example/SlayerTaskCounterPlugin.java:142-152 | a task completion message adds exactly 1 to the task count and saves it, and the other three counts do not change |
| Plugin.TaskIgnoresNumbers | src/main/java/com/example/SlayerTaskCounterPlugin.java:145-149 | any two task completion messages, whatever task or point numbers they carry, have the same effect |
| Plugin.NonTaskKeepsTasks | src/main/java/com/example/SlayerTaskCounterPlugin.java:142-143 | a message that does not start with "You've completed", or that names no Slayer master, changes neither the task count nor its saved value |
| Plugin.BraceletRules | src/main/java/com/example/SlayerTaskCounterPlugin.java:170-204 | with bracelets untracked, both bracelet literals change nothing at all; with them tracked, each literal adds 1 to its own count only and saves it |
| Plugin.CannonRule | src/main/java/com/example/SlayerTaskCounterPlugin.java:207-210 | with cannon breaks untracked, the cannon literal changes nothing; with them tracked, it adds 1 to the break count only and saves it |
| Plugin.AtMostOneChange | src/main/java/com/example/SlayerTaskCounterPlugin.java:142-210 | only the count of the rule the message satisfies can change, and it rises by 1; its saved value is the new value; an unmatched message leaves counts and configuration untouched; at most one notice is produced |
| Plugin.NoticeOnlyWhenFired | src/main/java/com/example/SlayerTaskCounterPlugin.java:155-214 | a notice is produced if and only if a rule fired and task messages are shown; it opens with that rule's label, and the text after the label reads back as the new value of that rule's count |
| Plugin.Notice | src/main/java/com/example/SlayerTaskCounterPlugin.java:157 | a notice opens with its rule's label, and the text after the label reads back as the new count (lines 157, 177, 194 and 213 print label + total) |
| Plugin.Save | src/main/java/com/example/SlayerTaskCounterPlugin.java:152 | the plugin saves under the group and key names the configuration getters read, so the getter returns the saved value; no other count and no toggle changes |
| Plugin.StepKeepsSynced | src/main/java/com/example/SlayerTaskCounterPlugin.java:149-210 | when the in-memory counts agree with their saved values, they still agree after any message |
| Plugin.StepKeepsToggles | src/main/java/com/example/SlayerTaskCounterPlugin.java:170-207 | a message never changes a toggle, so the rules in force after it are the same as before |
| Plugin.Refresh | src/main/java/com/example/SlayerTaskCounterPlugin.java:230-264 | a getter returns the configured value (its default when unset), leaves its own field equal to that value and the other fields as they were, and does not write the configuration |
| Plugin.ReadAfterIncrement | src/main/java/com/example/SlayerTaskCounterPlugin.java:230-237 | a getter called right after a rule fired returns the incremented count |
| Plugin.LoadCounts | src/main/java/com/example/SlayerTaskCounterPlugin.java:78-81 | each loaded count is what that count's getter returns for the configuration |
| Plugin.StartUp | src/main/java/com/example/SlayerTaskCounterPlugin.java:77-81 | after start-up the in-memory counts agree with the configuration |
| Plugin.FreshInstall | src/main/java/com/example/SlayerTaskCounterConfig.java:10-78 | with nothing stored, every count starts at 0 and every toggle is on |
| Plugin.TasksLookup | src/main/java/com/example/SlayerTaskCounterPlugin.java:270-305 | the reply starts with "Slayer Tasks Completed: " and the grouped task count. It reads back as the configured counts, with the bracelet segment present if and only if bracelets are tracked and one was used, and the cannon segment present if and only if breaks are tracked and there was one. The refreshed fields agree with the configuration |
| Plugin.FreshInstallReply | src/main/java/com/example/SlayerTaskCounterPlugin.java:279-305 | with nothing stored, the reply is "Slayer Tasks Completed: 0" alone |
| Plugin.Run | src/main/java/com/example/SlayerTaskCounterPlugin.java:136-227 | over a stream of messages no count ever decreases and no toggle changes; the exact rise of each count is given by Plugin.RunCounts |
| Plugin.RunCounts | src/main/java/com/example/SlayerTaskCounterPlugin.java:136-227 | over a stream of messages, each count rises by exactly the number of messages that satisfy its rule |
| Plugin.TaskMessagesCount | src/main/java/com/example/SlayerTaskCounterPlugin.java:145-152 | N task completion messages raise the task count by exactly N |
| Plugin.RunKeepsSynced | src/main/java/com/example/SlayerTaskCounterPlugin.java:149-210 | agreement between in-memory counts and saved values survives any stream of messages |
| Plugin.RestartRestoresCounts | src/main/java/com/example/SlayerTaskCounterPlugin.java:72-81 | after any stream of messages, loading the configuration at start-up gives back the counts held in memory before the restart |
| Config.ReadCount | src/main/java/com/example/SlayerTaskCounterConfig.java:10-68 | a count getter returns the stored int, and 0 when the key is absent |
| Config.ReadToggle | src/main/java/com/example/SlayerTaskCounterConfig.java:20-78 | a toggle getter returns true when the key is absent, and otherwise true exactly when the stored value is the boolean true |
| Config.KeysDistinct | src/main/java/com/example/SlayerTaskCounterConfig.java:10-78 | the seven items have seven distinct keys in the group `slayertaskcounter` |
| Summary.SummaryText | src/main/java/com/example/SlayerTaskCounterPlugin.java:279-283 | the reply always begins with "Slayer Tasks Completed: " followed by the grouped task count |
| Summary.SummaryRoundTrip | src/main/java/com/example/SlayerTaskCounterPlugin.java:279-305 | the reply reads back as exactly the intended content: the task count; the bracelet segment if and only if bracelets are tracked and one was used; the cannon segment if and only if breaks are tracked and there was one; the segments in that order |
| Summary.SummaryExampleBracelets | src/main/java/com/example/SlayerTaskCounterPlugin.java:286-297 | 3 tasks and 2 slaughter bracelets give "Slayer Tasks Completed: 3 \| Bracelets Used - Slaughter: 2, Expeditious: 0" |
| Summary.SummaryExampleFresh | src/main/java/com/example/SlayerTaskCounterPlugin.java:279-305 | all counts 0 give "Slayer Tasks Completed: 0" alone |
| Decimal.NatToString | src/main/java/com/example/SlayerTaskCounterPlugin.java:292 | the decimal text of a count is at least one digit, with no leading zero unless the count is 0 |
| Decimal.IntToString | src/main/java/com/example/SlayerTaskCounterPlugin.java:296 | the text of an int is digits, preceded by a minus sign exactly when the int is negative |
| Decimal.IntRoundTrip | src/main/java/com/example/SlayerTaskCounterPlugin.java:304 | parsing the decimal text of an int gives the int back |
| Decimal.GroupInt | src/main/java/com/example/SlayerTaskCounterPlugin.java:283 | grouped text starts with '-' exactly for negatives, and deleting its separators gives the plain `String.valueOf` text; Decimal.GroupedRoundTrip shows it reads back as the same int |
| Decimal.GroupDigitsGrouped | src/main/java/com/example/SlayerTaskCounterPlugin.java:283 | grouped digits are one to three digits, then groups of exactly three digits each preceded by a comma |
| Decimal.GroupDigitsUngroup | src/main/java/com/example/SlayerTaskCounterPlugin.java:283 | deleting the separators from the grouped digits gives the plain digits back |
| Decimal.GroupedRoundTrip | src/main/java/com/example/SlayerTaskCounterPlugin.java:283 | parsing the grouped text of an int gives the int back |

## Left out

- Text.removeTags is not part of this model. `Step` takes the message with its tags already removed.
- The side panel is not modelled: `SlayerTaskCounterPanel`, the navigation button, the icon and the toolbar. After a task save the plugin calls `panel.updateTaskCount()` (SlayerTaskCounterPlugin.java:164). That call goes through `getCurrentTaskCount()`, which rewrites the task field from the store. Right after the save the stored value equals the field, so the call changes no count (see Plugin.ReadAfterIncrement).
- The bracelet and cannon rules call `panel.updateBraceletCounts()` and `panel.updateCannonCount()` (SlayerTaskCounterPlugin.java:184, 201, 220). SlayerTaskCounterPanel.java defines neither method; it has only `updateTaskCount()`. These calls are not modelled.
- `startUp` and `shutDown` register and unregister the `!tasks` command. This host plumbing is not modelled.
- Chat output is not modelled: `client.addChatMessage`, `setRuneLiteFormatMessage`, `refreshChat` and logging. `Step` returns its notices as data, and `TasksLookup` returns the reply as a string.
- `ChatColorType` markers and the markup added by `ChatMessageBuilder.build()` are not modelled. Only the plain text of the reply is.
- The `config == null` branches and the exception handlers in `startUp` and `onChatMessage` are not modelled. The configuration is assumed present, and nothing throws.
- The general regular-expression engine is not modelled. The completion pattern is a hand-written predicate over its mandatory part, which decides whether `find()` succeeds. The captured `tasks` and `points` groups are unused by the plugin and are not modelled.
- Counts: Java `int` fields wrap around after 2147483647. Here they are unbounded integers, so the "+1" contracts assume no count reaches the `int` limit.
- Decimal.GroupInt: `%,d` depends on the locale. The model fixes ',' as the separator and three digits as the group size.
- Config.ReadCount: RuneLite's configuration manager stores values as text. When a stored count cannot be read, it returns the default and also writes the default back. Here a stored value has a kind (int or boolean). A value of the wrong kind reads as the default, and the default is not written back, so a getter never changes the store.
- Config.ReadToggle: RuneLite reads a stored toggle with `Boolean.parseBoolean`, so any text other than "true" reads as false. Here a stored value that is not the boolean true reads as false, which is the same rule stated over typed values.
- Concurrent delivery of messages, and failures of the configuration write, are not modelled. Messages arrive one at a time, and a save always succeeds.
- Interleaving with the other writers of the four count fields is not modelled. The `!tasks` reply is registered with `registerCommandAsync` (SlayerTaskCounterPlugin.java:108), so it runs off the client thread, and its getters assign the fields (lines 234, 243, 252, 261). The panel's Refresh button calls `getCurrentTaskCount()` on the Swing thread (SlayerTaskCounterPanel.java:52-64). The model runs Plugin.TasksLookup and Plugin.Refresh whole, between two messages, never during one; Plugin.RunCounts and Plugin.RestartRestoresCounts rely on this. In the program, a getter's write that lands between `currentTaskCount++` (line 149) and the save (line 152) makes the save store the old value, and that completion is lost.
