/**
 * The plugin's configuration interface: the group every item lives in, the
 * key name of each item and its default. The persisted configuration is a
 * store from (group, key) to a value; a getter returns the stored value of
 * its key, or the item's default when the key is absent.
 */
module Config {

  /** The group named on the configuration interface. */
  const Group := "slayertaskcounter"

  datatype Key = Key(group: string, name: string)

  datatype Value = IntValue(n: int) | BoolValue(b: bool)

  type Store = map<Key, Value>

  /** The four int items. */
  datatype CountItem = TaskCount | SlaughterCount | ExpeditiousCount | CannonBreakCount

  /** The three boolean items. */
  datatype ToggleItem = ShowTaskMessages | TrackBracelets | TrackCannon

  function CountKeyName(c: CountItem): string
  {
    match c
    case TaskCount => "taskCount"
    case SlaughterCount => "slaughterCount"
    case ExpeditiousCount => "expeditiousCount"
    case CannonBreakCount => "cannonBreakCount"
  }

  function ToggleKeyName(t: ToggleItem): string
  {
    match t
    case ShowTaskMessages => "showTaskMessages"
    case TrackBracelets => "trackBracelets"
    case TrackCannon => "trackCannon"
  }

  function CountDefault(c: CountItem): int
  {
    match c
    case TaskCount => 0
    case SlaughterCount => 0
    case ExpeditiousCount => 0
    case CannonBreakCount => 0
  }

  function ToggleDefault(t: ToggleItem): bool
  {
    match t
    case ShowTaskMessages => true
    case TrackBracelets => true
    case TrackCannon => true
  }

  function CountKey(c: CountItem): Key
  {
    Key(Group, CountKeyName(c))
  }

  function ToggleKey(t: ToggleItem): Key
  {
    Key(Group, ToggleKeyName(t))
  }

  /** The getter of an int item, e.g. `taskCount()`. */
  function ReadCount(store: Store, c: CountItem): (v: int)
    ensures CountKey(c) !in store ==> v == 0
    ensures CountKey(c) in store && store[CountKey(c)].IntValue? ==> v == store[CountKey(c)].n
  {
    if CountKey(c) in store && store[CountKey(c)].IntValue? then store[CountKey(c)].n else CountDefault(c)
  }

  /**
   * The getter of a boolean item, e.g. `trackBracelets()`. An absent key
   * gives the default; a stored value that is not a boolean reads as false,
   * as `Boolean.parseBoolean` reads any text other than "true".
   */
  function ReadToggle(store: Store, t: ToggleItem): (b: bool)
    ensures ToggleKey(t) !in store ==> b
    ensures ToggleKey(t) in store ==> (b <==> store[ToggleKey(t)] == BoolValue(true))
  {
    if ToggleKey(t) in store then store[ToggleKey(t)] == BoolValue(true) else ToggleDefault(t)
  }

  /** Every item has its own key, so writing one item never disturbs another. */
  lemma KeysDistinct()
    ensures forall c, d :: c != d ==> CountKey(c) != CountKey(d)
    ensures forall t, u :: t != u ==> ToggleKey(t) != ToggleKey(u)
    ensures forall c, t :: CountKey(c) != ToggleKey(t)
  {
  }

}
