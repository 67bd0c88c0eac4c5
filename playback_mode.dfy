/** Playback-mode cycling (`nextAfterOrNull` over `PlaybackMode.entries`) and the
    repeat/shuffle configuration each mode puts on the playback engine. */
module PlaybackModes {
  import opened Domain

  /** `PlaybackMode.entries`, in declaration order. */
  const Entries: seq<PlaybackMode> := [Repeat, RepeatOne, Shuffle]

  /** `mode.ordinal`: the mode's position in `Entries`. */
  function Ordinal(m: PlaybackMode): (i: int)
    ensures 0 <= i < |Entries| && Entries[i] == m
  {
    match m
    case Repeat => 0
    case RepeatOne => 1
    case Shuffle => 2
  }

  /** Kotlin's `%` on `Int` truncates toward zero: the remainder takes the sign of the dividend. */
  function KotlinRem(a: int, b: int): (r: int)
    requires b > 0
    ensures -b < r < b
    ensures a >= 0 ==> r == a % b
    ensures a < 0 ==> r <= 0
    ensures -b < a < 0 ==> r == a
  {
    if a >= 0 then a % b else -((-a) % b)
  }

  /** `getOrNull(i)` */
  function GetOrNull<T>(s: seq<T>, i: int): Option<T>
  {
    if 0 <= i < |s| then Some(s[i]) else None
  }

  /** `nextAfterOrNull(index) = getOrNull((index + 1) % size)`. An empty list
      would divide by zero, so the caller must supply a non-empty one. */
  function NextAfterOrNull<T>(s: seq<T>, index: int): Option<T>
    requires |s| > 0
  {
    GetOrNull(s, KotlinRem(index + 1, |s|))
  }

  /** From any index from -1 up, the element after it is returned, wrapping to
      the front past the end. So -1 yields the first element, although the
      function's own doc comment promises `null` for every negative index. */
  lemma NextAfterFromMinusOne<T>(s: seq<T>, index: int)
    requires |s| > 0 && -1 <= index
    ensures NextAfterOrNull(s, index) == Some(s[(index + 1) % |s|])
    ensures index == -1 ==> NextAfterOrNull(s, index) == Some(s[0])
    ensures 0 <= index < |s| - 1 ==> NextAfterOrNull(s, index) == Some(s[index + 1])
    ensures index == |s| - 1 ==> NextAfterOrNull(s, index) == Some(s[0])
  {
  }

  /** Just below -1 the doc comment holds: for `-size - 1 < index < -1` the
      result is `null`. */
  lemma NextAfterBelowMinusOne<T>(s: seq<T>, index: int)
    requires |s| > 0 && -|s| - 1 < index < -1
    ensures NextAfterOrNull(s, index) == None
  {
  }

  /** The reference cycle Repeat -> RepeatOne -> Shuffle -> Repeat. */
  function Cycle(m: PlaybackMode): PlaybackMode
  {
    match m
    case Repeat => RepeatOne
    case RepeatOne => Shuffle
    case Shuffle => Repeat
  }

  /** The playback-mode button's computation: the next entry after the current
      mode's ordinal. It is never `null` and it follows the reference cycle. */
  function NextMode(m: PlaybackMode): (r: Option<PlaybackMode>)
    ensures r == Some(Cycle(m))
    ensures r.Some? && r.value != m
  {
    NextAfterFromMinusOne(Entries, Ordinal(m));
    NextAfterOrNull(Entries, Ordinal(m))
  }

  /** Three presses of the mode button return to the starting mode, and no
      fewer do. */
  lemma CycleHasOrderThree(m: PlaybackMode)
    ensures Cycle(Cycle(Cycle(m))) == m
    ensures Cycle(m) != m && Cycle(Cycle(m)) != m
  {
  }

  /** Media3's `Player.REPEAT_MODE_*`. */
  datatype RepeatMode = RepeatModeOff | RepeatModeOne | RepeatModeAll

  /** The engine settings one mode stands for. */
  datatype EngineConfig = EngineConfig(repeatMode: RepeatMode, shuffleModeEnabled: bool)

  /** `setPlayerPlaybackMode`: Repeat is ALL without shuffle, RepeatOne is ONE
      without shuffle, Shuffle is ALL with shuffle. Repeat is never off. */
  function ConfigFor(m: PlaybackMode): (c: EngineConfig)
    ensures c.repeatMode != RepeatModeOff
    ensures c.shuffleModeEnabled <==> m == Shuffle
    ensures c.repeatMode == RepeatModeOne <==> m == RepeatOne
  {
    match m
    case Repeat => EngineConfig(RepeatModeAll, false)
    case RepeatOne => EngineConfig(RepeatModeOne, false)
    case Shuffle => EngineConfig(RepeatModeAll, true)
  }

  /** Reading a mode back off the engine's settings. */
  function ModeOf(c: EngineConfig): PlaybackMode
  {
    if c.shuffleModeEnabled then Shuffle
    else if c.repeatMode == RepeatModeOne then RepeatOne
    else Repeat
  }

  /** The engine settings determine the mode: distinct modes never share a configuration. */
  lemma ConfigForIsInvertible(m: PlaybackMode)
    ensures ModeOf(ConfigFor(m)) == m
  {
  }
}
