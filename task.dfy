/**
 * The task generator of src/task.rs: the `TaskStatus` enum and its random
 * pick, the palette and duration tables, the `Task` record and
 * `Task::new_random_task`.
 *
 * Every random draw, the clock reading, the fresh identifier and the
 * fallback user are parameters; the ranges the random generator draws them
 * from become preconditions. Timestamps are whole seconds since the epoch.
 * `User` is defined elsewhere in the repository and stays opaque: it is the
 * type parameter `U`.
 */
module Tasks {
  import opened Wrappers
  import Text

  /** The lifecycle states, in declaration order (`NotNedeed` as spelled there). */
  datatype TaskStatus = Done | InProgress | NotNedeed | ReadyToStart

  /** Position of a status in the enum declaration. */
  function StatusOrdinal(s: TaskStatus): (i: nat)
    ensures i < 4
  {
    match s
    case Done => 0
    case InProgress => 1
    case NotNedeed => 2
    case ReadyToStart => 3
  }

  /**
   * `get_random_task_status` once its draw `n` (from `0..=4`) is given.
   * Draws 0 to 3 pick the variant at that position; every other value, the
   * fifth draw 4 as well as any negative one, falls into the catch-all
   * `ReadyToStart`.
   */
  function StatusOfDraw(n: int): (s: TaskStatus)
    ensures 0 <= n < 4 ==> StatusOrdinal(s) == n
    ensures !(0 <= n < 4) ==> s == ReadyToStart
  {
    match n
    case 0 => Done
    case 1 => InProgress
    case 2 => NotNedeed
    case 3 => ReadyToStart
    case _ => ReadyToStart
  }

  /**
   * The full preimage of each status under the draw `0..=4`: a status is
   * drawn exactly by its own position, and `ReadyToStart` also by 4.
   */
  lemma StatusDrawPreimage(n: int, s: TaskStatus)
    requires 0 <= n <= 4
    ensures StatusOfDraw(n) == s <==> (n == StatusOrdinal(s) || (n == 4 && s == ReadyToStart))
  {
  }

  /** Every status can come out of the draw: the mapping is onto. */
  lemma StatusDrawOnto(s: TaskStatus)
    ensures exists n :: 0 <= n <= 4 && StatusOfDraw(n) == s
  {
    assert StatusOfDraw(StatusOrdinal(s)) == s;
  }

  /** `PROJECT_COLORS`: ten `#RRGGBBAA` colours. */
  const ProjectColors: seq<string> := [
    "#61e294ff",
    "#7bcdbaff",
    "#9799caff",
    "#bd93d8ff",
    "#b47aeaff",
    "#d3d5d4ff",
    "#a2c5acff",
    "#9db5b2ff",
    "#878e99ff",
    "#7f6a93ff"
  ]

  /** `TIME_IN_SECONDS_OPTIONS`: the seven task half-lengths, as `i32`. */
  const TimeInSecondsOptions: seq<int> := [3600, 1800, 5400, 3450, 1600, 1954, 7200]

  /** `Duration::days(1)`, counted in seconds. */
  const SecondsPerDay := 86400

  /** Upper end of the inclusive `0..=10` day draw. */
  const MaxDaysBack := 10

  const MaxI32 := 0x7fff_ffff

  /** A `Uuid`: 128 bits, treated as an opaque value. */
  newtype Uuid = x: int | 0 <= x < 0x1_0000_0000_0000_0000_0000_0000_0000_0000

  /** The generated record; `color` holds the palette index as text. */
  datatype Task<U> = Task(
    id: Uuid,
    name: string,
    status: TaskStatus,
    user: U,
    startedAt: int,
    updatedAt: int,
    finishedAt: int,
    color: string)

  /** Every table entry is a positive `i32` of at most two hours. */
  lemma TimeOptionsPositive()
    ensures |TimeInSecondsOptions| == 7
    ensures forall i :: 0 <= i < |TimeInSecondsOptions| ==>
      0 < TimeInSecondsOptions[i] <= 7200 <= MaxI32
  {
  }

  /** The duration picked by an index drawn from `0..len`. */
  function DurationOption(index: int): (secs: int)
    requires 0 <= index < |TimeInSecondsOptions|
    ensures secs in TimeInSecondsOptions
    ensures 1600 <= secs <= 7200
  {
    TimeInSecondsOptions[index]
  }

  /** Every entry the table holds is reachable by some in-range index. */
  lemma DurationOptionOnto(secs: int)
    requires secs in TimeInSecondsOptions
    ensures exists i :: 0 <= i < |TimeInSecondsOptions| && DurationOption(i) == secs
  {
    var i :| 0 <= i < |TimeInSecondsOptions| && TimeInSecondsOptions[i] == secs;
    assert DurationOption(i) == secs;
  }

  /** The user the task gets: the supplied one, else the fallback. */
  function ResolveUser<U>(user: Option<U>, fallback: U): (u: U)
    ensures user.Some? ==> u == user.value
    ensures user.None? ==> u == fallback
  {
    match user
    case Some(v) => v
    case None => fallback
  }

  /** `now - Duration::days(days)` for a day count from `0..=10`. */
  function AnchorDate(now: int, days: int): (anchor: int)
    requires 0 <= days <= MaxDaysBack
    ensures now - MaxDaysBack * SecondsPerDay <= anchor <= now
    ensures (now - anchor) % SecondsPerDay == 0
    ensures days == (now - anchor) / SecondsPerDay
  {
    now - days * SecondsPerDay
  }

  /** The colour field: the decimal text of an index from `0..(len - 1)`. */
  function ColorOfDraw(index: int): (color: string)
    requires 0 <= index < |ProjectColors| - 1
    ensures |color| == 1 && '0' <= color[0] <= '8'
    ensures Text.IsDigits(color) && Text.ParseDecimal(color) == index
  {
    Text.ParseDecimalString(index);
    Text.DecimalString(index)
  }

  /** The palette entry a colour field names, read back from its text. */
  function PaletteEntry(color: string): Option<string>
  {
    if |color| > 0 && Text.IsDigits(color) && Text.ParseDecimal(color) < |ProjectColors| then
      Some(ProjectColors[Text.ParseDecimal(color)])
    else None
  }

  /** The decimal text of every palette index reads back as that entry. */
  lemma PaletteEntryOfIndex(k: nat)
    requires k < |ProjectColors|
    ensures PaletteEntry(Text.DecimalString(k)) == Some(ProjectColors[k])
  {
    Text.ParseDecimalString(k);
  }

  /** The random draws of one call of `new_random_task`, in their source ranges. */
  predicate DrawsInRange(days: int, durationIndex: int, statusDraw: int, words: seq<string>, colorIndex: int)
  {
    && 0 <= days <= MaxDaysBack
    && 0 <= durationIndex < |TimeInSecondsOptions|
    && 0 <= statusDraw <= 4
    && 3 <= |words| < 5
    && 0 <= colorIndex < |ProjectColors| - 1
  }

  /**
   * `Task::new_random_task(&user)` with its draws supplied: `now` is the
   * clock, `id` the fresh `Uuid`, `fallback` what `User::create_random_user`
   * would return, `words` the lorem words, and the rest the integer draws.
   */
  function NewRandomTask<U>(
    user: Option<U>, fallback: U, id: Uuid, now: int,
    days: int, durationIndex: int, statusDraw: int, words: seq<string>, colorIndex: int): (t: Task<U>)
    requires DrawsInRange(days, durationIndex, statusDraw, words, colorIndex)
    ensures t.id == id
    ensures user.Some? ==> t.user == user.value
    ensures user.None? ==> t.user == fallback
    ensures t.status == StatusOfDraw(statusDraw)
    ensures t.name == Text.Join(words, ' ')
    // the timestamps sit symmetrically around an anchor `days` whole days back
    ensures t.finishedAt - t.startedAt == 2 * TimeInSecondsOptions[durationIndex]
    ensures (t.startedAt + t.finishedAt) / 2 == now - days * SecondsPerDay
    ensures t.startedAt < t.updatedAt == t.finishedAt
    ensures now - MaxDaysBack * SecondsPerDay - 7200 <= t.startedAt
    ensures t.finishedAt <= now + 7200
    // the colour is one digit naming any palette entry but the last
    ensures |t.color| == 1 && '0' <= t.color[0] <= '8'
    ensures PaletteEntry(t.color) == Some(ProjectColors[colorIndex])
    ensures PaletteEntry(t.color) != Some(ProjectColors[|ProjectColors| - 1])
  {
    var resolved := ResolveUser(user, fallback);
    var anchor := AnchorDate(now, days);
    var secs := DurationOption(durationIndex);
    var initial := anchor - secs;
    var end := anchor + secs;
    Task(
      id := id,
      name := Text.Join(words, ' '),
      status := StatusOfDraw(statusDraw),
      user := resolved,
      startedAt := initial,
      updatedAt := end,
      finishedAt := end,
      color := ColorOfDraw(colorIndex))
  }

  /**
   * The name of a generated task splits on single spaces back into the drawn
   * words, so it holds three or four words, provided no drawn word itself
   * contains a space.
   */
  lemma NameWords<U>(
    user: Option<U>, fallback: U, id: Uuid, now: int,
    days: int, durationIndex: int, statusDraw: int, words: seq<string>, colorIndex: int)
    requires DrawsInRange(days, durationIndex, statusDraw, words, colorIndex)
    requires Text.SeparatorFree(words, ' ')
    ensures var t := NewRandomTask(user, fallback, id, now, days, durationIndex, statusDraw, words, colorIndex);
      Text.Split(t.name, ' ') == words && 3 <= |Text.Split(t.name, ' ')| <= 4
  {
    Text.SplitJoin(words, ' ');
  }
}
