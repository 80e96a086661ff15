/**
 * Message selection: `getMilestoneMessage` and `getHabitMessage`. A milestone
 * day gets its milestone text; any other day cycles through the theme's pool.
 */
module Messages {
  import opened Wrappers
  import opened Config

  const GeneralPool: seq<string> := [
    "Kept the streak alive 🔁",
    "Commitment Continues 💥",
    "Progress, Not Perfection 📈",
    "One Step at a Time 👣",
    "Showed Up Today ✅",
    "Staying on Track 🎯",
    "Consistency is Key 🔑",
    "Another Day Strong 💪",
    "Building Momentum 🚀",
    "Focus Forward 🎯"
  ]

  const GrowthPool: seq<string> := [
    "Watering the Habit 🌱",
    "Growing Stronger Each Day 🌿",
    "Another Brick in the Wall 🧱",
    "Building Discipline 🔨",
    "Nurturing Growth 🌳",
    "Planting Seeds of Success 🌱",
    "Strengthening Roots 🌳",
    "Blooming Daily 🌸",
    "Cultivating Excellence 🌟",
    "Harvesting Progress 🌾"
  ]

  const SobrietyPool: seq<string> := [
    "I will not drink today 💪",
    "I’m staying sober with you today 🫱🫲",
    "Clear mind, steady path 🧠",
    "One day at a time 🙏",
    "Today, I choose sobriety 🌤️",
    "Sober and strong, just for today 🦁",
    "I’m free from alcohol today 🕊️",
    "Today I live life on my terms 🎯",
    "No drinks, no regrets 🌅",
    "I’m sober and grateful 🙌",
    "Just for today, I will not drink ⛅",
    "Showing up sober, again 💎",
    "Sober today, stronger tomorrow 🧱",
    "Choosing clarity today 🌱",
    "Another day, no alcohol needed 🛡️"
  ]

  const MinimalPool: seq<string> := [
    "✅", "🟢", "🔘", "⏺️", "➕", "🟩", "📍", "🪙", "📅", "📈", "⚪", "🔲", "🟠", "🧿", "🪩"
  ]

  const SobrietyMilestones: map<nat, string> := map[
    1 := "First Day Sober 🌱",
    3 := "Three Days Strong 💪",
    7 := "One Week Sober 🎉",
    14 := "Two Weeks Sober 🏆",
    21 := "Three Weeks Sober 🧠",
    30 := "One Month Sober 📅",
    60 := "Two Months Sober 🔥",
    90 := "Three Months Sober 🎯",
    100 := "100 Days Sober 💎",
    180 := "Six Months Sober 🦸",
    365 := "One Year Sober 🎊",
    500 := "500 Days Sober ⚡",
    730 := "Two Years Sober 🎯",
    1000 := "1000 Days Sober 👑",
    1095 := "Three Years Sober 🌳",
    1825 := "Five Years Sober 🌟",
    3650 := "Ten Years Sober 🎪"
  ]

  const GeneralMilestones: map<nat, string> := map[
    1 := "First Step Forward 🚀",
    7 := "Week of Consistency 📅",
    14 := "Two Weeks Strong 💪",
    21 := "Habit Formation 🧠",
    30 := "Month of Progress 📊",
    60 := "Two Months Deep 🔥",
    90 := "Quarter of Excellence 🏆",
    100 := "Century Club 💎",
    180 := "Half Year Hero 🦸",
    365 := "Year of Transformation 🎉",
    500 := "500 Days of Power ⚡",
    730 := "Two Years Strong 🎯",
    1000 := "Thousand Day Club 👑",
    1095 := "Three Years of Growth 🌳",
    1825 := "Five Years of Excellence 🌟",
    3650 := "Decade of Dedication 🎪"
  ]

  /**
   * The milestone table of a theme: its own for sobriety, the general one for
   * every other theme. Only the sobriety table has day 3; no table has day 0.
   */
  function Milestones(t: Theme): (table: map<nat, string>)
    ensures 3 in table <==> t == Sobriety
    ensures 0 !in table
    ensures forall d | d in table :: 1 <= d <= 3650
  {
    if t == Sobriety then SobrietyMilestones else GeneralMilestones
  }

  /** The message pool of a theme: the configured list for custom, a built-in list otherwise. */
  function Pool(t: Theme, customMessages: seq<string>): (pool: seq<string>)
    ensures t == Custom ==> pool == customMessages
    ensures t != Custom ==> |pool| == (if t == Sobriety || t == Minimal then 15 else 10)
  {
    match t
    case General => GeneralPool
    case Growth => GrowthPool
    case Sobriety => SobrietyPool
    case Minimal => MinimalPool
    case Custom => customMessages
  }

  /** `getMilestoneMessage`: the milestone text for `day`, if the theme's table has one. */
  function GetMilestoneMessage(t: Theme, day: nat): (r: Option<string>)
    ensures r.Some? <==> day in Milestones(t)
    ensures r.Some? ==> r.value == Milestones(t)[day]
  {
    var table := Milestones(t);
    if day in table then Some(table[day]) else None
  }

  /**
   * The two milestone tables agree on every day but 3, which only the
   * sobriety table marks, and differ only in their texts.
   */
  lemma MilestoneTablesShareDays()
    ensures SobrietyMilestones.Keys == GeneralMilestones.Keys + {3}
    ensures forall t: Theme, d: nat | t != Sobriety :: GetMilestoneMessage(t, d) == GetMilestoneMessage(General, d)
  {
  }

  /** JavaScript's `a % n` on integers: the remainder takes the sign of `a`. */
  function JsRem(a: int, n: int): (r: int)
    requires n > 0
    ensures -n < r < n
    ensures a >= 0 ==> r == a % n
    ensures a < 0 ==> r <= 0
    ensures a == -1 ==> r == (if n == 1 then 0 else -1)
  {
    if a >= 0 then a % n else -((-a) % n)
  }

  /** `s[i]` in JavaScript: `undefined` (here `None`) outside the bounds. */
  function ElementAt(s: seq<string>, i: int): (r: Option<string>)
    ensures r.Some? <==> 0 <= i < |s|
  {
    if 0 <= i < |s| then Some(s[i]) else None
  }

  /**
   * `getHabitMessage`. A milestone wins over the pool; otherwise the pool entry
   * at `(day - 1) % length`, with JavaScript's remainder. `None` stands for the
   * `undefined` that JavaScript yields for an out-of-range index (day 0) or an
   * empty pool.
   */
  function GetHabitMessage(t: Theme, customMessages: seq<string>, day: nat): (r: Option<string>)
    ensures day in Milestones(t) ==> r == Some(Milestones(t)[day])
    ensures day !in Milestones(t) && day >= 1 && |Pool(t, customMessages)| > 0 ==>
              r == Some(Pool(t, customMessages)[(day - 1) % |Pool(t, customMessages)|])
    ensures r.Some? ==> r.value in Milestones(t).Values || r.value in Pool(t, customMessages)
  {
    var pool := Pool(t, customMessages);
    match GetMilestoneMessage(t, day)
    case Some(m) => Some(m)
    case None => if |pool| == 0 then None else ElementAt(pool, JsRem(day - 1, |pool|))
  }

  /**
   * Day 0 (reachable by a manual counter of 0, or by SKIP before any counter
   * was stored) has no message, unless the pool has exactly one entry: then
   * `-1 % 1` is `-0`, which indexes the first entry.
   */
  lemma DayZeroMessage(t: Theme, customMessages: seq<string>)
    ensures GetHabitMessage(t, customMessages, 0).Some? <==> |Pool(t, customMessages)| == 1
    ensures |Pool(t, customMessages)| == 1 ==>
              GetHabitMessage(t, customMessages, 0) == Some(Pool(t, customMessages)[0])
  {
  }

  /** Under a valid configuration every day from 1 on has a message. */
  lemma MessageDefinedFromDayOne(c: Config, day: nat)
    requires Valid(c)
    ensures GetHabitMessage(c.theme, c.customMessages, day).Some? <==>
              day >= 1 || |Pool(c.theme, c.customMessages)| == 1
  {
    DayZeroMessage(c.theme, c.customMessages);
  }

  /** Outside milestones the message repeats with the period of the pool. */
  lemma {:induction false} PoolCycles(t: Theme, customMessages: seq<string>, day: nat, k: nat)
    requires day >= 1 && |Pool(t, customMessages)| > 0
    requires day !in Milestones(t) && day + k * |Pool(t, customMessages)| !in Milestones(t)
    ensures GetHabitMessage(t, customMessages, day + k * |Pool(t, customMessages)|)
            == GetHabitMessage(t, customMessages, day)
  {
    var n := |Pool(t, customMessages)|;
    var later := day + k * n;
    assert GetMilestoneMessage(t, day) == None && GetMilestoneMessage(t, later) == None;
    assert JsRem(later - 1, n) == JsRem(day - 1, n) by {
      ModAddMultiple(day - 1, k, n);
      assert later - 1 == day - 1 + k * n;
    }
  }

  lemma {:induction false} ModAddMultiple(a: nat, k: nat, n: nat)
    requires n > 0
    ensures (a + k * n) % n == a % n
    decreases k
  {
    if k > 0 {
      ModAddMultiple(a, k - 1, n);
      assert a + k * n == (a + (k - 1) * n) + n;
      ModAddPeriod(a + (k - 1) * n, n);
    }
  }

  lemma ModAddPeriod(a: nat, n: nat)
    requires n > 0
    ensures (a + n) % n == a % n
  {
    var x := a + n;
    var d := x / n - a / n - 1;
    assert n * (x / n) + x % n == n * (a / n) + a % n + n;
    assert n * d == a % n - x % n;
    if d >= 1 {
      MulAtLeast(n, d);
    } else if d <= -1 {
      MulAtLeast(n, -d);
    }
  }

  lemma {:induction false} MulAtLeast(n: int, d: int)
    requires n > 0 && d >= 1
    ensures n * d >= n
    decreases d
  {
    if d > 1 {
      MulAtLeast(n, d - 1);
      assert n * d == n * (d - 1) + n;
    }
  }

  /** Day 7 under the general theme gets its milestone, not the seventh pool entry. */
  lemma WeekMilestoneExample()
    ensures GetHabitMessage(General, [], 7) == Some("Week of Consistency 📅")
  {
  }

  /** Day 23 under the general theme (no milestone) gets pool entry (23 - 1) % 10 = 2. */
  lemma CycleExample()
    ensures GetHabitMessage(General, [], 23) == Some(GeneralPool[2])
  {
  }

  /** The sobriety table has milestones the general table lacks: day 3 is one. */
  lemma SobrietyTableExample()
    ensures GetHabitMessage(Sobriety, [], 3) == Some("Three Days Strong 💪")
    ensures GetHabitMessage(Growth, [], 3) == Some(GrowthPool[2])
  {
  }
}
