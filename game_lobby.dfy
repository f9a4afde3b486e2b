/** The lobby's text helpers, src/ui/game-lobby.tsx: the age of a game
    and the one-line status of a listed game. `Date.now()` is passed in as
    `now`; both times are whole milliseconds. */
module GameLobby {
  import opened Text
  import opened Mutators

  const MillisPerMinute: int := 1000 * 60
  const MinutesPerHour: int := 60
  const MinutesPerDay: int := 1440
  const MillisPerHour: int := MillisPerMinute * MinutesPerHour
  const MillisPerDay: int := MillisPerMinute * MinutesPerDay

  /** `Math.floor((now - gameTime) / (1000 * 60))`. For a positive divisor
      Dafny's `/` on int rounds down, as Math.floor does. */
  function MinutesBetween(date: int, now: int): (m: int)
    ensures m * MillisPerMinute <= now - date < m * MillisPerMinute + MillisPerMinute
  {
    (now - date) / MillisPerMinute
  }

  /** The unit formatTimeAgo picks, with its whole count. */
  datatype Age = JustNow | MinutesAgo(minutes: nat) | HoursAgo(hours: nat) | DaysAgo(days: nat)

  /** The threshold tests of formatTimeAgo on whole minutes, stated here
      on the elapsed milliseconds: each unit's count is the elapsed time
      rounded down to that unit. Future times count as "just now". */
  function AgeOf(date: int, now: int): (a: Age)
    ensures a == JustNow <==> now - date < MillisPerMinute
    ensures a.MinutesAgo? <==> MillisPerMinute <= now - date < MillisPerHour
    ensures a.HoursAgo? <==> MillisPerHour <= now - date < MillisPerDay
    ensures a.DaysAgo? <==> MillisPerDay <= now - date
    ensures a.MinutesAgo? ==> 1 <= a.minutes < MinutesPerHour
                              && a.minutes * MillisPerMinute <= now - date < (a.minutes + 1) * MillisPerMinute
    ensures a.HoursAgo? ==> 1 <= a.hours < MinutesPerDay / MinutesPerHour
                            && a.hours * MillisPerHour <= now - date < (a.hours + 1) * MillisPerHour
    ensures a.DaysAgo? ==> 1 <= a.days
                           && a.days * MillisPerDay <= now - date < (a.days + 1) * MillisPerDay
  {
    var diffInMinutes := MinutesBetween(date, now);
    if diffInMinutes < 1 then JustNow
    else if diffInMinutes < MinutesPerHour then MinutesAgo(diffInMinutes)
    else if diffInMinutes < MinutesPerDay then HoursAgo(diffInMinutes / MinutesPerHour)
    else DaysAgo(diffInMinutes / MinutesPerDay)
  }

  /** `${count}m ago` and its kin: the count in decimal, the unit letter, " ago". */
  function Ago(count: nat, unit: char): (r: string)
    ensures |r| >= 6
    ensures r[..|r| - 5] == NatToString(count)
    ensures r[|r| - 5..] == [unit] + " ago"
  {
    NatToString(count) + [unit] + " ago"
  }

  /** formatTimeAgo */
  function FormatTimeAgo(date: int, now: int): (r: string)
    ensures r == "Just now" <==> now - date < MillisPerMinute
    ensures MillisPerMinute <= now - date < MillisPerHour ==> |r| > 5 && r[|r| - 5..] == "m ago"
    ensures MillisPerHour <= now - date < MillisPerDay ==> |r| > 5 && r[|r| - 5..] == "h ago"
    ensures MillisPerDay <= now - date ==> |r| > 5 && r[|r| - 5..] == "d ago"
  {
    match AgeOf(date, now)
    case JustNow => "Just now"
    case MinutesAgo(m) => Ago(m, 'm')
    case HoursAgo(h) => Ago(h, 'h')
    case DaysAgo(d) => Ago(d, 'd')
  }

  /** The three ages a rendered string can be read back from: the text
      before the unit is the count's own decimal rendering, with no
      leading zero, and it reads back as the count. */
  lemma FormatTimeAgoReadsBack(date: int, now: int)
    requires now - date >= MillisPerMinute
    ensures var r := FormatTimeAgo(date, now);
            var n := match AgeOf(date, now)
                     case MinutesAgo(m) => m
                     case HoursAgo(h) => h
                     case DaysAgo(d) => d
                     case JustNow => 0;
            && |r| > 5
            && r[..|r| - 5] == NatToString(n)
            && r[0] != '0'
            && IsDigits(r[..|r| - 5])
            && DigitsValue(r[..|r| - 5]) == n
  {
    var r := FormatTimeAgo(date, now);
    match AgeOf(date, now)
    case MinutesAgo(m) =>
      NatToStringRoundTrip(m);
      assert r[0] == NatToString(m)[0];
    case HoursAgo(h) =>
      NatToStringRoundTrip(h);
      assert r[0] == NatToString(h)[0];
    case DaysAgo(d) =>
      NatToStringRoundTrip(d);
      assert r[0] == NatToString(d)[0];
  }

  /** `${game.winner}`: a null winner renders as "null". */
  function WinnerName(w: Winner): string {
    match w
    case NoWinner => "null"
    case Won(X) => "X"
    case Won(O) => "O"
    case Draw => "draw"
  }

  /** getGameStatusText. The status column holds only the three values
      the mutators write, so the source's final `return ""` is unreachable. */
  function GameStatusText(status: Status, winner: Winner): (r: string)
    ensures r == "Waiting for opponent" <==> status == Waiting
    ensures r == "In progress" <==> status == Active
    ensures r == "Draw" <==> status == Finished && winner == Draw
    ensures status == Finished && winner != Draw ==> r == "Winner: " + WinnerName(winner)
  {
    if status == Waiting then "Waiting for opponent"
    else if status == Active then "In progress"
    else if winner == Draw then
      assert status == Finished;
      "Draw"
    else "Winner: " + WinnerName(winner)
  }

  /** For every game the mutators can produce, a finished game's text is
      "Draw" or names a mark: "Winner: null" never appears. */
  lemma FinishedTextNamesAMark(g: Game)
    requires GameInvariant(g) && g.status == Finished
    ensures GameStatusText(g.status, g.winner) in {"Draw", "Winner: X", "Winner: O"}
  {
    assert "Winner: " + "X" == "Winner: X";
    assert "Winner: " + "O" == "Winner: O";
  }
}
