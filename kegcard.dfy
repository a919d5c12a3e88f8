/**
 * The two helpers of components/KegCard/KegCard.tsx: the "updated ... ago"
 * text of a keg's last reading and the colour of its status badge.
 */
module KegCard {
  import opened Wrappers
  import Decimal
  import KegTypes

  const SecondMs: int := 1000

  /**
   * `getTimeAgo`: `elapsedMs` is `Date.now()` minus the reading's time. The
   * elapsed seconds are rounded down; under a minute (a reading in the future
   * included) is "just now", then whole minutes up to 59, whole hours up to
   * 23, and whole days from one day on.
   */
  function TimeAgo(elapsedMs: int): (text: string)
    ensures elapsedMs < 60 * SecondMs ==> text == "just now"
    ensures 60 * SecondMs <= elapsedMs < 3600 * SecondMs ==>
              var n := Decimal.ShownNumber(text, "m ago");
              n.Some? && 1 <= n.value <= 59 && n.value * 60 * SecondMs <= elapsedMs < (n.value + 1) * 60 * SecondMs
    ensures 3600 * SecondMs <= elapsedMs < 86400 * SecondMs ==>
              var n := Decimal.ShownNumber(text, "h ago");
              n.Some? && 1 <= n.value <= 23 && n.value * 3600 * SecondMs <= elapsedMs < (n.value + 1) * 3600 * SecondMs
    ensures 86400 * SecondMs <= elapsedMs ==>
              var n := Decimal.ShownNumber(text, "d ago");
              n.Some? && 1 <= n.value && n.value * 86400 * SecondMs <= elapsedMs < (n.value + 1) * 86400 * SecondMs
  {
    var seconds := elapsedMs / SecondMs;
    if seconds < 60 then "just now"
    else if seconds < 3600 then
      Decimal.ShownNumberOf(seconds / 60, "m ago");
      Decimal.IntToString(seconds / 60) + "m ago"
    else if seconds < 86400 then
      Decimal.ShownNumberOf(seconds / 3600, "h ago");
      Decimal.IntToString(seconds / 3600) + "h ago"
    else
      Decimal.ShownNumberOf(seconds / 86400, "d ago");
      Decimal.IntToString(seconds / 86400) + "d ago"
  }

  /** The card reads "just now" exactly when less than a minute has passed. */
  lemma TimeAgoJustNow(elapsedMs: int)
    ensures TimeAgo(elapsedMs) == "just now" <==> elapsedMs < 60 * SecondMs
  {
    if elapsedMs >= 60 * SecondMs {
      var t := TimeAgo(elapsedMs);
      assert Decimal.ShownNumber(t, "m ago").Some? || Decimal.ShownNumber(t, "h ago").Some?
          || Decimal.ShownNumber(t, "d ago").Some?;
      assert Decimal.ShownNumber("just now", "m ago").None?;
      assert Decimal.ShownNumber("just now", "h ago").None?;
      assert Decimal.ShownNumber("just now", "d ago").None?;
    }
  }

  /** The card's own status colours: the same as the shared ones. */
  function StatusColor(status: KegTypes.Status): (color: string)
    ensures color == KegTypes.StatusColor(status)
  {
    match status
    case NoData => "#94a3b8"
    case Empty => "#ef4444"
    case Low => "#f59e0b"
    case Ok => "#3b82f6"
    case Full => "#10b981"
  }
}
