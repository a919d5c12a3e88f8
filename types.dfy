/**
 * The value types and display helpers of lib/types.ts: the SRM beer-colour
 * lookup, the status colours, and the ABV, IBU and pints formatters.
 * JavaScript numbers are modelled as `real`; a `null` is `None`.
 */
module KegTypes {
  import opened Wrappers
  import Decimal

  /** The status tag of a keg, as the `current_keg_status` view reports it. */
  datatype Status = NoData | Empty | Low | Ok | Full

  // ---------------------------------------------------------------------
  // SRM colour lookup
  // ---------------------------------------------------------------------

  /** The colour table, keyed by SRM value. */
  const SrmColors: map<int, string> := map[
    1 := "#FFE699", 2 := "#FFD878", 3 := "#FFCA5A", 4 := "#FFBF42",
    5 := "#FBB123", 6 := "#F8A600", 8 := "#F39C00", 10 := "#EA8F00",
    13 := "#E58500", 17 := "#DD7900", 20 := "#D26900", 24 := "#CA6500",
    29 := "#BF5B00", 35 := "#B54C00", 40 := "#A64200"]

  /** The table's keys after `Object.keys(...).map(Number).sort(...)`: ascending. */
  const SrmKeys: seq<int> := [1, 2, 3, 4, 5, 6, 8, 10, 13, 17, 20, 24, 29, 35, 40]

  /** The colour shown for a missing or zero SRM. */
  const PaleColor: string := "#FFE699"

  /** The colour of the darkest table entry. */
  const DarkestColor: string := "#A64200"

  predicate StrictlyAscending(s: seq<int>) {
    forall i, j :: 0 <= i < j < |s| ==> s[i] < s[j]
  }

  lemma SrmKeysAreSortedTableKeys()
    ensures StrictlyAscending(SrmKeys)
    ensures |SrmKeys| == 15
    ensures forall k :: k in SrmColors <==> k in SrmKeys
  {
  }

  function Dist(key: int, srm: real): real {
    if key as real >= srm then key as real - srm else srm - key as real
  }

  /**
   * The `reduce` over the sorted keys: `prev` is the best key so far and is
   * replaced only by a key strictly closer to `srm`.
   */
  function Closest(prev: int, rest: seq<int>, srm: real): (k: int)
    ensures k == prev || k in rest
    decreases |rest|
  {
    if rest == [] then prev
    else Closest(if Dist(rest[0], srm) < Dist(prev, srm) then rest[0] else prev, rest[1..], srm)
  }

  /** The key `getSrmColor` settles on for a non-zero `srm`. */
  function SrmKey(srm: real): (k: int)
    ensures k in SrmColors
  {
    SrmKeysAreSortedTableKeys();
    Closest(SrmKeys[0], SrmKeys[1..], srm)
  }

  /** `getSrmColor`: `null` and `0` give the palest colour, anything else the nearest table entry. */
  function SrmColor(srm: Option<real>): (color: string)
    ensures (srm.None? || srm == Some(0.0)) ==> color == PaleColor
    ensures color in SrmColors.Values
  {
    if srm.None? || srm.value == 0.0 then assert SrmColors[1] == PaleColor; PaleColor
    else SrmColors[SrmKey(srm.value)]
  }

  /** No key of those considered is strictly closer than the one the reduce returns. */
  lemma {:induction false} ClosestIsNearest(prev: int, rest: seq<int>, srm: real)
    ensures forall j :: j == prev || j in rest ==> Dist(Closest(prev, rest, srm), srm) <= Dist(j, srm)
    decreases |rest|
  {
    if rest != [] {
      var next := if Dist(rest[0], srm) < Dist(prev, srm) then rest[0] else prev;
      ClosestIsNearest(next, rest[1..], srm);
      assert forall j :: j in rest ==> j == rest[0] || j in rest[1..];
    }
  }

  /**
   * Between equally near keys the reduce keeps the smaller one, because it
   * walks the keys upwards and replaces only on a strictly smaller distance.
   */
  lemma {:induction false} ClosestPrefersSmaller(prev: int, rest: seq<int>, srm: real)
    requires StrictlyAscending(rest)
    requires forall j :: j in rest ==> prev < j
    ensures forall j :: (j == prev || j in rest) && Dist(j, srm) == Dist(Closest(prev, rest, srm), srm) ==>
              Closest(prev, rest, srm) <= j
    decreases |rest|
  {
    if rest != [] {
      var tail := rest[1..];
      assert forall j :: j in rest ==> j == rest[0] || j in tail;
      assert forall j :: j in tail ==> j in rest;
      assert forall j :: j in tail ==> rest[0] < j by {
        forall j | j in tail ensures rest[0] < j {
          var i :| 0 <= i < |tail| && tail[i] == j;
          assert rest[i + 1] == j;
        }
      }
      if Dist(rest[0], srm) < Dist(prev, srm) {
        ClosestPrefersSmaller(rest[0], tail, srm);
        ClosestIsNearest(rest[0], tail, srm);
      } else {
        ClosestPrefersSmaller(prev, tail, srm);
        ClosestIsNearest(prev, tail, srm);
      }
    }
  }

  /**
   * For a non-zero `srm`, `getSrmColor` answers the colour of the table key
   * nearest to `srm`, the smaller key on a tie.
   */
  lemma SrmColorIsNearest(srm: real)
    requires srm != 0.0
    ensures SrmColor(Some(srm)) == SrmColors[SrmKey(srm)]
    ensures forall j :: j in SrmColors ==> Dist(SrmKey(srm), srm) <= Dist(j, srm)
    ensures forall j :: j in SrmColors && Dist(j, srm) == Dist(SrmKey(srm), srm) ==> SrmKey(srm) <= j
  {
    SrmKeysAreSortedTableKeys();
    assert StrictlyAscending(SrmKeys[1..]);
    assert forall j :: j in SrmKeys[1..] ==> SrmKeys[0] < j;
    assert forall j :: j in SrmKeys ==> j == SrmKeys[0] || j in SrmKeys[1..];
    ClosestIsNearest(SrmKeys[0], SrmKeys[1..], srm);
    ClosestPrefersSmaller(SrmKeys[0], SrmKeys[1..], srm);
  }

  /** A table key is shown in its own colour. */
  lemma SrmColorOfTableKey(key: int)
    requires key in SrmColors
    ensures SrmColor(Some(key as real)) == SrmColors[key]
  {
    SrmColorIsNearest(key as real);
    var k := SrmKey(key as real);
    assert Dist(k, key as real) <= Dist(key, key as real) == 0.0;
    assert k == key;
  }

  /**
   * Over ascending keys that all lie at or below `srm`, each key is closer
   * than the one before it, so the reduce ends on the last key.
   */
  lemma {:induction false} ClosestAboveAll(prev: int, rest: seq<int>, srm: real)
    requires StrictlyAscending(rest)
    requires forall i :: 0 <= i < |rest| ==> prev < rest[i] && rest[i] as real <= srm
    ensures Closest(prev, rest, srm) == if rest == [] then prev else rest[|rest| - 1]
    decreases |rest|
  {
    if rest != [] {
      assert Dist(rest[0], srm) < Dist(prev, srm);
      assert Closest(prev, rest, srm) == Closest(rest[0], rest[1..], srm);
      ClosestAboveAll(rest[0], rest[1..], srm);
    }
  }

  /** The reduce over two runs of keys is the reduce over the second, from where the first ended. */
  lemma {:induction false} ClosestConcat(prev: int, a: seq<int>, b: seq<int>, srm: real)
    ensures Closest(prev, a + b, srm) == Closest(Closest(prev, a, srm), b, srm)
    decreases |a|
  {
    if a == [] {
      assert a + b == b;
    } else {
      assert (a + b)[0] == a[0] && (a + b)[1..] == a[1..] + b;
      var next := if Dist(a[0], srm) < Dist(prev, srm) then a[0] else prev;
      ClosestConcat(next, a[1..], b, srm);
    }
  }

  /** Every SRM of 40 or more is shown in the darkest colour. */
  lemma SrmColorAtLeastForty(srm: real)
    requires srm >= 40.0
    ensures SrmColor(Some(srm)) == DarkestColor
  {
    SrmKeysAreSortedTableKeys();
    assert StrictlyAscending(SrmKeys[1..]);
    ClosestAboveAll(SrmKeys[0], SrmKeys[1..], srm);
  }

  /** SRM 7 lies midway between the keys 6 and 8 and takes the colour of 6. */
  lemma SrmColorTieExample(srm: real)
    requires srm == 7.0
    ensures SrmColor(Some(srm)) == SrmColors[6]
  {
    assert SrmKeys[1..] == [2, 3, 4, 5, 6] + TieLater;
    TieHead(srm);
    TieTail(srm);
  }

  /** The keys above 6. */
  const TieLater: seq<int> := [8, 10, 13, 17, 20, 24, 29, 35, 40]

  /** First half of the SRM 7 case: walking keys 1 to 6, the reduce reaches 6. */
  lemma TieHead(srm: real)
    requires srm == 7.0
    ensures Closest(1, [2, 3, 4, 5, 6] + TieLater, srm) == Closest(6, TieLater, srm)
  {
    ClosestAboveAll(1, [2, 3, 4, 5, 6], srm);
    ClosestConcat(1, [2, 3, 4, 5, 6], TieLater, srm);
  }

  /** Second half of the SRM 7 case: no key above 6 is strictly closer, so 6 stays. */
  lemma TieTail(srm: real)
    requires srm == 7.0
    ensures Closest(6, TieLater, srm) == 6
  {
  }

  // ---------------------------------------------------------------------
  // Status colours
  // ---------------------------------------------------------------------

  /** `getStatusColor`: a colour for each of the five status tags. */
  function StatusColor(status: Status): (color: string)
    ensures |color| == 7 && color[0] == '#'
    ensures forall i :: 1 <= i < 7 ==> color[i] in "0123456789abcdef"
  {
    match status
    case NoData => "#94a3b8"
    case Empty => "#ef4444"
    case Low => "#f59e0b"
    case Ok => "#3b82f6"
    case Full => "#10b981"
  }

  /** The five tags are told apart by colour. */
  lemma StatusColorsDistinct(a: Status, b: Status)
    requires a != b
    ensures StatusColor(a) != StatusColor(b)
  {
  }

  // ---------------------------------------------------------------------
  // Formatters
  // ---------------------------------------------------------------------

  const NotAvailable: string := "N/A"

  /**
   * `formatAbv`: `'N/A'` exactly when the ABV is missing or zero (both falsy),
   * otherwise the one-decimal text followed by `% ABV`. `toFixed(1)` is the
   * parameter `fixed1`.
   */
  function FormatAbv(abv: Option<real>, fixed1: real -> string): (text: string)
    ensures text == NotAvailable <==> abv.None? || abv.value == 0.0
    ensures abv.Some? && abv.value != 0.0 ==> text == fixed1(abv.value) + "% ABV"
  {
    if abv.Some? && abv.value != 0.0 then fixed1(abv.value) + "% ABV" else NotAvailable
  }

  /**
   * `formatIbu`: `'N/A'` exactly when the IBU is missing or zero, otherwise the
   * number's text followed by ` IBU`. JavaScript's number-to-text is `show`.
   */
  function FormatIbu(ibu: Option<real>, show: real -> string): (text: string)
    ensures text == NotAvailable <==> ibu.None? || ibu.value == 0.0
    ensures ibu.Some? && ibu.value != 0.0 ==> text == show(ibu.value) + " IBU"
  {
    if ibu.Some? && ibu.value != 0.0 then show(ibu.value) + " IBU" else NotAvailable
  }

  const PintsSuffix: string := " pints"

  /**
   * 2^53: below this magnitude every integer is a double and JavaScript writes
   * it in plain digits. From here on it writes the shortest digits that read
   * back to the double, padded with zeros, and from 10^21 on exponent form.
   */
  const PlainDigitsBelow: int := 9_007_199_254_740_992

  /**
   * `formatPints`: the whole number of pints, rounded down, followed by
   * ` pints`. Below 2^53 in magnitude the number is written in plain digits;
   * from there on it is JavaScript's number-to-text, the parameter `show`.
   */
  function FormatPints(pints: real, show: real -> string): (text: string)
    ensures -PlainDigitsBelow < pints.Floor < PlainDigitsBelow ==>
              && Decimal.ShownNumber(text, PintsSuffix).Some?
              && var shown := Decimal.ShownNumber(text, PintsSuffix).value;
                 shown as real <= pints < shown as real + 1.0
    ensures pints.Floor <= -PlainDigitsBelow || PlainDigitsBelow <= pints.Floor ==>
              text == show(pints.Floor as real) + PintsSuffix
  {
    var whole := pints.Floor;
    if -PlainDigitsBelow < whole < PlainDigitsBelow then
      Decimal.ShownNumberOf(whole, PintsSuffix);
      Decimal.IntToString(whole) + PintsSuffix
    else
      show(whole as real) + PintsSuffix
  }
}
