/** `stab_srdt`: the Pasquill-like stability class, from solar radiation by
    day and from the vertical temperature difference by night, each crossed
    with the wind speed (the SRDT method). */
module StabSrdt {

  /** The class table `lsrdt`, rows by wind bin and columns by radiation or
      temperature-difference bin; zero cells are never selected. Row 2 holds
      the corrected night values 4, 5. */
  const LSRDT: seq<seq<int>> := [
    [1, 1, 2, 4, 0, 5, 6, 0],
    [1, 2, 3, 4, 0, 4, 5, 0],
    [2, 2, 3, 4, 0, 4, 4, 0],
    [3, 3, 4, 4, 0, 0, 0, 0],
    [3, 4, 4, 4, 0, 0, 0, 0],
    [0, 0, 0, 0, 0, 0, 0, 0]]

  /** Daytime column `j`: strong (>= 925), moderate (>= 675), slight (>= 175) or weak sun. */
  function DayColumn(solar: real): (j: int)
    ensures 1 <= j <= 4
    ensures solar >= 925.0 <==> j == 1
    ensures j == 2 <==> 675.0 <= solar < 925.0
    ensures j == 3 <==> 175.0 <= solar < 675.0
    ensures j == 4 <==> solar < 175.0
  {
    if solar >= 925.0 then 1
    else if solar >= 675.0 then 2
    else if solar >= 175.0 then 3
    else 4
  }

  /** Daytime row `i`: wind below 2, 3, 5, 6 m/s, or above. */
  function DayRow(speed: real): (i: int)
    ensures 1 <= i <= 5
    ensures i == 1 <==> speed < 2.0
    ensures i == 2 <==> 2.0 <= speed < 3.0
    ensures i == 3 <==> 3.0 <= speed < 5.0
    ensures i == 4 <==> 5.0 <= speed < 6.0
    ensures i == 5 <==> speed >= 6.0
  {
    if speed >= 6.0 then 5
    else if speed >= 5.0 then 4
    else if speed >= 3.0 then 3
    else if speed >= 2.0 then 2
    else 1
  }

  /** Night-time column `j`: 7 for an inversion (dT >= 0), 6 for a lapse. */
  function NightColumn(dT: real): (j: int)
    ensures j == 6 || j == 7
    ensures j == 7 <==> dT >= 0.0
  {
    if dT >= 0.0 then 7 else 6
  }

  /** Night-time row `i`: wind below 2, below 2.5 m/s, or above. */
  function NightRow(speed: real): (i: int)
    ensures 1 <= i <= 3
    ensures i == 1 <==> speed < 2.0
    ensures i == 2 <==> 2.0 <= speed < 2.5
    ensures i == 3 <==> speed >= 2.5
  {
    if speed >= 2.5 then 3
    else if speed >= 2.0 then 2
    else 1
  }

  /** `stab_srdt(daytime, speed, solar, dT)`: the class, 1 (very unstable) to
      6 (stable); classes 1-4 by day and 4-6 by night, never the table's 0. */
  function StabilityClass(daytime: int, speed: real, solar: real, dT: real): (c: int)
    ensures 1 <= c <= 6
    ensures daytime == 1 ==> c <= 4
    ensures daytime != 1 ==> 4 <= c
  {
    var i := if daytime == 1 then DayRow(speed) else NightRow(speed);
    var j := if daytime == 1 then DayColumn(solar) else NightColumn(dT);
    LSRDT[i - 1][j - 1]
  }

  /** By day, more sun makes the class no more stable and more wind makes it
      no less stable. */
  lemma {:induction false} DayClassMonotone(speed1: real, speed2: real, solar1: real, solar2: real, dT: real)
    requires speed1 <= speed2 && solar1 >= solar2
    ensures StabilityClass(1, speed1, solar1, dT) <= StabilityClass(1, speed2, solar2, dT)
  {
    var i1, i2 := DayRow(speed1), DayRow(speed2);
    var j1, j2 := DayColumn(solar1), DayColumn(solar2);
    assert i1 <= i2 && j1 <= j2;
    DayCellsMonotone(i1, i2, j1, j2);
  }

  lemma DayCellsMonotone(a: int, b: int, k: int, l: int)
    requires 1 <= a <= b <= 5 && 1 <= k <= l <= 4
    ensures LSRDT[a - 1][k - 1] <= LSRDT[b - 1][l - 1]
  {
    var r0, r1, r2, r3, r4 := LSRDT[0], LSRDT[1], LSRDT[2], LSRDT[3], LSRDT[4];
    assert r0[0] == 1 && r0[1] == 1 && r0[2] == 2 && r0[3] == 4;
    assert r1[0] == 1 && r1[1] == 2 && r1[2] == 3 && r1[3] == 4;
    assert r2[0] == 2 && r2[1] == 2 && r2[2] == 3 && r2[3] == 4;
    assert r3[0] == 3 && r3[1] == 3 && r3[2] == 4 && r3[3] == 4;
    assert r4[0] == 3 && r4[1] == 4 && r4[2] == 4 && r4[3] == 4;
  }

  /** By night an inversion is at least as stable as a lapse, and more wind
      makes the class no more stable. */
  lemma {:induction false} NightClassMonotone(daytime: int, speed1: real, speed2: real, solar: real, dT1: real, dT2: real)
    requires daytime != 1 && speed1 <= speed2 && dT1 <= dT2
    ensures StabilityClass(daytime, speed2, solar, dT1) <= StabilityClass(daytime, speed1, solar, dT2)
  {
    var i1, i2 := NightRow(speed1), NightRow(speed2);
    var j1, j2 := NightColumn(dT1), NightColumn(dT2);
    assert i1 <= i2 && j1 <= j2;
    assert LSRDT[i2 - 1][j1 - 1] <= LSRDT[i1 - 1][j1 - 1] <= LSRDT[i1 - 1][j2 - 1];
  }
}
