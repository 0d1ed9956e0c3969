/**
 * Warp pads and the teleport dialog.  A warp pad is identified by its room,
 * its spawn id and its map cell; the dialog steps through the activated
 * pads with the left and right buttons, wrapping around at either end.
 */
module Teleport {
  import opened Lists
  import opened Destinations

  /** The tuple `(room, spawn_id, x, y)` that names an activated warp pad. */
  datatype WarpPadId = WarpPadId(room: string, spawn: string, x: int, y: int)

  /** A positive multiple of a positive `n` is at least `n`. */
  lemma {:induction false} MulAtLeast(n: int, d: int)
    requires n > 0 && d >= 1
    ensures n * d >= n
    decreases d
  {
    if d > 1 {
      MulAtLeast(n, d - 1);
      assert n * d == n * (d - 1) + n;
    }
  }

  /** Division with remainder by a positive `n` has one answer: the quotient and remainder Dafny computes. */
  lemma DivModUnique(a: int, n: int, q: int, r: int)
    requires n > 0 && 0 <= r < n && a == n * q + r
    ensures a / n == q && a % n == r
  {
    var d := q - a / n;
    assert n * d == a % n - r;
    if d >= 1 {
      MulAtLeast(n, d);
      assert false;
    }
    if d <= -1 {
      MulAtLeast(n, -d);
      assert false;
    }
  }

  /** Python's floor division `a // n` by a positive `n`, built from the division of non-negative numbers only. */
  function FloorDiv(a: int, n: int): (q: int)
    requires n > 0
    ensures n * q <= a < n * q + n
  {
    if a >= 0 then a / n else -((-a + n - 1) / n)
  }

  /** Python's `a % n` by a positive `n`: what floor division leaves over. */
  function PyMod(a: int, n: int): int
    requires n > 0
  {
    a - n * FloorDiv(a, n)
  }

  /** Python's `%` by a positive count lies in `[0, n)`. */
  lemma PyModRange(a: int, n: int)
    requires n > 0
    ensures 0 <= PyMod(a, n) < n
  {
    if a < 0 {
      var b := -a + n - 1;
      var k := b / n;
      assert b == n * k + b % n;
      assert PyMod(a, n) == a + n * k;
    } else {
      var k := a / n;
      assert a == n * k + a % n;
    }
  }

  /** Python's `%` by a positive count agrees with Dafny's Euclidean `%`, and so leaves a position inside the list alone. */
  lemma PyModAgrees(a: int, n: int)
    requires n > 0
    ensures PyMod(a, n) == a % n
    ensures 0 <= a < n ==> PyMod(a, n) == a
  {
    PyModRange(a, n);
    DivModUnique(a, n, FloorDiv(a, n), PyMod(a, n));
    if 0 <= a < n {
      DivModUnique(a, n, 0, a);
    }
  }

  /** One past either end of the list wraps around to the other end. */
  lemma PyModWraps(n: int)
    requires n > 0
    ensures PyMod(n, n) == 0 && PyMod(-1, n) == n - 1
  {
    PyModAgrees(n, n);
    DivModUnique(n, n, 1, 0);
    PyModAgrees(-1, n);
    DivModUnique(-1, n, -1, n - 1);
  }

  /**
   * `event_press_right`: the pad after the selection, from the last back to
   * the first; a selection that is not in the list goes to the first pad.
   * With no pads at all the source divides by zero; that is `None` here.
   */
  function PressRight<T(==)>(pads: seq<T>, sel: T): (r: Option<T>)
    ensures r.None? <==> pads == []
    ensures r.Some? ==> r.value in pads
    ensures pads != [] && sel !in pads ==> r == Some(pads[0])
    ensures sel in pads ==>
              r == Some(if IndexOf(pads, sel) + 1 < |pads| then pads[IndexOf(pads, sel) + 1] else pads[0])
  {
    if pads == [] then None
    else
      var i := if sel in pads then IndexOf(pads, sel) else -1;
      PyModAgrees(i + 1, |pads|);
      PyModRange(i + 1, |pads|);
      PyModWraps(|pads|);
      Some(pads[PyMod(i + 1, |pads|)])
  }

  /**
   * `event_press_left`: the pad before the selection, from the first back to
   * the last; a selection that is not in the list goes to the last pad.
   */
  function PressLeft<T(==)>(pads: seq<T>, sel: T): (r: Option<T>)
    ensures r.None? <==> pads == []
    ensures r.Some? ==> r.value in pads
    ensures pads != [] && sel !in pads ==> r == Some(pads[|pads| - 1])
    ensures sel in pads ==>
              r == Some(if IndexOf(pads, sel) > 0 then pads[IndexOf(pads, sel) - 1] else pads[|pads| - 1])
  {
    if pads == [] then None
    else
      var i := if sel in pads then IndexOf(pads, sel) else 0;
      PyModAgrees(i - 1, |pads|);
      PyModRange(i - 1, |pads|);
      PyModWraps(|pads|);
      Some(pads[PyMod(i - 1, |pads|)])
  }

  /** With no pad recorded twice, left undoes right and right undoes left. */
  lemma LeftUndoesRight<T>(pads: seq<T>, sel: T)
    requires NoDup(pads) && sel in pads
    ensures PressLeft(pads, PressRight(pads, sel).value) == Some(sel)
    ensures PressRight(pads, PressLeft(pads, sel).value) == Some(sel)
  {
    var n := |pads|;
    var i := IndexOf(pads, sel);
    var j := if i + 1 < n then i + 1 else 0;
    IndexOfDistinct(pads, j);
    var k := if i > 0 then i - 1 else n - 1;
    IndexOfDistinct(pads, k);
  }

  /** The selection after pressing right `k` times. */
  function RightTimes<T(==)>(pads: seq<T>, sel: T, k: nat): (r: T)
    requires pads != []
  {
    if k == 0 then sel else RightTimes(pads, PressRight(pads, sel).value, k - 1)
  }

  /** Pressing right `a` times and then `b` times is pressing it `a + b` times. */
  lemma {:induction false} RightTimesAdd<T>(pads: seq<T>, sel: T, a: nat, b: nat)
    requires pads != []
    ensures RightTimes(pads, RightTimes(pads, sel, a), b) == RightTimes(pads, sel, a + b)
  {
    if a > 0 {
      RightTimesAdd(pads, PressRight(pads, sel).value, a - 1, b);
    }
  }

  /** Without wrapping, `k` presses from the pad at `j` reach the pad at `j + k`. */
  lemma {:induction false} RightTimesAdvance<T>(pads: seq<T>, j: nat, k: nat)
    requires NoDup(pads) && j + k < |pads|
    ensures RightTimes(pads, pads[j], k) == pads[j + k]
    decreases k
  {
    if k > 0 {
      IndexOfDistinct(pads, j);
      RightTimesAdvance(pads, j + 1, k - 1);
    }
  }

  /** From the last pad, one press wraps to the first. */
  lemma RightWraps<T>(pads: seq<T>)
    requires NoDup(pads) && pads != []
    ensures RightTimes(pads, pads[|pads| - 1], 1) == pads[0]
  {
    IndexOfDistinct(pads, |pads| - 1);
  }

  /** From the pad at `j`, the pads before it are reached by wrapping past the last pad. */
  lemma {:induction false} RightTimesAround<T>(pads: seq<T>, j: nat, target: nat)
    requires NoDup(pads) && target < j < |pads|
    ensures RightTimes(pads, pads[j], |pads| - j + target) == pads[target]
  {
    var a: nat := |pads| - 1 - j;
    RightTimesAdvance(pads, j, a);
    RightWraps(pads);
    RightTimesAdd(pads, pads[j], a, 1);
    assert RightTimes(pads, pads[j], a + 1) == pads[0];
    RightTimesAdvance(pads, 0, target);
    RightTimesAdd(pads, pads[j], a + 1, target);
  }

  /** Every activated pad can be reached from any other by pressing right fewer times than there are pads. */
  lemma RightReachesAll<T>(pads: seq<T>, j: nat, target: nat)
    requires NoDup(pads) && j < |pads| && target < |pads|
    ensures exists k :: 0 <= k < |pads| && RightTimes(pads, pads[j], k) == pads[target]
  {
    if j <= target {
      RightTimesAdvance(pads, j, target - j);
    } else {
      RightTimesAround(pads, j, target);
    }
  }

  /**
   * `WarpPad.teleport`: once the dialog closes, the player warps only when
   * another pad was selected, to the destination naming that pad's room and
   * spawn point.  A dialog closed with escape leaves no selection (`None`).
   */
  function TeleportDest(selection: Option<WarpPadId>, here: WarpPadId): (r: Option<string>)
    ensures r.Some? <==> selection.Some? && selection.value != here
  {
    if selection.Some? && selection.value != here then Some(JoinDest(selection.value.room, selection.value.spawn))
    else None
  }

  /** A teleport to another pad arrives at that pad's spawn point in its room, given a room name without a colon. */
  lemma TeleportArrives(selection: WarpPadId, here: WarpPadId)
    requires selection != here && selection.room != "" && ':' !in selection.room
    ensures Warp(TeleportDest(Some(selection), here).value, here.room) == Arrival(Load(selection.room), selection.spawn)
  {
    WarpJoined(selection.room, selection.spawn, here.room);
  }
}
