/**
 * The command history of the terminal as values: the bounded list of
 * entered lines, and how the cursor into it moves on Up and Down.
 * The session keeps the list and the cursor in fields and updates them
 * with these rules.
 */
module History {
  import opened Wrappers
  import opened JsText

  /** At most this many lines are remembered. */
  const Capacity: nat := 20

  /** The last `n` elements of `s` (all of `s` when it is shorter). */
  function Last<T>(s: seq<T>, n: nat): (r: seq<T>)
    ensures |r| == if |s| <= n then |s| else n
    ensures r == s[|s| - |r|..]
  {
    if |s| <= n then s else s[|s| - n..]
  }

  /**
   * The history after entering `v`: `v` is appended and the oldest lines
   * are dropped until at most `Capacity` remain.
   */
  function Push(stack: seq<JsStr>, v: JsStr): (r: seq<JsStr>)
    ensures 1 <= |r| <= Capacity
    ensures r[|r| - 1] == v
    ensures |stack| < Capacity ==> r == stack + [v]
    ensures |stack| >= Capacity ==> |r| == Capacity && r[..Capacity - 1] == stack[|stack| - Capacity + 1..]
  {
    Last(stack + [v], Capacity)
  }

  /** Entering the lines `vs` one after the other. */
  function PushAll(stack: seq<JsStr>, vs: seq<JsStr>): seq<JsStr>
    decreases |vs|
  {
    if vs == [] then stack else PushAll(Push(stack, vs[0]), vs[1..])
  }

  /** However many lines are entered, the history is the last `Capacity` of all of them. */
  lemma {:induction false} PushAllKeepsLatest(stack: seq<JsStr>, vs: seq<JsStr>)
    requires |stack| <= Capacity
    ensures PushAll(stack, vs) == Last(stack + vs, Capacity)
    decreases |vs|
  {
    if vs == [] {
      assert stack + vs == stack;
    } else {
      PushAllKeepsLatest(Push(stack, vs[0]), vs[1..]);
      LastAppend(stack + [vs[0]], vs[1..]);
      assert (stack + [vs[0]]) + vs[1..] == stack + vs;
    }
  }

  /** Trimming to the last `Capacity` before appending more and trimming again loses nothing. */
  lemma LastAppend<T>(s: seq<T>, t: seq<T>)
    ensures Last(Last(s, Capacity) + t, Capacity) == Last(s + t, Capacity)
  {
    var u := Last(s, Capacity);
    var d := |s| - |u|;
    assert u + t == (s + t)[d..];
    LastOfSuffix(s + t, d);
  }

  /** Dropping a prefix of `s` that is no longer than its excess over `n` does not change its last `n`. */
  lemma LastOfSuffix<T>(s: seq<T>, d: nat)
    requires d <= |s| && (d == 0 || |s| - d >= Capacity)
    ensures Last(s[d..], Capacity) == Last(s, Capacity)
  {
  }

  /** The entry under the cursor, as `stack[i]` reads it: nothing when `i` is out of range. */
  function Entry(stack: seq<JsStr>, i: int): Option<JsStr> {
    if 0 <= i < |stack| then Some(stack[i]) else None
  }

  /** `stack[i]` is truthy: it exists and is not the empty string. Only then do Up and Down act. */
  predicate Recallable(stack: seq<JsStr>, i: int) {
    0 <= i < |stack| && stack[i] != []
  }

  /** The cursor one line back, wrapping from the oldest line to the newest. */
  function Prev(i: int, n: nat): (r: int)
    ensures i == 0 ==> r == n - 1
    ensures i != 0 ==> r == i - 1
    ensures 0 <= i < n ==> 0 <= r < n && r == (i - 1) % n
  {
    if i == 0 then n - 1 else i - 1
  }

  /** The cursor one line forward; it is not wrapped. */
  function Next(i: int): int {
    i + 1
  }

  /** The value `nextStackIndex` returns, the old cursor modulo the length: JavaScript's `%` truncates toward zero, and is undefined for a zero length. */
  function NextResult(i: int, n: nat): Option<int> {
    if n == 0 then None
    else if i >= 0 then Some(i % n)
    else Some(-((-i) % n))
  }

  /**
   * Down only calls `nextStackIndex` on a recallable line, and there the
   * value it returns is the cursor itself: the remainder never wraps.
   */
  lemma NextResultIsCursor(stack: seq<JsStr>, i: int)
    requires Recallable(stack, i)
    ensures NextResult(i, |stack|) == Some(i)
  {
    var n := |stack|;
    assert i == (i / n) * n + i % n;
  }

  /**
   * The returned value is JavaScript's remainder: it has the sign of the
   * cursor, is smaller than the length in magnitude, and differs from the
   * cursor by a multiple of the length.
   */
  lemma NextResultIsRemainder(i: int, n: nat)
    requires n > 0
    ensures var r := NextResult(i, n).value;
      && (i >= 0 ==> 0 <= r < n) && (i < 0 ==> -(n as int) < r <= 0)
      && exists q :: q * n == i - r
  {
    var r := NextResult(i, n).value;
    if i >= 0 {
      assert (i / n) * n == i - r;
    } else {
      assert (-((-i) / n)) * n == i - r;
    }
  }

  /**
   * The cursor after Up: it moves exactly when the line under it can be
   * recalled and there is another line to go to, and then it lands on the
   * line before, cyclically.
   */
  function Up(stack: seq<JsStr>, i: int): (r: int)
    ensures r != i <==> Recallable(stack, i) && |stack| > 1
    ensures Recallable(stack, i) ==> 0 <= r < |stack| && (r + 1) % |stack| == i
  {
    if Recallable(stack, i) then Prev(i, |stack|) else i
  }

  /**
   * The cursor after Down: it never moves back and never wraps, advancing
   * one line exactly when the line under it can be recalled, at most to
   * one past the newest line.
   */
  function Down(stack: seq<JsStr>, i: int): (r: int)
    ensures i <= r <= i + 1 && (r == i + 1 <==> Recallable(stack, i))
    ensures Recallable(stack, i) ==> r <= |stack|
  {
    if Recallable(stack, i) then Next(i) else i
  }

  /** The cursor after `k` presses of Up. */
  function UpTimes(stack: seq<JsStr>, i: int, k: nat): int
    decreases k
  {
    if k == 0 then i else UpTimes(stack, Up(stack, i), k - 1)
  }

  /** Every line of the history is non-empty. */
  predicate AllRecallable(stack: seq<JsStr>) {
    forall k :: 0 <= k < |stack| ==> stack[k] != []
  }

  /** From line `i`, `k <= i` presses of Up go `k` lines back. */
  lemma {:induction false} UpWalksBack(stack: seq<JsStr>, i: int, k: nat)
    requires AllRecallable(stack) && k <= i < |stack|
    ensures UpTimes(stack, i, k) == i - k
    decreases k
  {
    if k > 0 {
      UpWalksBack(stack, i - 1, k - 1);
    }
  }

  /** Pressing Up `a + b` times is pressing it `a` times and then `b` times. */
  lemma {:induction false} UpTimesAdd(stack: seq<JsStr>, i: int, a: nat, b: nat)
    ensures UpTimes(stack, i, a + b) == UpTimes(stack, UpTimes(stack, i, a), b)
    decreases a
  {
    if a > 0 {
      UpTimesAdd(stack, Up(stack, i), a - 1, b);
    }
  }

  /**
   * With no empty line in the history, Up walks backwards through it and
   * wraps from the oldest line to the newest: after `k` presses the cursor
   * is `k` lines back, counted around the history.
   */
  lemma UpCycles(stack: seq<JsStr>, i: int, k: nat)
    requires AllRecallable(stack) && 0 <= i < |stack| && k <= |stack|
    ensures UpTimes(stack, i, k) == if k <= i then i - k else |stack| + i - k
  {
    if k <= i {
      UpWalksBack(stack, i, k);
    } else {
      var n := |stack|;
      UpTimesAdd(stack, i, i, 1);
      UpWalksBack(stack, i, i);
      assert UpTimes(stack, 0, 1) == n - 1;
      UpTimesAdd(stack, i, i + 1, k - i - 1);
      UpWalksBack(stack, n - 1, k - i - 1);
    }
  }

  /** Pressing Up as many times as there are lines comes back to the starting line. */
  lemma UpReturns(stack: seq<JsStr>, i: int)
    requires AllRecallable(stack) && 0 <= i < |stack|
    ensures UpTimes(stack, i, |stack|) == i
  {
    UpCycles(stack, i, |stack|);
  }

  /**
   * Any number of presses: with no empty line, `k` presses of Up from a
   * line land `k` lines back modulo the length of the history.
   */
  lemma {:induction false} UpCyclesModulo(stack: seq<JsStr>, i: int, k: nat)
    requires AllRecallable(stack) && 0 <= i < |stack|
    ensures UpTimes(stack, i, k) == (i - k) % |stack|
    decreases k
  {
    var n := |stack|;
    if k <= n {
      UpCycles(stack, i, k);
      if k <= i {
        ModUnique(i - k, n, 0, i - k);
      } else {
        ModUnique(i - k, n, -1, n + i - k);
      }
    } else {
      UpTimesAdd(stack, i, n, k - n);
      UpReturns(stack, i);
      UpCyclesModulo(stack, i, k - n);
      ModShift(i - k, n);
    }
  }

  /** A positive multiple of `n` is at least `n`. */
  lemma MulAtLeast(a: int, n: int)
    requires a >= 1 && n > 0
    ensures a * n >= n
  {
    assert a * n == n + (a - 1) * n;
  }

  /** The remainder is the only one in range: `x == q * n + r` with `0 <= r < n` fixes `x % n`. */
  lemma ModUnique(x: int, n: int, q: int, r: int)
    requires n > 0 && 0 <= r < n && x == q * n + r
    ensures x % n == r
  {
    var q', r' := x / n, x % n;
    assert x == q' * n + r';
    assert (q - q') * n == r' - r;
    if q - q' >= 1 {
      MulAtLeast(q - q', n);
    } else if q' - q >= 1 {
      MulAtLeast(q' - q, n);
    }
  }

  /** Adding the modulus does not change the remainder. */
  lemma ModShift(x: int, n: int)
    requires n > 0
    ensures (x + n) % n == x % n
  {
    ModUnique(x + n, n, x / n + 1, x % n);
  }

  /** The cursor positions seen while pressing Up `k` times, the start included and the last position excluded. */
  function UpPath(stack: seq<JsStr>, i: int, k: nat): (r: seq<int>)
    ensures |r| == k && forall m :: 0 <= m < k ==> r[m] == UpTimes(stack, i, m)
  {
    seq(k, m requires 0 <= m => UpTimes(stack, i, m))
  }

  /** On the way round, Up visits every line of the history. */
  lemma UpVisitsEveryLine(stack: seq<JsStr>, i: int)
    requires AllRecallable(stack) && 0 <= i < |stack|
    ensures forall j :: 0 <= j < |stack| ==> j in UpPath(stack, i, |stack|)
  {
    var path := UpPath(stack, i, |stack|);
    forall j | 0 <= j < |stack|
      ensures j in path
    {
      var k: nat := if j <= i then i - j else |stack| + i - j;
      UpCycles(stack, i, k);
      assert path[k] == j;
    }
  }

  /** The cursor after `k` presses of Down. */
  function DownTimes(stack: seq<JsStr>, i: int, k: nat): int
    decreases k
  {
    if k == 0 then i else DownTimes(stack, Down(stack, i), k - 1)
  }

  /**
   * With no empty line in the history, Down walks forward one line per
   * press and stops one past the newest line: it never wraps.
   */
  lemma {:induction false} DownRunsOut(stack: seq<JsStr>, i: int, k: nat)
    requires AllRecallable(stack) && 0 <= i <= |stack|
    ensures DownTimes(stack, i, k) == if i + k <= |stack| then i + k else |stack|
    decreases k
  {
    if k > 0 {
      DownRunsOut(stack, Down(stack, i), k - 1);
    }
  }

  /**
   * Down on the newest line moves the cursor past the end of the history,
   * where neither Up nor Down does anything any more.
   */
  lemma DownPastNewest(stack: seq<JsStr>)
    requires stack != [] && stack[|stack| - 1] != []
    ensures Down(stack, |stack| - 1) == |stack|
    ensures Up(stack, |stack|) == |stack| && Down(stack, |stack|) == |stack|
    ensures forall k: nat :: UpTimes(stack, |stack|, k) == |stack|
  {
    forall k: nat ensures UpTimes(stack, |stack|, k) == |stack| {
      UpStuck(stack, |stack|, k);
    }
  }

  /** Once the cursor is on no recallable line, Up leaves it there. */
  lemma {:induction false} UpStuck(stack: seq<JsStr>, i: int, k: nat)
    requires !Recallable(stack, i)
    ensures UpTimes(stack, i, k) == i
    decreases k
  {
    if k > 0 {
      UpStuck(stack, i, k - 1);
    }
  }

  /** An empty line under the cursor blocks both Up and Down. */
  lemma EmptyEntryBlocks(stack: seq<JsStr>, i: int)
    requires Entry(stack, i) == Some([])
    ensures Up(stack, i) == i && Down(stack, i) == i
  {
  }

  /** Up and Down keep the cursor within `0 .. |stack|` once it is there. */
  lemma CursorStaysInRange(stack: seq<JsStr>, i: int)
    requires 0 <= i <= |stack|
    ensures 0 <= Up(stack, i) <= |stack|
    ensures 0 <= Down(stack, i) <= |stack|
  {
  }

  /** After a push the cursor sits on the new line, which is recallable unless it is empty. */
  lemma PushThenRecall(stack: seq<JsStr>, v: JsStr)
    ensures var r := Push(stack, v); Recallable(r, |r| - 1) <==> v != []
  {
  }
}
