/** Integer and real arithmetic shared by the model: clamps, rounding and epoch-aligned windows. */
module Numbers {

  function Min(a: int, b: int): int { if a < b then a else b }

  function Max(a: int, b: int): int { if a < b then b else a }

  function Clamp(x: real): real { if x < 0.0 then 0.0 else if x > 1.0 then 1.0 else x }

  /** The least integer not below x. */
  function Ceil(x: real): (c: int)
    ensures c as real - 1.0 < x <= c as real
  {
    -((-x).Floor)
  }

  lemma CeilMonotone(x: real, y: real)
    requires x <= y
    ensures Ceil(x) <= Ceil(y)
  {}

  lemma CeilBelow(x: real, n: int)
    ensures Ceil(x) <= n <==> x <= n as real
  {}

  lemma FloorAbove(x: real, n: int)
    ensures n <= x.Floor <==> n as real <= x
  {}

  /** Dividing by a positive real keeps and reflects order. */
  lemma DivOrder(x: real, y: real, t: real)
    requires t > 0.0
    ensures x <= y / t <==> x * t <= y
  {}

  lemma MulOrder(x: real, y: real, t: real)
    requires t >= 0.0 && x <= y
    ensures x * t <= y * t
  {}

  /** The epoch-aligned window of length win that contains now. */
  function WindowOf(now: int, win: int): int
    requires win > 0
  {
    now / win
  }

  lemma WindowBounds(now: int, win: int)
    requires win > 0
    ensures WindowOf(now, win) * win <= now < (WindowOf(now, win) + 1) * win
    ensures 0 <= now ==> 0 <= WindowOf(now, win)
  {}

  /** A window is the current one exactly while the clock is between its two ends. */
  lemma WindowUnique(now: int, win: int, w: int)
    requires win > 0
    ensures WindowOf(now, win) == w <==> w * win <= now < (w + 1) * win
  {
    WindowBounds(now, win);
    var v := WindowOf(now, win);
    if v < w {
      MulMono(v + 1, w, win);
    } else if w < v {
      MulMono(w + 1, v, win);
    }
  }

  lemma WindowMonotone(a: int, b: int, win: int)
    requires win > 0 && a <= b
    ensures WindowOf(a, win) <= WindowOf(b, win)
  {
    WindowBounds(a, win);
    WindowBounds(b, win);
    if WindowOf(b, win) < WindowOf(a, win) {
      MulMono(WindowOf(b, win) + 1, WindowOf(a, win), win);
    }
  }

  lemma MulMono(a: int, b: int, k: int)
    requires a <= b && k >= 0
    ensures a * k <= b * k
  {}
}
