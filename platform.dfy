/**
 * What the browser supplies to the simulation and the model takes as given:
 * Math.sqrt, Math.cos, Math.sin, CanvasRenderingContext2D.measureText and Math.random.
 */
module Platform {

  /** A value returned by Math.random: a real in [0, 1). */
  type Unit = u: real | 0.0 <= u < 1.0

  /** Math.PI as a decimal constant. */
  const Pi: real := 3.141592653589793

  /**
   * The host's numeric functions and the text metrics of the canvas:
   * `measure(text, px)` is the width of `text` in a `px`-pixel sans-serif font.
   */
  datatype Host = Host(
    sqrt: real -> real,
    cos: real -> real,
    sin: real -> real,
    measure: (string, real) -> real)

  /** `sqrt` returns the non-negative square root of every non-negative argument. */
  ghost predicate SqrtSound(host: Host) {
    forall t :: 0.0 <= t ==> 0.0 <= host.sqrt(t) && host.sqrt(t) * host.sqrt(t) == t
  }

  /** `cos` and `sin` stay within [-1, 1]. */
  ghost predicate TrigBounded(host: Host) {
    (forall t :: -1.0 <= host.cos(t) <= 1.0) && (forall t :: -1.0 <= host.sin(t) <= 1.0)
  }

  /**
   * Math.random as a supplied stream of draws: the n-th call returns `stream(n)`.
   * A fixed stream makes every run from the same state reproducible.
   */
  class Random {
    const stream: nat -> Unit
    var drawn: nat

    constructor (stream: nat -> Unit)
      ensures this.stream == stream && drawn == 0
    {
      this.stream := stream;
      drawn := 0;
    }

    /** One call of Math.random. */
    method Next() returns (u: Unit)
      modifies this
      ensures u == stream(old(drawn)) && drawn == old(drawn) + 1
    {
      u := stream(drawn);
      drawn := drawn + 1;
    }
  }
}
