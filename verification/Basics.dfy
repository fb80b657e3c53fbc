/** What several modules share: engine URLs, optional values, repeated addition. */
module Basics {
  type Url = string

  datatype Option<T> = None | Some(value: T)

  function Urls(endpoints: seq<Url>): set<Url> {
    set u | u in endpoints
  }

  lemma OrderTimes(x: real, y: real, k: real)
    requires k > 0.0
    ensures x <= y <==> x * k <= y * k
  {
    if x <= y {
      assert (y - x) * k >= 0.0;
    } else {
      assert (x - y) * k > 0.0;
    }
  }

  /** `n` times `x`, by adding up. */
  function Times(n: nat, x: real): real {
    if n == 0 then 0.0 else Times(n - 1, x) + x
  }

  lemma {:induction false} TimesIsProduct(n: nat, x: real)
    ensures Times(n, x) == n as real * x
  {
    if n > 0 {
      TimesIsProduct(n - 1, x);
      assert n as real * x == (n - 1) as real * x + x;
    }
  }
}
