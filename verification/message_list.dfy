/**
 * The "Thinking" indicator shown while a reply is awaited: a text that gains
 * a dot on every tick and wraps from three dots back to none.
 */
module LoadingTicker {

  const Initial: string := "Thinking"

  const Longest: string := "Thinking..."

  /** One tick of the interval: three dots wrap to none, any other text gains a dot. */
  function Next(current: string): (r: string)
    ensures current == Longest ==> r == Initial
    ensures current != Longest ==>
      |r| == |current| + 1 && r[..|current|] == current && r[|current|] == '.'
  {
    if current == Longest then Initial else current + "."
  }

  function Dots(k: nat): (r: string)
    ensures |r| == k && forall i :: 0 <= i < k ==> r[i] == '.'
  {
    if k == 0 then "" else Dots(k - 1) + "."
  }

  /** The text after `n` ticks from the initial value. */
  function After(n: nat): string {
    if n == 0 then Initial else Next(After(n - 1))
  }

  /** A tick from "Thinking" with fewer than three dots adds one more. */
  lemma TickAddsDot(k: nat)
    requires k < 3
    ensures Next(Initial + Dots(k)) == Initial + Dots(k + 1)
  {
    assert |Initial + Dots(k)| != |Longest|;
    assert Dots(k + 1) == Dots(k) + ".";
  }

  /** A tick from "Thinking" with `k` dots leads to `k + 1` dots, wrapping after three. */
  lemma TickStep(k: nat)
    requires k < 4
    ensures Next(Initial + Dots(k)) == Initial + Dots((k + 1) % 4)
  {
    if k == 3 {
      assert Dots(3) == "...";
      assert Dots(0) == "";
    } else {
      TickAddsDot(k);
    }
  }

  /** After `n` ticks the text is "Thinking" followed by `n % 4` dots. */
  lemma {:induction false} AfterCycles(n: nat)
    ensures After(n) == Initial + Dots(n % 4)
  {
    if n > 0 {
      var k := (n - 1) % 4;
      CountWraps(n);
      AfterCycles(n - 1);
      TickStep(k);
      assert After(n) == Next(After(n - 1));
    }
  }

  /** One more tick moves the dot count one step round the cycle of four. */
  lemma CountWraps(n: nat)
    requires n > 0
    ensures ((n - 1) % 4 + 1) % 4 == n % 4
  {
  }

  /** Every reachable text is "Thinking" with zero to three dots. */
  lemma Reachable(n: nat)
    ensures exists k :: 0 <= k < 4 && After(n) == Initial + Dots(k)
  {
    AfterCycles(n);
  }

  /** The texts repeat with period exactly four: two tick counts agree iff they agree mod 4. */
  lemma PeriodFour(n: nat, m: nat)
    ensures After(n) == After(m) <==> n % 4 == m % 4
  {
    AfterCycles(n);
    AfterCycles(m);
    if After(n) == After(m) {
      assert |After(n)| == |After(m)|;
    }
  }
}
