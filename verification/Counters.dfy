/**
Byte rates from 64-bit counters (agent/network.go, agent/disk.go). Differences and products wrap; a counter that was
reset shows up as a rate no device has. Times are milliseconds.
 */
module Counters {
  import opened Arith

  const WORD: int := 0x1_0000_0000_0000_0000

  type Word = x: int | 0 <= x < 0x1_0000_0000_0000_0000

  type Key = nat

  const LONGEST: int := 100_000_000               // 10^8 ms, more than a day
  const LARGEST_DROP: int := 0x20_0000_0000_0000  // 2^53 bytes

  /** (now - before) * 1000 / elapsed in 64-bit arithmetic. */
  function Rate(now: Word, before: Word, elapsed: int): (r: int)
    requires elapsed > 0
    ensures r >= 0
  {
    ((now - before) % WORD * 1000) % WORD / elapsed
  }

  lemma ModSmall(x: int)
    requires 0 <= x < WORD
    ensures x % WORD == x
  {
  }

  lemma ModOnce(x: int)
    requires -WORD <= x < 0
    ensures x % WORD == x + WORD
  {
    ModShift(x + WORD, -1, WORD);
  }

  /** The wrapped product in one step. */
  lemma WrappedProduct(x: int)
    ensures (x % WORD * 1000) % WORD == x * 1000 % WORD
  {
    var q := x / WORD;
    assert x * 1000 == x % WORD * 1000 + q * 1000 * WORD;
    ModShift(x % WORD * 1000, q * 1000, WORD);
  }

  lemma RiseProduct(now: Word, before: Word)
    requires before <= now
    ensures ((now - before) % WORD * 1000) % WORD == (now - before) * 1000 % WORD
  {
    ModSmall(now - before);
  }

  /** A drop wraps twice, and what is left is what the drop falls short of 2^64. */
  lemma DropProduct(now: Word, before: Word)
    requires 0 < (before - now) * 1000 < WORD
    ensures ((now - before) % WORD * 1000) % WORD == WORD - (before - now) * 1000
  {
    ModOnce(now - before);
    var p := WORD - (before - now) * 1000;
    assert (now - before + WORD) * 1000 == p + 999 * WORD;
    ModShift(p, 999, WORD);
    ModSmall(p);
  }

  /** Exact: a rise is reported as the floor of the true rate if and only if a thousand times the rise fits a word. */
  lemma RiseExactIff(now: Word, before: Word, elapsed: int)
    requires before <= now && 0 < elapsed < WORD
    ensures Rate(now, before, elapsed) == (now - before) * 1000 / elapsed <==> (now - before) * 1000 < WORD
  {
    var x := (now - before) * 1000;
    RiseProduct(now, before);
    if x < WORD {
      ModSmall(x);
    } else {
      var y := x % WORD;
      assert x - y >= WORD by {
        assert x == x / WORD * WORD + y;
        DivAtLeast(x, WORD, 1);
        MulLe(1, x / WORD, WORD);
      }
      DivMod(y, elapsed);
      assert (y / elapsed + 1) * elapsed == y / elapsed * elapsed + elapsed;
      DivAtLeast(x, elapsed, y / elapsed + 1);
    }
  }

  /** The drop is small enough for the interval, and the interval short enough for the drop. */
  predicate Caught(now: Word, before: Word, elapsed: int, limit: int) {
    0 < (before - now) * 1000 < WORD && (limit + 1) * elapsed <= WORD - (before - now) * 1000
  }

  /** Exact: a drop is seen as a rate above a limit if and only if it is caught. */
  lemma DropCaughtIff(now: Word, before: Word, elapsed: int, limit: int)
    requires 0 < (before - now) * 1000 < WORD && elapsed > 0
    ensures Rate(now, before, elapsed) > limit <==> Caught(now, before, elapsed, limit)
  {
    DropProduct(now, before);
    var p := WORD - (before - now) * 1000;
    if (limit + 1) * elapsed <= p {
      DivAtLeast(p, elapsed, limit + 1);
    } else {
      DivAtMost(p, elapsed, limit);
    }
  }

  predicate Dropped(now: Word, before: Word) {
    1 <= before - now <= LARGEST_DROP
  }

  /** Every drop of up to 2^53 bytes within 10^8 ms looks like at least 94 GB a second. */
  lemma DropIsCaught(now: Word, before: Word, elapsed: int, limit: int)
    requires Dropped(now, before) && 0 <= elapsed <= LONGEST && limit < 94_000_000_000
    ensures Caught(now, before, elapsed, limit)
  {
    assert (before - now) * 1000 <= 9_007_199_254_740_992_000;
    MulLe(elapsed, LONGEST, 94_000_000_000);
    MulLe(limit + 1, 94_000_000_000, elapsed);
  }

  /** A counter can follow another: a rise whose product fits a word, or a drop that is caught. */
  predicate Plausible(now: Word, before: Word, elapsed: int, limit: int) {
    if before <= now then (now - before) * 1000 < WORD && elapsed < WORD else Caught(now, before, elapsed, limit)
  }
}
