// The work size of run_gpu and its saturating count.
module WorkSize {
  import opened Words
  import opened Bytes
  import opened Hex

  // The device's limit, 64 when it cannot be read, clamped to [32, 256].
  function LocalSize(limit: Option<nat>): (n: nat)
    ensures 32 <= n <= 256
  {
    var n := match limit case Some(v) => v case None => 64;
    var n := if n > 256 then 256 else n;
    if n < 32 then 32 else n
  }

  // Which size each limit gives.
  lemma LocalSizeExactly(limit: Option<nat>)
    ensures limit.None? ==> LocalSize(limit) == 64
    ensures limit.Some? ==>
              (limit.value <= 32 ==> LocalSize(limit) == 32) &&
              (32 <= limit.value <= 256 ==> LocalSize(limit) == limit.value) &&
              (limit.value >= 256 ==> LocalSize(limit) == 256)
  {
  }

  // The batch rounded up to whole work groups; the sum wraps at 2^64.
  function GlobalSize(batch: u64, local: nat): (n: u64)
    requires 32 <= local <= 256
  {
    var g := if batch < local then local else batch;
    var s := (g + local - 1) % TWO64;
    RoundDown(s, local);
    s / local * local
  }

  lemma RoundDown(s: nat, m: nat)
    requires m > 0
    ensures 0 <= s / m * m <= s
  {
    assert s / m * m == s - s % m;
  }

  lemma RoundUp(g: nat, local: nat)
    requires 32 <= local <= 256
    ensures var n := (g + local - 1) / local * local; n % local == 0 && g <= n < g + local
  {
    var s := g + local - 1;
    var k := s / local;
    assert s == local * k + s % local;
    assert local * k == k * local;
    ModUnique(k * local, local, k, 0);
  }

  // The rounding gives whole groups covering the batch, fewer than one group
  // over, exactly when the sum does not wrap; when it wraps nothing is left.
  lemma GlobalSizeExactly(batch: u64, local: nat)
    requires 32 <= local <= 256
    ensures var n := GlobalSize(batch, local);
            var g := if batch < local then local else batch;
            if batch <= TWO64 - local then n % local == 0 && local <= n && g <= n < g + local else n == 0
  {
    var g := if batch < local then local else batch;
    var s := g + local - 1;
    if batch > TWO64 - local {
      ModUnique(s, TWO64, 1, s - TWO64);
      ModUnique(s - TWO64, local, 0, s - TWO64);
    } else {
      ModUnique(s, TWO64, 0, s);
      RoundUp(g, local);
    }
  }

  // u64::saturating_add from zero
  function Saturate(n: nat): u64 { if n < TWO64 then n else TWO64 - 1 }

  lemma SaturateMore(a: nat, b: nat)
    ensures Saturate(Saturate(a) + b) == Saturate(a + b) && Saturate(a) <= Saturate(a + b)
  {
  }
}
