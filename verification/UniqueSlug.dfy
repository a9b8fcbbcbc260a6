/** The search for a free slug (onboarding.service.ts, `ensureUniqueSlug`), over the slugs taken by tenants. */
module UniqueSlug {
  import opened Common

  // ----- Decimal numerals ------------------------------------------------------------------------

  function Digit(d: nat): (c: char)
    requires d < 10
  {
    ('0' as int + d) as char
  }

  function Decimal(n: nat): (s: string)
    ensures s != ""
  {
    if n < 10 then [Digit(n)] else Decimal(n / 10) + [Digit(n % 10)]
  }

  function ValueOf(s: string): (n: int) {
    if s == "" then 0 else 10 * ValueOf(s[..|s| - 1]) + (s[|s| - 1] as int - '0' as int)
  }

  /** A numeral reads back, so two numbers never share one. */
  lemma {:induction false} DecimalReadsBack(n: nat)
    ensures ValueOf(Decimal(n)) == n
  {
    if n >= 10 {
      DecimalReadsBack(n / 10);
      assert Decimal(n)[..|Decimal(n)| - 1] == Decimal(n / 10);
    } else {
      assert Decimal(n)[..0] == "";
    }
  }

  // ----- Probes -----------------------------------------------------------------------------------

  /** The slugs tried, in order: the base, then base-1, base-2, and so on. */
  function Probe(base: string, k: nat): (slug: string) {
    if k == 0 then base else base + "-" + Decimal(k)
  }

  predicate IsDigit(c: char) {
    '0' <= c <= '9'
  }

  /** How a probe is spelled: the base; or the base, a dash, and the number without a leading zero. */
  predicate Spelled(base: string, k: nat, slug: string) {
    if k == 0 then slug == base
    else
      && |slug| >= |base| + 2 && slug[..|base|] == base && slug[|base|] == '-'
      && slug[|base| + 1] != '0'
      && (forall i :: |base| < i < |slug| ==> IsDigit(slug[i])) && ValueOf(slug[|base| + 1..]) == k
  }

  lemma {:induction false} DecimalDigits(n: nat)
    ensures forall i :: 0 <= i < |Decimal(n)| ==> IsDigit(Decimal(n)[i])
    ensures n > 0 ==> Decimal(n)[0] != '0'
  {
    if n >= 10 {
      DecimalDigits(n / 10);
    }
  }

  lemma {:induction false} ProbeSpelled(base: string, k: nat)
    ensures Spelled(base, k, Probe(base, k))
  {
    if k > 0 {
      var slug := Probe(base, k);
      DecimalReadsBack(k);
      DecimalDigits(k);
      assert slug[|base| + 1..] == Decimal(k);
      assert forall i :: |base| < i < |slug| ==> slug[i] == Decimal(k)[i - |base| - 1];
    }
  }

  lemma {:induction false} ProbesDiffer(base: string, j: nat, k: nat)
    requires j < k
    ensures Probe(base, j) != Probe(base, k)
  {
    DecimalReadsBack(j);
    DecimalReadsBack(k);
    var prefix := base + "-";
    assert Probe(base, k)[|prefix|..] == Decimal(k);
    if j > 0 {
      assert Probe(base, j)[|prefix|..] == Decimal(j);
    } else {
      assert |Probe(base, k)| > |base|;
    }
  }

  /** The first `n` probes. */
  function Probes(base: string, n: nat): (s: seq<string>) {
    seq(n, k requires 0 <= k < n => Probe(base, k))
  }

  /** Pigeonhole: when the first `n` probes are all taken, at least `n` slugs are. */
  lemma {:induction false} TakenProbes(base: string, n: nat, taken: set<string>)
    requires forall k :: 0 <= k < n ==> Probe(base, k) in taken
    ensures n <= |taken|
  {
    var probes := Probes(base, n);
    forall i, j | 0 <= i < j < n ensures probes[i] != probes[j] {
      ProbesDiffer(base, i, j);
    }
    DistinctFits(probes, taken);
  }

  /** The number of the first free probe. */
  ghost predicate FirstFree(base: string, taken: set<string>, k: nat) {
    Probe(base, k) !in taken && forall j :: 0 <= j < k ==> Probe(base, j) in taken
  }

  /** There is exactly one first free probe, among the first |taken| + 1. */
  lemma {:induction false} FirstFreeIsOne(base: string, taken: set<string>)
    ensures exists k: nat :: FirstFree(base, taken, k) && k <= |taken|
    ensures forall j: nat, k: nat :: FirstFree(base, taken, j) && FirstFree(base, taken, k) ==> j == k
  {
    var k := 0;
    while Probe(base, k) in taken
      invariant forall j :: 0 <= j < k ==> Probe(base, j) in taken
      decreases |taken| - k
    {
      assert forall j :: 0 <= j < k + 1 ==> Probe(base, j) in taken;
      TakenProbes(base, k + 1, taken);
      k := k + 1;
    }
    TakenProbes(base, k, taken);
    assert FirstFree(base, taken, k);
  }

  class Tenants {
    var slugs: set<string>

    method SlugExists(slug: string) returns (b: bool)
      ensures b <==> slug in slugs
    {
      b := slug in slugs;
    }

    /** `ensureUniqueSlug`: ends within |slugs| + 1 probes with a free slug: the base, or the first free base-k. */
    method EnsureUniqueSlug(base: string) returns (slug: string)
      ensures slug !in slugs
      ensures exists k: nat :: k <= |slugs| && FirstFree(base, slugs, k) && slug == Probe(base, k)
    {
      slug := base;
      var counter := 1;
      var taken := SlugExists(slug);
      while taken
        invariant 1 <= counter <= |slugs| + 1 && slug == Probe(base, counter - 1) && taken == (slug in slugs)
        invariant forall j :: 0 <= j < counter - 1 ==> Probe(base, j) in slugs
        decreases |slugs| + 1 - counter
      {
        TakenProbes(base, counter, slugs);
        slug := base + "-" + Decimal(counter);
        counter := counter + 1;
        taken := SlugExists(slug);
      }
      assert FirstFree(base, slugs, counter - 1);
    }
  }
}
