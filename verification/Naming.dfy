/** Picking an unused unique name by probing `base`, `base<sep>1`, `base<sep>2`, ...,
    each suffixed name cut to the width of its column.

    The tenant handler uses it for slugs (separator "-", width 100) and SSO
    provisioning for usernames (separator "_", width 50). */
module Naming {

  function Digit(d: nat): char
    requires d < 10
  {
    ('0' as int + d) as char
  }

  /** The decimal spelling of n, as an f-string prints it. */
  function Decimal(n: nat): string {
    if n < 10 then [Digit(n)] else Decimal(n / 10) + [Digit(n % 10)]
  }

  /** The number a string of digits spells. */
  function Value(digits: string): int {
    if digits == [] then 0
    else Value(digits[..|digits| - 1]) * 10 + (digits[|digits| - 1] as int - '0' as int)
  }

  /** Decimal spells its number, in digits, without a leading zero. */
  lemma {:induction false} DecimalSpells(n: nat)
    ensures Value(Decimal(n)) == n
    ensures forall i | 0 <= i < |Decimal(n)| :: '0' <= Decimal(n)[i] <= '9'
    ensures |Decimal(n)| >= 1 && (n > 0 ==> Decimal(n)[0] != '0')
  {
    if n < 10 {
      assert Decimal(n)[..0] == [];
    } else {
      DecimalSpells(n / 10);
      assert Decimal(n)[..|Decimal(n)| - 1] == Decimal(n / 10);
    }
  }

  function Pow10(k: nat): nat {
    if k == 0 then 1 else 10 * Pow10(k - 1)
  }

  lemma {:induction false} DecimalInjective(m: nat, n: nat)
    requires Decimal(m) == Decimal(n)
    ensures m == n
  {
    var d := Decimal(m);
    if m >= 10 && n >= 10 {
      assert d[..|d| - 1] == Decimal(m / 10) && d[..|d| - 1] == Decimal(n / 10);
      assert d[|d| - 1] == Digit(m % 10) && d[|d| - 1] == Digit(n % 10);
      DecimalInjective(m / 10, n / 10);
    } else {
      DecimalNonEmpty(m / 10);
      DecimalNonEmpty(n / 10);
      assert d[0] == Digit(m) && d[0] == Digit(n);
    }
  }

  lemma {:induction false} DecimalNonEmpty(n: nat)
    ensures |Decimal(n)| >= 1
  {
  }

  lemma {:induction false} DecimalLengthMonotone(m: nat, n: nat)
    requires m <= n
    ensures |Decimal(m)| <= |Decimal(n)|
  {
    DecimalNonEmpty(n);
    if m >= 10 {
      DecimalLengthMonotone(m / 10, n / 10);
    }
  }

  lemma {:induction false} DecimalLength(n: nat, k: nat)
    requires k >= 1 && n < Pow10(k)
    ensures |Decimal(n)| <= k
  {
    if n >= 10 {
      DecimalLength(n / 10, k - 1);
    }
  }

  function Cut(s: string, width: nat): string {
    if |s| <= width then s else s[..width]
  }

  /** The k-th name probed: the bare base first, uncut, then the suffixed names. */
  function Candidate(base: string, sep: char, width: nat, k: nat): string {
    if k == 0 then base else Cut(base + [sep] + Decimal(k), width)
  }

  ghost predicate FirstFree(base: string, sep: char, width: nat, used: set<string>, k: nat) {
    && Candidate(base, sep, width, k) !in used
    && forall j: nat | j < k :: Candidate(base, sep, width, j) in used
  }

  /** The probing loop ends at all. */
  ghost predicate LoopEnds(base: string, sep: char, width: nat, used: set<string>) {
    exists k: nat :: Candidate(base, sep, width, k) !in used
  }

  lemma {:induction false} FirstFreeFrom(base: string, sep: char, width: nat, used: set<string>, from: nat, k: nat)
    returns (first: nat)
    requires from <= k && Candidate(base, sep, width, k) !in used
    requires forall j: nat | j < from :: Candidate(base, sep, width, j) in used
    ensures FirstFree(base, sep, width, used, first) && first <= k
    decreases k - from
  {
    if Candidate(base, sep, width, from) !in used {
      first := from;
    } else {
      first := FirstFreeFrom(base, sep, width, used, from + 1, k);
    }
  }

  /** Where the loop stops; the choice is forced, since two first free indices agree. */
  ghost function StopIndex(base: string, sep: char, width: nat, used: set<string>): (k: nat)
    requires LoopEnds(base, sep, width, used)
    ensures FirstFree(base, sep, width, used, k)
  {
    var some: nat :| Candidate(base, sep, width, some) !in used;
    assert exists first: nat :: FirstFree(base, sep, width, used, first) by {
      var first := FirstFreeFrom(base, sep, width, used, 0, some);
    }
    var first: nat :| FirstFree(base, sep, width, used, first);
    first
  }

  ghost function PickedName(base: string, sep: char, width: nat, used: set<string>): (name: string)
    requires LoopEnds(base, sep, width, used)
    ensures name !in used
  {
    Candidate(base, sep, width, StopIndex(base, sep, width, used))
  }

  lemma StopIndexUnique(base: string, sep: char, width: nat, used: set<string>, k: nat)
    requires FirstFree(base, sep, width, used, k)
    ensures LoopEnds(base, sep, width, used) && StopIndex(base, sep, width, used) == k
  {
    var s := StopIndex(base, sep, width, used);
  }

  /** w is the first n characters of s, or all of them. */
  predicate Head(s: string, n: nat, w: string) {
    w <= s && |w| == if |s| <= n then |s| else n
  }

  lemma CutIsHead(s: string, n: nat, w: string)
    ensures Cut(s, n) == w <==> Head(s, n, w)
  {
    if Head(s, n, w) {
      assert s[..|w|] == w;
      assert s[..|s|] == s;
    }
  }

  /** The k-th name tried: the base itself, then as much of base, separator and counter as the
      column is wide. */
  predicate Probe(base: string, sep: char, width: nat, name: string, k: nat) {
    if k == 0 then name == base else Head(base + [sep] + Decimal(k), width, name)
  }

  /** The first of the names tried that is not in use. */
  ghost predicate IsPicked(base: string, sep: char, width: nat, used: set<string>, name: string) {
    exists k: nat :: FirstUnused(base, sep, width, used, name, k)
  }

  ghost predicate FirstUnused(base: string, sep: char, width: nat, used: set<string>, name: string, k: nat) {
    && Probe(base, sep, width, name, k) && name !in used
    && forall j: nat, other | j < k && Probe(base, sep, width, other, j) :: other in used
  }

  lemma ProbeIs(base: string, sep: char, width: nat, name: string, k: nat)
    ensures Probe(base, sep, width, name, k) <==> name == Candidate(base, sep, width, k)
  {
    CutIsHead(base + [sep] + Decimal(k), width, name);
  }

  /** The loop ends with a name exactly if that is the first unused one. */
  lemma PickedIff(base: string, sep: char, width: nat, used: set<string>, name: string)
    ensures LoopEnds(base, sep, width, used) && PickedName(base, sep, width, used) == name <==>
            IsPicked(base, sep, width, used, name)
  {
    forall k: nat, other
      ensures Probe(base, sep, width, other, k) <==> other == Candidate(base, sep, width, k)
    {
      ProbeIs(base, sep, width, other, k);
    }
    if LoopEnds(base, sep, width, used) && PickedName(base, sep, width, used) == name {
      assert FirstUnused(base, sep, width, used, name, StopIndex(base, sep, width, used));
    }
    if k: nat :| FirstUnused(base, sep, width, used, name, k) {
      forall j: nat | j < k
        ensures Candidate(base, sep, width, j) in used
      {
        assert Probe(base, sep, width, Candidate(base, sep, width, j), j);
      }
      StopIndexUnique(base, sep, width, used, k);
    }
  }

  /** As long as the cut leaves the suffix whole, no two probes ask for the same name. */
  lemma CandidatesDistinct(base: string, sep: char, width: nat, i: nat, j: nat)
    requires i < j && |base| + 1 + |Decimal(j)| <= width
    ensures Candidate(base, sep, width, i) != Candidate(base, sep, width, j)
  {
    DecimalLengthMonotone(i, j);
    DecimalNonEmpty(j);
    var cj := Candidate(base, sep, width, j);
    assert cj == base + [sep] + Decimal(j);
    if i > 0 && Candidate(base, sep, width, i) == cj {
      var ci := base + [sep] + Decimal(i);
      assert ci[|base| + 1..] == Decimal(i) && cj[|base| + 1..] == Decimal(j);
      DecimalInjective(i, j);
    }
  }

  /** Pigeonhole: n distinct probes that all hit used names need n used names. */
  lemma {:induction false} UsedProbesBounded(base: string, sep: char, width: nat, used: set<string>, n: nat)
    requires forall j: nat | j < n :: Candidate(base, sep, width, j) in used
    requires forall i: nat, j: nat | i < j < n ::
               Candidate(base, sep, width, i) != Candidate(base, sep, width, j)
    ensures n <= |used|
  {
    if n > 0 {
      var last := Candidate(base, sep, width, n - 1);
      UsedProbesBounded(base, sep, width, used - {last}, n - 1);
    }
  }

  /** With room for the decimal digits of the number of used names, the loop ends within
      one probe more than there are used names, on a name that fits the column. */
  lemma {:induction false} LoopEndsWithinUsed(base: string, sep: char, width: nat, used: set<string>)
    requires |base| + 1 + |Decimal(|used|)| <= width
    ensures LoopEnds(base, sep, width, used)
    ensures StopIndex(base, sep, width, used) <= |used|
    ensures |PickedName(base, sep, width, used)| <= width
  {
    var n := |used| + 1;
    forall i: nat, j: nat | i < j < n
      ensures Candidate(base, sep, width, i) != Candidate(base, sep, width, j)
    {
      DecimalLengthMonotone(j, |used|);
      CandidatesDistinct(base, sep, width, i, j);
    }
    if forall j: nat | j < n :: Candidate(base, sep, width, j) in used {
      UsedProbesBounded(base, sep, width, used, n);
    }
    var free: nat :| free < n && Candidate(base, sep, width, free) !in used;
    var first := FirstFreeFrom(base, sep, width, used, 0, free);
    StopIndexUnique(base, sep, width, used, first);
  }

  /** A base that leaves no room for a suffix digit makes every suffixed probe the same
      name, so the loop ends exactly if one of two names is free. */
  lemma LoopWithoutRoom(base: string, sep: char, width: nat, used: set<string>)
    requires |base| + 1 >= width
    ensures LoopEnds(base, sep, width, used) <==>
            base !in used || Cut(base + [sep], width) !in used
  {
    forall k: nat | k > 0
      ensures Candidate(base, sep, width, k) == Cut(base + [sep], width)
    {
      DecimalNonEmpty(k);
      assert (base + [sep] + Decimal(k))[..width] == (base + [sep])[..width];
    }
    assert Candidate(base, sep, width, 0) == base;
    assert Candidate(base, sep, width, 1) == Cut(base + [sep], width);
  }

  lemma {:induction false} Pow10Monotone(i: nat, j: nat)
    requires i <= j
    ensures Pow10(i) <= Pow10(j)
  {
    if i < j {
      Pow10Monotone(i, j - 1);
    }
  }

  /** The first digits of a longer counter are themselves a counter. */
  lemma {:induction false} LeadingDigits(n: nat, room: nat) returns (k: nat)
    requires 1 <= room && n > 0
    ensures 0 < k < Pow10(room) && Decimal(k) == Cut(Decimal(n), room)
  {
    if n < Pow10(room) {
      DecimalLength(n, room);
      k := n;
    } else {
      Pow10Monotone(1, room);
      assert Pow10(1) == 10;
      DecimalLonger(n, room);
      k := LeadingDigits(n / 10, room);
      assert Decimal(n)[..room] == Decimal(n / 10)[..room];
    }
  }

  lemma {:induction false} DecimalLonger(n: nat, room: nat)
    requires n >= Pow10(room) && room >= 1
    ensures |Decimal(n)| > room && |Decimal(n / 10)| >= room
  {
    if room == 1 {
      assert Pow10(1) == 10;
      DecimalNonEmpty(n / 10);
    } else {
      Pow10Monotone(1, room);
      assert Pow10(1) == 10 && Pow10(room) == 10 * Pow10(room - 1);
      DecimalLonger(n / 10, room - 1);
    }
  }

  /** With room for d digits of the counter there are 10^d names to try, and the loop ends
      exactly if one of them is unused. */
  lemma LoopWithRoom(base: string, sep: char, width: nat, used: set<string>)
    requires |base| + 1 < width
    ensures LoopEnds(base, sep, width, used) <==>
            exists k: nat :: k < Pow10(width - |base| - 1) && Candidate(base, sep, width, k) !in used
  {
    var room := width - |base| - 1;
    if n: nat :| Candidate(base, sep, width, n) !in used {
      if n > 0 {
        var k := LeadingDigits(n, room);
        assert Cut(base + [sep] + Decimal(n), width) == base + [sep] + Cut(Decimal(n), room);
        assert Candidate(base, sep, width, k) == base + [sep] + Decimal(k) == Candidate(base, sep, width, n);
      } else {
        Pow10Monotone(0, room);
      }
    }
  }
}
