/** Python string methods, on ASCII. */
module Text {
  import opened Regex

  function StripLeft(s: string): string {
    if s != [] && IsSpace(s[0]) then StripLeft(s[1..]) else s
  }

  function StripRight(s: string): string {
    if s != [] && IsSpace(s[|s| - 1]) then StripRight(s[..|s| - 1]) else s
  }

  /** `str.strip()` */
  function Strip(s: string): string { StripRight(StripLeft(s)) }

  function LowerChar(c: char): char {
    if IsUpper(c) then c + ('a' - 'A') else c
  }

  /** `str.lower()` */
  function Lower(s: string): (t: string)
    ensures |t| == |s| && forall p | 0 <= p < |s| :: t[p] == LowerChar(s[p])
  {
    seq(|s|, p requires 0 <= p < |s| => LowerChar(s[p]))
  }

  // ---- what strip() leaves

  predicate AllSpace(s: string) { forall p | 0 <= p < |s| :: IsSpace(s[p]) }

  lemma {:induction false} StripLeftAll(a: string, rest: string)
    requires AllSpace(a)
    ensures StripLeft(a + rest) == StripLeft(rest)
    decreases |a|
  {
    if a == [] {
      assert a + rest == rest;
    } else {
      StripLeftAll(a[1..], rest);
      assert (a + rest)[1..] == a[1..] + rest;
    }
  }

  lemma {:induction false} StripRightAll(rest: string, b: string)
    requires AllSpace(b)
    ensures StripRight(rest + b) == StripRight(rest)
    decreases |b|
  {
    if b == [] {
      assert rest + b == rest;
    } else {
      StripRightAll(rest, b[..|b| - 1]);
      assert (rest + b)[..|rest + b| - 1] == rest + b[..|b| - 1];
    }
  }

  predicate Trimmed(core: string) { core != [] ==> !IsSpace(core[0]) && !IsSpace(core[|core| - 1]) }

  /** `strip()` takes off the spaces around the core, and that is all. */
  lemma {:induction false} StripOf(a: string, core: string, b: string)
    requires AllSpace(a) && AllSpace(b) && Trimmed(core)
    ensures Strip(a + core + b) == core
  {
    assert a + core + b == a + (core + b);
    StripLeftAll(a, core + b);
    if core == [] {
      assert core + b == b && b + [] == b;
      StripLeftAll(b, []);
      assert StripLeft(b) == [];
    } else {
      assert StripLeft(core + b) == core + b;
      StripRightAll(core, b);
    }
  }
}
