/** Time-based one-time passwords and recovery codes: checking a code, remembering the step it
    matched, and what a run of attempts can obtain. */
module SecondFactor {
  import opened Regex
  import opened Text
  import opened Wrappers

  const DIGITS := 6
  const VALID_WINDOW := 1
  const MAX_FAILED_ATTEMPTS := 5

  // ---------------------------------------------------------------- one code

  function RemoveSpaces(s: string): string {
    if s == [] then [] else (if s[0] == ' ' then [] else [s[0]]) + RemoveSpaces(s[1..])
  }

  function Normalised(code: string): string { RemoveSpaces(Strip(code)) }

  predicate LooksLikeCode(code: string) {
    |code| == DIGITS && forall p | 0 <= p < |code| :: IsDigit(code[p])
  }

  /** `step` is the earliest in the window whose code is the one presented. */
  predicate Matches(at: int -> string, code: string, now: int, step: int) {
    && now - VALID_WINDOW <= step <= now + VALID_WINDOW
    && at(step) == code
    && forall s | now - VALID_WINDOW <= s < step :: at(s) != code
  }

  predicate Fresh(last: Option<int>, step: int) { last.None? || last.value < step }

  /** `verify_code`: the step accepted, if any. Any two steps may share a code. */
  method VerifyCode(at: int -> string, raw: string, last: Option<int>, now: int) returns (step: Option<int>)
    ensures step == Accepts(at, raw, last, now)
  {
    var code := Normalised(raw);
    if !LooksLikeCode(code) { return None; }
    for offset := -VALID_WINDOW to VALID_WINDOW + 1
      invariant forall s | now - VALID_WINDOW <= s < now + offset :: at(s) != code
    {
      step := Some(now + offset);
      if at(now + offset) == code {
        assert Matches(at, code, now, now + offset);
        MatchIsUnique(at, code, now, now + offset);
        if last.Some? && now + offset <= last.value { return None; }
        return;
      }
    }
    step := None;
  }

  function FirstMatch(at: int -> string, code: string, now: int): Option<int> {
    if at(now - 1) == code then Some(now - 1)
    else if at(now) == code then Some(now)
    else if at(now + 1) == code then Some(now + 1) else None
  }

  lemma MatchIsUnique(at: int -> string, code: string, now: int, step: int)
    ensures Matches(at, code, now, step) <==> FirstMatch(at, code, now) == Some(step)
  {
  }

  function Accepts(at: int -> string, raw: string, last: Option<int>, now: int): Option<int> {
    var code := Normalised(raw);
    if !LooksLikeCode(code) then None
    else
      var step := FirstMatch(at, code, now);
      if step.Some? && Fresh(last, step.value) then step else None
  }

  /** A code is accepted exactly for the earliest step of the window it belongs to, and only
      when that step comes after the last one used. */
  lemma AcceptsExactlyWhen(at: int -> string, raw: string, last: Option<int>, now: int, step: int)
    ensures Accepts(at, raw, last, now) == Some(step) <==>
      LooksLikeCode(Normalised(raw)) && Matches(at, Normalised(raw), now, step) && Fresh(last, step)
  {
    MatchIsUnique(at, Normalised(raw), now, step);
  }

  // ---------------------------------------------------------------- the account

  datatype RecoveryCode = RecoveryCode(hash: string, used: bool)

  /** `at` is the enrolled secret's code function, if the secret can be read. */
  datatype Factor = Factor(
    enabled: bool, at: Option<int -> string>, last: Option<int>, failed: nat, recovery: seq<RecoveryCode>)

  datatype Attempt =
    | Verify(code: string, now: int)
    | Regenerate(code: string, now: int, hashes: seq<string>)
    | Disable(password: bool, code: string, now: int)   // `password`: whether it was right

  datatype Result = ByTotp(step: int) | ByRecovery(index: nat) | Wrong | Locked | NotOn | BadPassword

  /** The audit entries the service writes. */
  datatype Note = CodeFailed(inARow: nat) | RecoveryCodeUsed(left: nat) | CodesReissued | TurnedOff

  type Checker = (string, string) -> bool

  /** The first unused recovery code the given one opens. */
  function FirstUnused(check: Checker, recovery: seq<RecoveryCode>, code: string, from: nat): (r: Option<nat>)
    requires from <= |recovery|
    ensures r.Some? ==> from <= r.value < |recovery| && !recovery[r.value].used && check(code, recovery[r.value].hash)
    ensures r.None? ==> forall k | from <= k < |recovery| :: recovery[k].used || !check(code, recovery[k].hash)
    decreases |recovery| - from
  {
    if from == |recovery| then None
    else if !recovery[from].used && check(code, recovery[from].hash) then Some(from)
    else FirstUnused(check, recovery, code, from + 1)
  }

  /** `_accept_code_or_recovery` */
  function Accept(check: Checker, f: Factor, code: string, now: int): (Factor, Result) {
    var step := if f.at.Some? then Accepts(f.at.value, code, f.last, now) else None;
    if step.Some? then (f.(last := step), ByTotp(step.value))
    else
      match FirstUnused(check, f.recovery, code, 0)
      case None => (f, Wrong)
      case Some(k) => (f.(recovery := f.recovery[k := f.recovery[k].(used := true)]), ByRecovery(k))
  }

  function Unused(recovery: seq<RecoveryCode>): nat {
    if recovery == [] then 0
    else Unused(recovery[..|recovery| - 1]) + if recovery[|recovery| - 1].used then 0 else 1
  }

  predicate Passed(r: Result) { r.ByTotp? || r.ByRecovery? }

  function FreshCodes(hashes: seq<string>): (codes: seq<RecoveryCode>)
    ensures |codes| == |hashes| && forall k | 0 <= k < |codes| :: codes[k].hash == hashes[k] && !codes[k].used
  {
    seq(|hashes|, k requires 0 <= k < |hashes| => RecoveryCode(hashes[k], false))
  }

  function Handle(check: Checker, f: Factor, a: Attempt): (Factor, Result) {
    match a
    case Verify(code, now) =>
      if !f.enabled then (f, NotOn)
      else if f.failed >= MAX_FAILED_ATTEMPTS then (f, Locked)
      else
        var (g, r) := Accept(check, f, code, now);
        if Passed(r) then (g.(failed := 0), r) else (g.(failed := f.failed + 1), r)
    case Regenerate(code, now, hashes) =>
      if !f.enabled then (f, NotOn)
      else
        var (g, r) := Accept(check, f, code, now);
        if Passed(r) then (g.(recovery := FreshCodes(hashes)), r) else (g, r)
    case Disable(password, code, now) =>
      if !f.enabled then (f, NotOn)
      else if !password then (f, BadPassword)
      else
        var (g, r) := Accept(check, f, code, now);
        if Passed(r) then (OFF, r) else (g, r)
  }

  /** Spending a recovery code is recorded, with how many are left. */
  function AcceptNote(after: Factor, r: Result): seq<Note> {
    if r.ByRecovery? then [RecoveryCodeUsed(Unused(after.recovery))] else []
  }

  /** Whether an attempt gets as far as having its code looked at. */
  predicate CodeLookedAt(f: Factor, a: Attempt) {
    && f.enabled
    && match a
       case Verify(_, _) => f.failed < MAX_FAILED_ATTEMPTS
       case Regenerate(_, _, _) => true
       case Disable(password, _, _) => password
  }

  /** The entry about the outcome. */
  function OutcomeNote(f: Factor, a: Attempt, r: Result): seq<Note> {
    match a
    case Verify(_, _) => if r == Wrong then [CodeFailed(f.failed + 1)] else []
    case Regenerate(_, _, _) => if Passed(r) then [CodesReissued] else []
    case Disable(_, _, _) => if Passed(r) then [TurnedOff] else []
  }

  /** What an attempt adds to the audit trail. */
  function Written(check: Checker, f: Factor, a: Attempt): seq<Note> {
    if !CodeLookedAt(f, a) then []
    else
      var (g, r) := Accept(check, f, a.code, a.now);
      AcceptNote(g, r) + OutcomeNote(f, a, r)
  }

  /** What turning the factor off leaves. */
  const OFF := Factor(false, None, None, 0, [])

  class MfaAccount {
    const check: Checker
    var enabled: bool
    var at: Option<int -> string>
    var last: Option<int>
    var failed: nat
    var recovery: seq<RecoveryCode>
    var trail: seq<Note>

    /** The state `confirm_enrolment` leaves: on, the confirming step remembered. */
    constructor (check: Checker, at: int -> string, step: int, hashes: seq<string>)
      ensures this.check == check && Now() == Factor(true, Some(at), Some(step), 0, FreshCodes(hashes))
      ensures |recovery| == |hashes| && forall k | 0 <= k < |hashes| :: recovery[k].hash == hashes[k] && !recovery[k].used
      ensures trail == []
    {
      this.check := check;
      enabled, this.at, last, failed := true, Some(at), Some(step), 0;
      recovery, trail := FreshCodes(hashes), [];
    }

    ghost function Now(): Factor
      reads this
    {
      Factor(enabled, at, last, failed, recovery)
    }

    method SpendRecoveryCode(code: string) returns (index: Option<nat>)
      modifies this`recovery, this`trail
      ensures index == FirstUnused(check, old(recovery), code, 0)
      ensures recovery ==
        if index.Some? then old(recovery)[index.value := old(recovery)[index.value].(used := true)] else old(recovery)
      ensures trail == old(trail) + if index.Some? then [RecoveryCodeUsed(Unused(recovery))] else []
    {
      for k := 0 to |recovery|
        invariant recovery == old(recovery) && trail == old(trail)
        invariant FirstUnused(check, recovery, code, 0) == FirstUnused(check, recovery, code, k)
      {
        if !recovery[k].used && check(code, recovery[k].hash) {
          recovery := recovery[k := recovery[k].(used := true)];
          trail := trail + [RecoveryCodeUsed(Unused(recovery))];
          return Some(k);
        }
      }
      index := None;
    }

    method AcceptCodeOrRecovery(code: string, now: int) returns (r: Result)
      modifies this`last, this`recovery, this`trail
      ensures (Now(), r) == Accept(check, old(Now()), code, now)
      ensures trail == old(trail) + AcceptNote(Now(), r)
    {
      if at.Some? {
        var step := VerifyCode(at.value, code, last, now);
        if step.Some? {
          last := step;
          return ByTotp(step.value);
        }
      }
      var index := SpendRecoveryCode(code);
      r := if index.Some? then ByRecovery(index.value) else Wrong;
    }

    method Verify(code: string, now: int) returns (r: Result)
      modifies this
      ensures (Now(), r) == Handle(check, old(Now()), Attempt.Verify(code, now))
      ensures trail == old(trail) + Written(check, old(Now()), Attempt.Verify(code, now))
      ensures r == Locked <==> old(enabled) && old(failed) >= MAX_FAILED_ATTEMPTS
      ensures r == Wrong ==> old(enabled) && Now() == old(Now()).(failed := old(failed) + 1)
      ensures Passed(r) ==> failed == 0
      ensures enabled == old(enabled) && at == old(at)
    {
      if !enabled { return NotOn; }
      if failed >= MAX_FAILED_ATTEMPTS { return Locked; }
      r := AcceptCodeOrRecovery(code, now);
      if Passed(r) {
        failed := 0;
      } else {
        failed := failed + 1;
        trail := trail + [CodeFailed(failed)];
      }
    }

    method RegenerateRecoveryCodes(code: string, now: int, hashes: seq<string>) returns (r: Result)
      modifies this
      ensures (Now(), r) == Handle(check, old(Now()), Regenerate(code, now, hashes))
      ensures trail == old(trail) + Written(check, old(Now()), Regenerate(code, now, hashes))
    {
      if !enabled { return NotOn; }
      r := AcceptCodeOrRecovery(code, now);
      if Passed(r) { recovery, trail := FreshCodes(hashes), trail + [CodesReissued]; }
    }

    method TurnOff(password: bool, code: string, now: int) returns (r: Result)
      modifies this
      ensures (Now(), r) == Handle(check, old(Now()), Disable(password, code, now))
      ensures trail == old(trail) + Written(check, old(Now()), Disable(password, code, now))
      ensures Passed(r) ==> Now() == Factor(false, None, None, 0, [])
    {
      if !enabled { return NotOn; }
      if !password { return BadPassword; }
      r := AcceptCodeOrRecovery(code, now);
      if Passed(r) {
        enabled, at, last, failed, recovery := false, None, None, 0, [];
        trail := trail + [TurnedOff];
      }
    }
  }

  // ---------------------------------------------------------------- runs of attempts

  function Run(check: Checker, f: Factor, attempts: seq<Attempt>): (Factor, seq<Result>) {
    if attempts == [] then (f, [])
    else
      var (g, rs) := Run(check, f, attempts[..|attempts| - 1]);
      var (h, r) := Handle(check, g, attempts[|attempts| - 1]);
      (h, rs + [r])
  }

  /** The audit trail of a run. */
  function Trail(check: Checker, f: Factor, attempts: seq<Attempt>): seq<Note> {
    if attempts == [] then []
    else
      var init := attempts[..|attempts| - 1];
      Trail(check, f, init) + Written(check, Run(check, f, init).0, attempts[|attempts| - 1])
  }

  /** The steps accepted, in the order they were. */
  function Steps(rs: seq<Result>): seq<int> {
    if rs == [] then []
    else Steps(rs[..|rs| - 1]) + if rs[|rs| - 1].ByTotp? then [rs[|rs| - 1].step] else []
  }

  predicate Increasing(steps: seq<int>) { forall j, k | 0 <= j < k < |steps| :: steps[j] < steps[k] }

  predicate AllFresh(last: Option<int>, steps: seq<int>) { forall j | 0 <= j < |steps| :: Fresh(last, steps[j]) }

  /** `now` is at or after every accepted step and `last`. */
  predicate Covers(now: Option<int>, last: Option<int>, steps: seq<int>) {
    && (forall j | 0 <= j < |steps| :: now.Some? && steps[j] <= now.value)
    && (last.Some? ==> now.Some? && last.value <= now.value)
  }

  lemma HandleMovesOn(check: Checker, f: Factor, a: Attempt)
    ensures var (g, r) := Handle(check, f, a);
      && (r.ByTotp? ==> f.enabled && f.at.Some? && Fresh(f.last, r.step) && a.now - 1 <= r.step <= a.now + 1)
      && (g.enabled ==> f.enabled && g.at == f.at && g.last == if r.ByTotp? then Some(r.step) else f.last)
      && (!f.enabled ==> g == f && r == NotOn)
  {
  }

  /** Accepted steps strictly increase, whatever the codes and the clock, for as long as the
      factor stays on, and none is accepted once it is off. */
  lemma {:induction false} StepsIncrease(check: Checker, f: Factor, attempts: seq<Attempt>)
    ensures var (g, rs) := Run(check, f, attempts);
      && Increasing(Steps(rs)) && AllFresh(f.last, Steps(rs))
      && (g.enabled ==> f.enabled && Covers(g.last, f.last, Steps(rs)) && g.at == f.at)
  {
    if attempts != [] {
      var init, a := attempts[..|attempts| - 1], attempts[|attempts| - 1];
      StepsIncrease(check, f, init);
      var (m, rs) := Run(check, f, init);
      var (g, r) := Handle(check, m, a);
      HandleMovesOn(check, m, a);
      StepsOfOneMore(rs, r);
      if r.ByTotp? { LaterStepFollows(f.last, m.last, Steps(rs), r.step); }
    }
  }

  lemma LaterStepFollows(first: Option<int>, last: Option<int>, steps: seq<int>, step: int)
    requires Increasing(steps) && AllFresh(first, steps) && Covers(last, first, steps) && Fresh(last, step)
    ensures Increasing(steps + [step]) && AllFresh(first, steps + [step])
    ensures Covers(Some(step), first, steps + [step])
  {
  }

  lemma StepsOfOneMore(rs: seq<Result>, r: Result)
    ensures Steps(rs + [r]) == if r.ByTotp? then Steps(rs) + [r.step] else Steps(rs)
  {
    assert (rs + [r])[..|rs|] == rs;
  }

  /** No recovery code reads like an authenticator's: recovery codes are issued with a dash. */
  ghost predicate Apart(check: Checker) {
    forall code, hash :: LooksLikeCode(Normalised(code)) ==> !check(code, hash)
  }

  /** A code accepted for a step is not accepted again while that step is in the window, even
      when the window holds a later step with the same code; nor does it pass as anything else. */
  lemma ReplayIsRefused(check: Checker, f: Factor, a: Attempt, attempts: seq<Attempt>, again: Attempt)
    requires Handle(check, f, a).1.ByTotp?
    requires Normalised(again.code) == Normalised(a.code)
    requires again.now - VALID_WINDOW <= Handle(check, f, a).1.step <= again.now + VALID_WINDOW
    ensures var r := Handle(check, Run(check, Handle(check, f, a).0, attempts).0, again).1;
      !r.ByTotp? && (Apart(check) ==> !Passed(r))
  {
    var (g, r) := Handle(check, f, a);
    HandleMovesOn(check, f, a);
    StepsIncrease(check, g, attempts);
    var m := Run(check, g, attempts).0;
    HandleMovesOn(check, m, again);
    ByTotpIsAccepted(check, f, a);
    ByTotpIsAccepted(check, m, again);
    if m.enabled { SpentStepIsRefused(f.at.value, a.code, f.last, a.now, r.step, again.code, again.now, m.last); }
    if Apart(check) { DigitsOpenNothing(check, m, again); }
  }

  lemma DigitsOpenNothing(check: Checker, f: Factor, a: Attempt)
    requires Apart(check) && LooksLikeCode(Normalised(a.code))
    ensures !Handle(check, f, a).1.ByRecovery?
  {
  }

  lemma ByTotpIsAccepted(check: Checker, f: Factor, a: Attempt)
    ensures var r := Handle(check, f, a).1;
      r.ByTotp? ==> f.at.Some? && Accepts(f.at.value, a.code, f.last, a.now) == Some(r.step)
  {
  }

  lemma SpentStepIsRefused(
      at: int -> string, raw: string, before: Option<int>, at0: int, step: int, again: string, now: int, last: Option<int>)
    requires Accepts(at, raw, before, at0) == Some(step) && Normalised(again) == Normalised(raw)
    requires now - VALID_WINDOW <= step <= now + VALID_WINDOW && last.Some? && step <= last.value
    ensures Accepts(at, again, last, now).None?
  {
    AcceptsExactlyWhen(at, raw, before, at0, step);
  }

  predicate InSteps(attempts: seq<Attempt>, a: int, b: int) {
    forall j | 0 <= j < |attempts| :: a <= attempts[j].now <= b
  }

  predicate Within(steps: seq<int>, lo: int, hi: int) { forall j | 0 <= j < |steps| :: lo <= steps[j] <= hi }

  lemma {:induction false} IncreasingFits(steps: seq<int>, lo: int, hi: int)
    requires Increasing(steps) && lo <= hi + 1
    requires Within(steps, lo, hi)
    ensures |steps| <= hi - lo + 1
  {
    if steps != [] {
      IncreasingFits(steps[..|steps| - 1], lo, steps[|steps| - 1] - 1);
    }
  }

  lemma {:induction false} StepsStayNear(check: Checker, f: Factor, attempts: seq<Attempt>, a: int, b: int)
    requires InSteps(attempts, a, b)
    ensures Within(Steps(Run(check, f, attempts).1), a - 1, b + 1)
  {
    if attempts != [] {
      var init := attempts[..|attempts| - 1];
      StepsStayNear(check, f, init, a, b);
      var (m, rs) := Run(check, f, init);
      var (g, r) := Handle(check, m, attempts[|attempts| - 1]);
      HandleMovesOn(check, m, attempts[|attempts| - 1]);
      StepsOfOneMore(rs, r);
    }
  }

  /** Attempts made during steps `a` to `b`, however many and with whatever codes, are
      accepted by the authenticator at most `b - a + 3` times. */
  lemma AcceptancesAreBounded(check: Checker, f: Factor, attempts: seq<Attempt>, a: int, b: int)
    requires a <= b && InSteps(attempts, a, b)
    ensures |Steps(Run(check, f, attempts).1)| <= b - a + 3
  {
    StepsIncrease(check, f, attempts);
    StepsStayNear(check, f, attempts, a, b);
    IncreasingFits(Steps(Run(check, f, attempts).1), a - 1, b + 1);
  }

  /** As many attempts as can be accepted from step `a` on: the codes of the steps from `a - 1`
      upwards, each tried as soon as its step is in the window. */
  function Tries(at: int -> string, a: int, n: nat): (tries: seq<Attempt>)
    ensures |tries| == n
  {
    if n == 0 then [] else Tries(at, a, n - 1) + [NthTry(at, a, n)]
  }

  function NthTry(at: int -> string, a: int, n: nat): Attempt {
    Verify(at(a + n - 2), if n <= 3 then a else a + n - 3)
  }

  /** The codes of those steps are codes, and steps two apart or less have different ones. */
  ghost predicate DistinctNear(at: int -> string, lo: int, hi: int) {
    && (forall s | lo <= s <= hi :: LooksLikeCode(at(s)))
    && forall s, t | lo <= s < t <= hi && t <= s + 2 :: at(s) != at(t)
  }

  ghost predicate Ready(f: Factor, at: int -> string, a: int) {
    f.enabled && f.at == Some(at) && Fresh(f.last, a - 1) && f.failed == 0
  }

  lemma AcceptedAt(check: Checker, f: Factor, at: int -> string, a: Attempt, step: int)
    requires f.enabled && f.at == Some(at) && f.failed == 0 && Fresh(f.last, step)
    requires a.Verify? && LooksLikeCode(a.code) && Matches(at, a.code, a.now, step)
    ensures Handle(check, f, a) == (f.(last := Some(step)), ByTotp(step))
  {
    Spaceless(a.code);
    AcceptsExactlyWhen(at, a.code, f.last, a.now, step);
  }

  lemma OneMoreAttempt(check: Checker, f: Factor, tries: seq<Attempt>, a: Attempt)
    ensures
      var (g, rs) := Run(check, f, tries);
      var (h, r) := Handle(check, g, a);
      Run(check, f, tries + [a]) == (h, rs + [r])
  {
    assert (tries + [a])[..|tries|] == tries;
  }

  lemma NthTryMatches(at: int -> string, a: int, n: nat)
    requires n > 0 && DistinctNear(at, a - 1, a + n - 2)
    ensures var t := NthTry(at, a, n);
      t.Verify? && LooksLikeCode(t.code) && Matches(at, t.code, t.now, a + n - 2)
  {
  }

  /** After `n` tries from `f`: all accepted, the latest step remembered. */
  ghost predicate AllAccepted(f: Factor, a: int, n: nat, g: Factor, rs: seq<Result>) {
    g == (if n == 0 then f else f.(last := Some(a + n - 2))) && |Steps(rs)| == n
  }

  lemma NthTryAccepted(check: Checker, f: Factor, at: int -> string, a: int, n: nat, g: Factor, rs: seq<Result>)
    requires n > 0 && Ready(f, at, a) && DistinctNear(at, a - 1, a + n - 2)
    requires AllAccepted(f, a, n - 1, g, rs)
    ensures var (h, r) := Handle(check, g, NthTry(at, a, n)); AllAccepted(f, a, n, h, rs + [r])
  {
    NthTryMatches(at, a, n);
    AcceptedAt(check, g, at, NthTry(at, a, n), a + n - 2);
    StepsOfOneMore(rs, ByTotp(a + n - 2));
  }

  lemma DistinctNearer(at: int -> string, lo: int, hi: int)
    requires DistinctNear(at, lo, hi)
    ensures DistinctNear(at, lo, hi - 1)
  {
  }

  lemma {:induction false} TriesAreAccepted(check: Checker, f: Factor, at: int -> string, a: int, n: nat)
    requires Ready(f, at, a) && DistinctNear(at, a - 1, a + n - 2)
    ensures var (g, rs) := Run(check, f, Tries(at, a, n)); AllAccepted(f, a, n, g, rs)
  {
    if n > 0 {
      DistinctNearer(at, a - 1, a + n - 2);
      TriesAreAccepted(check, f, at, a, n - 1);
      var (g, rs) := Run(check, f, Tries(at, a, n - 1));
      NthTryAccepted(check, f, at, a, n, g, rs);
      OneMoreAttempt(check, f, Tries(at, a, n - 1), NthTry(at, a, n));
    }
  }

  lemma {:induction false} TriesAreInSteps(at: int -> string, a: int, b: int, n: nat)
    requires a <= b && n <= b - a + 3
    ensures InSteps(Tries(at, a, n), a, b)
  {
    if n > 0 { TriesAreInSteps(at, a, b, n - 1); }
  }

  /** The bound is met: for any `a <= b` some attempts made in those steps are all accepted, and
      there are `b - a + 3` of them. */
  lemma BoundIsMet(check: Checker, f: Factor, at: int -> string, a: int, b: int)
    requires a <= b && Ready(f, at, a) && DistinctNear(at, a - 1, b + 1)
    ensures
      var tries := Tries(at, a, b - a + 3);
      && InSteps(tries, a, b) && |tries| == b - a + 3
      && |Steps(Run(check, f, tries).1)| == b - a + 3
  {
    TriesAreAccepted(check, f, at, a, b - a + 3);
    TriesAreInSteps(at, a, b, b - a + 3);
  }

  lemma {:induction false} Spaceless(s: string)
    requires forall p | 0 <= p < |s| :: !IsSpace(s[p])
    ensures Normalised(s) == s
  {
    NoSpacesToRemove(s);
  }

  lemma {:induction false} NoSpacesToRemove(s: string)
    requires forall p | 0 <= p < |s| :: !IsSpace(s[p])
    ensures RemoveSpaces(s) == s
  {
    if s != [] { NoSpacesToRemove(s[1..]); }
  }

  /** Spaces around a code, and one between its halves, do not matter. */
  lemma {:induction false} SpacedCodeReads(a: string, x: string, y: string, b: string)
    requires AllSpace(a) && AllSpace(b) && x != "" && y != ""
    requires forall p | 0 <= p < |x + y| :: !IsSpace((x + y)[p])
    ensures Normalised(a + (x + " " + y) + b) == x + y
  {
    var core := x + " " + y;
    assert forall p | 0 <= p < |x| :: x[p] == (x + y)[p];
    assert forall p | 0 <= p < |y| :: y[p] == (x + y)[|x| + p];
    assert core[0] == x[0] && core[|core| - 1] == y[|y| - 1];
    StripOf(a, core, b);
    SpaceRemoved(x, y);
  }

  lemma {:induction false} SpaceRemoved(x: string, y: string)
    requires forall p | 0 <= p < |x| :: !IsSpace(x[p])
    requires forall p | 0 <= p < |y| :: !IsSpace(y[p])
    ensures RemoveSpaces(x + " " + y) == x + y
  {
    var s := x + " " + y;
    if x == [] {
      assert s == [' '] + y && s[1..] == y;
      NoSpacesToRemove(y);
    } else {
      SpaceRemoved(x[1..], y);
      assert s[1..] == x[1..] + " " + y && x == [x[0]] + x[1..];
    }
  }

  // ---------------------------------------------------------------- recovery codes and lockout

  /** Some unused recovery code of the account's opens for the text. */
  ghost predicate OpensARecovery(check: Checker, f: Factor, code: string) {
    exists k | 0 <= k < |f.recovery| :: !f.recovery[k].used && check(code, f.recovery[k].hash)
  }

  /** The code is the authenticator's for a step not used yet, or an unused recovery code. */
  ghost predicate Opens(check: Checker, f: Factor, code: string, now: int) {
    (f.at.Some? && Accepts(f.at.value, code, f.last, now).Some?) || OpensARecovery(check, f, code)
  }

  /** What verification accepts, exactly. The limit on failures comes before everything else,
      so it shuts out recovery codes too. */
  lemma VerifyPassesExactlyWhen(check: Checker, f: Factor, code: string, now: int)
    ensures Passed(Handle(check, f, Verify(code, now)).1) <==>
      f.enabled && f.failed < MAX_FAILED_ATTEMPTS && Opens(check, f, code, now)
  {
    var first := FirstUnused(check, f.recovery, code, 0);
  }

  /** Acceptances by recovery code. */
  function Spent(rs: seq<Result>): nat {
    if rs == [] then 0 else Spent(rs[..|rs| - 1]) + if rs[|rs| - 1].ByRecovery? then 1 else 0
  }

  /** No attempt replaced or cleared the recovery codes. */
  predicate NoneReplaced(attempts: seq<Attempt>, rs: seq<Result>) {
    |attempts| == |rs| && forall j | 0 <= j < |rs| :: attempts[j].Verify? || !Passed(rs[j])
  }

  /** Recovery codes issued by attempts that passed. */
  function Reissued(attempts: seq<Attempt>, rs: seq<Result>): nat
    requires |attempts| == |rs|
  {
    if rs == [] then 0
    else
      var n := |rs| - 1;
      Reissued(attempts[..n], rs[..n]) +
        if attempts[n].Regenerate? && Passed(rs[n]) then |attempts[n].hashes| else 0
  }

  lemma {:induction false} UsingOne(recovery: seq<RecoveryCode>, k: nat)
    requires k < |recovery| && !recovery[k].used
    ensures Unused(recovery) == Unused(recovery[k := recovery[k].(used := true)]) + 1
  {
    var after := recovery[k := recovery[k].(used := true)];
    if k < |recovery| - 1 {
      UsingOne(recovery[..|recovery| - 1], k);
      assert after[..|recovery| - 1] == recovery[..|recovery| - 1][k := recovery[k].(used := true)];
    } else {
      assert after[..k] == recovery[..k];
    }
  }

  lemma {:induction false} FreshAreUnused(codes: seq<RecoveryCode>)
    requires forall k | 0 <= k < |codes| :: !codes[k].used
    ensures Unused(codes) == |codes|
  {
    if codes != [] { FreshAreUnused(codes[..|codes| - 1]); }
  }

  lemma {:induction false} OneAnswerEach(check: Checker, f: Factor, attempts: seq<Attempt>)
    ensures |Run(check, f, attempts).1| == |attempts|
  {
    if attempts != [] { OneAnswerEach(check, f, attempts[..|attempts| - 1]); }
  }

  lemma CodesOfOneMore(check: Checker, f: Factor, a: Attempt)
    ensures var (g, r) := Handle(check, f, a);
      var spent := if r.ByRecovery? then 1 else 0;
      var issued := if a.Regenerate? && Passed(r) then |a.hashes| else 0;
      && spent + Unused(g.recovery) <= Unused(f.recovery) + issued
      && (a.Verify? || !Passed(r) ==> spent + Unused(g.recovery) == Unused(f.recovery))
  {
    var (_, r) := Handle(check, f, a);
    if r.ByRecovery? { UsingOne(f.recovery, r.index); }
    if a.Regenerate? { FreshAreUnused(FreshCodes(a.hashes)); }
  }

  /** Each recovery code opens the account once, over every run: acceptances by recovery code
      and the codes left never exceed what there was and what was issued, and they add up
      exactly while no set is replaced or cleared. */
  lemma {:induction false} RecoveryCodesAddUp(check: Checker, f: Factor, attempts: seq<Attempt>)
    ensures var (g, rs) := Run(check, f, attempts);
      && |rs| == |attempts|
      && Spent(rs) + Unused(g.recovery) <= Unused(f.recovery) + Reissued(attempts, rs)
      && (NoneReplaced(attempts, rs) ==>
            Spent(rs) + Unused(g.recovery) == Unused(f.recovery) && Reissued(attempts, rs) == 0)
  {
    if attempts != [] {
      var init, a := attempts[..|attempts| - 1], attempts[|attempts| - 1];
      RecoveryCodesAddUp(check, f, init);
      var (m, rs) := Run(check, f, init);
      var (g, r) := Handle(check, m, a);
      CodesOfOneMore(check, m, a);
      assert (rs + [r])[..|rs|] == rs;
      if NoneReplaced(attempts, rs + [r]) { PrefixNoneReplaced(attempts, rs, r); }
    }
  }

  lemma PrefixNoneReplaced(attempts: seq<Attempt>, rs: seq<Result>, r: Result)
    requires NoneReplaced(attempts, rs + [r])
    ensures NoneReplaced(attempts[..|attempts| - 1], rs)
    ensures attempts[|attempts| - 1].Verify? || !Passed(r)
  {
    forall j | 0 <= j < |rs| ensures attempts[j].Verify? || !Passed(rs[j]) { assert (rs + [r])[j] == rs[j]; }
    assert (rs + [r])[|rs|] == r;
  }

  /** Entries of one kind: recovery codes used, or codes found wrong. */
  function UsedNotes(notes: seq<Note>): nat {
    if notes == [] then 0
    else UsedNotes(notes[..|notes| - 1]) + if notes[|notes| - 1].RecoveryCodeUsed? then 1 else 0
  }

  function FailedNotes(notes: seq<Note>): nat {
    if notes == [] then 0
    else FailedNotes(notes[..|notes| - 1]) + if notes[|notes| - 1].CodeFailed? then 1 else 0
  }

  /** Codes found wrong at verification. */
  function WrongAtVerify(attempts: seq<Attempt>, rs: seq<Result>): nat
    requires |attempts| == |rs|
  {
    if rs == [] then 0
    else
      var n := |rs| - 1;
      WrongAtVerify(attempts[..n], rs[..n]) + if attempts[n].Verify? && rs[n] == Wrong then 1 else 0
  }

  lemma {:induction false} NotesAddUp(notes: seq<Note>, more: seq<Note>)
    ensures UsedNotes(notes + more) == UsedNotes(notes) + UsedNotes(more)
    ensures FailedNotes(notes + more) == FailedNotes(notes) + FailedNotes(more)
  {
    if more == [] {
      assert notes + more == notes;
    } else {
      NotesAddUp(notes, more[..|more| - 1]);
      assert (notes + more)[..|notes + more| - 1] == notes + more[..|more| - 1];
    }
  }

  lemma OneNote(n: Note)
    ensures UsedNotes([n]) == (if n.RecoveryCodeUsed? then 1 else 0)
    ensures FailedNotes([n]) == if n.CodeFailed? then 1 else 0
  {
    assert [n][..0] == [];
  }

  lemma NotesOfTwo(first: seq<Note>, second: seq<Note>)
    requires |first| <= 1 && |second| <= 1
    ensures UsedNotes(first + second) ==
      (if first != [] && first[0].RecoveryCodeUsed? then 1 else 0) +
      if second != [] && second[0].RecoveryCodeUsed? then 1 else 0
    ensures FailedNotes(first + second) ==
      (if first != [] && first[0].CodeFailed? then 1 else 0) +
      if second != [] && second[0].CodeFailed? then 1 else 0
  {
    NotesAddUp(first, second);
    if first != [] { OneNote(first[0]); assert first == [first[0]]; }
    if second != [] { OneNote(second[0]); assert second == [second[0]]; }
  }

  lemma AnswerOfOne(check: Checker, f: Factor, a: Attempt)
    ensures var r := Handle(check, f, a).1;
      if CodeLookedAt(f, a) then r == Accept(check, f, a.code, a.now).1
      else r == NotOn || r == Locked || r == BadPassword
  {
  }

  lemma NotesOfOne(check: Checker, f: Factor, a: Attempt)
    ensures
      var r := Handle(check, f, a).1;
      && UsedNotes(Written(check, f, a)) == (if r.ByRecovery? then 1 else 0)
      && FailedNotes(Written(check, f, a)) == if a.Verify? && r == Wrong then 1 else 0
  {
    AnswerOfOne(check, f, a);
    if CodeLookedAt(f, a) {
      var (g, r) := Accept(check, f, a.code, a.now);
      NotesOfTwo(AcceptNote(g, r), OutcomeNote(f, a, r));
    }
  }

  /** Over every run each recovery code spent has one entry in the trail, and so has each code
      found wrong at verification. */
  lemma {:induction false} SpendingIsRecorded(check: Checker, f: Factor, attempts: seq<Attempt>)
    ensures
      var rs := Run(check, f, attempts).1;
      && |rs| == |attempts|
      && UsedNotes(Trail(check, f, attempts)) == Spent(rs)
      && FailedNotes(Trail(check, f, attempts)) == WrongAtVerify(attempts, rs)
  {
    if attempts != [] {
      var init, a := attempts[..|attempts| - 1], attempts[|attempts| - 1];
      SpendingIsRecorded(check, f, init);
      var (m, rs) := Run(check, f, init);
      NotesAddUp(Trail(check, f, init), Written(check, m, a));
      NotesOfOne(check, m, a);
      assert (rs + [Handle(check, m, a).1])[..|rs|] == rs;
    }
  }

  // ---------------------------------------------------------------- what the limit limits

  /** When an attempt is turned away for too many failures, and when a wrong code is counted as
      one: exactly at verification. Reissuing recovery codes and turning the factor off take a
      code as well, but neither looks at the count nor adds to it. */
  lemma LimitAppliesExactlyWhen(check: Checker, f: Factor, a: Attempt)
    ensures var (g, r) := Handle(check, f, a);
      && (r == Locked <==> a.Verify? && f.enabled && f.failed >= MAX_FAILED_ATTEMPTS)
      && (r == Wrong ==> g == if a.Verify? then f.(failed := f.failed + 1) else f)
      && (r == Wrong ==> (g.failed > f.failed <==> a.Verify?))
  {
  }

  /** What reissuing accepts, exactly: the limit plays no part. */
  lemma ReissuePassesExactlyWhen(check: Checker, f: Factor, code: string, now: int, hashes: seq<string>)
    ensures Passed(Handle(check, f, Regenerate(code, now, hashes)).1) <==>
      f.enabled && Opens(check, f, code, now)
  {
    var first := FirstUnused(check, f.recovery, code, 0);
  }

  /** A reissue that passes stores exactly the codes it hands over, all unused: from then on a
      text is a recovery code exactly when it is one of those, and none of the replaced set is.
      One that does not pass leaves the account as it was. */
  lemma ReissuedCodesOpen(check: Checker, f: Factor, code: string, now: int, hashes: seq<string>, text: string)
    ensures
      var (g, r) := Handle(check, f, Regenerate(code, now, hashes));
      && (Passed(r) ==>
            && |g.recovery| == |hashes|
            && (forall k | 0 <= k < |hashes| :: g.recovery[k].hash == hashes[k] && !g.recovery[k].used)
            && (OpensARecovery(check, g, text) <==> exists k | 0 <= k < |hashes| :: check(text, hashes[k]))
            && g.enabled && g.at == f.at && g.failed == f.failed)
      && (!Passed(r) ==> g == f)
  {
    var (g, r) := Handle(check, f, Regenerate(code, now, hashes));
    if Passed(r) {
      if OpensARecovery(check, g, text) {
        var k :| 0 <= k < |g.recovery| && !g.recovery[k].used && check(text, g.recovery[k].hash);
        assert check(text, hashes[k]);
      }
      if k :| 0 <= k < |hashes| && check(text, hashes[k]) {
        assert !g.recovery[k].used && check(text, g.recovery[k].hash);
      }
    }
  }

  /** A recovery code that verifies is spent, and no other: the rest of the account is as it was
      but for the count. */
  lemma RecoveryCodeIsSpent(check: Checker, f: Factor, code: string, now: int)
    requires Handle(check, f, Verify(code, now)).1.ByRecovery?
    ensures
      var (g, r) := Handle(check, f, Verify(code, now));
      && r.index < |f.recovery| && !f.recovery[r.index].used && check(code, f.recovery[r.index].hash)
      && |g.recovery| == |f.recovery| && g.recovery[r.index].used
      && (forall k | 0 <= k < |f.recovery| && k != r.index :: g.recovery[k] == f.recovery[k])
      && g.enabled && g.at == f.at && g.last == f.last && g.failed == 0
  {
  }

  /** What an attempt writes: for a code found wrong at verification the count it makes, for a
      recovery code how many are still unused, and that codes were reissued or the factor turned
      off when they were. */
  lemma EntriesSay(check: Checker, f: Factor, a: Attempt)
    ensures
      var (g, r) := Handle(check, f, a);
      var notes := Written(check, f, a);
      && (a.Verify? && r == Wrong ==> notes == [CodeFailed(g.failed)])
      && (a.Verify? && r.ByRecovery? ==> notes == [RecoveryCodeUsed(|UnusedSet(g.recovery)|)])
      && (a.Verify? && !(r == Wrong || r.ByRecovery?) ==> notes == [])
      && (a.Regenerate? && Passed(r) ==> |notes| > 0 && notes[|notes| - 1] == CodesReissued)
      && (a.Disable? && Passed(r) ==>
            |notes| > 0 && notes[|notes| - 1] == TurnedOff && g == Factor(false, None, None, 0, []))
      && (!a.Verify? && !Passed(r) ==> notes == [])
  {
    var (g, r) := Handle(check, f, a);
    if a.Verify? && r.ByRecovery? {
      UnusedIsCounted(g.recovery);
    }
  }

  ghost function UnusedSet(recovery: seq<RecoveryCode>): set<nat> { set k: nat | k < |recovery| && !recovery[k].used }

  lemma {:induction false} UnusedIsCounted(recovery: seq<RecoveryCode>)
    ensures Unused(recovery) == |UnusedSet(recovery)|
  {
    if recovery == [] {
      assert UnusedSet(recovery) == {};
    } else {
      var n, init := |recovery| - 1, recovery[..|recovery| - 1];
      UnusedIsCounted(init);
      assert UnusedSet(recovery) == if recovery[n].used then UnusedSet(init) else UnusedSet(init) + {n};
    }
  }

  /** What turns the factor off, exactly: the password and a code, which may be a recovery code;
      nothing else does. */
  lemma GoesOffExactlyWhen(check: Checker, f: Factor, a: Attempt)
    ensures f.enabled && !Handle(check, f, a).0.enabled <==>
      f.enabled && a.Disable? && a.password && Opens(check, f, a.code, a.now)
  {
    var first := FirstUnused(check, f.recovery, a.code, 0);
  }

  /** An input on which no current code is needed: a recovery code in its place. */
  lemma RecoveryCodeTurnsOff(check: Checker, code: string, now: int)
    requires check(code, "hash")
    ensures
      var f := Factor(true, Some((step: int) => "000000"), Some(now + 1), 0, [RecoveryCode("hash", false)]);
      Handle(check, f, Disable(true, code, now)) == (OFF, ByRecovery(0))
  {
    assert FirstUnused(check, [RecoveryCode("hash", false)], code, 0) == Some(0);
  }

  /** What an attempt does to the count. */
  function CountAfter(earlier: nat, a: Attempt, r: Result): nat {
    match a
    case Verify(_, _) => if Passed(r) then 0 else if r == Wrong then earlier + 1 else earlier
    case Regenerate(_, _, _) => earlier
    case Disable(_, _, _) => if Passed(r) then 0 else earlier
  }

  /** Codes found wrong at verification since the last one that passed there, `before` of them
      earlier. */
  function Counted(before: nat, attempts: seq<Attempt>, rs: seq<Result>): nat
    requires |attempts| == |rs|
  {
    if rs == [] then before
    else
      var n := |rs| - 1;
      CountAfter(Counted(before, attempts[..n], rs[..n]), attempts[n], rs[n])
  }

  lemma CountNext(check: Checker, f: Factor, a: Attempt)
    requires f.failed <= MAX_FAILED_ATTEMPTS
    ensures var (g, r) := Handle(check, f, a); g.failed == CountAfter(f.failed, a, r) <= MAX_FAILED_ATTEMPTS
  {
  }

  lemma {:induction false} CountIsKept(check: Checker, f: Factor, attempts: seq<Attempt>)
    requires f.failed <= MAX_FAILED_ATTEMPTS
    ensures var (g, rs) := Run(check, f, attempts);
      |rs| == |attempts| && g.failed == Counted(f.failed, attempts, rs) <= MAX_FAILED_ATTEMPTS
  {
    if attempts != [] {
      var init, a := attempts[..|attempts| - 1], attempts[|attempts| - 1];
      CountIsKept(check, f, init);
      var (m, rs) := Run(check, f, init);
      CountNext(check, m, a);
      assert (rs + [Handle(check, m, a).1])[..|rs|] == rs;
    }
  }

  /** Over every run of attempts of every kind the count is exactly the codes found wrong at
      verification since the last one that passed, so that many never exceed five, and a
      verification is turned away exactly when the count stands at five. */
  lemma FailuresAreCounted(check: Checker, f: Factor, attempts: seq<Attempt>)
    requires f.failed <= MAX_FAILED_ATTEMPTS
    ensures var (g, rs) := Run(check, f, attempts);
      && |rs| == |attempts|
      && g.failed == Counted(f.failed, attempts, rs) <= MAX_FAILED_ATTEMPTS
      && (attempts != [] ==>
            var n := |rs| - 1;
            rs[n] == Locked <==>
              && attempts[n].Verify? && Run(check, f, attempts[..n]).0.enabled
              && Counted(f.failed, attempts[..n], rs[..n]) == MAX_FAILED_ATTEMPTS)
  {
    CountIsKept(check, f, attempts);
    if attempts != [] {
      var init, a := attempts[..|attempts| - 1], attempts[|attempts| - 1];
      CountIsKept(check, f, init);
      var (m, rs) := Run(check, f, init);
      assert (rs + [Handle(check, m, a).1])[..|rs|] == rs;
      LimitAppliesExactlyWhen(check, m, a);
    }
  }

  /** Once the count stands at five, verification accepts nothing through any run, recovery
      codes included; only turning the factor off ends that. */
  lemma {:induction false} LockedStaysLocked(check: Checker, f: Factor, attempts: seq<Attempt>)
    requires f.failed >= MAX_FAILED_ATTEMPTS
    ensures var (g, rs) := Run(check, f, attempts);
      && |rs| == |attempts|
      && (g.enabled ==> f.enabled && g.failed == f.failed)
      && forall j | 0 <= j < |rs| && attempts[j].Verify? :: rs[j] == Locked || rs[j] == NotOn
  {
    if attempts != [] {
      var init := attempts[..|attempts| - 1];
      LockedStaysLocked(check, f, init);
      var (m, rs) := Run(check, f, init);
      var (g, r) := Handle(check, m, attempts[|attempts| - 1]);
      HandleMovesOn(check, m, attempts[|attempts| - 1]);
      forall j | 0 <= j < |rs + [r]| && attempts[j].Verify? ensures (rs + [r])[j] == Locked || (rs + [r])[j] == NotOn {
        if j < |rs| { assert init[j] == attempts[j]; }
      }
    }
  }

  lemma WrongOnceElsewhere(check: Checker, f: Factor, a: Attempt)
    requires !a.Verify? && Handle(check, f, a).1 == Wrong
    ensures Handle(check, f, a) == (f, Wrong) && Written(check, f, a) == []
  {
  }

  /** The limit does not bound wrong codes as such: any number of wrong codes given elsewhere
      are all answered as wrong and leave no trace, not even an audit entry. */
  lemma {:induction false} WrongElsewhereLeavesNoTrace(check: Checker, f: Factor, attempts: seq<Attempt>)
    requires forall j | 0 <= j < |attempts| :: !attempts[j].Verify? && Handle(check, f, attempts[j]).1 == Wrong
    ensures var (g, rs) := Run(check, f, attempts);
      && g == f && Trail(check, f, attempts) == []
      && |rs| == |attempts| && forall j | 0 <= j < |rs| :: rs[j] == Wrong
  {
    if attempts != [] {
      var init, a := attempts[..|attempts| - 1], attempts[|attempts| - 1];
      assert forall j | 0 <= j < |init| :: init[j] == attempts[j];
      WrongElsewhereLeavesNoTrace(check, f, init);
      WrongOnceElsewhere(check, f, a);
    }
  }

  /** A locked account whose authenticator shows the same code at every step. */
  function LockedExample(): Factor { Factor(true, Some((step: int) => "000000"), Some(-9), 5, []) }

  lemma PlainCode(at: int -> string, code: string, last: Option<int>, now: int)
    requires LooksLikeCode(code)
    ensures at(now - 1) == code && Fresh(last, now - 1) ==> Accepts(at, code, last, now) == Some(now - 1)
    ensures FirstMatch(at, code, now).None? ==> Accepts(at, code, last, now).None?
  {
    Spaceless(code);
  }

  /** Inputs on which the limit is none: on a locked account a wrong code is looked at and not
      counted, and the right one accepted, when recovery codes are reissued. */
  lemma LimitIsPassedBy(check: Checker)
    ensures var f := LockedExample();
      && Handle(check, f, Verify("000000", 0)) == (f, Locked)
      && Handle(check, f, Regenerate("111111", 0, [])) == (f, Wrong)
      && Handle(check, f, Regenerate("000000", 0, [])).1 == ByTotp(-1)
  {
    assert LooksLikeCode("000000") && LooksLikeCode("111111");
    assert "111111"[0] != "000000"[0];
    PlainCode(LockedExample().at.value, "000000", Some(-9), 0);
    PlainCode(LockedExample().at.value, "111111", Some(-9), 0);
  }
}
