/**
  Operation identifiers of the CRDT engine (packages/shared/crdt.ts).

  An operation id is written `counter@actor`. The engine builds it with a
  template literal and compares two of them by parsing both with the regular
  expression `^([0-9]+)@(.*)$`: counters first, then actors with JavaScript's
  string `<`. A string that does not match makes the comparison throw.
 */
module OpIds {
  import opened Wrappers

  datatype OpId = OpId(counter: nat, actor: string)

  // ---------------------------------------------------------------------------
  // JavaScript string order

  /** JavaScript's `<` on strings: the first differing character decides, and a
      proper prefix sorts before the longer string. */
  predicate StrLess(a: string, b: string)
  {
    if |a| == 0 then |b| > 0
    else if |b| == 0 then false
    else if a[0] != b[0] then a[0] < b[0]
    else StrLess(a[1..], b[1..])
  }

  lemma {:induction false} StrLessIrreflexive(a: string)
    ensures !StrLess(a, a)
  {
    if |a| > 0 {
      StrLessIrreflexive(a[1..]);
    }
  }

  lemma {:induction false} StrLessTransitive(a: string, b: string, c: string)
    requires StrLess(a, b) && StrLess(b, c)
    ensures StrLess(a, c)
  {
    if |a| > 0 && |b| > 0 && |c| > 0 && a[0] == b[0] && b[0] == c[0] {
      StrLessTransitive(a[1..], b[1..], c[1..]);
    }
  }

  lemma {:induction false} StrLessTotal(a: string, b: string)
    requires a != b
    ensures StrLess(a, b) || StrLess(b, a)
  {
    if |a| > 0 && |b| > 0 && a[0] == b[0] {
      assert a == [a[0]] + a[1..] && b == [b[0]] + b[1..];
      StrLessTotal(a[1..], b[1..]);
    }
  }

  lemma {:induction false} StrLessAsymmetric(a: string, b: string)
    requires StrLess(a, b)
    ensures !StrLess(b, a)
  {
    if |a| > 0 && |b| > 0 && a[0] == b[0] {
      StrLessAsymmetric(a[1..], b[1..]);
    }
  }

  // ---------------------------------------------------------------------------
  // The order on parsed ids

  /** `id1` sorts before `id2`: lower counter, or equal counters and a smaller actor. */
  predicate Less(a: OpId, b: OpId)
  {
    a.counter < b.counter || (a.counter == b.counter && StrLess(a.actor, b.actor))
  }

  /** `Less` is a strict total order: irreflexive, asymmetric, transitive and
      connected, so every replica ranks any two distinct ids the same way. */
  lemma LessIsStrictTotalOrder(a: OpId, b: OpId, c: OpId)
    ensures !Less(a, a)
    ensures Less(a, b) ==> !Less(b, a)
    ensures Less(a, b) && Less(b, c) ==> Less(a, c)
    ensures a != b ==> Less(a, b) || Less(b, a)
  {
    StrLessIrreflexive(a.actor);
    if Less(a, b) && a.counter == b.counter {
      StrLessAsymmetric(a.actor, b.actor);
    }
    if Less(a, b) && Less(b, c) && a.counter == b.counter == c.counter {
      StrLessTransitive(a.actor, b.actor, c.actor);
    }
    if a != b && a.counter == b.counter {
      StrLessTotal(a.actor, b.actor);
    }
  }

  // ---------------------------------------------------------------------------
  // Decimal digits

  predicate IsDigit(c: char)
  {
    '0' <= c <= '9'
  }

  predicate AllDigits(s: string)
  {
    forall i :: 0 <= i < |s| ==> IsDigit(s[i])
  }

  function DigitChar(d: nat): (c: char)
    requires d < 10
    ensures IsDigit(c)
    ensures c as int - '0' as int == d
  {
    ('0' as int + d) as char
  }

  /** `${n}` for a non-negative integer: its decimal digits, no leading zero. */
  function NatToString(n: nat): (s: string)
    ensures |s| > 0 && AllDigits(s)
    ensures s[0] == '0' ==> n == 0
    decreases n
  {
    if n < 10 then [DigitChar(n)] else NatToString(n / 10) + [DigitChar(n % 10)]
  }

  /** `parseInt` of a string of decimal digits (leading zeros allowed). */
  function DigitsValue(s: string): nat
    requires AllDigits(s)
  {
    if |s| == 0 then 0
    else DigitsValue(s[..|s| - 1]) * 10 + (s[|s| - 1] as int - '0' as int)
  }

  lemma {:induction false} DigitsValueOfNatToString(n: nat)
    ensures DigitsValue(NatToString(n)) == n
    decreases n
  {
    if n >= 10 {
      var s := NatToString(n);
      assert s[..|s| - 1] == NatToString(n / 10);
      DigitsValueOfNatToString(n / 10);
    }
  }

  /** The length of the longest prefix of `s` made of digits: what `[0-9]+` consumes. */
  function DigitRun(s: string): (k: nat)
    ensures k <= |s|
    ensures AllDigits(s[..k])
    ensures k < |s| ==> !IsDigit(s[k])
  {
    if |s| == 0 || !IsDigit(s[0]) then 0
    else
      var k := 1 + DigitRun(s[1..]);
      assert s[..k] == [s[0]] + s[1..][..k - 1];
      k
  }

  lemma {:induction false} DigitRunOfDigitsThen(d: string, rest: string)
    requires AllDigits(d)
    requires |rest| > 0 && !IsDigit(rest[0])
    ensures DigitRun(d + rest) == |d|
  {
    if |d| > 0 {
      assert (d + rest)[1..] == d[1..] + rest;
      DigitRunOfDigitsThen(d[1..], rest);
    }
  }

  // ---------------------------------------------------------------------------
  // Formatting and parsing

  /** The characters JavaScript's `.` does not match (line terminators). */
  predicate IsLineTerminator(c: char)
  {
    c == '\n' || c == '\r' || c == '\U{2028}' || c == '\U{2029}'
  }

  /** An actor the pattern `(.*)$` accepts: no line terminator anywhere. */
  predicate ValidActor(a: string)
  {
    forall i :: 0 <= i < |a| ==> !IsLineTerminator(a[i])
  }

  /** The template literal `${counter}@${actor}`. */
  function FormatOpId(id: OpId): string
  {
    NatToString(id.counter) + "@" + id.actor
  }

  /** Matching against `^([0-9]+)@(.*)$` followed by `parseInt` of the first group. */
  function ParseOpId(s: string): (r: Option<OpId>)
    ensures r.Some? ==> |s| >= |r.value.actor| + 2 && IsDigit(s[0])
    ensures r.Some? ==> ValidActor(r.value.actor) && s[|s| - |r.value.actor|..] == r.value.actor
    ensures r.Some? ==> var n := |s| - |r.value.actor| - 1;
                        && s[n] == '@' && AllDigits(s[..n])
                        && r.value.counter == DigitsValue(s[..n])
  {
    var k := DigitRun(s);
    if k == 0 || k == |s| || s[k] != '@' || !ValidActor(s[k + 1..]) then None
    else
      assert s == s[..k + 1] + s[k + 1..];
      Some(OpId(DigitsValue(s[..k]), s[k + 1..]))
  }

  /** A run of digits, then `@`, then the rest: the id parses exactly when the
      rest is an actor the pattern accepts, and then splits at that `@`. */
  lemma ParseSplit(s: string, n: nat)
    requires 1 <= n < |s| && AllDigits(s[..n]) && s[n] == '@'
    ensures ParseOpId(s) == if ValidActor(s[n + 1..]) then Some(OpId(DigitsValue(s[..n]), s[n + 1..])) else None
  {
    assert s == s[..n] + s[n..];
    DigitRunOfDigitsThen(s[..n], s[n..]);
  }

  /** Parsing what the engine formats gives back the id exactly when the actor
      has no line terminator; otherwise the comparison would throw. */
  lemma ParseFormat(id: OpId)
    ensures ParseOpId(FormatOpId(id)) == if ValidActor(id.actor) then Some(id) else None
  {
    var d := NatToString(id.counter);
    var s := FormatOpId(id);
    assert s == d + ("@" + id.actor);
    DigitRunOfDigitsThen(d, "@" + id.actor);
    assert s[..|d|] == d;
    assert s[|d| + 1..] == id.actor;
    DigitsValueOfNatToString(id.counter);
  }

  /** Distinct ids are formatted to distinct strings, so storing formatted ids
      loses nothing. */
  lemma FormatInjective(a: OpId, b: OpId)
    requires FormatOpId(a) == FormatOpId(b)
    ensures a == b
  {
    var da, db := NatToString(a.counter), NatToString(b.counter);
    assert FormatOpId(a) == da + ("@" + a.actor);
    assert FormatOpId(b) == db + ("@" + b.actor);
    DigitsThenAt(da, a.actor, db, b.actor);
    DigitsValueOfNatToString(a.counter);
    DigitsValueOfNatToString(b.counter);
  }

  /** A digit string followed by `@` splits at that first `@` only. */
  lemma DigitsThenAt(da: string, xa: string, db: string, xb: string)
    requires AllDigits(da) && AllDigits(db)
    requires da + ("@" + xa) == db + ("@" + xb)
    ensures da == db && xa == xb
  {
    var s := da + ("@" + xa);
    DigitRunOfDigitsThen(da, "@" + xa);
    DigitRunOfDigitsThen(db, "@" + xb);
    assert da == s[..|da|];
    assert db == s[..|db|];
    assert xa == s[|da| + 1..];
    assert xb == s[|db| + 1..];
  }

  /** `compareOpIds(id1, id2)`: `Some(true)` when `id1` sorts strictly before
      `id2`, `Some(false)` when not, `None` where the source throws because a
      string does not match `counter@actor`. */
  function CompareOpIds(s1: string, s2: string): (r: Option<bool>)
    ensures r.None? <==> ParseOpId(s1).None? || ParseOpId(s2).None?
    ensures r.Some? ==> (r.value <==> Less(ParseOpId(s1).value, ParseOpId(s2).value))
  {
    match (ParseOpId(s1), ParseOpId(s2))
    case (Some(a), Some(b)) => Some(Less(a, b))
    case _ => None
  }

  /** On formatted ids of valid actors the comparison never throws and agrees
      with `Less`; it throws as soon as either actor holds a line terminator. */
  lemma CompareFormatted(a: OpId, b: OpId)
    ensures CompareOpIds(FormatOpId(a), FormatOpId(b))
         == if ValidActor(a.actor) && ValidActor(b.actor) then Some(Less(a, b)) else None
  {
    ParseFormat(a);
    ParseFormat(b);
  }

  /** An id that parses is well-formed as far as every comparison is concerned. */
  predicate WellFormed(s: string)
  {
    ParseOpId(s).Some?
  }
}
