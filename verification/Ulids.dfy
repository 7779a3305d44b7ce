/** Monotonic ULIDs in Crockford base 32 (src/core/ulid.ts). */
module Ulids {
  import opened Prelude
  import opened TextOrder

  const ENCODING: string := "0123456789ABCDEFGHJKMNPQRSTVWXYZ"
  const TIME_LEN: nat := 10
  const RANDOM_LEN: nat := 16

  function Pow32(n: nat): (r: nat)
    ensures r > 0
  {
    if n == 0 then 1 else 32 * Pow32(n - 1)
  }

  lemma {:induction false} PowersMultiply(a: nat, b: nat)
    ensures Pow32(a + b) == Pow32(a) * Pow32(b)
  {
    if a > 0 {
      PowersMultiply(a - 1, b);
    }
  }

  /** Ten digits hold 50 bits, sixteen hold 80. */
  lemma DigitsHoldBits()
    ensures Pow32(TIME_LEN) == 0x4_0000_0000_0000 && Pow32(RANDOM_LEN) == 0x1_0000_0000_0000_0000_0000
  {
    assert Pow32(1) == 32 * Pow32(0) && Pow32(2) == 32 * Pow32(1);
    PowersMultiply(2, 2);
    PowersMultiply(4, 4);
    PowersMultiply(8, 2);
    PowersMultiply(8, 8);
  }

  /** Digits of the alphabet, which leaves out I, L, O and U. */
  function Digit(i: int): char
    requires 0 <= i < 32
  {
    if i < 10 then '0' + i as char
    else if i < 18 then 'A' + (i - 10) as char
    else if i < 20 then 'J' + (i - 18) as char
    else if i < 22 then 'M' + (i - 20) as char
    else if i < 27 then 'P' + (i - 22) as char
    else 'V' + (i - 27) as char
  }

  lemma DigitsAreTheAlphabet()
    ensures |ENCODING| == 32 && forall i | 0 <= i < 32 :: ENCODING[i] == Digit(i)
  {
    forall i | 0 <= i < 32 ensures ENCODING[i] == Digit(i) {
      if i < 8 { DigitsFrom(0, i); } else if i < 16 { DigitsFrom(8, i); }
                                          else if i < 24 { DigitsFrom(16, i); } else { DigitsFrom(24, i); }
    }
  }

  lemma DigitsFrom(base: int, i: int)
    requires base in {0, 8, 16, 24} && base <= i < base + 8
    ensures ENCODING[i] == Digit(i)
  {
    assert i in {base, base + 1, base + 2, base + 3, base + 4, base + 5, base + 6, base + 7};
  }

  lemma DigitsAscend(i: int, j: int)
    requires 0 <= i < j < 32
    ensures Digit(i) < Digit(j)
  {
  }

  /** The value in `n` base-32 digits, most significant first. */
  function Encode(n: nat, v: nat): (s: string)
    ensures |s| == n
  {
    if n == 0 then "" else Encode(n - 1, v / 32) + [Digit(v % 32)]
  }

  method EncodeDigits(length: nat, value: nat) returns (out: string)
    ensures out == Encode(length, value)
  {
    DigitsAreTheAlphabet();
    out := "";
    var v := value;
    var i := 0;
    while i < length
      invariant 0 <= i <= length
      invariant Encode(length, value) == Encode(length - i, v) + out
    {
      Regroup(Encode(length - i - 1, v / 32), [Digit(v % 32)], out);
      out := [ENCODING[v % 32]] + out;
      v := v / 32;
      i := i + 1;
    }
  }

  lemma {:induction false} LessByHead(x: string, y: string, p: string, q: string)
    requires |x| == |y|
    ensures Less(x + p, y + q) <==> Less(x, y) || (x == y && Less(p, q))
  {
    if x == "" {
      assert x + p == p && y + q == q;
    } else {
      LessByHead(x[1..], y[1..], p, q);
      assert (x + p)[1..] == x[1..] + p && (y + q)[1..] == y[1..] + q;
      assert x == [x[0]] + x[1..] && y == [y[0]] + y[1..];
    }
  }

  /** Strings of one length order as the numbers they encode. */
  lemma {:induction false} EncodingOrders(n: nat, a: nat, b: nat)
    requires a < Pow32(n) && b < Pow32(n)
    ensures Less(Encode(n, a), Encode(n, b)) <==> a < b
    ensures Encode(n, a) == Encode(n, b) <==> a == b
  {
    if n > 0 {
      EncodingOrders(n - 1, a / 32, b / 32);
      var x, y := Encode(n - 1, a / 32), Encode(n - 1, b / 32);
      LessByHead(x, y, [Digit(a % 32)], [Digit(b % 32)]);
      if a % 32 < b % 32 {
        DigitsAscend(a % 32, b % 32);
      } else if b % 32 < a % 32 {
        DigitsAscend(b % 32, a % 32);
      }
      OneDigit(Digit(a % 32), Digit(b % 32));
      assert (x + [Digit(a % 32)])[n - 1] == Digit(a % 32) && (y + [Digit(b % 32)])[n - 1] == Digit(b % 32);
      assert (x + [Digit(a % 32)])[..n - 1] == x && (y + [Digit(b % 32)])[..n - 1] == y;
    }
  }

  lemma OneDigit(c: char, d: char)
    ensures Less([c], [d]) <==> c < d
  {
  }

  // ---- Reading the time back ----

  /** JavaScript's upper case of one character, as far as it can give a digit. */
  function Upper(c: char): char {
    if 'a' <= c <= 'z' then 'A' + (c - 'a') else if c as int == 0x131 then 'I' else if c as int == 0x17F then 'S' else c
  }

  /** The digit value, with the aliases for O, I and L. */
  function Decoded(c: char): Option<nat> {
    var u := Upper(c);
    if '0' <= u <= '9' then Some((u - '0') as int)
    else if 'A' <= u <= 'H' then Some(10 + (u - 'A') as int)
    else if u == 'I' || u == 'L' then Some(1)
    else if u == 'O' then Some(0)
    else if 'J' <= u <= 'K' then Some(18 + (u - 'J') as int)
    else if 'M' <= u <= 'N' then Some(20 + (u - 'M') as int)
    else if 'P' <= u <= 'T' then Some(22 + (u - 'P') as int)
    else if 'V' <= u <= 'Z' then Some(27 + (u - 'V') as int)
    else None
  }

  lemma DigitDecodes(i: int)
    requires 0 <= i < 32
    ensures Decoded(Digit(i)) == Some(i)
  {
  }

  /** A digit of the alphabet in either case, or what stands for one: O for 0, I and L for 1, and the two letters
      outside ASCII whose upper case is I or S. */
  predicate Reads(c: char, v: nat)
    requires v < 32
  {
    || c == Digit(v) || (Digit(v) >= 'A' && c == Digit(v) - 'A' + 'a')
    || (v == 0 && c in {'O', 'o'}) || (v == 1 && (c in {'I', 'i', 'L', 'l'} || c as int == 0x131))
    || (Digit(v) == 'S' && c as int == 0x17F)
  }

  lemma ReadsIff(c: char, v: nat)
    requires v < 32
    ensures Decoded(c) == Some(v) <==> Reads(c, v)
  {
  }

  /** None where the source throws. */
  function TimeIn(digits: string): Option<nat> {
    if digits == "" then Some(0) else
      var front, v := TimeIn(digits[..|digits| - 1]), Decoded(digits[|digits| - 1]);
      if front.Some? && v.Some? then Some(front.value * 32 + v.value) else None
  }

  method UlidTime(id: string) returns (t: Option<nat>)
    ensures t == if |id| < TIME_LEN then None else TimeIn(id[..TIME_LEN])
  {
    if |id| < TIME_LEN {
      return None;
    }
    var time := 0;
    var i := 0;
    while i < TIME_LEN
      invariant 0 <= i <= TIME_LEN
      invariant TimeIn(id[..i]) == Some(time)
    {
      assert id[..i + 1][..i] == id[..i];
      var v := Decoded(id[i]);
      if v.None? {
        Unreadable(id[..TIME_LEN], i);
        assert id[..TIME_LEN][..i + 1] == id[..i + 1];
        return None;
      }
      time := time * 32 + v.value;
      i := i + 1;
    }
    return Some(time);
  }

  lemma {:induction false} Unreadable(digits: string, i: nat)
    requires i < |digits| && TimeIn(digits[..i + 1]).None?
    ensures TimeIn(digits).None?
    decreases |digits|
  {
    if i + 1 == |digits| {
      assert digits[..i + 1] == digits;
    } else {
      assert digits[..|digits| - 1][..i + 1] == digits[..i + 1];
      Unreadable(digits[..|digits| - 1], i);
    }
  }

  lemma {:induction false} EncodedDecodes(n: nat, v: nat)
    requires v < Pow32(n)
    ensures TimeIn(Encode(n, v)) == Some(v)
  {
    if n > 0 {
      EncodedDecodes(n - 1, v / 32);
      DigitDecodes(v % 32);
      assert Encode(n, v)[..n - 1] == Encode(n - 1, v / 32);
    }
  }

  // ---- The generator ----

  /** `time` is -1 before the first id; the random part has 80 bits, 16 digits. */
  datatype Last = Last(time: int, random: nat)

  const START: Last := Last(-1, 0)

  ghost predicate Fits(last: Last) {
    -1 <= last.time < Pow32(TIME_LEN) && last.random < Pow32(RANDOM_LEN)
  }

  /** The id made from the stored time and random part. */
  function IdOf(last: Last): string
    requires last.time >= 0
  {
    Encode(TIME_LEN, last.time) + Encode(RANDOM_LEN, last.random)
  }

  function Advanced(last: Last, now: int, drawn: nat): Last {
    if now <= last.time then Last(last.time, (last.random + 1) % Pow32(RANDOM_LEN)) else Last(now, drawn)
  }

  /** The random part wraps when it is all ones and the clock has not moved on. */
  ghost predicate Wraps(last: Last, now: int) {
    now <= last.time && last.random == Pow32(RANDOM_LEN) - 1
  }

  /** Ids order by time, then by random part. */
  lemma IdsOrder(a: Last, b: Last)
    requires Fits(a) && Fits(b) && a.time >= 0 && b.time >= 0
    ensures Less(IdOf(a), IdOf(b)) <==> a.time < b.time || (a.time == b.time && a.random < b.random)
  {
    EncodingOrders(TIME_LEN, a.time, b.time);
    EncodingOrders(RANDOM_LEN, a.random, b.random);
    LessByHead(Encode(TIME_LEN, a.time), Encode(TIME_LEN, b.time), Encode(RANDOM_LEN, a.random),
               Encode(RANDOM_LEN, b.random));
  }

  lemma Incremented(x: nat, m: nat)
    requires x < m
    ensures (x + 1) % m == if x == m - 1 then 0 else x + 1
  {
  }

  /** The next id is greater exactly when the random part does not wrap, whatever the clock does. */
  lemma GreaterIff(last: Last, now: int, drawn: nat)
    requires Fits(last) && last.time >= 0 && 0 <= now < Pow32(TIME_LEN) && drawn < Pow32(RANDOM_LEN)
    ensures Fits(Advanced(last, now, drawn))
    ensures Less(IdOf(last), IdOf(Advanced(last, now, drawn))) <==> !Wraps(last, now)
  {
    Incremented(last.random, Pow32(RANDOM_LEN));
    IdsOrder(last, Advanced(last, now, drawn));
  }

  /** The time read from an id is the stored time. */
  lemma TimeReadsBack(last: Last)
    requires Fits(last) && last.time >= 0
    ensures TimeIn(IdOf(last)[..TIME_LEN]) == Some(last.time)
  {
    EncodedDecodes(TIME_LEN, last.time);
    assert IdOf(last)[..TIME_LEN] == Encode(TIME_LEN, last.time);
  }

  /** One call: the clock reading and the random bits it would draw. */
  datatype Call = Call(now: int, drawn: nat)

  function After(calls: seq<Call>): Last {
    if calls == [] then START
        else Advanced(After(calls[..|calls| - 1]), calls[|calls| - 1].now, calls[|calls| - 1].drawn)
  }

  ghost predicate InRange(calls: seq<Call>) {
    forall i | 0 <= i < |calls| :: 0 <= calls[i].now < Pow32(TIME_LEN) && calls[i].drawn < Pow32(RANDOM_LEN)
  }

  function Latest(calls: seq<Call>): int {
    if calls == [] then -1 else Max(Latest(calls[..|calls| - 1]), calls[|calls| - 1].now)
  }

  /** The time of the id is the largest clock reading so far. */
  lemma {:induction false} TimeIsLatest(calls: seq<Call>)
    requires InRange(calls) && calls != []
    ensures Fits(After(calls)) && After(calls).time == Latest(calls) >= 0
    ensures TimeIn(IdOf(After(calls))[..TIME_LEN]) == Some(Latest(calls))
  {
    var front := calls[..|calls| - 1];
    if front != [] {
      TimeIsLatest(front);
    } else {
      assert After(front) == START && calls[0].now >= 0;
    }
    TimeReadsBack(After(calls));
  }

  ghost predicate NeverWraps(calls: seq<Call>) {
    forall i | 0 < i < |calls| :: !Wraps(After(calls[..i]), calls[i].now)
  }

  lemma NextIsGreater(calls: seq<Call>, j: nat)
    requires InRange(calls) && NeverWraps(calls) && 1 < j <= |calls|
    ensures After(calls[..j - 1]).time >= 0 && After(calls[..j]).time >= 0
    ensures Less(IdOf(After(calls[..j - 1])), IdOf(After(calls[..j])))
  {
    TimeIsLatest(calls[..j]);
    TimeIsLatest(calls[..j - 1]);
    assert calls[..j][..j - 1] == calls[..j - 1];
    GreaterIff(After(calls[..j - 1]), calls[j - 1].now, calls[j - 1].drawn);
  }

  /** Two calls in one millisecond, the first of which drew all ones: the second id is smaller. */
  lemma WrapIsSmaller(now: nat) returns (calls: seq<Call>)
    requires now < Pow32(TIME_LEN)
    ensures InRange(calls) && |calls| == 2 && calls[0].now == calls[1].now == now
    ensures After(calls) == Last(now, 0) && Less(IdAfter(calls), IdAfter(calls[..1]))
  {
    calls := [Call(now, Pow32(RANDOM_LEN) - 1), Call(now, 0)];
    assert calls[..1] == [calls[0]] && calls[..1][..0] == [] && calls[..|calls| - 1] == calls[..1];
    assert After(calls[..1]) == Last(now, Pow32(RANDOM_LEN) - 1);
    Incremented(Pow32(RANDOM_LEN) - 1, Pow32(RANDOM_LEN));
    IdsOrder(After(calls), After(calls[..1]));
  }

  function IdAfter(calls: seq<Call>): string {
    if After(calls).time >= 0 then IdOf(After(calls)) else ""
  }

  /** Until a wrap, later ids are strictly greater than all earlier ones, for any clock. */
  lemma {:induction false} IdsIncrease(calls: seq<Call>, i: nat, j: nat)
    requires InRange(calls) && NeverWraps(calls) && 0 < i < j <= |calls|
    ensures Less(IdAfter(calls[..i]), IdAfter(calls[..j]))
    decreases j
  {
    NextIsGreater(calls, j);
    if i < j - 1 {
      IdsIncrease(calls, i, j - 1);
      LessChains(IdAfter(calls[..i]), IdAfter(calls[..j - 1]), IdAfter(calls[..j]));
    }
  }

  /** The module-level state behind `ulid`. */
  class Generator {
    var lastTime: int
    var lastRandom: nat

    constructor ()
      ensures State() == START
    {
      lastTime, lastRandom := -1, 0;
    }

    function State(): Last
      reads this
    {
      Last(lastTime, lastRandom)
    }

    /** `drawn` are the bits a new millisecond draws. */
    method Ulid(now: int, drawn: nat) returns (id: string)
      requires Fits(State()) && 0 <= now < Pow32(TIME_LEN) && drawn < Pow32(RANDOM_LEN)
      modifies this
      ensures Fits(State()) && State() == Advanced(old(State()), now, drawn) && lastTime >= 0 && id == IdOf(State())
      ensures old(lastTime) >= 0 ==> (Less(IdOf(old(State())), id) <==> !Wraps(old(State()), now))
    {
      if lastTime >= 0 {
        GreaterIff(State(), now, drawn);
      }
      if now <= lastTime {
        lastRandom := (lastRandom + 1) % Pow32(RANDOM_LEN);
      } else {
        lastTime := now;
        lastRandom := drawn;
      }
      var time := EncodeDigits(TIME_LEN, lastTime);
      var random := EncodeDigits(RANDOM_LEN, lastRandom);
      id := time + random;
    }
  }
}
