/** The prefixed, time-sortable identifiers of packages/shared/src/ids.ts. */
module SortableIds {
  import opened Options

  const ALPHABET := "0123456789ABCDEFGHJKMNPQRSTVWXYZ"
  const TIME_LENGTH := 10
  const RANDOM_LENGTH := 12

  // ----- digits

  /** The alphabet follows the order of its characters. */
  lemma AlphabetAscends(i: nat, j: nat)
    requires i < j < 32
    ensures Symbol(i) < Symbol(j)
  {
    if i + 1 < j {
      AlphabetAscends(i, j - 1);
    }
    NextAscends(j - 1);
  }

  lemma NextAscends(i: nat)
    requires i < 31
    ensures Symbol(i) < Symbol(i + 1)
  {
  }

  function IndexOf(c: char, from: nat): (index: int)
    requires from <= 32
    ensures index == -1 || (from <= index < 32 && Symbol(index) == c)
    ensures index == -1 <==> forall i :: from <= i < 32 ==> Symbol(i) != c
    decreases 32 - from
  {
    if from == 32 then -1 else if Symbol(from) == c then from else IndexOf(c, from + 1)
  }

  function Symbol(d: nat): char
    requires d < 32
  {
    ALPHABET[d]
  }

  predicate IsDigit(c: char) {
    exists d :: 0 <= d < 32 && Symbol(d) == c
  }

  function Digit(c: char): (d: nat)
    requires IsDigit(c)
    ensures d < 32 && Symbol(d) == c
  {
    IndexOf(c, 0)
  }

  lemma IndexIsDigit(c: char)
    ensures IndexOf(c, 0) >= 0 <==> IsDigit(c)
    ensures IsDigit(c) ==> Digit(c) == IndexOf(c, 0)
  {
    if IndexOf(c, 0) >= 0 {
      assert Symbol(IndexOf(c, 0)) == c;
    }
  }

  lemma IndexOfDigit(d: nat)
    requires d < 32
    ensures Digit(Symbol(d)) == d
  {
    var i := Digit(Symbol(d));
    if i < d {
      AlphabetAscends(i, d);
    } else if d < i {
      AlphabetAscends(d, i);
    }
  }

  /** The last `length` base-32 digits of a number. */
  function Digits(n: nat, length: nat): (s: string)
    ensures |s| == length && forall i :: 0 <= i < length ==> IsDigit(s[i])
  {
    if length == 0 then "" else Digits(n / 32, length - 1) + [Symbol(n % 32)]
  }

  function Value(s: string): nat
    requires forall i :: 0 <= i < |s| ==> IsDigit(s[i])
  {
    if s == "" then 0 else Value(s[..|s| - 1]) * 32 + Digit(s[|s| - 1])
  }

  function Power(k: nat): (p: nat)
    ensures p >= 1
  {
    if k == 0 then 1 else 32 * Power(k - 1)
  }

  lemma {:induction false} DigitsAreTrue(n: nat, length: nat)
    ensures Value(Digits(n, length)) == n % Power(length)
  {
    hide Symbol;
    if length > 0 {
      var s := Digits(n, length);
      assert s[..length - 1] == Digits(n / 32, length - 1);
      DigitsAreTrue(n / 32, length - 1);
      IndexOfDigit(n % 32);
      OneMoreDigit(n, Power(length - 1));
    }
  }

  lemma OneMoreDigit(n: nat, p: nat)
    requires p >= 1
    ensures n % (32 * p) == (n / 32) % p * 32 + n % 32
  {
    var q, r := (n / 32) / p, (n / 32) % p;
    assert n / 32 == q * p + r;
    assert n == q * (32 * p) + (r * 32 + n % 32);
    Remainder(n, 32 * p, q, r * 32 + n % 32);
  }

  lemma Remainder(n: nat, m: nat, q: nat, r: nat)
    requires r < m && n == q * m + r
    ensures n % m == r
  {
    var d, e := n / m, n % m;
    assert n == d * m + e;
    Spread(d, q, m);
    if d < q {
      AtLeastOnce(q - d, m);
    } else if q < d {
      AtLeastOnce(d - q, m);
    }
  }

  lemma Spread(d: int, q: int, m: int)
    ensures (d - q) * m == d * m - q * m
  {
  }

  lemma AtLeastOnce(k: nat, m: nat)
    requires k >= 1
    ensures k * m >= m
  {
  }

  // ----- order of texts

  /** `a` before `b`, as strings compare: at the first place they differ. */
  ghost predicate Before(a: string, b: string) {
    exists p :: DecidesAt(a, b, p)
  }

  ghost predicate DecidesAt(a: string, b: string, p: nat) {
    p <= |a| && p < |b| && a[..p] == b[..p] && (p == |a| || a[p] < b[p])
  }

  lemma BeforeIsStrict(a: string, b: string)
    requires Before(a, b)
    ensures !Before(b, a)
  {
    var p: nat :| DecidesAt(a, b, p);
    forall q: nat ensures !DecidesAt(b, a, q) {
      if q < p && q < |a| {
        assert a[q] == a[..p][q] && b[q] == b[..p][q];
      } else if p < q && q <= |a| && q <= |b| {
        assert a[..q][p] == a[p] && b[..q][p] == b[p];
      }
    }
  }

  /** Numbers that fit are in the order of their digits. */
  lemma {:induction false} DigitsAscend(n: nat, m: nat, length: nat) returns (p: nat)
    requires n < m < Power(length)
    ensures p < length && DecidesAt(Digits(n, length), Digits(m, length), p)
  {
    hide Symbol;
    var a, b := Digits(n / 32, length - 1), Digits(m / 32, length - 1);
    if n / 32 < m / 32 {
      p := DigitsAscend(n / 32, m / 32, length - 1);
      assert Digits(n, length)[..p] == a[..p] && Digits(m, length)[..p] == b[..p];
    } else {
      p := length - 1;
      AlphabetAscends(n % 32, m % 32);
      assert Digits(n, length)[..p] == a && Digits(m, length)[..p] == b;
    }
  }

  // ----- identifiers

  /** Negative times count as zero. */
  function Clamped(ms: int): nat {
    if ms < 0 then 0 else ms
  }

  /** The twelve characters the random bytes give. */
  function RandomChars(bytes: seq<nat>): (s: string)
    ensures |s| == |bytes| && forall i :: 0 <= i < |s| ==> IsDigit(s[i])
  {
    if bytes == [] then "" else RandomChars(bytes[..|bytes| - 1]) + [Symbol(bytes[|bytes| - 1] % 32)]
  }

  /** Each byte shows as the character of its last five bits. */
  lemma {:induction false} BytesShow(bytes: seq<nat>, i: nat)
    requires i < |bytes|
    ensures RandomChars(bytes)[i] == Symbol(bytes[i] % 32)
  {
    hide Symbol;
    var n := |bytes| - 1;
    if i < n {
      BytesShow(bytes[..n], i);
    }
  }

  /** The digits are the figures and the capitals but I, L, O and U. */
  lemma AlphabetIsPlain(c: char)
    ensures IsDigit(c) <==> Plain(c)
  {
    if Plain(c) {
      PlainIsDigit(c);
    } else {
      forall d | 0 <= d < 32 ensures Symbol(d) != c {
        SymbolIsPlain(d);
      }
    }
  }

  predicate Plain(c: char) {
    '0' <= c <= '9' || ('A' <= c <= 'Z' && c != 'I' && c != 'L' && c != 'O' && c != 'U')
  }

  lemma SymbolIsPlain(d: nat)
    requires d < 32
    ensures Plain(Symbol(d))
  {
  }

  lemma PlainIsDigit(c: char)
    requires Plain(c)
    ensures IsDigit(c)
  {
    var d := if c <= '9' then 48 else if c <= 'H' then 55 else if c <= 'K' then 56 else if c <= 'N' then 57
             else if c <= 'T' then 58 else 59;
    assert Symbol(c as int - d) == c;
  }

  function NewId(prefix: string, ms: int, bytes: seq<nat>): string {
    prefix + "_" + Digits(Clamped(ms), TIME_LENGTH) + RandomChars(bytes)
  }

  method EncodeTime(ms: int) returns (out: string)
    ensures out == Digits(Clamped(ms), TIME_LENGTH)
  {
    var remaining := if ms < 0 then 0 else ms;
    out := "";
    for i := 0 to TIME_LENGTH
      invariant remaining >= 0
      invariant Digits(Clamped(ms), TIME_LENGTH) == Digits(remaining, TIME_LENGTH - i) + out
    {
      out := [Symbol(remaining % 32)] + out;
      remaining := remaining / 32;
    }
  }

  /** Whether `id` is well formed under a prefix. */
  method IsId(prefix: string, id: string) returns (ok: bool)
    ensures ok <==> exists body :: id == prefix + "_" + body && WellFormedBody(body)
  {
    var start := prefix + "_";
    if !(start <= id) {
      return false;
    }
    var body := id[|start|..];
    assert id == start + body;
    assert forall other :: id == start + other ==> other == id[|start|..];
    if |body| != TIME_LENGTH + RANDOM_LENGTH {
      return false;
    }
    for i := 0 to |body|
      invariant forall j :: 0 <= j < i ==> IsDigit(body[j])
    {
      if IndexOf(body[i], 0) < 0 {
        return false;
      }
    }
    return true;
  }

  predicate WellFormedBody(body: string) {
    |body| == TIME_LENGTH + RANDOM_LENGTH && forall i :: 0 <= i < |body| ==> IsDigit(body[i])
  }

  /** What follows the first underscore, or all of an id that has none. */
  function Body(id: string): string {
    id[AfterUnderscore(id, 0)..]
  }

  function AfterUnderscore(id: string, from: nat): (start: nat)
    requires from <= |id|
    ensures start <= |id|
    decreases |id| - from
  {
    if from == |id| then 0 else if id[from] == '_' then from + 1 else AfterUnderscore(id, from + 1)
  }

  predicate HasTime(id: string) {
    |Body(id)| >= TIME_LENGTH && forall i :: 0 <= i < TIME_LENGTH ==> IsDigit(Body(id)[i])
  }

  method IdTimestamp(id: string) returns (time: Option<nat>)
    ensures time == if HasTime(id) then Some(Value(Body(id)[..TIME_LENGTH])) else None
  {
    hide Symbol;
    hide IsDigit;
    var body := Body(id);
    if |body| < TIME_LENGTH {
      return None;
    }
    var ms := 0;
    for i := 0 to TIME_LENGTH
      invariant forall j :: 0 <= j < i ==> IsDigit(body[j])
      invariant ms == Value(body[..i])
    {
      var index := IndexOf(body[i], 0);
      IndexIsDigit(body[i]);
      if index < 0 {
        return None;
      }
      assert body[..i + 1][..i] == body[..i];
      ms := ms * 32 + index;
    }
    return Some(ms);
  }

  predicate PlainPrefix(prefix: string) {
    '_' !in prefix
  }

  lemma {:induction false} SkipsPrefix(prefix: string, rest: string, from: nat)
    requires PlainPrefix(prefix) && from <= |prefix|
    ensures AfterUnderscore(prefix + "_" + rest, from) == |prefix| + 1
    decreases |prefix| - from
  {
    var id := prefix + "_" + rest;
    if from < |prefix| {
      assert id[from] == prefix[from];
      SkipsPrefix(prefix, rest, from + 1);
    }
  }

  /** The body is what follows the first underscore, whatever stands there, and all of an
      id without one. */
  lemma BodyFollows(prefix: string, rest: string)
    requires PlainPrefix(prefix)
    ensures Body(prefix + "_" + rest) == rest && Body(prefix) == prefix
  {
    SkipsPrefix(prefix, rest, 0);
    assert (prefix + "_" + rest)[|prefix| + 1..] == rest;
    NothingToSkip(prefix, 0);
  }

  lemma {:induction false} NothingToSkip(id: string, from: nat)
    requires PlainPrefix(id) && from <= |id|
    ensures AfterUnderscore(id, from) == 0
    decreases |id| - from
  {
    if from < |id| {
      NothingToSkip(id, from + 1);
    }
  }

  /** Ten digits tell so many milliseconds apart. */
  lemma TenDigits()
    ensures Power(10) == 1_125_899_906_842_624
  {
    assert Power(2) == 1_024;
    assert Power(4) == 32 * (32 * Power(2));
    assert Power(6) == 32 * (32 * Power(4));
    assert Power(8) == 32 * (32 * Power(6));
    assert Power(10) == 32 * (32 * Power(8));
  }

  /** An id tells when it was made: the time comes back exactly when it is a whole
      number of milliseconds from 0 up to 32 to the tenth. */
  lemma TimeRoundTrips(prefix: string, ms: int, bytes: seq<nat>)
    requires PlainPrefix(prefix)
    ensures var id := NewId(prefix, ms, bytes);
            HasTime(id) && (Value(Body(id)[..TIME_LENGTH]) == ms <==> 0 <= ms < Power(TIME_LENGTH))
  {
    var time, tail := Digits(Clamped(ms), TIME_LENGTH), RandomChars(bytes);
    var id := NewId(prefix, ms, bytes);
    assert id == prefix + "_" + (time + tail);
    SkipsPrefix(prefix, time + tail, 0);
    assert Body(id) == time + tail;
    assert Body(id)[..TIME_LENGTH] == time;
    DigitsAreTrue(Clamped(ms), TIME_LENGTH);
    BelowIsItself(Clamped(ms), Power(TIME_LENGTH));
  }

  lemma BelowIsItself(n: nat, m: nat)
    requires m > 0
    ensures n % m == n <==> n < m
  {
  }

  /** An id is accepted under its own prefix and under no other. */
  lemma IdsKnowTheirKind(prefix: string, other: string, ms: int, bytes: seq<nat>)
    requires PlainPrefix(prefix) && PlainPrefix(other) && |bytes| == RANDOM_LENGTH
    ensures (exists body :: NewId(prefix, ms, bytes) == other + "_" + body && WellFormedBody(body)) <==> prefix == other
  {
    hide Symbol;
    hide IsDigit;
    hide Digits;
    hide RandomChars;
    hide AfterUnderscore;
    var id, mine := NewId(prefix, ms, bytes), Digits(Clamped(ms), TIME_LENGTH) + RandomChars(bytes);
    assert id == prefix + "_" + mine;
    SkipsPrefix(prefix, mine, 0);
    forall body | id == other + "_" + body ensures prefix == other {
      SkipsPrefix(other, body, 0);
      assert prefix == id[..|prefix|] && other == id[..|other|];
    }
    assert WellFormedBody(mine);
  }

  /** Ids of one kind sort by time, whatever their random parts. */
  lemma IdsSortByTime(prefix: string, early: nat, late: nat, a: seq<nat>, b: seq<nat>)
    requires early < Power(TIME_LENGTH) && late < Power(TIME_LENGTH) && early != late
    ensures Before(NewId(prefix, early, a), NewId(prefix, late, b)) <==> early < late
  {
    if early < late {
      EarlierSortsFirst(prefix, early, late, a, b);
    } else {
      EarlierSortsFirst(prefix, late, early, b, a);
      BeforeIsStrict(NewId(prefix, late, b), NewId(prefix, early, a));
    }
  }

  lemma EarlierSortsFirst(prefix: string, early: nat, late: nat, a: seq<nat>, b: seq<nat>)
    requires early < late < Power(TIME_LENGTH)
    ensures Before(NewId(prefix, early, a), NewId(prefix, late, b))
  {
    var x, y := NewId(prefix, early, a), NewId(prefix, late, b);
    var dx, dy := Digits(early, TIME_LENGTH), Digits(late, TIME_LENGTH);
    var p := DigitsAscend(early, late, TIME_LENGTH);
    var at := |prefix| + 1 + p;
    assert x[..at] == prefix + "_" + dx[..p] && y[..at] == prefix + "_" + dy[..p];
    assert x[at] == dx[p] && y[at] == dy[p];
    assert DecidesAt(x, y, at);
  }
}
