/** The string operations of Python's `str` that the archiver relies on. */
module Strings {
  import opened Wrappers

  predicate StartsWith(s: string, prefix: string) {
    |prefix| <= |s| && s[..|prefix|] == prefix
  }

  predicate EndsWith(s: string, suffix: string) {
    |suffix| <= |s| && s[|s| - |suffix|..] == suffix
  }

  predicate OccursAt(s: string, sub: string, i: int) {
    0 <= i && i + |sub| <= |s| && s[i..i + |sub|] == sub
  }

  /** Python's `sub in s`. */
  predicate Contains(s: string, sub: string) {
    exists i | 0 <= i <= |s| - |sub| :: OccursAt(s, sub, i)
  }

  /** The first position at or after `from` where `sub` occurs, as `str.find` reports it. */
  function FindFrom(s: string, sub: string, from: nat): (r: Option<nat>)
    requires sub != []
    decreases |s| - from
    ensures r.Some? ==> from <= r.value && OccursAt(s, sub, r.value)
    ensures r.Some? ==> forall j :: from <= j < r.value ==> !OccursAt(s, sub, j)
    ensures r.None? ==> forall j :: from <= j ==> !OccursAt(s, sub, j)
  {
    if from + |sub| > |s| then None
    else if s[from..from + |sub|] == sub then Some(from)
    else FindFrom(s, sub, from + 1)
  }

  /** Python's `s.split(sep)[0]`: the part of `s` before the first `sep`, or all of `s`. */
  function Before(s: string, sep: string): (r: string)
    requires sep != []
    ensures StartsWith(s, r)
    ensures !Contains(r, sep)
    ensures r == s || OccursAt(s, sep, |r|)
    ensures forall j | 0 <= j < |r| :: !OccursAt(s, sep, j)
  {
    match FindFrom(s, sep, 0)
    case None => s
    case Some(k) =>
      assert forall j | 0 <= j <= k - |sep| :: OccursAt(s[..k], sep, j) ==> OccursAt(s, sep, j);
      s[..k]
  }

  /** Python's `sep.join(parts)`. */
  function Join(sep: string, parts: seq<string>): string {
    if parts == [] then ""
    else if |parts| == 1 then parts[0]
    else parts[0] + sep + Join(sep, parts[1..])
  }

  lemma {:induction false} JoinAppend(sep: string, parts: seq<string>, last: string)
    requires parts != []
    ensures Join(sep, parts + [last]) == Join(sep, parts) + sep + last
  {
    if |parts| == 1 {
      assert parts + [last] == [parts[0], last];
    } else {
      assert (parts + [last])[1..] == parts[1..] + [last];
      JoinAppend(sep, parts[1..], last);
    }
  }

  lemma {:induction false} ConcatAppend(parts: seq<string>, last: string)
    ensures Join("", parts + [last]) == Join("", parts) + last
  {
    if parts == [] {
      assert parts + [last] == [last];
    } else {
      JoinAppend("", parts, last);
    }
  }

  /** Each part occurs in the joined string; `k` is where. */
  lemma {:induction false} JoinPartAt(sep: string, parts: seq<string>, i: nat) returns (k: nat)
    requires i < |parts|
    ensures OccursAt(Join(sep, parts), parts[i], k)
  {
    if |parts| == 1 {
      k := 0;
    } else if i == 0 {
      k := 0;
      var j := Join(sep, parts);
      assert j == parts[0] + (sep + Join(sep, parts[1..]));
      assert j[..|parts[0]|] == parts[0];
    } else {
      var rest := Join(sep, parts[1..]);
      var k' := JoinPartAt(sep, parts[1..], i - 1);
      var head := parts[0] + sep;
      k := |head| + k';
      assert Join(sep, parts) == head + rest;
      assert (head + rest)[k..k + |parts[i]|] == rest[k'..k' + |parts[i]|];
    }
  }

  /** A concatenation starts with its first part and ends with its last. */
  lemma Framed(head: string, middle: string, tail: string)
    ensures StartsWith(head + middle + tail, head) && EndsWith(head + middle + tail, tail)
  {
    var s := head + middle + tail;
    assert s[..|head|] == head;
    assert s[|s| - |tail|..] == tail;
  }

  lemma OccursAfter(a: string, b: string, sub: string, k: nat)
    requires OccursAt(b, sub, k)
    ensures OccursAt(a + b, sub, |a| + k)
  {
    assert (a + b)[|a| + k..|a| + k + |sub|] == b[k..k + |sub|];
  }

  /** A join of non-empty parts is empty exactly when there are no parts. */
  lemma JoinEmpty(sep: string, parts: seq<string>)
    requires forall i | 0 <= i < |parts| :: parts[i] != ""
    ensures Join(sep, parts) == "" <==> parts == []
  {
    if parts != [] {
      var k := JoinPartAt(sep, parts, 0);
    }
  }

  predicate IsDigit(c: char) { '0' <= c <= '9' }

  predicate IsDigits(s: string) { forall i | 0 <= i < |s| :: IsDigit(s[i]) }

  function DigitChar(d: nat): (c: char)
    requires d < 10
    ensures IsDigit(c) && c as int - '0' as int == d
  {
    ('0' as int + d) as char
  }

  /** Python's `int(s)` on a string of ASCII decimal digits. */
  function DigitsValue(s: string): nat
    requires IsDigits(s)
  {
    if s == [] then 0
    else DigitsValue(s[..|s| - 1]) * 10 + (s[|s| - 1] as int - '0' as int)
  }

  /** Python's `str(n)` for a natural number. */
  function Decimal(n: nat): (r: string)
    ensures r != [] && IsDigits(r)
  {
    if n < 10 then [DigitChar(n)] else Decimal(n / 10) + [DigitChar(n % 10)]
  }

  lemma {:induction false} DecimalValue(n: nat)
    ensures DigitsValue(Decimal(n)) == n
  {
    if n >= 10 {
      var s := Decimal(n);
      assert s[..|s| - 1] == Decimal(n / 10);
      DecimalValue(n / 10);
    }
  }

  function Zeros(k: nat): (r: string)
    ensures |r| == k && IsDigits(r) && forall i | 0 <= i < k :: r[i] == '0'
  {
    if k == 0 then "" else "0" + Zeros(k - 1)
  }

  lemma {:induction false} LeadingZeroValue(s: string)
    requires IsDigits(s)
    ensures IsDigits("0" + s) && DigitsValue("0" + s) == DigitsValue(s)
  {
    var t := "0" + s;
    assert IsDigits(t) by {
      assert forall i | 1 <= i < |t| :: t[i] == s[i - 1];
    }
    if s != [] {
      assert t[..|t| - 1] == "0" + s[..|s| - 1];
      LeadingZeroValue(s[..|s| - 1]);
    }
  }

  lemma {:induction false} ZerosValue(k: nat, s: string)
    requires IsDigits(s)
    ensures IsDigits(Zeros(k) + s) && DigitsValue(Zeros(k) + s) == DigitsValue(s)
  {
    if k > 0 {
      ZerosValue(k - 1, s);
      assert Zeros(k) + s == "0" + (Zeros(k - 1) + s);
      LeadingZeroValue(Zeros(k - 1) + s);
    } else {
      assert Zeros(k) + s == s;
    }
  }

  /** Python's `str(n).zfill(width)` for a natural number. */
  function ZFill(n: nat, width: nat): (r: string)
    ensures IsDigits(r) && DigitsValue(r) == n
    ensures |r| == if |Decimal(n)| >= width then |Decimal(n)| else width
    ensures EndsWith(r, Decimal(n)) && forall i | 0 <= i < |r| - |Decimal(n)| :: r[i] == '0'
  {
    var d := Decimal(n);
    DecimalValue(n);
    if |d| >= width then d
    else
      ZerosValue(width - |d|, d);
      var r := Zeros(width - |d|) + d;
      assert r[|r| - |d|..] == d;
      r
  }
}
