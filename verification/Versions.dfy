/** Versions of a plugin in order (plugin/service.go, compareSemver), and the one that is
    enabled when none is named. */
module Versions {
  import opened Text

  /** strconv.Atoi with its error dropped: 0 for what is no number, and the nearest number of
      64 bits for one that is too large. */
  function Lenient(s: string): int {
    var negative := s != "" && s[0] == '-';
    var body := if s != "" && s[0] in {'+', '-'} then s[1..] else s;
    match Digits(body)
    case None => 0
    case Some(n) =>
      var v: int := if negative then -(n as int) else n;
      if v < -0x8000_0000_0000_0000 then -0x8000_0000_0000_0000
      else if v >= 0x8000_0000_0000_0000 then 0x7fff_ffff_ffff_ffff
      else v
  }

  /** semverParts. */
  function Parts(version: string): (int, int, int) {
    var parts := SplitOn(SplitOn(TrimPrefix(TrimSpace(version), "v"), '-')[0], '.');
    (Lenient(parts[0]), if |parts| > 1 then Lenient(parts[1]) else 0, if |parts| > 2 then Lenient(parts[2]) else 0)
  }

  function Sign(a: int, b: int): int {
    if a > b then 1 else if a < b then -1 else 0
  }

  /** compareSemver: 1 if a is newer, -1 if b is, 0 if neither. */
  function CompareSemver(a: string, b: string): int {
    var (p, q) := (Parts(a), Parts(b));
    if p.0 != q.0 then Sign(p.0, q.0) else if p.1 != q.1 then Sign(p.1, q.1) else Sign(p.2, q.2)
  }

  const LIMIT: nat := 0x8000_0000_0000_0000

  /** A version number as it is written, perhaps with a v in front and with more behind a dash. */
  function Written(v: bool, a: nat, b: nat, c: nat, more: string): string {
    (if v then "v" else "") + (Numbers(a, b, c) + if more == "" then "" else "-" + more)
  }

  lemma NumberIsRead(n: nat)
    requires n < LIMIT
    ensures Lenient(Decimal(n)) == n
  {
    DigitsOfDecimal(n);
    DecimalDigits(n);
    assert Decimal(n)[0] in Decimal(n);
  }

  lemma ThreeParts(a: nat, b: nat, c: nat)
    ensures SplitOn(Decimal(a) + "." + (Decimal(b) + "." + Decimal(c)), '.') == [Decimal(a), Decimal(b), Decimal(c)]
  {
    DecimalDigits(a);
    DecimalDigits(b);
    DecimalDigits(c);
    SplitFirst(Decimal(a), Decimal(b) + "." + Decimal(c), '.');
    SplitFirst(Decimal(b), Decimal(c), '.');
    SplitOne(Decimal(c), '.');
  }

  function Numbers(a: nat, b: nat, c: nat): string {
    Decimal(a) + "." + (Decimal(b) + "." + Decimal(c))
  }

  lemma NumbersAreNumbers(a: nat, b: nat, c: nat)
    ensures IsNumbers(Numbers(a, b, c))
  {
    DecimalDigits(a);
    DecimalDigits(b);
    DecimalDigits(c);
  }

  predicate IsNumbers(s: string) {
    s != "" && forall x <- s :: '0' <= x <= '9' || x == '.'
  }

  lemma NoBlankEnds(v: bool, numbers: string, more: string)
    requires IsNumbers(numbers) && forall x <- more :: !IsSpace(x)
    ensures var s := (if v then "v" else "") + (numbers + if more == "" then "" else "-" + more); TrimSpace(s) == s
  {
    var s := (if v then "v" else "") + (numbers + if more == "" then "" else "-" + more);
    assert forall x <- s :: x == 'v' || x in numbers || x == '-' || x in more;
    assert s[0] in s && s[|s| - 1] in s;
    hide TrimSpace;
    TrimmedStays(s);
  }

  lemma PrefixIsCut(v: bool, numbers: string, behind: string)
    requires IsNumbers(numbers)
    ensures TrimPrefix((if v then "v" else "") + (numbers + behind), "v") == numbers + behind
  {
    var text := numbers + behind;
    assert numbers[0] in numbers && text[0] == numbers[0];
    if v {
      assert ("v" + text)[..1] == "v" && ("v" + text)[1..] == text;
    } else {
      assert "" + text == text && text[..1] == [numbers[0]];
    }
  }

  lemma NumbersAreFirst(numbers: string, more: string)
    requires IsNumbers(numbers)
    ensures SplitOn(numbers + if more == "" then "" else "-" + more, '-')[0] == numbers
  {
    hide SplitOn;
    if more == "" {
      assert numbers + "" == numbers;
      SplitOne(numbers, '-');
    } else {
      assert numbers + ("-" + more) == numbers + ['-'] + more;
      SplitFirst(numbers, more, '-');
    }
  }

  /** Every version that is written so stands for its three numbers. */
  lemma PartsAreRead(v: bool, a: nat, b: nat, c: nat, more: string)
    requires a < LIMIT && b < LIMIT && c < LIMIT && forall x <- more :: !IsSpace(x)
    ensures Parts(Written(v, a, b, c, more)) == (a, b, c)
  {
    NumbersAreNumbers(a, b, c);
    ThreeParts(a, b, c);
    NumberIsRead(a);
    NumberIsRead(b);
    NumberIsRead(c);
    var numbers := Numbers(a, b, c);
    var rest := if more == "" then "" else "-" + more;
    NoBlankEnds(v, numbers, more);
    PrefixIsCut(v, numbers, rest);
    NumbersAreFirst(numbers, more);
    hide Decimal, TrimSpace, TrimPrefix, SplitOn, Lenient, IsNumbers;
    assert Written(v, a, b, c, more) == (if v then "v" else "") + (numbers + rest);
  }

  /** The newer of two versions is the one with the greater first number, or with equal first numbers
      the greater second, or then the greater third; what is behind a dash does not matter. */
  lemma NewerIff(v: bool, a: nat, b: nat, c: nat, more: string, w: bool, d: nat, e: nat, f: nat, others: string)
    requires a < LIMIT && b < LIMIT && c < LIMIT && forall x <- more :: !IsSpace(x)
    requires d < LIMIT && e < LIMIT && f < LIMIT && forall x <- others :: !IsSpace(x)
    ensures CompareSemver(Written(v, a, b, c, more), Written(w, d, e, f, others)) > 0 <==>
              a > d || (a == d && (b > e || (b == e && c > f)))
    ensures CompareSemver(Written(v, a, b, c, more), Written(w, d, e, f, others)) == 0 <==> (a, b, c) == (d, e, f)
  {
    hide Parts, Written;
    PartsAreRead(v, a, b, c, more);
    PartsAreRead(w, d, e, f, others);
  }

  /** It is an order, up to versions that are equally new: either way round it says the opposite,
      and it goes on along chains. */
  lemma CompareIsOrder(a: string, b: string, c: string)
    ensures CompareSemver(a, b) == -CompareSemver(b, a)
    ensures CompareSemver(a, b) >= 0 && CompareSemver(b, c) >= 0 ==> CompareSemver(a, c) >= 0
    ensures CompareSemver(a, b) > 0 && CompareSemver(b, c) >= 0 ==> CompareSemver(a, c) > 0
    ensures CompareSemver(a, b) >= 0 && CompareSemver(b, c) > 0 ==> CompareSemver(a, c) > 0
  {
    hide Parts;
  }

  /** The record that a stable sort, newest first, puts in front. */
  ghost predicate InFront(records: seq<string>, i: nat) {
    i < |records| &&
    (forall j :: 0 <= j < |records| ==> CompareSemver(records[i], records[j]) >= 0) &&
    (forall j :: 0 <= j < i ==> CompareSemver(records[i], records[j]) > 0)
  }

  /** There is just one. */
  lemma InFrontIsUnique(records: seq<string>, i: nat, j: nat)
    requires InFront(records, i) && InFront(records, j)
    ensures i == j
  {
    hide CompareSemver;
    CompareIsOrder(records[i], records[j], records[i]);
  }

  /** The newest of the versions that may be enabled, of equally new ones the first. */
  method Newest(records: seq<string>) returns (r: Option<nat>)
    ensures r.None? <==> records == []
    ensures r.Some? ==> InFront(records, r.value)
  {
    hide CompareSemver;
    if records == [] { return None; }
    var best: nat := 0;
    CompareIsOrder(records[0], records[0], records[0]);
    for i := 1 to |records|
      invariant best < i
      invariant forall j :: 0 <= j < i ==> CompareSemver(records[best], records[j]) >= 0
      invariant forall j :: 0 <= j < best ==> CompareSemver(records[best], records[j]) > 0
    {
      CompareIsOrder(records[i], records[best], records[i]);
      CompareIsOrder(records[i], records[i], records[i]);
      if CompareSemver(records[i], records[best]) > 0 {
        forall j | 0 <= j < i ensures CompareSemver(records[i], records[j]) > 0 {
          CompareIsOrder(records[i], records[best], records[j]);
        }
        best := i;
      }
    }
    return Some(best);
  }
}
