/**
 * The duration text of the uptime API: `formatDurationFull` writes a number
 * of seconds as space-separated units ("1d 2h 3m 4s"), and
 * `parseDurationToSecs` adds such units back up (api/main.go:191-236).
 */
module Duration {
  import opened Wrappers
  import opened GoInt
  import opened Decimal

  const SecondsPerDay: int := 86400
  const SecondsPerHour: int := 3600
  const SecondsPerMinute: int := 60

  /** Go's `unicode.IsSpace`, the separator test of `strings.Fields`. */
  predicate IsSpace(c: char) {
    var n := c as int;
    n == 0x20 || 0x09 <= n <= 0x0D || n == 0x85 || n == 0xA0 || n == 0x1680
    || 0x2000 <= n <= 0x200A || n == 0x2028 || n == 0x2029 || n == 0x202F
    || n == 0x205F || n == 0x3000
  }

  /** A field as `strings.Fields` returns it: non-empty, without white space. */
  predicate IsWord(w: string) {
    w != [] && forall i :: 0 <= i < |w| ==> !IsSpace(w[i])
  }

  function DropSpaces(s: string): (r: string)
    ensures |r| <= |s|
    ensures r == [] || !IsSpace(r[0])
  {
    if s != [] && IsSpace(s[0]) then DropSpaces(s[1..]) else s
  }

  function WordLength(s: string): (k: nat)
    ensures k <= |s|
    ensures s != [] && !IsSpace(s[0]) ==> k > 0
    ensures forall i :: 0 <= i < k ==> !IsSpace(s[i])
  {
    if s != [] && !IsSpace(s[0]) then 1 + WordLength(s[1..]) else 0
  }

  /** `strings.Fields`: the maximal runs of non-space characters, in order. */
  function Fields(s: string): (r: seq<string>)
    ensures forall i :: 0 <= i < |r| ==> IsWord(r[i])
    decreases |s|
  {
    var t := DropSpaces(s);
    if t == [] then []
    else
      var k := WordLength(t);
      [t[..k]] + Fields(t[k..])
  }

  /** `strings.Join(parts, " ")`. */
  function Join(parts: seq<string>): string {
    if |parts| == 0 then ""
    else if |parts| == 1 then parts[0]
    else parts[0] + " " + Join(parts[1..])
  }

  /** Seconds per unit letter; 0 for any other final letter, which adds nothing. */
  function UnitSeconds(u: char): int {
    if u == 'd' then SecondsPerDay
    else if u == 'h' then SecondsPerHour
    else if u == 'm' then SecondsPerMinute
    else if u == 's' then 1
    else 0
  }

  /**
   * What one field adds to the total: the number `fmt.Sscanf(part, "%d<u>")`
   * stores (0 when the scan fails before storing) times the seconds of the
   * final unit letter, as an int64 product.
   */
  function PartValue(part: string): Int64 {
    if part == [] then 0
    else Wrap64(ScanInt(part).GetOr(0) * UnitSeconds(part[|part| - 1]))
  }

  /** The running int64 total after adding the fields of `parts` to `acc`, left to right. */
  function SumFrom(acc: Int64, parts: seq<string>): Int64
    decreases |parts|
  {
    if parts == [] then acc else SumFrom(Wrap64(acc + PartValue(parts[0])), parts[1..])
  }

  /** The value `parseDurationToSecs` computes for `s`. */
  function ParseDuration(s: string): Int64 {
    SumFrom(0, Fields(s))
  }

  predicate EndsWith(s: string, u: char) {
    s != [] && s[|s| - 1] == u
  }

  /** The contribution of a field, case by case on its final letter as the source tests it. */
  lemma PartValueByUnit(part: string)
    ensures EndsWith(part, 'd') ==> PartValue(part) == Wrap64(ScanInt(part).GetOr(0) * 86400)
    ensures !EndsWith(part, 'd') && EndsWith(part, 'h') ==> PartValue(part) == Wrap64(ScanInt(part).GetOr(0) * 3600)
    ensures !EndsWith(part, 'd') && !EndsWith(part, 'h') && EndsWith(part, 'm')
            ==> PartValue(part) == Wrap64(ScanInt(part).GetOr(0) * 60)
    ensures !EndsWith(part, 'd') && !EndsWith(part, 'h') && !EndsWith(part, 'm') && EndsWith(part, 's')
            ==> PartValue(part) == ScanInt(part).GetOr(0)
    ensures !EndsWith(part, 'd') && !EndsWith(part, 'h') && !EndsWith(part, 'm') && !EndsWith(part, 's')
            ==> PartValue(part) == 0
  {
  }

  /** Folding from field `i` is adding field `i`, then folding from field `i + 1`. */
  lemma SumFromStep(acc: Int64, parts: seq<string>, i: int, add: Int64)
    requires 0 <= i < |parts| && add == PartValue(parts[i])
    ensures SumFrom(acc, parts[i..]) == SumFrom(Wrap64(acc + add), parts[i + 1..])
  {
    assert parts[i..][1..] == parts[i + 1..];
  }

  /** parseDurationToSecs (api/main.go:191-211): accumulates the fields of `s` into `total`. */
  method ParseDurationToSecs(s: string) returns (total: Int64)
    ensures total == ParseDuration(s)
  {
    total := 0;
    var parts := Fields(s);
    for i := 0 to |parts|
      invariant SumFrom(total, parts[i..]) == SumFrom(0, parts)
    {
      var part := parts[i];
      var val: Int64 := 0;
      var add: Int64 := 0;
      if EndsWith(part, 'd') {
        val := ScanInt(part).GetOr(0);
        add := Wrap64(val * 86400);
      } else if EndsWith(part, 'h') {
        val := ScanInt(part).GetOr(0);
        add := Wrap64(val * 3600);
      } else if EndsWith(part, 'm') {
        val := ScanInt(part).GetOr(0);
        add := Wrap64(val * 60);
      } else if EndsWith(part, 's') {
        val := ScanInt(part).GetOr(0);
        add := val;
      }
      PartValueByUnit(part);
      SumFromStep(total, parts, i, add);
      total := Wrap64(total + add);
    }
  }

  /** The fields `formatDurationFull` joins, in the order it appends them. */
  function DurationParts(seconds: Int64): seq<string> {
    var days := Quo(seconds, SecondsPerDay);
    var afterDays := Rem(seconds, SecondsPerDay);
    var hours := Quo(afterDays, SecondsPerHour);
    var afterHours := Rem(afterDays, SecondsPerHour);
    PartsOf(days, hours, Quo(afterHours, SecondsPerMinute), Rem(afterHours, SecondsPerMinute))
  }

  /** The fields for given amounts of each unit: each positive unit, and the seconds also when nothing precedes them. */
  function PartsOf(days: int, hours: int, minutes: int, secs: int): seq<string> {
    var withDays := if days > 0 then [IntToDecimal(days) + "d"] else [];
    var withHours := withDays + if hours > 0 then [IntToDecimal(hours) + "h"] else [];
    var withMinutes := withHours + if minutes > 0 then [IntToDecimal(minutes) + "m"] else [];
    if secs > 0 || withMinutes == [] then withMinutes + [IntToDecimal(secs) + "s"] else withMinutes
  }

  /** formatDurationFull (api/main.go:213-236). */
  function FormatDurationFull(seconds: Int64): (r: string)
    ensures seconds == 0 ==> r == "0s"
  {
    Join(DurationParts(seconds))
  }

  /**
   * formatDurationFull (api/main.go:213-236) statement by statement:
   * peel off days, hours and minutes with Go's `/` and `%=`, appending each
   * unit that is positive, then the seconds when positive or when nothing
   * was appended.
   */
  method FormatDuration(seconds: Int64) returns (text: string)
    ensures text == FormatDurationFull(seconds)
    ensures seconds == 0 ==> text == "0s"
  {
    var rest := seconds;
    var days := Quo(rest, SecondsPerDay);
    rest := Rem(rest, SecondsPerDay);
    var hours := Quo(rest, SecondsPerHour);
    rest := Rem(rest, SecondsPerHour);
    var minutes := Quo(rest, SecondsPerMinute);
    rest := Rem(rest, SecondsPerMinute);

    var parts: seq<string> := [];
    if days > 0 {
      parts := parts + [IntToDecimal(days) + "d"];
    }
    assert parts == if days > 0 then [IntToDecimal(days) + "d"] else [];
    if hours > 0 {
      parts := parts + [IntToDecimal(hours) + "h"];
    }
    if minutes > 0 {
      parts := parts + [IntToDecimal(minutes) + "m"];
    }
    if rest > 0 || |parts| == 0 {
      parts := parts + [IntToDecimal(rest) + "s"];
    }
    assert parts == DurationParts(seconds);
    text := Join(parts);
  }

  /** One unit as `formatDurationFull` prints it, e.g. "12h". */
  function Token(v: nat, u: char): string {
    NatToDecimal(v) + [u]
  }

  /** The token for `v` if it is present, else nothing. */
  function Unit(v: nat, u: char): seq<string> {
    if v > 0 then [Token(v, u)] else []
  }

  // ---------------------------------------------------------------- lemmas

  lemma {:induction false} DropSpacesOfSpace(s: string)
    ensures DropSpaces(" " + s) == DropSpaces(s)
  {
    assert (" " + s)[1..] == s;
  }

  lemma {:induction false} WordLengthOfWord(w: string, rest: string)
    requires forall i :: 0 <= i < |w| ==> !IsSpace(w[i])
    requires rest == [] || IsSpace(rest[0])
    ensures WordLength(w + rest) == |w|
    decreases |w|
  {
    if w == [] {
      assert w + rest == rest;
    } else {
      assert (w + rest)[1..] == w[1..] + rest;
      WordLengthOfWord(w[1..], rest);
    }
  }

  /** Splitting what `Join` built gives back the words. */
  lemma {:induction false} FieldsOfJoin(parts: seq<string>)
    requires forall i :: 0 <= i < |parts| ==> IsWord(parts[i])
    ensures Fields(Join(parts)) == parts
    decreases |parts|
  {
    if |parts| == 1 {
      FieldsOfWord(parts[0]);
    } else if |parts| > 1 {
      FieldsOfWordThenText(parts[0], Join(parts[1..]));
      FieldsOfJoin(parts[1..]);
      assert parts == [parts[0]] + parts[1..];
    }
  }

  /** A single word is its only field. */
  lemma FieldsOfWord(w: string)
    requires IsWord(w)
    ensures Fields(w) == [w]
  {
    assert w + [] == w;
    WordLengthOfWord(w, []);
    assert w[|w|..] == [];
  }

  /** A word, a space and more text: the word is the first field, the fields of the text follow. */
  lemma FieldsOfWordThenText(w: string, rest: string)
    requires IsWord(w)
    ensures Fields(w + " " + rest) == [w] + Fields(rest)
  {
    var s := w + " " + rest;
    assert s == w + (" " + rest);
    WordLengthOfWord(w, " " + rest);
    assert DropSpaces(s) == s;
    assert s[..|w|] == w;
    assert s[|w|..] == " " + rest;
    DropSpacesOfSpace(rest);
    assert Fields(" " + rest) == Fields(rest);
  }

  lemma {:induction false} SumFromAppend(acc: Int64, a: seq<string>, b: seq<string>)
    ensures SumFrom(acc, a + b) == SumFrom(SumFrom(acc, a), b)
    decreases |a|
  {
    if a == [] {
      assert a + b == b;
    } else {
      var next := Wrap64(acc + PartValue(a[0]));
      assert (a + b)[0] == a[0] && (a + b)[1..] == a[1..] + b;
      assert SumFrom(acc, a + b) == SumFrom(next, a[1..] + b);
      SumFromAppend(next, a[1..], b);
    }
  }

  lemma TokenValue(v: nat, u: char, amount: int)
    requires u == 'd' || u == 'h' || u == 'm' || u == 's'
    requires amount == v * UnitSeconds(u) && amount <= MaxInt64
    ensures PartValue(Token(v, u)) == amount
  {
    assert v <= amount;
    ScanDecimal(v, [u]);
  }

  lemma SumFromToken(acc: Int64, v: nat, u: char, amount: int, present: bool)
    requires u == 'd' || u == 'h' || u == 'm' || u == 's'
    requires present || v == 0
    requires amount == v * UnitSeconds(u)
    requires 0 <= acc && acc + amount <= MaxInt64
    ensures SumFrom(acc, if present then [Token(v, u)] else []) == acc + amount
  {
    if present {
      TokenValue(v, u, amount);
      assert [Token(v, u)][1..] == [];
    }
  }

  /** The fields for `d` days, `h` hours, `m` minutes and `s` seconds. */
  function CanonicalParts(d: nat, h: nat, m: nat, s: nat): seq<string> {
    Unit(d, 'd') + Unit(h, 'h') + Unit(m, 'm')
    + (if s > 0 || d + h + m == 0 then [Token(s, 's')] else [])
  }

  /** The fields of a non-negative duration are those of its canonical units. */
  lemma DurationPartsCanonical(n: Int64, d: nat, h: nat, m: nat, s: nat)
    requires n == d * 86400 + h * 3600 + m * 60 + s
    requires h < 24 && m < 60 && s < 60
    ensures DurationParts(n) == CanonicalParts(d, h, m, s)
  {
    var afterDays := Rem(n, SecondsPerDay);
    var afterHours := Rem(afterDays, SecondsPerHour);
    assert DurationParts(n) == PartsOf(Quo(n, SecondsPerDay), Quo(afterDays, SecondsPerHour),
                                       Quo(afterHours, SecondsPerMinute), Rem(afterHours, SecondsPerMinute));
    QuoRemOf(n, SecondsPerDay, d, h * 3600 + m * 60 + s);
    QuoRemOf(afterDays, SecondsPerHour, h, m * 60 + s);
    QuoRemOf(afterHours, SecondsPerMinute, m, s);
    PartsOfCanonical(d, h, m, s);
  }

  lemma PartsOfCanonical(d: nat, h: nat, m: nat, s: nat)
    ensures PartsOf(d, h, m, s) == CanonicalParts(d, h, m, s)
  {
    var withDays := if d > 0 then [IntToDecimal(d) + "d"] else [];
    var withHours := withDays + if h > 0 then [IntToDecimal(h) + "h"] else [];
    var withMinutes := withHours + if m > 0 then [IntToDecimal(m) + "m"] else [];
    assert withMinutes == Unit(d, 'd') + Unit(h, 'h') + Unit(m, 'm');
    assert withMinutes == [] <==> d + h + m == 0;
  }

  /** Go's `/` and `%` of `q * k + r`, with `0 <= r < k`, are `q` and `r`. */
  lemma QuoRemOf(n: int, k: int, q: nat, r: nat)
    requires 0 <= r < k && n == q * k + r
    ensures Quo(n, k) == q && Rem(n, k) == r
  {
    var q', r' := n / k, n % k;
    assert (q' - q) * k == r - r';
    if q' > q {
      MulAtLeast(q' - q, k);
    } else if q' < q {
      MulAtLeast(q - q', k);
    }
  }

  lemma {:induction false} MulAtLeast(a: nat, k: nat)
    requires a >= 1
    ensures a * k >= k
  {
    if a > 1 {
      MulAtLeast(a - 1, k);
      assert a * k == (a - 1) * k + k;
    }
  }

  /**
   * The shape of the text: only the non-zero units, in the order d, h, m, s,
   * with hours below 24 and minutes and seconds below 60; "0s" for zero.
   */
  lemma FormatCanonical(n: Int64, d: nat, h: nat, m: nat, s: nat)
    requires n == d * 86400 + h * 3600 + m * 60 + s
    requires h < 24 && m < 60 && s < 60
    ensures FormatDurationFull(n)
            == Join(Unit(d, 'd') + Unit(h, 'h') + Unit(m, 'm')
                    + (if s > 0 || d + h + m == 0 then [Token(s, 's')] else []))
  {
    DurationPartsCanonical(n, d, h, m, s);
  }

  lemma CanonicalPartsAreWords(d: nat, h: nat, m: nat, s: nat)
    ensures forall i :: 0 <= i < |CanonicalParts(d, h, m, s)| ==> IsWord(CanonicalParts(d, h, m, s)[i])
  {
    var a, b, c := Unit(d, 'd'), Unit(h, 'h'), Unit(m, 'm');
    var e := if s > 0 || d + h + m == 0 then [Token(s, 's')] else [];
    var parts := CanonicalParts(d, h, m, s);
    forall i | 0 <= i < |parts| ensures IsWord(parts[i]) {
      assert parts[i] in a || parts[i] in b || parts[i] in c || parts[i] in e;
    }
  }

  lemma CanonicalPartsSum(d: nat, h: nat, m: nat, s: nat)
    requires h < 24 && m < 60 && s < 60
    requires d * 86400 + h * 3600 + m * 60 + s <= MaxInt64
    ensures SumFrom(0, CanonicalParts(d, h, m, s)) == d * 86400 + h * 3600 + m * 60 + s
  {
    var a, b, c := Unit(d, 'd'), Unit(h, 'h'), Unit(m, 'm');
    var e := if s > 0 || d + h + m == 0 then [Token(s, 's')] else [];
    assert CanonicalParts(d, h, m, s) == a + b + c + e;
    SumFromToken(0, d, 'd', d * 86400, d > 0);
    var s1 := SumFrom(0, a);
    assert s1 == d * 86400;
    SumFromToken(s1, h, 'h', h * 3600, h > 0);
    var s2 := SumFrom(s1, b);
    assert s2 == s1 + h * 3600;
    SumFromToken(s2, m, 'm', m * 60, m > 0);
    var s3 := SumFrom(s2, c);
    assert s3 == s2 + m * 60;
    SumFromToken(s3, s, 's', s, s > 0 || d + h + m == 0);
    assert SumFrom(s3, e) == s3 + s;
    SumFromAppend(0, a, b);
    SumFromAppend(0, a + b, c);
    SumFromAppend(0, a + b + c, e);
  }

  /** Parsing the text of a non-negative duration gives back the seconds. */
  lemma ParseFormatRoundTrip(n: Int64)
    requires n >= 0
    ensures ParseDuration(FormatDurationFull(n)) == n
  {
    var d, r := n / 86400, n % 86400;
    var h, r' := r / 3600, r % 3600;
    var m, s := r' / 60, r' % 60;
    DurationPartsCanonical(n, d, h, m, s);
    CanonicalPartsAreWords(d, h, m, s);
    FieldsOfJoin(CanonicalParts(d, h, m, s));
    CanonicalPartsSum(d, h, m, s);
  }

  /** Remainders by a day, an hour and a minute nest: each unit divides the one above. */
  lemma NestedRemainders(x: int)
    requires x >= 0
    ensures (x % 86400) % 3600 == x % 3600
    ensures (x % 3600) % 60 == x % 60
  {
    var q := x / 86400;
    assert x % 86400 == x - 86400 * q;
    assert (x % 86400) % 3600 == x % 3600 by {
      assert x % 86400 == (x % 3600) + 3600 * (x / 3600 - 24 * q);
    }
    assert (x % 3600) % 60 == x % 60 by {
      assert x % 3600 == x % 60 + 60 * (x / 60 - 60 * (x / 3600));
    }
  }

  /**
   * A negative duration loses everything but its seconds: Go's truncating
   * `/` and `%` leave every unit at or below zero, and only the seconds
   * field is written because nothing else was.
   */
  lemma FormatNegative(n: Int64)
    requires n < 0
    ensures FormatDurationFull(n) == IntToDecimal(Rem(n, 60)) + "s"
  {
    var x: int := -(n as int);
    NestedRemainders(x);
    var afterDays := Rem(n, SecondsPerDay);
    assert afterDays == -(x % 86400);
    var afterHours := Rem(afterDays, SecondsPerHour);
    assert afterHours == -(x % 3600);
    assert Rem(afterHours, SecondsPerMinute) == -(x % 60) == Rem(n, 60);
    assert Quo(n, SecondsPerDay) <= 0;
    assert Quo(afterDays, SecondsPerHour) <= 0;
    assert Quo(afterHours, SecondsPerMinute) <= 0;
  }
}
