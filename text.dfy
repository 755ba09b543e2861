/** The bits of Rust text formatting the bot's messages rely on: integers
    written in decimal (`{}` and `to_string`) and `join(", ")` on a list of
    names. Each comes with a reader that recovers what was written. */
module Text {

  predicate IsDigit(c: char) {
    '0' <= c <= '9'
  }

  function Digit(d: nat): (c: char)
    requires d < 10
    ensures IsDigit(c) && c as int - '0' as int == d
  {
    "0123456789"[d]
  }

  /** A non-negative integer in decimal, most significant digit first. */
  function NatToDecimal(n: nat): (s: string)
    ensures |s| > 0 && forall i | 0 <= i < |s| :: IsDigit(s[i])
    decreases n
  {
    if n < 10 then [Digit(n)] else NatToDecimal(n / 10) + [Digit(n % 10)]
  }

  /** The value of a string of decimal digits. */
  function DecimalValue(s: string): nat
    decreases |s|
  {
    if s == [] then 0
    else
      var last := s[|s| - 1];
      10 * DecimalValue(s[..|s| - 1]) + if IsDigit(last) then last as int - '0' as int else 0
  }

  lemma {:induction false} DecimalRoundTrip(n: nat)
    ensures DecimalValue(NatToDecimal(n)) == n
  {
    var s := NatToDecimal(n);
    if n < 10 {
      assert s[..|s| - 1] == [];
    } else {
      assert s[..|s| - 1] == NatToDecimal(n / 10);
      DecimalRoundTrip(n / 10);
    }
  }

  /** Rust's `to_string` on a signed integer. */
  function IntToDecimal(n: int): (s: string) {
    if n < 0 then "-" + NatToDecimal(-n) else NatToDecimal(n)
  }

  function IntValue(s: string): int {
    if |s| > 0 && s[0] == '-' then -(DecimalValue(s[1..]) as int) else DecimalValue(s)
  }

  lemma IntRoundTrip(n: int)
    ensures IntValue(IntToDecimal(n)) == n
  {
    if n < 0 {
      var digits := NatToDecimal(-n);
      assert ("-" + digits)[0] == '-' && ("-" + digits)[1..] == digits;
      DecimalRoundTrip(-n);
    } else {
      var digits := NatToDecimal(n);
      assert IsDigit(digits[0]);
      DecimalRoundTrip(n);
    }
  }

  /** `parts.join(sep)`. */
  function Join(parts: seq<string>, sep: string): string
    decreases |parts|
  {
    if parts == [] then ""
    else if |parts| == 1 then parts[0]
    else parts[0] + sep + Join(parts[1..], sep)
  }

  /** The position of the first `c` in `s`, or `|s|` when there is none. */
  function IndexOf(s: string, c: char): (i: nat)
    ensures i <= |s| && (i < |s| ==> s[i] == c)
    ensures forall j | 0 <= j < i :: s[j] != c
    decreases |s|
  {
    if s == [] then 0
    else if s[0] == c then 0
    else 1 + IndexOf(s[1..], c)
  }

  /** Cut a `", "`-separated list back into its items. */
  function SplitList(s: string): seq<string>
    decreases |s|
  {
    var i := IndexOf(s, ',');
    if i == |s| then [s]
    else [s[..i]] + SplitList(s[if i + 2 <= |s| then i + 2 else |s|..])
  }

  lemma IndexOfPrefix(p: string, rest: string, c: char)
    requires c !in p && |rest| > 0 && rest[0] == c
    ensures IndexOf(p + rest, c) == |p|
  {
    var s := p + rest;
    assert forall j | 0 <= j < |p| :: s[j] == p[j] && p[j] in p;
    assert s[|p|] == c;
  }

  /** A comma-free text is one item. */
  lemma SplitListNoComma(s: string)
    requires ',' !in s
    ensures SplitList(s) == [s]
  {
    assert forall j | 0 <= j < |s| :: s[j] in s;
  }

  /** A comma-free head followed by `", "` is cut off as the first item. */
  lemma SplitListCons(p: string, rest: string)
    requires ',' !in p
    ensures SplitList(p + (", " + rest)) == [p] + SplitList(rest)
  {
    var s := p + (", " + rest);
    IndexOfPrefix(p, ", " + rest, ',');
    assert s[..|p|] == p;
    assert s[|p| + 2..] == rest;
  }

  lemma HeadTail<T>(s: seq<T>)
    requires |s| > 0
    ensures [s[0]] + s[1..] == s
  {
  }

  /** Joining with `", "` loses nothing when no item holds a comma. */
  lemma {:induction false} SplitJoin(parts: seq<string>)
    requires |parts| > 0
    requires forall p | p in parts :: ',' !in p
    ensures SplitList(Join(parts, ", ")) == parts
    decreases |parts|
  {
    if |parts| == 1 {
      assert parts[0] in parts;
      SplitListNoComma(parts[0]);
    } else {
      var rest := Join(parts[1..], ", ");
      assert Join(parts, ", ") == parts[0] + (", " + rest);
      assert parts[0] in parts && parts[1..][0] in parts;
      SplitListCons(parts[0], rest);
      SplitJoin(parts[1..]);
      HeadTail(parts);
    }
  }
}
