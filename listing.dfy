/** The `/list` reply body (src/main.rs): one line `"{index}. {anime_name}\n"`
    per record, numbered from 1 in the order the cursor yields them, and a
    reader that takes such a listing apart again. */
module Listing {
  import opened Store
  import opened Text

  /** One line of the listing, `format!("{}. {}\n", index, name)`. */
  function Line(i: nat, name: string): string {
    NatToDecimal(i) + ". " + name + "\n"
  }

  /** The listing of `rs`, the first line numbered `i`. */
  function ListingFrom(rs: seq<Subscription>, i: nat): (s: string)
    ensures s == "" <==> rs == []
    decreases |rs|
  {
    if rs == [] then "" else Line(i, rs[0].animeName) + ListingFrom(rs[1..], i + 1)
  }

  /** Appending a record appends its line, numbered after the others: the
      listing grows the way the handler's loop builds it. */
  lemma {:induction false} ListingSnoc(rs: seq<Subscription>, x: Subscription, i: nat)
    ensures ListingFrom(rs + [x], i) == ListingFrom(rs, i) + Line(i + |rs|, x.animeName)
    decreases |rs|
  {
    if rs == [] {
      assert [x][1..] == [];
    } else {
      assert (rs + [x])[0] == rs[0] && (rs + [x])[1..] == rs[1..] + [x];
      ListingSnoc(rs[1..], x, i + 1);
    }
  }

  /** A line read back: its number and its name. */
  datatype Entry = Entry(number: nat, name: string)

  function ParseLine(line: string): Entry {
    var d := IndexOf(line, '.');
    Entry(DecimalValue(line[..d]), if d + 2 <= |line| then line[d + 2..] else "")
  }

  /** Cut a listing at its line ends and read each line. */
  function ParseListing(s: string): seq<Entry>
    decreases |s|
  {
    if s == [] then []
    else
      var e := IndexOf(s, '\n');
      [ParseLine(s[..e])] + ParseListing(s[if e < |s| then e + 1 else |s|..])
  }

  lemma NoDigitIs(d: string, c: char)
    requires forall j | 0 <= j < |d| :: IsDigit(d[j])
    requires !IsDigit(c)
    ensures c !in d
  {
  }

  /** One line is read back as its number and name, and reading resumes
      right after it. */
  lemma ParseLineFirst(i: nat, name: string, rest: string)
    requires '\n' !in name
    ensures ParseListing(Line(i, name) + rest) == [Entry(i, name)] + ParseListing(rest)
  {
    LineParts(i, name, rest);
  }

  lemma LineParts(i: nat, name: string, rest: string)
    requires '\n' !in name
    ensures var s := Line(i, name) + rest;
      var e := IndexOf(s, '\n');
      e < |s| && ParseLine(s[..e]) == Entry(i, name) && s[e + 1..] == rest
  {
    var digits := NatToDecimal(i);
    var text := digits + ". " + name;
    var s := Line(i, name) + rest;
    assert s == text + ("\n" + rest);
    NoDigitIs(digits, '\n');
    assert '\n' !in text by {
      assert forall j | 0 <= j < |text| :: text[j] != '\n' by {
        forall j | 0 <= j < |text| ensures text[j] != '\n' {
          if j < |digits| {
            assert text[j] == digits[j];
          } else if j >= |digits| + 2 {
            assert text[j] == name[j - |digits| - 2];
          }
        }
      }
    }
    IndexOfPrefix(text, "\n" + rest, '\n');
    assert s[..|text|] == text;
    assert s[|text| + 1..] == rest;
    NoDigitIs(digits, '.');
    IndexOfPrefix(digits, ". " + name, '.');
    assert text == digits + (". " + name);
    assert text[..|digits|] == digits;
    assert text[|digits| + 2..] == name;
    DecimalRoundTrip(i);
  }

  /** Reading a listing back yields every record's name, in order, with the
      numbers `i`, `i + 1`, ...: nothing is lost or reordered as long as no
      name holds a line break. */
  lemma {:induction false} ListingRoundTrip(rs: seq<Subscription>, i: nat)
    requires forall k | 0 <= k < |rs| :: '\n' !in rs[k].animeName
    ensures var p := ParseListing(ListingFrom(rs, i));
      |p| == |rs| && forall k | 0 <= k < |rs| :: p[k] == Entry(i + k, rs[k].animeName)
    decreases |rs|
  {
    if rs != [] {
      var rest := ListingFrom(rs[1..], i + 1);
      assert '\n' !in rs[0].animeName;
      ParseLineFirst(i, rs[0].animeName, rest);
      ListingRoundTrip(rs[1..], i + 1);
      var p := ParseListing(ListingFrom(rs, i));
      var q := ParseListing(rest);
      forall k | 0 <= k < |rs| ensures p[k] == Entry(i + k, rs[k].animeName) {
        if k > 0 {
          assert p[k] == q[k - 1] && rs[k] == rs[1..][k - 1];
        }
      }
    }
  }
}
