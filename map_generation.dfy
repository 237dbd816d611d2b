/**
 * Map file numbering (maps/map_generation.py, `get_next_filename`): the next
 * free name "map_NNN.json" for a directory, given its listing as a sequence of
 * file names.
 */
module MapGeneration {

  import opened Seqs

  const Prefix: string := "map_"
  const Suffix: string := ".json"

  /** `s.startswith(prefix)`. */
  predicate StartsWith(s: string, prefix: string)
    ensures StartsWith(s, prefix) <==> exists t :: s == prefix + t
  {
    assert |prefix| <= |s| ==> s == s[..|prefix|] + s[|prefix|..];
    |prefix| <= |s| && s[..|prefix|] == prefix
  }

  /** `s.endswith(suffix)`. */
  predicate EndsWith(s: string, suffix: string)
    ensures EndsWith(s, suffix) <==> exists t :: s == t + suffix
  {
    assert |suffix| <= |s| ==> s == s[..|s| - |suffix|] + s[|s| - |suffix|..];
    |suffix| <= |s| && s[|s| - |suffix|..] == suffix
  }

  /** `s.split(c)[0]`: the text before the first c, or all of s when there is none. */
  function Before(s: string, c: char): (r: string)
    ensures |r| <= |s| && r == s[..|r|]
    ensures c !in r
    ensures |r| < |s| ==> s[|r|] == c
  {
    if s == [] || s[0] == c then []
    else [s[0]] + Before(s[1..], c)
  }

  /** `s.split(c)[1]`, for an s that contains c: the text between the first c and the next one. */
  function SecondField(s: string, c: char): (r: string)
    requires c in s
    ensures c !in r
    ensures exists a, t :: c !in a && s == a + [c] + r + t
  {
    var a := Before(s, c);
    var rest := s[|a| + 1..];
    var r := Before(rest, c);
    assert s == a + [c] + r + rest[|r|..];
    r
  }

  /** `f.split("_")[1].split(".")[0]`, the part of a "map_" name that holds its number. */
  function NumberPart(f: string): (r: string)
    requires StartsWith(f, Prefix)
    ensures |Prefix| + |r| <= |f| && r == f[|Prefix|..|Prefix| + |r|]
    ensures '_' !in r && '.' !in r
  {
    assert f == "map" + ['_'] + f[4..];
    BeforeAt("map", '_', f[4..]);
    var field := SecondField(f, '_');
    assert field == Before(f[4..], '_');
    Before(field, '.')
  }

  /** `s.isdigit()` over ASCII: non-empty and made of the digits 0-9 only. */
  predicate IsDigits(s: string)
    ensures IsDigits(s) ==> '_' !in s && '.' !in s
  {
    |s| > 0 && forall i :: 0 <= i < |s| ==> '0' <= s[i] <= '9'
  }

  function DigitValue(c: char): (v: nat)
    requires '0' <= c <= '9'
    ensures v < 10
  {
    (c as int) - ('0' as int)
  }

  function DigitChar(v: nat): (c: char)
    requires v < 10
    ensures '0' <= c <= '9' && DigitValue(c) == v
  {
    ('0' as int + v) as char
  }

  /** `int(s)` for a string of decimal digits (leading zeros allowed). */
  function ParseDecimal(s: string): (v: nat)
    requires forall i :: 0 <= i < |s| ==> '0' <= s[i] <= '9'
    ensures v == 0 <==> forall i :: 0 <= i < |s| ==> s[i] == '0'
  {
    if s == [] then 0
    else
      var init := s[..|s| - 1];
      assert forall i :: 0 <= i < |init| ==> init[i] == s[i];
      10 * ParseDecimal(init) + DigitValue(s[|s| - 1])
  }

  /** The decimal digits of n, without leading zeros ("0" for zero). */
  function Digits(n: nat): (r: string)
    ensures IsDigits(r)
    ensures ParseDecimal(r) == n
  {
    if n < 10 then [DigitChar(n)]
    else
      var r := Digits(n / 10) + [DigitChar(n % 10)];
      assert r[..|r| - 1] == Digits(n / 10);
      r
  }

  /** `f"{n:03}"`: the digits of n, left-padded with zeros to at least three characters. */
  function Pad3(n: nat): (r: string)
    ensures IsDigits(r) && |r| >= 3
  {
    var d := Digits(n);
    if |d| >= 3 then d else seq(3 - |d|, _ => '0') + d
  }

  /** The file name for map number n. */
  function FormatName(n: nat): (r: string)
    ensures StartsWith(r, Prefix) && EndsWith(r, Suffix)
  {
    var d := Pad3(n);
    assert Prefix + d + Suffix == Prefix + (d + Suffix);
    Prefix + d + Suffix
  }

  /** A name `get_next_filename` takes into account. */
  predicate Counted(f: string)
  {
    StartsWith(f, Prefix) && EndsWith(f, Suffix) && IsDigits(NumberPart(f))
  }

  /** The number a counted name carries. */
  function NumberOf(f: string): (r: nat)
    requires Counted(f)
    ensures r == 0 <==> forall i :: 0 <= i < |NumberPart(f)| ==> NumberPart(f)[i] == '0'
  {
    ParseDecimal(NumberPart(f))
  }

  /** `numbers`: the numbers of the counted names, in listing order. */
  function Numbers(listing: seq<string>): (r: seq<nat>)
    ensures forall n :: n in r <==> exists f :: f in listing && Counted(f) && n == NumberOf(f)
  {
    if listing == [] then []
    else
      var rest := Numbers(listing[1..]);
      var r := (if Counted(listing[0]) then [NumberOf(listing[0])] else []) + rest;
      assert forall f :: f in listing <==> f == listing[0] || f in listing[1..];
      r
  }

  /** `max(numbers, default=0)`. */
  function MaxOrZero(ns: seq<nat>): (m: nat)
    ensures forall i :: 0 <= i < |ns| ==> ns[i] <= m
    ensures ns == [] ==> m == 0
    ensures ns != [] ==> m in ns
  {
    if ns == [] then 0
    else
      var m := MaxOrZero(ns[1..]);
      if ns[0] >= m then ns[0] else m
  }

  /** `get_next_filename`, on the directory listing. */
  function GetNextFilename(listing: seq<string>): (name: string)
    ensures Counted(name) && NumberOf(name) == MaxOrZero(Numbers(listing)) + 1
  {
    var n := MaxOrZero(Numbers(listing)) + 1;
    FormatNameCounted(n);
    FormatName(n)
  }

  /** Before stops at the first c. */
  lemma BeforeAt(a: string, c: char, b: string)
    requires c !in a
    ensures Before(a + [c] + b, c) == a
  {
    if a != [] {
      assert (a + [c] + b)[1..] == a[1..] + [c] + b;
      BeforeAt(a[1..], c, b);
    }
  }

  /** Without a c, Before keeps the whole string. */
  lemma BeforeAll(s: string, c: char)
    requires c !in s
    ensures Before(s, c) == s
  {
    if s != [] {
      BeforeAll(s[1..], c);
    }
  }

  /** Leading zeros do not change the value of a digit string. */
  lemma {:induction false} ParseLeadingZero(s: string)
    requires forall i :: 0 <= i < |s| ==> '0' <= s[i] <= '9'
    ensures ParseDecimal(['0'] + s) == ParseDecimal(s)
  {
    if s != [] {
      var t := ['0'] + s;
      assert t[..|t| - 1] == ['0'] + s[..|s| - 1];
      ParseLeadingZero(s[..|s| - 1]);
    }
  }

  /** Zero padding never loses or changes the number: 1000 is written "1000", 7 is written "007". */
  lemma PadRoundTrip(n: nat)
    ensures ParseDecimal(Pad3(n)) == n
  {
    var d := Digits(n);
    if |d| == 1 {
      ParseLeadingZero(d);
      assert ['0'] + (['0'] + d) == Pad3(n);
      ParseLeadingZero(['0'] + d);
    } else if |d| == 2 {
      assert ['0'] + d == Pad3(n);
      ParseLeadingZero(d);
    }
  }

  /** A digit string holds no other character. */
  lemma DigitsExclude(d: string, c: char)
    requires IsDigits(d) && !('0' <= c <= '9')
    ensures c !in d
  {
  }

  /** The second field of a + [c] + b, split at c, is b when neither part holds c. */
  lemma SecondFieldOf(a: string, c: char, b: string)
    requires c !in a && c !in b
    ensures c in a + [c] + b
    ensures SecondField(a + [c] + b, c) == b
  {
    var s := a + [c] + b;
    assert s[|a|] == c;
    BeforeAt(a, c, b);
    assert s[|a| + 1..] == b;
    BeforeAll(b, c);
  }

  /** "map_" + p + ".json" split into the fields the parser looks at. */
  lemma NameLayout(p: string)
    ensures Prefix + p + Suffix == "map" + ['_'] + (p + ['.'] + "json")
    ensures StartsWith(Prefix + p + Suffix, Prefix)
  {
    assert Prefix == "map" + ['_'];
    assert Suffix == ['.'] + "json";
    assert (Prefix + p + Suffix)[..|Prefix|] == Prefix;
  }

  /** The number part of "map_" + d + ".json" is d, for a digit string d. */
  lemma NumberPartOf(d: string)
    requires IsDigits(d)
    ensures StartsWith(Prefix + d + Suffix, Prefix)
    ensures NumberPart(Prefix + d + Suffix) == d
  {
    NameLayout(d);
    var rest := d + ['.'] + "json";
    DigitsExclude(d, '_');
    DigitsExclude(d, '.');
    assert '_' !in rest;
    SecondFieldOf("map", '_', rest);
    BeforeAt(d, '.', "json");
  }

  /** The number part of a formatted name is its padded number. */
  lemma NumberPartOfName(n: nat)
    ensures StartsWith(FormatName(n), Prefix)
    ensures NumberPart(FormatName(n)) == Pad3(n)
  {
    NumberPartOf(Pad3(n));
  }

  /** Every formatted name is counted, with the number it was formatted from. */
  lemma FormatNameCounted(n: nat)
    ensures Counted(FormatName(n)) && NumberOf(FormatName(n)) == n
  {
    NumberPartOfName(n);
    PadRoundTrip(n);
    var f := FormatName(n);
    assert f[|f| - |Suffix|..] == Suffix;
  }

  /** The result always reads "map_", at least three decimal digits, ".json". */
  lemma NextFilenameShape(listing: seq<string>)
    ensures exists d :: IsDigits(d) && |d| >= 3 && GetNextFilename(listing) == Prefix + d + Suffix
  {
    var d := Pad3(MaxOrZero(Numbers(listing)) + 1);
    assert GetNextFilename(listing) == Prefix + d + Suffix;
  }

  /** The result's number exceeds the number of every counted name in the listing. */
  lemma NextFilenameExceeds(listing: seq<string>, f: string)
    requires f in listing && Counted(f)
    ensures Counted(GetNextFilename(listing))
    ensures NumberOf(GetNextFilename(listing)) > NumberOf(f)
  {
    var ns := Numbers(listing);
    var m := MaxOrZero(ns);
    FormatNameCounted(m + 1);
    assert NumberOf(f) in ns;
  }

  /** The result is a name the listing does not hold yet. */
  lemma NextFilenameIsFree(listing: seq<string>)
    ensures GetNextFilename(listing) !in listing
  {
    var name := GetNextFilename(listing);
    FormatNameCounted(MaxOrZero(Numbers(listing)) + 1);
    if name in listing {
      NextFilenameExceeds(listing, name);
    }
  }

  /** With no counted names, as in an empty directory, the result is "map_001.json". */
  lemma NextFilenameFirst(listing: seq<string>)
    requires forall f :: f in listing ==> !Counted(f)
    ensures GetNextFilename(listing) == "map_001.json"
  {
    NumbersNone(listing);
    assert MaxOrZero(Numbers(listing)) == 0;
    FirstName();
  }

  /** Map number 1 is padded to three digits. */
  lemma FirstName()
    ensures FormatName(1) == "map_001.json"
  {
    assert Digits(1) == "1";
    assert Pad3(1) == "001";
  }

  /** A listing without counted names yields no numbers. */
  lemma {:induction false} NumbersNone(listing: seq<string>)
    requires forall f :: f in listing ==> !Counted(f)
    ensures Numbers(listing) == []
  {
    if listing != [] {
      assert listing[0] in listing;
      NumbersNone(listing[1..]);
    }
  }

  /** Names that are not counted have no influence on the result. */
  lemma {:induction false} NextFilenameIgnoresOthers(listing: seq<string>)
    ensures GetNextFilename(listing) == GetNextFilename(Select(listing, Counted))
  {
    NumbersOfCounted(listing);
  }

  /** The numbers depend only on the counted names. */
  lemma {:induction false} NumbersOfCounted(listing: seq<string>)
    ensures Numbers(listing) == Numbers(Select(listing, Counted))
  {
    if listing != [] {
      NumbersOfCounted(listing[1..]);
      var rest := Select(listing[1..], Counted);
      if Counted(listing[0]) {
        var s := [listing[0]] + rest;
        assert s[0] == listing[0] && s[1..] == rest;
      } else {
        assert Select(listing, Counted) == rest;
      }
    }
  }

  /** Above 999 the number is written in full and never cut to three digits. */
  lemma NoTruncation()
    ensures FormatName(1000) == "map_1000.json"
  {
    assert Digits(1000) == "1000" by {
      assert Digits(1) == "1";
      assert Digits(10) == "10";
      assert Digits(100) == "100";
    }
  }
}
