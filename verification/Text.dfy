/** The string handling shared by schedule recipients and API-key scopes. */
module Text {

  /** unicode.IsSpace. */
  predicate Space(c: char) {
    var n := c as int;
    9 <= n <= 13 || n == 0x20 || n == 0x85 || n == 0xA0 || n == 0x1680 || 0x2000 <= n <= 0x200A ||
    n == 0x2028 || n == 0x2029 || n == 0x202F || n == 0x205F || n == 0x3000
  }

  function TrimLeft(s: string): string {
    if s != "" && Space(s[0]) then TrimLeft(s[1..]) else s
  }

  function TrimRight(s: string): string {
    if s != "" && Space(s[|s| - 1]) then TrimRight(s[..|s| - 1]) else s
  }

  function Trim(s: string): string {
    TrimRight(TrimLeft(s))
  }

  predicate Blank(s: string) {
    forall c :: c in s ==> Space(c)
  }

  /** unicode.ToLower, as far as its result is an ASCII letter: besides A to Z that is
      the capital I with a dot above and the Kelvin sign. */
  function LowerChar(c: char): char {
    if 'A' <= c <= 'Z' then (c as int + 32) as char
    else if c as int == 0x130 then 'i'
    else if c as int == 0x212A then 'k'
    else c
  }

  function Lower(s: string): string {
    seq(|s|, i requires 0 <= i < |s| => LowerChar(s[i]))
  }

  predicate Trimmed(s: string) {
    s != "" ==> !Space(s[0]) && !Space(s[|s| - 1])
  }

  lemma {:induction false} TrimLeftStops(s: string)
    ensures var t := TrimLeft(s); (t != "" ==> !Space(t[0])) && (t == "" <==> Blank(s))
  {
    if s != "" && Space(s[0]) {
      TrimLeftStops(s[1..]);
      assert s == [s[0]] + s[1..];
    }
  }

  lemma {:induction false} TrimRightStops(s: string)
    ensures var t := TrimRight(s); (t != "" ==> !Space(t[|t| - 1])) && t <= s
  {
    if s != "" && Space(s[|s| - 1]) {
      TrimRightStops(s[..|s| - 1]);
    }
  }

  lemma TrimTrims(s: string)
    ensures Trimmed(Trim(s)) && Trim(Trim(s)) == Trim(s)
  {
    TrimLeftStops(s);
    TrimRightStops(TrimLeft(s));
  }

  lemma {:induction false} TrimLeftDrops(s: string) returns (before: string)
    ensures Blank(before) && s == before + TrimLeft(s)
  {
    if s != "" && Space(s[0]) {
      var rest := TrimLeftDrops(s[1..]);
      before := [s[0]] + rest;
    } else {
      before := "";
    }
  }

  lemma {:induction false} TrimRightDrops(s: string) returns (after: string)
    ensures Blank(after) && s == TrimRight(s) + after
  {
    if s != "" && Space(s[|s| - 1]) {
      var rest := TrimRightDrops(s[..|s| - 1]);
      after := rest + [s[|s| - 1]];
    } else {
      after := "";
    }
  }

  /** Trimming takes blanks off both ends, and nothing else. */
  lemma TrimIsTheMiddle(s: string)
    ensures exists before, after :: Blank(before) && Blank(after) && s == before + Trim(s) + after
    ensures Trim(s) != "" ==> !Space(Trim(s)[0]) && !Space(Trim(s)[|Trim(s)| - 1])
  {
    var before := TrimLeftDrops(s);
    var after := TrimRightDrops(TrimLeft(s));
    assert s == before + Trim(s) + after;
    TrimTrims(s);
  }

  lemma BlankTrimsAway(s: string)
    ensures Trim(s) == "" <==> Blank(s)
  {
    TrimLeftStops(s);
    if TrimLeft(s) != "" {
      assert TrimLeft(s)[0] in TrimLeft(s);
      var after := TrimRightDrops(TrimLeft(s));
    }
  }

  /** Blanks, and what is none. */
  lemma SpacesAndOthers(c: char)
    ensures Space(' ') && Space('\t') && Space('\n') && Space('\r')
    ensures '!' <= c <= '~' ==> !Space(c)
  {
  }

  /** Lowering works character by character and moves capitals only. */
  lemma LowerIs(s: string)
    ensures |Lower(s)| == |s|
    ensures forall i :: 0 <= i < |s| && 'A' <= s[i] <= 'Z' ==> Lower(s)[i] as int == s[i] as int + 32
    ensures forall i :: 0 <= i < |s| && s[i] < 128 as char && !('A' <= s[i] <= 'Z') ==> Lower(s)[i] == s[i]
  {
  }

  // ---------------------------------------------------------- first occurrences

  function FirstOccurrences(s: seq<string>): seq<string> {
    if s == [] then []
    else
      var rest := FirstOccurrences(s[..|s| - 1]);
      if s[|s| - 1] in rest then rest else rest + [s[|s| - 1]]
  }

  ghost predicate Distinct(s: seq<string>) {
    forall i, j :: 0 <= i < j < |s| ==> s[i] != s[j]
  }

  /** The same strings, each once. */
  lemma {:induction false} FirstOccurrencesAreDistinct(s: seq<string>)
    ensures Distinct(FirstOccurrences(s))
    ensures forall x :: x in FirstOccurrences(s) <==> x in s
  {
    if s != [] {
      FirstOccurrencesAreDistinct(s[..|s| - 1]);
      assert s == s[..|s| - 1] + [s[|s| - 1]];
    }
  }

  lemma {:induction false} DistinctStays(s: seq<string>)
    requires Distinct(s)
    ensures FirstOccurrences(s) == s
  {
    if s != [] {
      DistinctStays(s[..|s| - 1]);
      assert s == s[..|s| - 1] + [s[|s| - 1]];
    }
  }

  /** Adding values only ever extends the result: order of first appearance is kept. */
  lemma {:induction false} FirstOccurrencesGrow(a: seq<string>, b: seq<string>)
    ensures FirstOccurrences(a) <= FirstOccurrences(a + b)
  {
    if b == [] {
      assert a + b == a;
    } else {
      assert (a + b)[..|a + b| - 1] == a + b[..|b| - 1];
      FirstOccurrencesGrow(a, b[..|b| - 1]);
    }
  }

  // ------------------------------------------------------------- uniqueStrings

  function Cleaned(values: seq<string>): seq<string> {
    if values == [] then []
    else Cleaned(values[..|values| - 1]) +
         if Trim(values[|values| - 1]) == "" then [] else [Trim(values[|values| - 1])]
  }

  function Unique(values: seq<string>): seq<string> {
    FirstOccurrences(Cleaned(values))
  }

  ghost predicate TrimsTo(values: seq<string>, x: string) {
    exists i :: 0 <= i < |values| && Trim(values[i]) == x
  }

  method UniqueStrings(values: seq<string>) returns (result: seq<string>)
    ensures result == Unique(values)
    ensures Distinct(result)
    ensures forall x :: x in result <==> x != "" && TrimsTo(values, x)
  {
    UniqueNone();
    hide Trim, Unique, Distinct;
    var seen: set<string> := {};
    result := [];
    assert values[..0] == [];
    for i := 0 to |values|
      invariant result == Unique(values[..i])
      invariant seen == set x | x in result
    {
      var value := Trim(values[i]);
      CleanedSnoc(values, i);
      if value == "" || value in seen {
        continue;
      }
      seen := seen + {value};
      result := result + [value];
    }
    assert values[..|values|] == values;
    UniqueHolds(values);
  }

  lemma UniqueNone()
    ensures Unique([]) == []
  {
  }

  lemma UniqueHolds(values: seq<string>)
    ensures Distinct(Unique(values))
    ensures forall x :: x in Unique(values) <==> x != "" && TrimsTo(values, x)
  {
    FirstOccurrencesAreDistinct(Cleaned(values));
    CleanedHolds(values);
  }

  lemma CleanedSnoc(values: seq<string>, i: nat)
    requires i < |values|
    ensures var v := Trim(values[i]);
            Cleaned(values[..i + 1]) == Cleaned(values[..i]) + if v == "" then [] else [v]
    ensures var v := Trim(values[i]);
            Unique(values[..i + 1]) ==
              if v == "" || v in Unique(values[..i]) then Unique(values[..i]) else Unique(values[..i]) + [v]
  {
    assert values[..i + 1][..i] == values[..i];
    var c, v := Cleaned(values[..i]), Trim(values[i]);
    if v == "" {
      assert Cleaned(values[..i + 1]) == c;
    } else {
      assert Cleaned(values[..i + 1]) == c + [v];
      assert (c + [v])[..|c + [v]| - 1] == c && (c + [v])[|c|] == v;
    }
  }

  lemma TrimsToSnoc(values: seq<string>, value: string, x: string)
    ensures TrimsTo(values + [value], x) <==> TrimsTo(values, x) || Trim(value) == x
  {
    hide Trim;
    var all := values + [value];
    assert all[|values|] == value;
    if i :| 0 <= i < |values| && Trim(values[i]) == x {
      assert Trim(all[i]) == x;
    }
  }

  lemma {:induction false} CleanedHolds(values: seq<string>)
    ensures forall x :: x in Cleaned(values) <==> x != "" && TrimsTo(values, x)
    ensures forall x :: x in Cleaned(values) ==> Trim(x) == x
  {
    if values != [] {
      var n := |values| - 1;
      CleanedHolds(values[..n]);
      TrimTrims(values[n]);
      assert values == values[..n] + [values[n]];
      hide Trim, TrimsTo;
      forall x
        ensures x in Cleaned(values) <==> x != "" && TrimsTo(values, x)
      {
        TrimsToSnoc(values[..n], values[n], x);
      }
    }
  }

  lemma {:induction false} CleanStays(values: seq<string>)
    requires forall i :: 0 <= i < |values| ==> values[i] != "" && Trim(values[i]) == values[i]
    ensures Cleaned(values) == values
  {
    if values != [] {
      assert values == values[..|values| - 1] + [values[|values| - 1]];
      CleanStays(values[..|values| - 1]);
    }
  }

  /** Normalising an already normalised list changes nothing. */
  lemma UniqueIsIdempotent(values: seq<string>)
    ensures Unique(Unique(values)) == Unique(values)
  {
    CleanedHolds(values);
    FirstOccurrencesAreDistinct(Cleaned(values));
    forall i | 0 <= i < |Unique(values)|
      ensures Unique(values)[i] != "" && Trim(Unique(values)[i]) == Unique(values)[i]
    {
      assert Unique(values)[i] in Cleaned(values);
    }
    CleanStays(Unique(values));
    DistinctStays(Unique(values));
  }
}
