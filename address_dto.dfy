/**
 * A customer address of the v2 shop: parsing the legacy one-line form
 * "Street 123, 1234AB City" and formatting an address back into it.
 *
 * The two regular expressions fromString uses are modelled by hand on their
 * PCRE semantics (no modifiers: `.` stops at a newline, `$` also matches in
 * front of a final newline, `\s` is the six ASCII white-space characters).
 */
module AddressDto {
  import opened Wrappers
  import opened PhpStrings

  datatype Address = Address(street: string, houseNumber: string, postalCode: string, city: string, country: string)

  /** The country every constructed address defaults to. */
  const DefaultCountry: string := "NL"

  function Max(a: int, b: int): int {
    if a < b then b else a
  }

  /** No newline among s[a..b]. */
  predicate NewlineFree(s: string, a: int, b: int)
    requires 0 <= a <= b <= |s|
  {
    forall i :: a <= i < b ==> s[i] != '\n'
  }

  predicate NoNewline(s: string) {
    NewlineFree(s, 0, |s|)
  }

  /** Start of the longest run of non-white-space characters that ends at j. */
  function WordStart(s: string, j: int): (r: int)
    requires 0 <= j <= |s|
    ensures 0 <= r <= j
    ensures forall i :: r <= i < j ==> !IsPcreSpace(s[i])
    ensures r == 0 || IsPcreSpace(s[r - 1])
    decreases j
  {
    if j > 0 && !IsPcreSpace(s[j - 1]) then WordStart(s, j - 1) else j
  }

  /** Start of the longest run of white space that ends at j. */
  function SpaceStart(s: string, j: int): (r: int)
    requires 0 <= j <= |s|
    ensures 0 <= r <= j
    ensures forall i :: r <= i < j ==> IsPcreSpace(s[i])
    ensures r == 0 || !IsPcreSpace(s[r - 1])
    decreases j
  {
    if j > 0 && IsPcreSpace(s[j - 1]) then SpaceStart(s, j - 1) else j
  }

  /**
   * One way `^(.+?)\s+(\d+\S*)$` matches s when `$` is taken at the very end:
   * group 1 is s[..k] and group 2 is s[j..].
   */
  predicate StreetShape(s: string, k: int, j: int) {
    1 <= k < j < |s| && NewlineFree(s, 0, k) && IsDigit(s[j]) &&
    (forall i :: k <= i < j ==> IsPcreSpace(s[i])) &&
    (forall i :: j <= i < |s| ==> !IsPcreSpace(s[i]))
  }

  /**
   * The groups of `^(.+?)\s+(\d+\S*)$` when `$` is taken at the end of s:
   * group 2 is the trailing word, and the lazy group 1 the shortest non-empty
   * prefix followed by white space only.
   */
  function MatchStreetAtEnd(s: string): (r: Option<(string, string)>)
  {
    var j := WordStart(s, |s|);
    var k := Max(1, SpaceStart(s, j));
    if j < |s| && IsDigit(s[j]) && k < j && NewlineFree(s, 0, k) then Some((s[..k], s[j..])) else None
  }

  /** preg_match('/^(.+?)\s+(\d+\S*)$/', s): the two groups when it matches. */
  function MatchStreet(s: string): (r: Option<(string, string)>)
  {
    if |s| > 0 && s[|s| - 1] == '\n' then MatchStreetAtEnd(s[..|s| - 1]) else MatchStreetAtEnd(s)
  }

  /**
   * The match found is a match, and it is the one PCRE reports: every way the
   * pattern can match has the same group 2 and a group 1 at least as long.
   */
  lemma MatchStreetIsLeftmost(s: string)
    ensures MatchStreetAtEnd(s).Some? ==>
      var m := MatchStreetAtEnd(s).value;
      StreetShape(s, |m.0|, |s| - |m.1|) && m.0 == s[..|m.0|] && m.1 == s[|s| - |m.1|..]
    ensures forall k, j :: StreetShape(s, k, j) ==>
      MatchStreetAtEnd(s).Some? && |MatchStreetAtEnd(s).value.0| <= k && |MatchStreetAtEnd(s).value.1| == |s| - j
  {
    var jj := WordStart(s, |s|);
    var p := SpaceStart(s, jj);
    forall k, j | StreetShape(s, k, j)
      ensures MatchStreetAtEnd(s).Some? && |MatchStreetAtEnd(s).value.0| <= k && |MatchStreetAtEnd(s).value.1| == |s| - j
    {
      assert IsPcreSpace(s[j - 1]);
      if j < jj {
        assert false;
      }
      if p > k {
        assert false;
      }
    }
  }

  /** A street, white space and a house number starting with a digit parse into exactly those two parts. */
  lemma StreetOfParts(street: string, w: string, number: string)
    requires |street| >= 1 && NoNewline(street) && !IsPcreSpace(street[|street| - 1])
    requires |w| >= 1 && AllBlank(w, PcreSpaces)
    requires |number| >= 1 && IsDigit(number[0]) && forall i :: 0 <= i < |number| ==> !IsPcreSpace(number[i])
    ensures MatchStreetAtEnd(street + w + number) == Some((street, number))
  {
    var s := street + w + number;
    var k := |street|;
    var j := |street| + |w|;
    assert s[..k] == street && s[j..] == number;
    assert StreetShape(s, k, j) by {
      forall i | 0 <= i < k ensures s[i] != '\n' { assert s[i] == street[i]; }
      forall i | k <= i < j ensures IsPcreSpace(s[i]) { assert s[i] == w[i - k]; }
      forall i | j <= i < |s| ensures !IsPcreSpace(s[i]) { assert s[i] == number[i - j]; }
    }
    MatchStreetIsLeftmost(s);
  }

  /** The postal code group: four digits, optional white space, two capitals. */
  predicate PostalCodeShape(code: string) {
    |code| >= 6 && IsDigit(code[0]) && IsDigit(code[1]) && IsDigit(code[2]) && IsDigit(code[3]) &&
    (forall i :: 4 <= i < |code| - 2 ==> IsPcreSpace(code[i])) &&
    IsUpperAscii(code[|code| - 2]) && IsUpperAscii(code[|code| - 1])
  }

  /**
   * preg_match('/^(\d{4}\s*[A-Z]{2})\s*(.*)$/', s): the postal code and the
   * rest after white space, which may not span a newline.
   */
  function MatchPostal(s: string): (r: Option<(string, string)>)
    ensures r.Some? ==> PostalCodeShape(r.value.0) && |r.value.0| <= |s| && r.value.0 == s[..|r.value.0|] && NoNewline(r.value.1)
  {
    if |s| < 6 || !IsDigit(s[0]) || !IsDigit(s[1]) || !IsDigit(s[2]) || !IsDigit(s[3]) then None
    else
      var a := SpaceEnd(s, 4);
      if a + 2 > |s| || !IsUpperAscii(s[a]) || !IsUpperAscii(s[a + 1]) then None
      else
        var c := SpaceEnd(s, a + 2);
        if NewlineFree(s, c, |s|) then
          assert NoNewline(s[c..]) by {
            forall i | 0 <= i < |s[c..]| ensures s[c..][i] != '\n' { assert s[c..][i] == s[c + i]; }
          }
          Some((s[..a + 2], s[c..]))
        else if s[|s| - 1] == '\n' && NewlineFree(s, c, |s| - 1) then
          var rest := s[c..|s| - 1];
          assert NoNewline(rest) by {
            forall i | 0 <= i < |rest| ensures rest[i] != '\n' { assert rest[i] == s[c + i]; }
          }
          Some((s[..a + 2], rest))
        else None
  }

  /** A postal code, white space and a one-line rest parse into exactly code and rest. */
  lemma PostalOfParts(code: string, w: string, rest: string)
    requires PostalCodeShape(code) && AllBlank(w, PcreSpaces)
    requires NoNewline(rest) && (rest == [] || !IsPcreSpace(rest[0]))
    ensures MatchPostal(code + w + rest) == Some((code, rest))
  {
    var s := code + w + rest;
    var a := |code| - 2;
    var c := |code| + |w|;
    assert s[..|code|] == code && s[c..] == rest;
    assert forall i :: 0 <= i < |code| ==> s[i] == code[i];
    SpaceEndAt(s, 4, a);
    assert forall i :: |code| <= i < c ==> s[i] == w[i - |code|];
    assert forall i :: c <= i < |s| ==> s[i] == rest[i - c];
    SpaceEndAt(s, a + 2, c);
  }

  /** AddressDTO::fromString. */
  function FromString(address: string): (r: Address)
    ensures r.country == DefaultCountry
    ensures r.houseNumber == [] || IsDigit(r.houseNumber[0])
    ensures r.postalCode == [] || PostalCodeShape(r.postalCode)
  {
    var parts := Explode(',', address);
    var streetPart := Trim(parts[0]);
    var cityPart := Trim(if |parts| > 1 then parts[1] else "");
    var street := MatchStreet(streetPart);
    var city := MatchPostal(cityPart);
    assert street.Some? ==> IsDigit(street.value.1[0]) by {
      var s := if |streetPart| > 0 && streetPart[|streetPart| - 1] == '\n' then streetPart[..|streetPart| - 1] else streetPart;
      MatchStreetIsLeftmost(s);
    }
    Address(
      if street.Some? then street.value.0 else streetPart,
      if street.Some? then street.value.1 else "",
      if city.Some? then city.value.0 else "",
      if city.Some? then city.value.1 else cityPart,
      DefaultCountry)
  }

  /** AddressDTO::format, sprintf('%s %s, %s %s'). */
  function Format(a: Address): (r: string)
    ensures |r| == |a.street| + |a.houseNumber| + |a.postalCode| + |a.city| + 4
  {
    a.street + " " + a.houseNumber + ", " + a.postalCode + " " + a.city
  }

  /** A character that can sit in a house number without being stripped, split on or matched as white space. */
  predicate IsWordChar(c: char) {
    !IsPcreSpace(c) && !IsTrimChar(c) && c != ','
  }

  /**
   * An address format() writes out and fromString() reads back unchanged:
   * one-line fields without commas, a street that does not begin with a
   * trimmed character or end in white space, a house number starting with a
   * digit, a postal code of four digits and two capitals, and a city that does
   * not begin with white space or end with a trimmed character.
   */
  predicate WellFormed(a: Address) {
    a.country == DefaultCountry &&
    |a.street| >= 1 && !IsTrimChar(a.street[0]) && !IsPcreSpace(a.street[|a.street| - 1]) &&
    ',' !in a.street && NoNewline(a.street) &&
    |a.houseNumber| >= 1 && IsDigit(a.houseNumber[0]) &&
    (forall i :: 0 <= i < |a.houseNumber| ==> IsWordChar(a.houseNumber[i])) &&
    |a.postalCode| == 6 && PostalCodeShape(a.postalCode) &&
    ',' !in a.city && NoNewline(a.city) &&
    (a.city == [] || (!IsPcreSpace(a.city[0]) && !IsTrimChar(a.city[|a.city| - 1])))
  }

  /** The street part of a formatted address: what precedes the comma, unchanged by trim(). */
  function StreetPart(a: Address): string {
    a.street + " " + a.houseNumber
  }

  /** The city part of a formatted address: what follows the comma. */
  function CityPart(a: Address): string {
    " " + a.postalCode + " " + a.city
  }

  /** explode() splits a formatted well-formed address at its one comma. */
  lemma ExplodeFormat(a: Address)
    requires WellFormed(a)
    ensures Explode(',', Format(a)) == [StreetPart(a), CityPart(a)]
  {
    assert Format(a) == StreetPart(a) + [','] + CityPart(a);
    assert ',' !in StreetPart(a) by {
      assert ',' !in a.houseNumber by {
        forall i | 0 <= i < |a.houseNumber| ensures a.houseNumber[i] != ',' { assert IsWordChar(a.houseNumber[i]); }
      }
    }
    ExplodeFirst(',', StreetPart(a), CityPart(a));
    ExplodeNoSeparator(',', CityPart(a));
  }

  /** trim() leaves a string alone that begins and ends with characters it does not strip. */
  lemma TrimKeeps(s: string)
    requires |s| >= 1 && !IsTrimChar(s[0]) && !IsTrimChar(s[|s| - 1])
    ensures Trim(s) == s
  {
    StripKeeps(s, TrimChars);
  }

  /** A house number of word characters has no white space. */
  lemma WordHasNoSpace(number: string)
    requires forall i :: 0 <= i < |number| ==> IsWordChar(number[i])
    ensures forall i :: 0 <= i < |number| ==> !IsPcreSpace(number[i])
  {
    forall i | 0 <= i < |number| ensures !IsPcreSpace(number[i]) { assert IsWordChar(number[i]); }
  }

  /** The street part of a formatted address does not end in a newline, so `$` is taken at its end. */
  lemma StreetPartMatches(street: string, number: string)
    requires |street| >= 1 && !IsPcreSpace(street[|street| - 1]) && NoNewline(street)
    requires |number| >= 1 && IsDigit(number[0]) && !IsTrimChar(number[|number| - 1])
    requires forall i :: 0 <= i < |number| ==> !IsPcreSpace(number[i])
    ensures MatchStreet(street + " " + number) == Some((street, number))
  {
    var s := street + " " + number;
    assert s[|s| - 1] == number[|number| - 1];
    assert MatchStreet(s) == MatchStreetAtEnd(s);
    assert AllBlank(" ", PcreSpaces);
    StreetOfParts(street, " ", number);
  }

  /** trim() leaves the street part of a formatted address alone. */
  lemma TrimStreetPart(street: string, number: string)
    requires |street| >= 1 && !IsTrimChar(street[0])
    requires |number| >= 1 && !IsTrimChar(number[|number| - 1])
    ensures Trim(street + " " + number) == street + " " + number
  {
    var s := street + " " + number;
    assert s[0] == street[0] && s[|s| - 1] == number[|number| - 1];
    TrimKeeps(s);
  }

  /** The street part reads back into street and house number. */
  lemma StreetPartParses(street: string, number: string)
    requires |street| >= 1 && !IsTrimChar(street[0]) && !IsPcreSpace(street[|street| - 1]) && NoNewline(street)
    requires |number| >= 1 && IsDigit(number[0]) && forall i :: 0 <= i < |number| ==> IsWordChar(number[i])
    ensures MatchStreet(Trim(street + " " + number)) == Some((street, number))
  {
    assert IsWordChar(number[|number| - 1]);
    calc {
      MatchStreet(Trim(street + " " + number));
      { TrimStreetPart(street, number); }
      MatchStreet(street + " " + number);
      { WordHasNoSpace(number); StreetPartMatches(street, number); }
      Some((street, number));
    }
  }

  /** The city part of a well-formed address with a city trims to postal code, space and city. */
  lemma TrimCityPart(code: string, city: string)
    requires |code| >= 1 && !IsTrimChar(code[0]) && !IsTrimChar(code[|code| - 1])
    requires city == [] || !IsTrimChar(city[|city| - 1])
    ensures Trim(" " + code + " " + city) == if city == [] then code else code + " " + city
  {
    var tail := code + " " + city;
    assert " " + code + " " + city == " " + tail;
    assert tail[0] == code[0];
    StripLeftAppend(" ", tail, TrimChars);
    if city == [] {
      assert tail == code + " ";
      StripRightAppend(code, " ", TrimChars);
    } else {
      assert tail[|tail| - 1] == city[|city| - 1];
      StripRightKeeps(tail, TrimChars);
    }
  }

  /** The city part reads back into postal code and city. */
  lemma CityPartParses(a: Address)
    requires WellFormed(a)
    ensures MatchPostal(Trim(CityPart(a))) == Some((a.postalCode, a.city))
  {
    CityParses(a.postalCode, a.city);
  }

  /** The city part built from a postal code and a city reads back into the two. */
  lemma CityParses(code: string, city: string)
    requires |code| == 6 && PostalCodeShape(code) && NoNewline(city)
    requires city == [] || (!IsPcreSpace(city[0]) && !IsTrimChar(city[|city| - 1]))
    ensures MatchPostal(Trim(" " + code + " " + city)) == Some((code, city))
  {
    assert IsDigit(code[0]) && IsUpperAscii(code[5]);
    TrimCityPart(code, city);
    if city == [] {
      PostalAlone(code);
    } else {
      PostalOfParts(code, " ", city);
    }
  }

  /** A postal code on its own reads back with an empty city. */
  lemma PostalAlone(code: string)
    requires PostalCodeShape(code)
    ensures MatchPostal(code) == Some((code, []))
  {
    assert code == code + [] + [];
    PostalOfParts(code, [], []);
  }

  /** Parsing a formatted well-formed address gives the address back. */
  lemma FromStringFormat(a: Address)
    requires WellFormed(a)
    ensures FromString(Format(a)) == a
  {
    ExplodeFormat(a);
    StreetPartParses(a.street, a.houseNumber);
    CityPartParses(a);
  }

  lemma ExampleWellFormed()
    ensures WellFormed(Address("Kerkstraat", "12a", "1234AB", "Amsterdam", "NL"))
  {
    var a := Address("Kerkstraat", "12a", "1234AB", "Amsterdam", "NL");
    assert WellFormed(a) by {
      assert NoNewline(a.street);
      assert NoNewline(a.city);
      assert forall i :: 0 <= i < |a.houseNumber| ==> IsWordChar(a.houseNumber[i]);
      assert PostalCodeShape(a.postalCode);
    }
  }

  /** The example the legacy format is documented with reads back into its four parts. */
  lemma DocumentedExample()
    ensures FromString("Kerkstraat 12a, 1234AB Amsterdam") == Address("Kerkstraat", "12a", "1234AB", "Amsterdam", "NL")
  {
    var a := Address("Kerkstraat", "12a", "1234AB", "Amsterdam", "NL");
    ExampleWellFormed();
    assert Format(a) == "Kerkstraat 12a, 1234AB Amsterdam";
    FromStringFormat(a);
  }

  /** Without a comma there is no city part: postal code and city are empty. */
  lemma NoCommaNoCity(address: string)
    requires ',' !in address
    ensures FromString(address).postalCode == "" && FromString(address).city == ""
  {
    ExplodeNoSeparator(',', address);
    assert Trim("") == "";
  }

  /** A street part without white space is not split: it has no house number to find. */
  lemma NoSpaceNoNumber(s: string)
    requires forall i :: 0 <= i < |s| ==> !IsPcreSpace(s[i])
    ensures MatchStreet(s).None?
  {
    MatchStreetIsLeftmost(s);
  }
}
