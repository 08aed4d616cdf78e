/** Addresses as parts: the two-line display, the short name, and the stored place text. */
module Address {
  import opened Options
  import opened JsText

  /** The stand-in for a missing address. */
  const MISSING: string := "\U{2014}"

  function Parts(text: Option<string>): seq<string> {
    if text.None? then []
    else
      var trimmed := Trim(text.value);
      if trimmed == "" || trimmed == MISSING then [] else Clean(Split(trimmed, ','))
  }

  datatype Lines = Lines(primary: string, secondary: string)

  function SplitAddress(text: Option<string>): Option<Lines> {
    var parts := Parts(text);
    if parts == [] then None else Some(Lines(parts[0], Join(parts[1..])))
  }

  // ---- the short name -------------------------------------------------------------------------

  predicate IsLetter(c: char) { 'a' <= c <= 'z' || 'A' <= c <= 'Z' }

  predicate IsHouseChar(c: char) {
    IsDigit(c) || IsSpace(c) || c == '/' || c == '\\' || c == '-'
  }

  /** All but one letter at the end. */
  function HouseBody(p: string): string {
    if p != "" && IsLetter(p[|p| - 1]) then p[..|p| - 1] else p
  }

  /** Only digits and separators, with at most one letter at the end. */
  predicate IsHouseNumber(p: string) {
    HouseBody(p) != "" && forall i :: 0 <= i < |HouseBody(p)| ==> IsHouseChar(HouseBody(p)[i])
  }

  predicate IsCodeChar(c: char) {
    || '2' <= c <= '9'
    || c in {'C', 'F', 'G', 'H', 'J', 'M', 'P', 'Q', 'R', 'V', 'W', 'X'}
    || c in {'c', 'f', 'g', 'h', 'j', 'm', 'p', 'q', 'r', 'v', 'w', 'x'}
  }

  predicate IsPlusCode(p: string) {
    exists i ::
      && 4 <= i <= 8 && i < |p| && p[i] == '+' && |p| - i - 1 <= 3
      && forall j :: 0 <= j < |p| && j != i ==> IsCodeChar(p[j])
  }

  /** The first `k` characters are digits, white space, slashes or dashes, at least one of them; after them comes at most one letter. */
  ghost predicate IsHouseSplit(p: string, k: nat) {
    && 0 < k <= |p| <= k + 1
    && (forall i :: 0 <= i < k ==> '0' <= p[i] <= '9' || IsSpace(p[i]) || p[i] in {'/', '\\', '-'})
    && (k < |p| ==> 'a' <= p[k] <= 'z' || 'A' <= p[k] <= 'Z')
  }

  lemma SplitIsHouse(p: string, k: nat)
    requires IsHouseSplit(p, k)
    ensures IsHouseNumber(p)
  {
    assert k == |p| ==> IsHouseChar(p[k - 1]);
    forall i | 0 <= i < |HouseBody(p)| ensures IsHouseChar(HouseBody(p)[i]) {
      assert HouseBody(p)[i] == p[i];
    }
  }

  /** Exactly what counts as a house number. */
  lemma HouseNumberIff(p: string)
    ensures IsHouseNumber(p) <==> exists k: nat :: IsHouseSplit(p, k)
  {
    if IsHouseNumber(p) {
      forall i | 0 <= i < |HouseBody(p)| ensures IsHouseChar(p[i]) {
        assert HouseBody(p)[i] == p[i];
      }
      assert IsHouseSplit(p, |HouseBody(p)|);
    }
    if k: nat :| IsHouseSplit(p, k) {
      SplitIsHouse(p, k);
    }
  }

  /** The alphabet of plus codes, in either case. */
  lemma CodeCharIff(c: char)
    ensures IsCodeChar(c) <==> c in "23456789CFGHJMPQRVWXcfghjmpqrvwx"
  {
  }

  ghost predicate IsCodeSplit(p: string, left: string, right: string) {
    && p == left + "+" + right && 4 <= |left| <= 8 && |right| <= 3
    && (forall i :: 0 <= i < |left| ==> IsCodeChar(left[i]))
    && (forall i :: 0 <= i < |right| ==> IsCodeChar(right[i]))
  }

  lemma SplitIsCode(p: string, left: string, right: string)
    requires IsCodeSplit(p, left, right)
    ensures IsPlusCode(p)
  {
    var i := |left|;
    assert 4 <= i <= 8 && i < |p| && p[i] == '+' && |p| - i - 1 <= 3;
    forall j | 0 <= j < |p| && j != i ensures IsCodeChar(p[j]) {
      if j < i {
        assert p[j] == left[j];
      } else {
        assert p[j] == right[j - i - 1];
      }
    }
  }

  lemma CodeIsSplit(p: string)
    requires IsPlusCode(p)
    ensures exists left, right :: IsCodeSplit(p, left, right)
  {
    var i :| 4 <= i <= 8 && i < |p| && p[i] == '+' && |p| - i - 1 <= 3
             && forall j :: 0 <= j < |p| && j != i ==> IsCodeChar(p[j]);
    var left, right := p[..i], p[i + 1..];
    assert p == left + "+" + right;
    forall j | 0 <= j < |left| ensures IsCodeChar(left[j]) {
      assert IsCodeChar(p[j]);
    }
    forall j | 0 <= j < |right| ensures IsCodeChar(right[j]) {
      assert IsCodeChar(p[i + 1 + j]);
    }
    assert IsCodeSplit(p, left, right);
  }

  /** A plus code: four to eight code characters, a plus, at most three more. */
  lemma PlusCodeIff(p: string)
    ensures IsPlusCode(p) <==> exists left, right :: IsCodeSplit(p, left, right)
  {
    if IsPlusCode(p) {
      CodeIsSplit(p);
    }
    if left, right :| IsCodeSplit(p, left, right) {
      SplitIsCode(p, left, right);
    }
  }

  predicate IsName(p: string) {
    !IsHouseNumber(p) && !IsPlusCode(p)
  }

  function FindName(parts: seq<string>): Option<string> {
    if parts == [] then None
    else if IsName(parts[0]) then Some(parts[0])
    else FindName(parts[1..])
  }

  function ShortPlace(text: Option<string>): Option<string> {
    var parts := Parts(text);
    var named := FindName(parts);
    if named.Some? then named else if parts == [] then None else Some(parts[0])
  }

  lemma {:induction false} FindNameFinds(parts: seq<string>, i: nat)
    requires i < |parts| && IsName(parts[i])
    requires forall j :: 0 <= j < i ==> !IsName(parts[j])
    ensures FindName(parts) == Some(parts[i])
  {
    if i == 0 {
    } else {
      FindNameFinds(parts[1..], i - 1);
    }
  }

  lemma {:induction false} FindNameMisses(parts: seq<string>)
    requires forall j :: 0 <= j < |parts| ==> !IsName(parts[j])
    ensures FindName(parts) == None
  {
    if parts == [] {
    } else {
      FindNameMisses(parts[1..]);
    }
  }

  /** The short name is the first part that is a name; failing that the first part; failing that none. */
  lemma ShortPlaceIsFirstName(text: Option<string>)
    ensures ShortPlace(text).None? <==> Parts(text) == []
    ensures forall i :: 0 <= i < |Parts(text)| && IsName(Parts(text)[i])
                        && (forall j :: 0 <= j < i ==> !IsName(Parts(text)[j])) ==>
              ShortPlace(text) == Some(Parts(text)[i])
    ensures Parts(text) != [] && (forall j :: 0 <= j < |Parts(text)| ==> !IsName(Parts(text)[j])) ==>
              ShortPlace(text) == Some(Parts(text)[0])
  {
    var parts := Parts(text);
    forall i | 0 <= i < |parts| && IsName(parts[i]) && (forall j :: 0 <= j < i ==> !IsName(parts[j]))
      ensures ShortPlace(text) == Some(parts[i])
    {
      FindNameFinds(parts, i);
    }
    if forall j :: 0 <= j < |parts| ==> !IsName(parts[j]) {
      FindNameMisses(parts);
    }
  }

  // ---- rejoining the two lines ------------------------------------------------------------------

  /** The two lines as one text again. */
  function Rejoined(lines: Lines): string {
    if lines.secondary == "" then lines.primary else lines.primary + ", " + lines.secondary
  }

  lemma PartsAreParts(text: Option<string>)
    ensures AllParts(Parts(text))
  {
    if text.Some? {
      SplitHasNoSeparator(Trim(text.value), ',');
      CleanGivesParts(Split(Trim(text.value), ','));
    }
  }

  lemma RejoinedIsJoin(text: Option<string>)
    requires SplitAddress(text).Some?
    ensures Rejoined(SplitAddress(text).value) == Join(Parts(text))
  {
    var parts := Parts(text);
    PartsAreParts(text);
    if |parts| > 1 {
      JoinIsTrimmed(parts[1..]);
    }
  }

  lemma PartsOfJoin(parts: seq<string>)
    requires parts != [] && AllParts(parts)
    ensures Parts(Some(Join(parts))) == if parts == [MISSING] then [] else parts
  {
    JoinIsTrimmed(parts);
    TrimOfTrimmed(Join(parts));
    SplitInvertsJoin(parts);
    if Join(parts) == MISSING {
      assert ',' !in MISSING;
      assert |parts| == 1;
      assert parts == [MISSING];
    }
  }

  /**
   For every address text that has lines: rejoining them and parsing again gives the same
   parts, and the same short name, if and only if the only part is not the lone dash that
   stands for a missing address (as in "\U{2014},").
   */
  lemma RejoinKeepsPartsIff(text: Option<string>)
    requires SplitAddress(text).Some?
    ensures var again := Some(Rejoined(SplitAddress(text).value));
            && (Parts(again) == Parts(text) <==> Parts(text) != [MISSING])
            && (ShortPlace(again) == ShortPlace(text) <==> Parts(text) != [MISSING])
  {
    PartsAreParts(text);
    RejoinedIsJoin(text);
    PartsOfJoin(Parts(text));
  }

  /** The exception does occur: a dash followed by a comma parses to the dash alone. */
  lemma TheDashIsLost()
    ensures Parts(Some(MISSING + ",")) == [MISSING]
    ensures Parts(Some(Rejoined(SplitAddress(Some(MISSING + ",")).value))) == []
  {
    var text := MISSING + ",";
    assert text[0] == '\U{2014}' && text[1] == ',' && |text| == 2;
    TrimOfTrimmed(text);
    TrimOfTrimmed(MISSING);
    assert text == MISSING + "," + "";
    SplitAt(MISSING, "");
    assert Split(text, ',') == [MISSING, ""];
    assert [MISSING, ""][1..] == [""] && [""][1..] == [];
    assert Clean([""]) == [];
    assert Clean([MISSING, ""]) == [MISSING];
    PartsOfJoin([MISSING]);
    RejoinedIsJoin(Some(text));
  }

  lemma LonePart(p: string)
    requires IsPart(p)
    ensures Trim(p + ", ") == p + ","
    ensures Clean(Split(p + ",", ',')) == [p]
  {
    var again := p + ", ";
    assert again[..|again| - 1] == p + "," && again[|again| - 1] == ' ' && again[0] == p[0];
    assert TrimStart(again) == again;
    assert TrimEnd(p + ",") == p + ",";
    assert p + "," == p + "," + "";
    SplitAt(p, "");
    TrimOfTrimmed(p);
    assert [p, ""][1..] == [""] && [""][1..] == [];
    assert Clean([""]) == [];
  }

  /** With the separator written even after a lone part, there is no exception. */
  lemma RejoinWithSeparator(text: Option<string>)
    requires SplitAddress(text).Some?
    ensures var lines := SplitAddress(text).value;
            Parts(Some(lines.primary + ", " + lines.secondary)) == Parts(text)
  {
    var parts := Parts(text);
    PartsAreParts(text);
    if |parts| > 1 {
      PartsOfJoin(parts);
    } else {
      LonePart(parts[0]);
      assert parts[0] + ", " + "" == parts[0] + ", ";
      assert parts == [parts[0]];
      assert |parts[0] + ","| > 1;
    }
  }

  // ---- the stored place text ---------------------------------------------------------------------

  /** Lower-casing character by character. */
  function Lower(lower: char -> char, s: string): string {
    seq(|s|, i requires 0 <= i < |s| => lower(s[i]))
  }

  function FullPlaceText(lower: char -> char, place: string, address: Option<string>): string {
    var name := Trim(place);
    var full := if address.None? then "" else Trim(address.value);
    if full == "" then name
    else if name == "" || Lower(lower, name) <= Lower(lower, full) then full
    else name + ", " + full
  }

  /** The result starts with the place's name, up to case, ends with the address, has nothing else but a separator where it needs one, and is fit to be stored as it is. */
  lemma PlaceTextNamesThePlace(lower: char -> char, place: string, address: Option<string>)
    ensures Lower(lower, Trim(place)) <= Lower(lower, FullPlaceText(lower, place, address))
    ensures Trimmed(FullPlaceText(lower, place, address))
    ensures var r, full := FullPlaceText(lower, place, address), if address.None? then "" else Trim(address.value);
            && |full| <= |r| && r[|r| - |full|..] == full
            && (full == "" ==> r == Trim(place))
            && (full != "" ==> (r == full <==> Lower(lower, Trim(place)) <= Lower(lower, full)))
            && (full != "" && r != full ==> r[..|r| - |full|] == Trim(place) + ", ")
  {
    TrimTrims(place);
    if address.Some? {
      TrimTrims(address.value);
    }
  }

  /** Storing a stored text again under the same label changes nothing. */
  lemma PlaceTextIsIdempotent(lower: char -> char, place: string, address: Option<string>)
    ensures FullPlaceText(lower, place, Some(FullPlaceText(lower, place, address))) == FullPlaceText(lower, place, address)
  {
    PlaceTextNamesThePlace(lower, place, address);
    TrimOfTrimmed(FullPlaceText(lower, place, address));
  }
}
