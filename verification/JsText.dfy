/** The string operations the text helpers are built from: `trim`, `split` on a character, `join`. */
module JsText {

  predicate IsDigit(c: char) {
    '0' <= c <= '9'
  }

  /** White space as `trim` and `\s` understand it. */
  predicate IsSpace(c: char) {
    || c in {' ', '\t', '\n', '\r', '\U{000B}', '\U{000C}', '\U{00A0}', '\U{1680}', '\U{2028}', '\U{2029}', '\U{202F}',
             '\U{205F}', '\U{3000}', '\U{FEFF}'}
    || '\U{2000}' <= c <= '\U{200A}'
  }

  function TrimStart(s: string): string {
    if s != "" && IsSpace(s[0]) then TrimStart(s[1..]) else s
  }

  function TrimEnd(s: string): string {
    if s != "" && IsSpace(s[|s| - 1]) then TrimEnd(s[..|s| - 1]) else s
  }

  function Trim(s: string): string {
    TrimEnd(TrimStart(s))
  }

  /** No white space at either end; the empty text counts. */
  predicate Trimmed(s: string) {
    s == "" || (!IsSpace(s[0]) && !IsSpace(s[|s| - 1]))
  }

  lemma TrimOfTrimmed(s: string)
    requires Trimmed(s)
    ensures Trim(s) == s
  {
  }

  lemma {:induction false} TrimEndStarts(s: string)
    ensures TrimEnd(s) <= s
    ensures TrimEnd(s) != "" ==> !IsSpace(TrimEnd(s)[|TrimEnd(s)| - 1])
  {
    if s == "" || !IsSpace(s[|s| - 1]) {
    } else {
      TrimEndStarts(s[..|s| - 1]);
    }
  }

  lemma {:induction false} TrimStartStarts(s: string)
    ensures TrimStart(s) != "" ==> !IsSpace(TrimStart(s)[0])
    ensures forall c :: c in TrimStart(s) ==> c in s
  {
    if s == "" || !IsSpace(s[0]) {
    } else {
      TrimStartStarts(s[1..]);
    }
  }

  lemma TrimTrims(s: string)
    ensures Trimmed(Trim(s))
    ensures forall c :: c in Trim(s) ==> c in s
  {
    TrimStartStarts(s);
    TrimEndStarts(TrimStart(s));
  }

  /** A leading space is trimmed away. */
  lemma TrimLeadingSpace(s: string)
    ensures Trim(" " + s) == Trim(s)
  {
    assert (" " + s)[1..] == s;
  }

  // ---- split, clean, join -------------------------------------------------------------------

  function Split(s: string, sep: char): (r: seq<string>)
    ensures r != []
  {
    if s == "" then [""] else Push(s[0], Split(s[1..], sep), sep)
  }

  /** One more character in front of a split text. */
  function Push(c: char, pieces: seq<string>, sep: char): (r: seq<string>)
    requires pieces != []
    ensures r != []
  {
    if c == sep then [""] + pieces else [[c] + pieces[0]] + pieces[1..]
  }

  lemma PushConcat(c: char, a: seq<string>, b: seq<string>, sep: char)
    requires a != []
    ensures Push(c, a + b, sep) == Push(c, a, sep) + b
  {
    if c == sep {
      assert [""] + (a + b) == [""] + a + b;
    } else {
      assert (a + b)[1..] == a[1..] + b;
    }
  }

  /** `map(trim)` then `filter(Boolean)`. */
  function Clean(pieces: seq<string>): seq<string> {
    if pieces == [] then []
    else
      var p := Trim(pieces[0]);
      (if p == "" then [] else [p]) + Clean(pieces[1..])
  }

  function Join(parts: seq<string>): string {
    if parts == [] then ""
    else if |parts| == 1 then parts[0]
    else parts[0] + ", " + Join(parts[1..])
  }

  /** A part as cleaning leaves it. */
  predicate IsPart(p: string) {
    p != "" && Trimmed(p) && ',' !in p
  }

  ghost predicate AllParts(parts: seq<string>) {
    forall i :: 0 <= i < |parts| ==> IsPart(parts[i])
  }

  lemma {:induction false} SplitHasNoSeparator(s: string, sep: char)
    ensures forall i :: 0 <= i < |Split(s, sep)| ==> sep !in Split(s, sep)[i]
  {
    if s == "" {
    } else {
      SplitHasNoSeparator(s[1..], sep);
    }
  }

  lemma {:induction false} CleanGivesParts(pieces: seq<string>)
    requires forall i :: 0 <= i < |pieces| ==> ',' !in pieces[i]
    ensures AllParts(Clean(pieces))
  {
    if pieces == [] {
    } else {
      TrimTrims(pieces[0]);
      CleanGivesParts(pieces[1..]);
    }
  }

  /** Splitting two texts with a separator between them splits each. */
  lemma {:induction false} SplitConcat(a: string, b: string, sep: char)
    ensures Split(a + [sep] + b, sep) == Split(a, sep) + Split(b, sep)
  {
    var s := a + [sep] + b;
    if a == "" {
      assert s[1..] == b;
    } else {
      SplitConcat(a[1..], b, sep);
      assert s[1..] == a[1..] + [sep] + b;
      PushConcat(a[0], Split(a[1..], sep), Split(b, sep), sep);
    }
  }

  lemma {:induction false} SplitWhole(p: string, sep: char)
    requires sep !in p
    ensures Split(p, sep) == [p]
  {
    if p == "" {
    } else {
      SplitWhole(p[1..], sep);
      assert [p[0]] + p[1..] == p;
    }
  }

  /** Splitting stops at the first comma. */
  lemma SplitAt(p: string, rest: string)
    requires ',' !in p
    ensures Split(p + "," + rest, ',') == [p] + Split(rest, ',')
  {
    SplitConcat(p, rest, ',');
    SplitWhole(p, ',');
  }

  /** The space after a comma disappears in cleaning. */
  lemma CleanAfterSpace(s: string)
    ensures Clean(Split(" " + s, ',')) == Clean(Split(s, ','))
  {
    var a := " " + s;
    assert a[1..] == s && a[0] == ' ';
    var r := Split(s, ',');
    assert Split(a, ',') == [[' '] + r[0]] + r[1..];
    assert [' '] + r[0] == " " + r[0];
    TrimLeadingSpace(r[0]);
    assert Split(a, ',')[1..] == r[1..];
  }

  /** Joining parts and splitting again gives the parts back. */
  lemma {:induction false} SplitInvertsJoin(parts: seq<string>)
    requires parts != [] && AllParts(parts)
    ensures Clean(Split(Join(parts), ',')) == parts
  {
    var p := parts[0];
    TrimOfTrimmed(p);
    if |parts| == 1 {
      SplitWhole(p, ',');
      assert parts == [p] && Clean([p]) == [p] + Clean([p][1..]);
    } else {
      var rest := Join(parts[1..]);
      SplitInvertsJoin(parts[1..]);
      assert Join(parts) == p + "," + (" " + rest);
      SplitAt(p, " " + rest);
      CleanAfterSpace(rest);
      var pieces := [p] + Split(" " + rest, ',');
      assert pieces[0] == p && pieces[1..] == Split(" " + rest, ',');
      assert Clean(pieces) == [p] + Clean(Split(" " + rest, ','));
    }
  }

  lemma {:induction false} JoinIsTrimmed(parts: seq<string>)
    requires parts != [] && AllParts(parts)
    ensures Join(parts) != "" && Trimmed(Join(parts))
    ensures Join(parts)[0] == parts[0][0]
    ensures |parts| > 1 ==> ',' in Join(parts)
  {
    if |parts| <= 1 {
    } else {
      JoinIsTrimmed(parts[1..]);
      var s := Join(parts);
      assert s[|parts[0]|] == ',';
    }
  }
}
