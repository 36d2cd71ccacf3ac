/** The result-page parser: from the lower-cased text of the results container to the
    record's status and expiration date. Both known page layouts are read. */
module ResultParser {
  import opened Results
  import opened Text

  /** Marker of a VIN the portal has no inspection record for. */
  const NotFoundMarker: string := "nu a fost găsită nicio înregistrare"
  /** Marker preceding the expiration date in the current layout (`d-mon-yyyy`). */
  const ValidUntilMarker: string := "valabilă până la"
  /** Marker of the older layout, whose date (`dd.mm.yyyy`) sits in the next element. */
  const LegacyMarker: string := "data expirării"
  /** The expiration date when none could be read. */
  const Unknown: string := "Unknown"

  /** Romanian month abbreviations as the portal writes them; September is `sept`. */
  const MonthMap: map<string, string> := map[
    "ian" := "01", "feb" := "02", "mar" := "03", "apr" := "04",
    "mai" := "05", "iun" := "06", "iul" := "07", "aug" := "08",
    "sept" := "09", "oct" := "10", "nov" := "11", "dec" := "12"]

  /** The two-digit month numbers. */
  const MonthNumbers: set<string> := {
    "01", "02", "03", "04", "05", "06", "07", "08", "09", "10", "11", "12"}

  datatype ItpStatus = Valid | NotFound

  /** What the older layout offers beyond the text: the text node containing
      `Data expirării` (case as written) and the text of the element after it. */
  datatype LegacyNode =
    | NoMarkerNode          // no text node contains the marker
    | NoNextElement         // the marker node has no following element
    | NextText(text: string)

  datatype Parsed = Parsed(status: ItpStatus, expiration: string)

  /** The month number of an abbreviation, `01` for one the table does not know. */
  function MonthCode(abbrev: string): (code: string)
    ensures code in MonthNumbers
    ensures abbrev in MonthMap ==> code == MonthMap[abbrev]
    ensures code != "01" ==> abbrev in MonthMap
  {
    if abbrev in MonthMap then MonthMap[abbrev] else "01"
  }

  /** The table gives each month its own number: no two abbreviations share one. */
  lemma MonthMapInjective(a: string, b: string)
    requires a in MonthMap && b in MonthMap && a != b
    ensures MonthMap[a] != MonthMap[b]
  {
  }

  /** The English-style `sep` is not in the table, so it reads as January. */
  lemma SepReadsAsJanuary()
    ensures MonthCode("sep") == "01"
  {
    assert "sep" !in MonthMap by {
      assert "sep" != "sept";
    }
  }

  function Zeros(n: nat): (z: string)
    ensures |z| == n && forall i :: 0 <= i < n ==> z[i] == '0'
  {
    if n == 0 then [] else "0" + Zeros(n - 1)
  }

  function Max(a: nat, b: nat): nat {
    if a >= b then a else b
  }

  /** `s.zfill(2)`: zeros on the left up to width 2, after a leading sign if there is one. */
  function ZFill2(s: string): (r: string)
    ensures |r| == Max(|s|, 2)
    ensures |s| >= 2 ==> r == s
    ensures |s| < 2 && (s == [] || (s[0] != '+' && s[0] != '-')) ==> r == Zeros(2 - |s|) + s
    ensures |s| == 1 && (s[0] == '+' || s[0] == '-') ==> r == s + "0"
  {
    if |s| >= 2 then s
    else if |s| == 1 && (s[0] == '+' || s[0] == '-') then [s[0], '0']
    else Zeros(2 - |s|) + s
  }

  /** The date after `valabilă până la`: its first word, stripped of dots at both ends,
      must split on `-` into exactly day, month abbreviation and year, and becomes
      `yyyy-MM-dd` with the month looked up and the day zero-padded. A date is read exactly
      when there is a word after the marker and its stripped form has two dashes. */
  function NewFormatDate(lower: string): (r: Option<string>)
    requires Contains(lower, ValidUntilMarker)
    ensures var w := FirstWord(After(lower, ValidUntilMarker));
            r.Some? <==> w.Some? && multiset(StripChar(Strip(w.value), '.'))['-'] == 2
  {
    match FirstWord(After(lower, ValidUntilMarker))
    case None => None
    case Some(word) =>
      var parts := SplitOn(StripChar(Strip(word), '.'), '-');
      if |parts| != 3 then None
      else Some(parts[2] + "-" + MonthCode(parts[1]) + "-" + ZFill2(parts[0]))
  }

  /** A date read from the current layout has three dash-separated fields: the year, a
      month number, and a day at least two characters wide. */
  lemma NewFormatDateFields(lower: string)
    requires Contains(lower, ValidUntilMarker)
    ensures NewFormatDate(lower).Some? ==>
              var fields := SplitOn(NewFormatDate(lower).value, '-');
              |fields| == 3 && fields[1] in MonthNumbers && |fields[2]| >= 2
  {
    var w := FirstWord(After(lower, ValidUntilMarker));
    if w.Some? {
      var parts := SplitOn(StripChar(Strip(w.value), '.'), '-');
      if |parts| == 3 {
        assert NewFormatDate(lower) == Some(parts[2] + "-" + MonthCode(parts[1]) + "-" + ZFill2(parts[0]));
        DateShape(parts[2], parts[1], parts[0]);
      }
    }
  }

  lemma DateShape(year: string, mon: string, day: string)
    requires '-' !in year && '-' !in day
    ensures var fields := SplitOn(year + "-" + MonthCode(mon) + "-" + ZFill2(day), '-');
            |fields| == 3 && fields[1] in MonthNumbers && |fields[2]| >= 2
  {
    var month := MonthCode(mon);
    MonthNumberHasNoDash(month);
    ZFill2KeepsDashFree(day);
    DateFieldsSplit(year, month, ZFill2(day));
  }

  lemma MonthNumberHasNoDash(m: string)
    requires m in MonthNumbers
    ensures '-' !in m
  {
  }

  /** Padding a dash-free day keeps it dash-free and makes it at least two wide. */
  lemma ZFill2KeepsDashFree(s: string)
    requires '-' !in s
    ensures '-' !in ZFill2(s) && |ZFill2(s)| >= 2
  {
  }

  lemma DateFieldsSplit(a: string, b: string, c: string)
    requires '-' !in a && '-' !in b && '-' !in c
    ensures SplitOn(a + "-" + b + "-" + c, '-') == [a, b, c]
  {
    JoinThree(a, b, c, '-');
    var parts := [a, b, c];
    assert forall i :: 0 <= i < |parts| ==> '-' !in parts[i];
    SplitOnJoin(parts, '-');
  }

  /** The older layout's date: the next element's text must split on `.` into exactly
      day, month and year, and becomes `yyyy-mm-dd` without padding. */
  function LegacyDate(node: LegacyNode): (r: Option<string>)
    ensures r.Some? ==> node.NextText?
    ensures node.NextText? ==> (r.Some? <==> multiset(node.text)['.'] == 2)
  {
    match node
    case NextText(text) =>
      var parts := SplitOn(text, '.');
      if |parts| != 3 then None else Some(parts[2] + "-" + parts[1] + "-" + parts[0])
    case _ => None
  }

  /** The status and expiration date of a result page, from its lower-cased text and the
      older layout's marker node. The status is `Not Found` exactly when the no-record
      marker is present; a date is read only from a page with a record, by the current
      layout when its marker is present and by the older one otherwise, and anything that
      cannot be read leaves `Unknown`. */
  function Parse(lower: string, legacy: LegacyNode): (r: Parsed)
    ensures r.status == NotFound <==> Contains(lower, NotFoundMarker)
    ensures r.status == NotFound ==> r.expiration == Unknown
    ensures !Contains(lower, ValidUntilMarker) && !Contains(lower, LegacyMarker) ==>
              r.expiration == Unknown
    ensures r.status == Valid && Contains(lower, ValidUntilMarker) ==>
              r.expiration == NewFormatDate(lower).ValueOr(Unknown)
    ensures r.status == Valid && !Contains(lower, ValidUntilMarker) && Contains(lower, LegacyMarker) ==>
              r.expiration == LegacyDate(legacy).ValueOr(Unknown)
  {
    if Contains(lower, NotFoundMarker) then Parsed(NotFound, Unknown)
    else if Contains(lower, ValidUntilMarker) then Parsed(Valid, NewFormatDate(lower).ValueOr(Unknown))
    else if Contains(lower, LegacyMarker) then Parsed(Valid, LegacyDate(legacy).ValueOr(Unknown))
    else Parsed(Valid, Unknown)
  }

  /** A field of a `d-mon-yyyy` date: no blank, dot or dash anywhere in it. */
  predicate DateField(f: string) {
    forall i :: 0 <= i < |f| ==> !IsSpace(f[i]) && f[i] != '.' && f[i] != '-'
  }

  predicate AllDots(s: string) {
    forall i :: 0 <= i < |s| ==> s[i] == '.'
  }

  /** The word after the marker: a `day-mon-year` token, possibly wrapped in dots
      (`5-mar-2026.` at the end of a sentence). */
  function DatedWord(lead: string, day: string, mon: string, year: string, trail: string): string {
    lead + (day + "-" + mon + "-" + year) + trail
  }

  /** A date in the current layout reads back as its ISO form: whatever the three fields,
      a `day-mon-year` word after the first `valabilă până la` gives `year-MM-dd`, with the
      month looked up (January when the table lacks it) and the day zero-padded. */
  lemma NewFormatRoundTrip(text: string, prefix: string, blanks: string, lead: string,
                           day: string, mon: string, year: string, trail: string,
                           rest: string, legacy: LegacyNode)
    requires DateField(day) && DateField(mon) && DateField(year)
    requires AllDots(lead) && AllDots(trail)
    requires forall i :: 0 <= i < |blanks| ==> IsSpace(blanks[i])
    requires rest == [] || IsSpace(rest[0])
    requires text == prefix + ValidUntilMarker + blanks + DatedWord(lead, day, mon, year, trail) + rest
    requires Find(text, ValidUntilMarker) == Some(|prefix|)
    requires !Contains(text, NotFoundMarker)
    ensures Parse(text, legacy) == Parsed(Valid, year + "-" + MonthCode(mon) + "-" + ZFill2(day))
  {
    var word := DatedWord(lead, day, mon, year, trail);
    Regroup(prefix, ValidUntilMarker, blanks, word, rest);
    AfterFirst(text, prefix, ValidUntilMarker, blanks + word + rest);
    NewFormatDateOf(text, blanks, lead, day, mon, year, trail, rest);
    ParseNewFormat(text, legacy);
  }

  lemma Regroup(prefix: string, marker: string, blanks: string, word: string, rest: string)
    ensures prefix + marker + blanks + word + rest == prefix + marker + (blanks + word + rest)
  {
  }

  /** On a page with a record and the current layout's marker, a readable date is the
      expiration. */
  lemma ParseNewFormat(text: string, legacy: LegacyNode)
    requires Contains(text, ValidUntilMarker) && !Contains(text, NotFoundMarker)
    requires NewFormatDate(text).Some?
    ensures Parse(text, legacy) == Parsed(Valid, NewFormatDate(text).value)
  {
  }

  lemma NewFormatDateOf(text: string, blanks: string, lead: string, day: string, mon: string,
                        year: string, trail: string, rest: string)
    requires DateField(day) && DateField(mon) && DateField(year)
    requires AllDots(lead) && AllDots(trail)
    requires forall i :: 0 <= i < |blanks| ==> IsSpace(blanks[i])
    requires rest == [] || IsSpace(rest[0])
    requires Contains(text, ValidUntilMarker)
    requires After(text, ValidUntilMarker) == blanks + DatedWord(lead, day, mon, year, trail) + rest
    ensures NewFormatDate(text) == Some(year + "-" + MonthCode(mon) + "-" + ZFill2(day))
  {
    var word := DatedWord(lead, day, mon, year, trail);
    DatedWordIsWord(lead, day, mon, year, trail);
    FirstWordAfterBlanks(blanks, word, rest);
    assert FirstWord(After(text, ValidUntilMarker)) == Some(word);
    TokenParts(lead, day, mon, year, trail);
    var parts := SplitOn(StripChar(Strip(word), '.'), '-');
    assert parts == [day, mon, year];
    assert parts[2] == year && parts[1] == mon && parts[0] == day;
  }

  /** A dated word is one whitespace-free word. */
  lemma DatedWordIsWord(lead: string, day: string, mon: string, year: string, trail: string)
    requires DateField(day) && DateField(mon) && DateField(year)
    requires AllDots(lead) && AllDots(trail)
    ensures var w := DatedWord(lead, day, mon, year, trail);
            w != [] && forall i :: 0 <= i < |w| ==> !IsSpace(w[i])
  {
  }

  /** A `day-mon-year` token has no blank, does not begin or end with a dot, and its
      dashes are exactly the two separators. */
  lemma TokenShape(day: string, mon: string, year: string)
    requires DateField(day) && DateField(mon) && DateField(year)
    ensures var token := day + "-" + mon + "-" + year;
            && token != [] && token[0] != '.' && token[|token| - 1] != '.'
            && (forall i :: 0 <= i < |token| ==> !IsSpace(token[i]))
            && token == Join([day, mon, year], '-')
  {
    var token := day + "-" + mon + "-" + year;
    forall i | 0 <= i < |token| ensures !IsSpace(token[i]) {
      if i < |day| {
        assert token[i] == day[i];
      } else if i == |day| {
        assert token[i] == '-';
      } else if i < |day| + 1 + |mon| {
        assert token[i] == mon[i - |day| - 1];
      } else if i == |day| + 1 + |mon| {
        assert token[i] == '-';
      } else {
        assert token[i] == year[i - |day| - |mon| - 2];
      }
    }
    if day != [] {
      assert token[0] == day[0];
    }
    if year != [] {
      assert token[|token| - 1] == year[|year| - 1];
    }
    JoinThree(day, mon, year, '-');
  }

  /** A dated word survives the stripping as its token and splits into exactly its three
      fields. */
  lemma TokenParts(lead: string, day: string, mon: string, year: string, trail: string)
    requires DateField(day) && DateField(mon) && DateField(year)
    requires AllDots(lead) && AllDots(trail)
    ensures SplitOn(StripChar(Strip(DatedWord(lead, day, mon, year, trail)), '.'), '-')
            == [day, mon, year]
  {
    var token := day + "-" + mon + "-" + year;
    TokenShape(day, mon, year);
    StripDotted(lead, token, trail);
    assert StripChar(Strip(DatedWord(lead, day, mon, year, trail)), '.') == Join([day, mon, year], '-');
    SplitFields(day, mon, year);
  }

  lemma SplitFields(day: string, mon: string, year: string)
    requires DateField(day) && DateField(mon) && DateField(year)
    ensures SplitOn(Join([day, mon, year], '-'), '-') == [day, mon, year]
  {
    var parts := [day, mon, year];
    assert forall i :: 0 <= i < |parts| ==> '-' !in parts[i] by {
      assert '-' !in day && '-' !in mon && '-' !in year;
    }
    SplitOnJoin(parts, '-');
  }

  /** Stripping blanks and then dots from a blank-free word leaves what the dot runs at
      its ends enclose. */
  lemma StripDotted(lead: string, token: string, trail: string)
    requires AllDots(lead) && AllDots(trail)
    requires token != [] && token[0] != '.' && token[|token| - 1] != '.'
    requires forall i :: 0 <= i < |token| ==> !IsSpace(token[i])
    ensures StripChar(Strip(lead + token + trail), '.') == token
  {
    var w := lead + token + trail;
    forall i | 0 <= i < |w| ensures !IsSpace(w[i]) {
      if i < |lead| {
        assert w[i] == lead[i];
      } else if i >= |lead| + |token| {
        assert w[i] == trail[i - |lead| - |token|];
      }
    }
    StripByUntouched(w, IsSpace);
    var dot := x => x == '.';
    assert w == lead + (token + trail);
    assert (token + trail)[0] == token[0];
    DropLeading(lead, token + trail, dot);
    DropTrailing(token, trail, dot);
  }

  /** The current layout's example: a page reading `valabilă până la 5-mar-2026` expires
      on 2026-03-05, also when the date closes a sentence. */
  lemma NewFormatExample(text: string, prefix: string, dot: string, rest: string, legacy: LegacyNode)
    requires dot == "" || dot == "."
    requires text == prefix + ValidUntilMarker + " " + "5-mar-2026" + dot + rest
    requires rest == [] || IsSpace(rest[0])
    requires Find(text, ValidUntilMarker) == Some(|prefix|)
    requires !Contains(text, NotFoundMarker)
    ensures Parse(text, legacy) == Parsed(Valid, "2026-03-05")
  {
    NewFormatExampleWord(dot);
    NewFormatExampleFields();
    assert " "[0] == ' ';
    NewFormatRoundTrip(text, prefix, " ", "", "5", "mar", "2026", dot, rest, legacy);
    NewFormatExampleDate();
  }

  lemma NewFormatExampleWord(dot: string)
    ensures "5-mar-2026" + dot == DatedWord("", "5", "mar", "2026", dot)
  {
  }

  lemma NewFormatExampleFields()
    ensures DateField("5") && DateField("mar") && DateField("2026") && AllDots(".") && AllDots("")
  {
  }

  lemma NewFormatExampleDate()
    ensures "2026" + "-" + MonthCode("mar") + "-" + ZFill2("5") == "2026-03-05"
  {
    assert ZFill2("5") == "05";
  }

  /** A date in the older layout reads back as `yyyy-mm-dd`, without padding. */
  lemma LegacyRoundTrip(lower: string, day: string, month: string, year: string)
    requires '.' !in day && '.' !in month && '.' !in year
    requires Contains(lower, LegacyMarker)
    requires !Contains(lower, ValidUntilMarker) && !Contains(lower, NotFoundMarker)
    ensures Parse(lower, NextText(day + "." + month + "." + year))
            == Parsed(Valid, year + "-" + month + "-" + day)
  {
    JoinThree(day, month, year, '.');
    SplitOnJoin([day, month, year], '.');
  }

  /** The older layout's example: `15.07.2025` after the marker reads as 2025-07-15. */
  lemma LegacyExample(lower: string, next: string)
    requires Contains(lower, LegacyMarker)
    requires !Contains(lower, ValidUntilMarker) && !Contains(lower, NotFoundMarker)
    requires next == "15.07.2025"
    ensures Parse(lower, NextText(next)) == Parsed(Valid, "2025-07-15")
  {
    LegacyExampleText(next);
    LegacyRoundTrip(lower, "15", "07", "2025");
    LegacyExampleDate();
  }

  lemma LegacyExampleDate()
    ensures "2025" + "-" + "07" + "-" + "15" == "2025-07-15"
  {
  }

  lemma LegacyExampleText(next: string)
    requires next == "15.07.2025"
    ensures next == "15" + "." + "07" + "." + "2025"
  {
  }
}
