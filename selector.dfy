/** The zip-code selector of the sidebar: each option is labelled
    "<zip> - <city>", the chosen label is cut back to its zip code with
    `split(" - ")[0]`, and the row with that zip code is looked up in the
    scored table, failing visibly when there is none. */
module Selector {
  import opened Scoring

  const Separator: string := " - "

  /** `f"{zip} - {city}"` */
  function ZipLabel(zip: string, city: string): (text: string)
    ensures |text| == |zip| + |Separator| + |city|
    ensures text[..|zip|] == zip && text[|zip| + |Separator|..] == city
    ensures SeparatorAt(text, |zip|)
  {
    var text := zip + Separator + city;
    assert text[|zip|..|zip| + |Separator|] == Separator;
    text
  }

  /** A separator starts at position k of s. */
  predicate SeparatorAt(s: string, k: int) {
    0 <= k && k + |Separator| <= |s| && s[k..k + |Separator|] == Separator
  }

  predicate ContainsSeparator(s: string) {
    exists k :: 0 <= k < |s| && SeparatorAt(s, k)
  }

  /** `s.split(" - ")[0]`: the text before the first separator, or all of s
      when it has none. */
  function FirstField(s: string): (r: string)
    ensures r <= s
    ensures |r| == |s| || SeparatorAt(s, |r|)
    ensures forall k :: 0 <= k < |r| ==> !SeparatorAt(s, k)
    decreases |s|
  {
    if |s| < |Separator| then s
    else if s[..|Separator|] == Separator then ""
    else
      var rest := FirstField(s[1..]);
      assert forall k :: 1 <= k ==> (SeparatorAt(s, k) <==> SeparatorAt(s[1..], k - 1));
      [s[0]] + rest
  }

  /** The zip code ends in " -", so the label's separator is found one
      character too early. */
  predicate EndsWithSpaceDash(zip: string) {
    |zip| >= 2 && zip[|zip| - 2..] == " -"
  }

  /** A separator of the label that starts inside the zip code lies wholly
      inside it, or else the zip code ends in " -". */
  lemma SeparatorStartingInZip(zip: string, city: string, k: int)
    requires 0 <= k < |zip| && SeparatorAt(ZipLabel(zip, city), k)
    ensures SeparatorAt(zip, k) || EndsWithSpaceDash(zip)
  {
    var text := ZipLabel(zip, city);
    assert text[|zip|] == ' ';
    assert text[k + 1] == text[k..k + 3][1] == '-';
    if k + 3 <= |zip| {
      assert zip[k..k + 3] == text[k..k + 3];
    } else {
      assert zip[k..] == text[k..k + 3][..2];
    }
  }

  /** Parsing a label gives back its zip code whenever the zip code holds no
      separator and does not end in " -". */
  lemma LabelRoundTrip(zip: string, city: string)
    requires !ContainsSeparator(zip) && !EndsWithSpaceDash(zip)
    ensures FirstField(ZipLabel(zip, city)) == zip
  {
    var text := ZipLabel(zip, city);
    var r := FirstField(text);
    assert SeparatorAt(text, |zip|) by {
      assert text[|zip|..|zip| + 3] == Separator;
    }
    if |r| < |zip| {
      SeparatorStartingInZip(zip, city, |r|);
      assert false;
    }
    assert |r| == |zip|;
    assert text[..|zip|] == zip;
  }

  /** The extra condition is needed: a zip code ending in " -" is cut short. */
  lemma LabelRoundTripFailsOnSpaceDash()
    ensures !ContainsSeparator("1 -")
    ensures FirstField(ZipLabel("1 -", "Cambridge")) == "1"
  {
    assert "1 -"[0..3][0] == '1';
    assert ZipLabel("1 -", "Cambridge")[..3][0] == '1';
    assert ZipLabel("1 -", "Cambridge")[1..][..3] == Separator;
  }

  predicate AllDigits(zip: string) {
    forall i :: 0 <= i < |zip| ==> '0' <= zip[i] <= '9'
  }

  /** Real zip codes are digit strings, so every label parses back. */
  lemma DigitLabelRoundTrip(zip: string, city: string)
    requires AllDigits(zip)
    ensures FirstField(ZipLabel(zip, city)) == zip
  {
    forall k | 0 <= k < |zip|
      ensures !SeparatorAt(zip, k)
    {
      if k + 3 <= |zip| {
        assert zip[k..k + 3][0] == zip[k];
      }
    }
    if |zip| >= 2 {
      assert zip[|zip| - 2..][1] == zip[|zip| - 1];
    }
    LabelRoundTrip(zip, city);
  }

  datatype Option<T> = None | Some(value: T)

  /** Index of the first row with the given zip code
      (`df[df['zip_code'] == zip]`, then `.iloc[0]`). */
  function FindZip(table: seq<ScoredRegion>, zip: string): (r: Option<nat>)
    ensures r.Some? ==> r.value < |table| && table[r.value].region.zipCode == zip
    ensures r.Some? ==> forall j :: 0 <= j < r.value ==> table[j].region.zipCode != zip
    ensures r.None? <==> forall j :: 0 <= j < |table| ==> table[j].region.zipCode != zip
  {
    if table == [] then None
    else if table[0].region.zipCode == zip then Some(0)
    else
      match FindZip(table[1..], zip)
      case None =>
        assert forall j :: 1 <= j < |table| ==> table[j] == table[1..][j - 1];
        None
      case Some(i) =>
        assert forall j :: 1 <= j <= i + 1 ==> table[j] == table[1..][j - 1];
        Some(i + 1)
  }

  /** Outcome of the selector: the chosen row, or the "not found" error that
      stops the page. */
  datatype Selection = Selected(row: ScoredRegion) | ZipNotFound(zip: string)

  function SelectRegion(table: seq<ScoredRegion>, option: string): (sel: Selection)
    ensures sel.Selected? ==> sel.row in table && sel.row.region.zipCode == FirstField(option)
    ensures sel.ZipNotFound? <==> forall j :: 0 <= j < |table| ==> table[j].region.zipCode != FirstField(option)
    ensures sel.ZipNotFound? ==> sel.zip == FirstField(option)
    ensures sel.Selected? ==>
              exists k :: 0 <= k < |table| && table[k] == sel.row &&
                forall j :: 0 <= j < k ==> table[j].region.zipCode != FirstField(option)
  {
    var zip := FirstField(option);
    match FindZip(table, zip)
    case None => ZipNotFound(zip)
    case Some(i) => Selected(table[i])
  }

  /** The options offered: one label per row (the city filter and the sort
      by livability only choose which rows and in what order). */
  function ZipOptions(table: seq<ScoredRegion>): (options: seq<string>)
    ensures |options| == |table|
    ensures forall i :: 0 <= i < |table| ==>
              options[i] == ZipLabel(table[i].region.zipCode, table[i].region.city)
  {
    seq(|table|, i requires 0 <= i < |table| => ZipLabel(table[i].region.zipCode, table[i].region.city))
  }

  predicate UniqueZips(table: seq<ScoredRegion>) {
    forall i, j :: 0 <= i < j < |table| ==> table[i].region.zipCode != table[j].region.zipCode
  }

  /** The options are built from the rows of a filtered and re-sorted copy
      of the table, and the chosen zip code is looked up in the whole table.
      With unique zip codes, choosing the option of an offered row selects
      that very row: the "not found" error cannot occur for an offered option. */
  lemma SelectingAnOptionFindsItsRow(table: seq<ScoredRegion>, offered: seq<ScoredRegion>, i: int)
    requires 0 <= i < |offered| && UniqueZips(table)
    requires forall k :: 0 <= k < |offered| ==> offered[k] in table
    requires AllDigits(offered[i].region.zipCode)
    ensures SelectRegion(table, ZipOptions(offered)[i]) == Selected(offered[i])
  {
    var zip := offered[i].region.zipCode;
    DigitLabelRoundTrip(zip, offered[i].region.city);
    var j :| 0 <= j < |table| && table[j] == offered[i];
    var found := FindZip(table, zip);
    assert found.Some?;
    assert found.value == j;
  }
}
