/**
 * The small helpers of the reporter application: colour parsing, species
 * abbreviation, paging, the filter form and its parameter store, the
 * selection shown under the sample table, the selected-sample list and the
 * QC feedback stamps.
 */
module Reporter {
  import opened Wrappers
  import opened Strings

  // ---------------------------------------------------------------------------
  // Colour parsing

  /** The value of one base-16 digit, either case. */
  function HexDigit(c: char): (d: Option<nat>)
    ensures d.Some? ==> d.value < 16
  {
    if '0' <= c <= '9' then Some(c as int - '0' as int)
    else if 'a' <= c <= 'f' then Some(c as int - 'a' as int + 10)
    else if 'A' <= c <= 'F' then Some(c as int - 'A' as int + 10)
    else None
  }

  /** The lower-case digit of a value below 16. */
  function HexChar(d: nat): (c: char)
    requires d < 16
    ensures HexDigit(c) == Some(d)
  {
    "0123456789abcdef"[d]
  }

  function Pow16(n: nat): (p: nat)
    ensures p >= 1
  {
    if n == 0 then 1 else 16 * Pow16(n - 1)
  }

  /** `int(s, 16)` for a string of base-16 digits; `None` where Python raises. */
  function ParseHex(s: string): (v: Option<nat>)
    ensures v.Some? <==> |s| >= 1 && AllHexDigits(s)
    ensures v.Some? ==> v.value < Pow16(|s|)
  {
    if |s| == 0 then None
    else
      var d := HexDigit(s[|s| - 1]);
      if d.None? then None
      else if |s| == 1 then d
      else
        match ParseHex(s[..|s| - 1])
        case None => None
        case Some(h) =>
          assert 16 * h + d.value < 16 * Pow16(|s| - 1) by {
            assert h + 1 <= Pow16(|s| - 1);
          }
          Some(16 * h + d.value)
  }

  predicate AllHexDigits(s: string) {
    forall i :: 0 <= i < |s| ==> HexDigit(s[i]).Some?
  }

  /** The positional value of base-16 digits, most significant first. */
  function DigitsValue(s: string): nat
    requires AllHexDigits(s)
  {
    if s == [] then 0 else HexDigit(s[0]).value * Pow16(|s| - 1) + DigitsValue(s[1..])
  }

  lemma {:induction false} DigitsValueSnoc(s: string, c: char)
    requires AllHexDigits(s) && HexDigit(c).Some?
    ensures AllHexDigits(s + [c])
    ensures DigitsValue(s + [c]) == 16 * DigitsValue(s) + HexDigit(c).value
    decreases |s|
  {
    var t := s + [c];
    assert AllHexDigits(t) by {
      forall i | 0 <= i < |t| ensures HexDigit(t[i]).Some? {
        if i < |s| { assert t[i] == s[i]; }
      }
    }
    if s == [] {
      assert t == [c];
    } else {
      assert t[0] == s[0] && t[1..] == s[1..] + [c];
      DigitsValueSnoc(s[1..], c);
      ShiftDigit(HexDigit(s[0]).value, Pow16(|s| - 1));
    }
  }

  /** Scaling a digit's place value by the base. */
  lemma ShiftDigit(h: nat, p: nat)
    ensures h * (16 * p) == 16 * (h * p)
  {
  }

  /** A parsed string denotes the positional value of its digits. */
  lemma {:induction false} ParseHexValue(s: string)
    requires |s| >= 1 && AllHexDigits(s)
    ensures ParseHex(s) == Some(DigitsValue(s))
    decreases |s|
  {
    var n := |s| - 1;
    var init := s[..n];
    assert s == init + [s[n]];
    if n == 0 {
      assert s[1..] == [];
    } else {
      ParseHexValue(init);
      DigitsValueSnoc(init, s[n]);
    }
  }

  /** The pieces `s[i:i + step]` for `i` in `range(0, len(s), step)`. */
  function Chunks(s: string, step: nat): (cs: seq<string>)
    requires step > 0
    ensures forall i :: 0 <= i < |cs| ==> 0 < |cs[i]| <= step
    ensures forall i :: 0 <= i < |cs| - 1 ==> |cs[i]| == step
    ensures Concat(cs) == s
    decreases |s|
  {
    if |s| == 0 then []
    else if |s| <= step then [s]
    else [s[..step]] + Chunks(s[step..], step)
  }

  function Concat(cs: seq<string>): string {
    if cs == [] then [] else cs[0] + Concat(cs[1..])
  }

  datatype HexError = ZeroStep | NotHex(chunk: string)

  /** Every chunk parsed; the first one that is not base-16 is the error. */
  function ParseChunks(cs: seq<string>): (r: Result<seq<nat>, HexError>)
    ensures r.Ok? ==> |r.value| == |cs|
    ensures r.Ok? ==> forall i :: 0 <= i < |cs| ==> r.value[i] < Pow16(|cs[i]|)
    ensures r.Ok? <==> forall i :: 0 <= i < |cs| ==> ParseHex(cs[i]).Some?
    ensures r.Err? ==> r.error.NotHex? && r.error.chunk in cs && ParseHex(r.error.chunk).None?
  {
    if cs == [] then Ok([])
    else
      match ParseHex(cs[0])
      case None => Err(NotHex(cs[0]))
      case Some(v) =>
        match ParseChunks(cs[1..])
        case Err(e) => Err(e)
        case Ok(vs) => Ok([v] + vs)
  }

  /**
   * A colour text as integer components: the leading '#' characters are
   * stripped and the rest is cut into pieces of a third of its length, each
   * read in base 16. Fewer than three digits leave a zero step, an error.
   */
  function HexToRgb(value: string): (r: Result<seq<nat>, HexError>)
    ensures r == Err(ZeroStep) <==> |LStrip(value, '#')| < 3
    ensures r.Ok? ==> forall i :: 0 <= i < |r.value| ==> r.value[i] < Pow16(|LStrip(value, '#')| / 3)
  {
    var digits := LStrip(value, '#');
    var step := |digits| / 3;
    if step == 0 then Err(ZeroStep)
    else
      var cs := Chunks(digits, step);
      var r := ParseChunks(cs);
      assert r.Ok? ==> forall i :: 0 <= i < |cs| ==> Pow16(|cs[i]|) <= Pow16(step) by {
        forall i | 0 <= i < |cs| ensures Pow16(|cs[i]|) <= Pow16(step) {
          Pow16Monotone(|cs[i]|, step);
        }
      }
      r
  }

  lemma {:induction false} Pow16Monotone(m: nat, n: nat)
    requires m <= n
    ensures Pow16(m) <= Pow16(n)
    decreases n
  {
    if m < n {
      Pow16Monotone(m, n - 1);
    }
  }

  /** Two lower-case digits of a value below 256. */
  function Hex2(v: nat): (s: string)
    requires v < 256
    ensures |s| == 2
  {
    [HexChar(v / 16), HexChar(v % 16)]
  }

  lemma Hex2Parses(v: nat)
    requires v < 256
    ensures ParseHex(Hex2(v)) == Some(v)
  {
    var s := Hex2(v);
    assert s[..1] == [HexChar(v / 16)];
  }

  /** The `#rrggbb` text of three components. */
  function RgbToHex(red: nat, green: nat, blue: nat): (s: string)
    requires red < 256 && green < 256 && blue < 256
    ensures |s| == 7 && s[0] == '#'
  {
    "#" + Hex2(red) + Hex2(green) + Hex2(blue)
  }

  /** Reading back a `#rrggbb` text gives its three components. */
  lemma HexRoundTrip(red: nat, green: nat, blue: nat)
    requires red < 256 && green < 256 && blue < 256
    ensures HexToRgb(RgbToHex(red, green, blue)) == Ok([red, green, blue])
  {
    var digits := Hex2(red) + Hex2(green) + Hex2(blue);
    var s := RgbToHex(red, green, blue);
    assert s[1..] == digits;
    assert digits[0] != '#' by {
      assert digits[0] == HexChar(red / 16);
    }
    assert LStrip(digits, '#') == digits;
    assert LStrip(s, '#') == digits;
    ChunksOfSix(digits);
    assert digits[..2] == Hex2(red) && digits[2..4] == Hex2(green) && digits[4..] == Hex2(blue);
    assert HexToRgb(s) == ParseChunks([Hex2(red), Hex2(green), Hex2(blue)]);
    Hex2Parses(red);
    Hex2Parses(green);
    Hex2Parses(blue);
    ParseThree(Hex2(red), Hex2(green), Hex2(blue));
  }

  /** Three chunks that parse give their three values. */
  lemma ParseThree(a: string, b: string, c: string)
    requires ParseHex(a).Some? && ParseHex(b).Some? && ParseHex(c).Some?
    ensures ParseChunks([a, b, c]) == Ok([ParseHex(a).value, ParseHex(b).value, ParseHex(c).value])
  {
    var va, vb, vc := ParseHex(a).value, ParseHex(b).value, ParseHex(c).value;
    assert ParseChunks([]) == Ok([]);
    ParseCons(c, []);
    assert [c] + [] == [c] && [vc] + [] == [vc];
    ParseCons(b, [c]);
    assert [b] + [c] == [b, c] && [vb] + [vc] == [vb, vc];
    ParseCons(a, [b, c]);
    assert [a] + [b, c] == [a, b, c] && [va] + [vb, vc] == [va, vb, vc];
  }

  lemma ParseCons(x: string, rest: seq<string>)
    requires ParseHex(x).Some? && ParseChunks(rest).Ok?
    ensures ParseChunks([x] + rest) == Ok([ParseHex(x).value] + ParseChunks(rest).value)
  {
    assert ([x] + rest)[1..] == rest;
  }

  /** Two base-16 digits parse to a value below 256. */
  lemma PairParses(x: char, y: char)
    requires HexDigit(x).Some? && HexDigit(y).Some?
    ensures ParseHex([x, y]).Some? && ParseHex([x, y]).value < 256
  {
    assert [x, y][..1] == [x];
    assert Pow16(2) == 256;
  }

  /** Six digits are read as three pairs. */
  lemma ChunksOfSix(digits: string)
    requires |digits| == 6
    ensures Chunks(digits, 2) == [digits[..2], digits[2..4], digits[4..]]
  {
    var rest := digits[2..];
    assert rest[..2] == digits[2..4] && rest[2..] == digits[4..];
    assert Chunks(rest[2..], 2) == [digits[4..]];
    assert Chunks(rest, 2) == [digits[2..4], digits[4..]];
  }

  /** A six-digit colour, with or without '#', gives three components in 0..255. */
  lemma SixDigitColour(value: string)
    requires |LStrip(value, '#')| == 6
    requires forall i :: 0 <= i < 6 ==> HexDigit(LStrip(value, '#')[i]).Some?
    ensures HexToRgb(value).Ok?
    ensures |HexToRgb(value).value| == 3
    ensures forall i :: 0 <= i < 3 ==> HexToRgb(value).value[i] < 256
  {
    var digits := LStrip(value, '#');
    var a, b, c := [digits[0], digits[1]], [digits[2], digits[3]], [digits[4], digits[5]];
    SixDigitsInPairs(value);
    PairParses(digits[0], digits[1]);
    PairParses(digits[2], digits[3]);
    PairParses(digits[4], digits[5]);
    ParseThree(a, b, c);
  }

  lemma SixDigitsInPairs(value: string)
    requires |LStrip(value, '#')| == 6
    ensures var digits := LStrip(value, '#');
      HexToRgb(value) == ParseChunks([[digits[0], digits[1]], [digits[2], digits[3]], [digits[4], digits[5]]])
  {
    var digits := LStrip(value, '#');
    SixDigitsStepTwo(value);
    PairsOfSix(digits);
  }

  /** Six digits are cut into pieces of two. */
  lemma SixDigitsStepTwo(value: string)
    requires |LStrip(value, '#')| == 6
    ensures HexToRgb(value) == ParseChunks(Chunks(LStrip(value, '#'), 2))
  {
    assert |LStrip(value, '#')| / 3 == 2;
  }

  lemma PairsOfSix(digits: string)
    requires |digits| == 6
    ensures Chunks(digits, 2) == [[digits[0], digits[1]], [digits[2], digits[3]], [digits[4], digits[5]]]
  {
    ChunksOfSix(digits);
    assert digits[..2] == [digits[0], digits[1]];
    assert digits[2..4] == [digits[2], digits[3]];
    assert digits[4..] == [digits[4], digits[5]];
  }

  // ---------------------------------------------------------------------------
  // Species names

  datatype SpeciesError = EmptyGenus

  /**
   * A species name shortened to the genus initial: a missing name stays
   * missing, a one-word name is kept, otherwise the first letter, ". " and
   * the remaining words. A name starting with a space has no first letter.
   */
  function ShortSpecies(species: Option<string>): (r: Result<Option<string>, SpeciesError>)
    ensures species.None? ==> r == Ok(None)
    ensures species.Some? && r.Ok? ==> r.value.Some?
  {
    match species
    case None => Ok(None)
    case Some(s) =>
      var words := Split(s, ' ');
      if |words| == 1 then Ok(Some(s))
      else if words[0] == [] then Err(EmptyGenus)
      else Ok(Some([words[0][0]] + ". " + Join(words[1..], " ")))
  }

  /** A name without a space is shown unchanged. */
  lemma ShortSpeciesOneWord(s: string)
    requires ' ' !in s
    ensures ShortSpecies(Some(s)) == Ok(Some(s))
  {
    SplitNoSep(s, ' ');
  }

  /** A name with a space becomes its first letter, ". " and everything after the first space. */
  lemma ShortSpeciesAbbreviates(s: string)
    requires ' ' in s && s[0] != ' '
    ensures ShortSpecies(Some(s)) == Ok(Some([s[0]] + ". " + s[FirstIndex(s, ' ') + 1..]))
  {
    var k := FirstIndex(s, ' ');
    var rest := s[k + 1..];
    assert s == s[..k] + [' '] + rest;
    SplitAfterFirst(s[..k], ' ', rest);
    var words := Split(s, ' ');
    assert words == [s[..k]] + Split(rest, ' ');
    assert words[1..] == Split(rest, ' ');
    JoinSplit(rest, ' ');
    assert words[0][0] == s[0];
  }

  /** Shortening fails exactly on a name that starts with a space. */
  lemma ShortSpeciesFails(s: string)
    ensures ShortSpecies(Some(s)).Err? <==> |s| > 0 && s[0] == ' '
  {
    if |s| > 0 && s[0] == ' ' {
      assert s == [] + [' '] + s[1..];
      SplitAfterFirst([], ' ', s[1..]);
    } else if ' ' in s {
      ShortSpeciesAbbreviates(s);
    } else {
      ShortSpeciesOneWord(s);
    }
  }

  // ---------------------------------------------------------------------------
  // Paging

  /** The click timestamps of the two "previous" and the two "next" buttons. */
  datatype PageClicks = PageClicks(prev: int, prev2: int, next: int, next2: int)

  function Max(a: int, b: int): int { if a >= b then a else b }

  predicate BackClicked(c: PageClicks) { Max(c.prev, c.prev2) > Max(c.next, c.next2) }

  predicate ForwardClicked(c: PageClicks) { Max(c.next, c.next2) > Max(c.prev, c.prev2) }

  /**
   * The page after a click: one back (not below 0) when a "previous"
   * button was clicked last, one on (not past the last page) when a "next"
   * button was, and the first page on a tie.
   */
  function NextPage(clicks: PageClicks, page: int, maxPage: int): (r: int)
    ensures 0 <= page <= maxPage ==> 0 <= r <= maxPage
    ensures BackClicked(clicks) && page > 0 ==> r == page - 1
    ensures BackClicked(clicks) && page <= 0 ==> r == 0
    ensures ForwardClicked(clicks) && page < maxPage ==> r == page + 1
    ensures ForwardClicked(clicks) && page >= maxPage ==> r == maxPage
    ensures !BackClicked(clicks) && !ForwardClicked(clicks) ==> r == 0
  {
    if BackClicked(clicks) then Max(page - 1, 0)
    else if ForwardClicked(clicks) then (if page + 1 <= maxPage then page + 1 else maxPage)
    else 0
  }

  /** A step forward from a page before the last, then a step back, returns to it. */
  lemma ForwardThenBack(forward: PageClicks, back: PageClicks, page: int, maxPage: int)
    requires ForwardClicked(forward) && BackClicked(back)
    requires 0 <= page < maxPage
    ensures NextPage(back, NextPage(forward, page, maxPage), maxPage) == page
  {
  }

  // ---------------------------------------------------------------------------
  // Filter form and parameter store

  /** The URL parameter store: each filter key maps to its list of values. */
  type ParamStore = map<string, seq<string>>

  /** A store entry; a missing key reads as the empty list. */
  function Param(store: ParamStore, key: string): seq<string> {
    if key in store then store[key] else []
  }

  /** The values put in the filter form: four lists and the sample names text. */
  datatype FilterForm = FilterForm(runs: seq<string>, groups: seq<string>, species: seq<string>,
                                   qcs: seq<string>, sampleText: string)

  /** The form filled from the store, sample names one per line. */
  function UpdateFilterValues(store: ParamStore): (f: FilterForm)
    ensures f.runs == Param(store, "run") && f.groups == Param(store, "group")
    ensures f.species == Param(store, "species") && f.qcs == Param(store, "qc")
    ensures f.sampleText == Join(Param(store, "sample_names"), "\n")
  {
    FilterForm(Param(store, "run"), Param(store, "group"), Param(store, "species"),
               Param(store, "qc"), Join(Param(store, "sample_names"), "\n"))
  }

  /** What the form holds when "apply" is pressed; `None` is a field never set. */
  datatype FormState = FormState(runNames: Option<seq<string>>, species: Option<seq<string>>, speciesSource: string,
                                 groups: Option<seq<string>>, qcs: Option<seq<string>>, sampleNames: Option<string>)

  /** The filters the sample query is made with. */
  datatype Filters = Filters(runNames: seq<string>, species: seq<string>, speciesSource: string,
                             groups: seq<string>, qcs: seq<string>, sampleNames: seq<string>)

  datatype Interrupted = Interrupted

  /** A form list, or the store's list when the form's is unset or empty. */
  function OrStore(field: Option<seq<string>>, store: ParamStore, key: string): (v: seq<string>)
    ensures field.Some? && field.value != [] ==> v == field.value
    ensures (field.None? || field.value == []) ==> v == Param(store, key)
  {
    if field.Some? && field.value != [] then field.value else Param(store, key)
  }

  /** The sample names typed in the form, one per line, or the store's when none were typed. */
  function SampleNamesOf(text: Option<string>, store: ParamStore): seq<string> {
    if text.Some? && text.value != "" then Split(text.value, '\n') else Param(store, "sample_names")
  }

  function ResolveFilters(store: ParamStore, form: FormState): Filters {
    Filters(OrStore(form.runNames, store, "run"), OrStore(form.species, store, "species"), form.speciesSource,
            OrStore(form.groups, store, "group"), OrStore(form.qcs, store, "qc"),
            SampleNamesOf(form.sampleNames, store))
  }

  /** The filters that the store alone describes. */
  function StoreFilters(store: ParamStore, speciesSource: string): Filters {
    Filters(Param(store, "run"), Param(store, "species"), speciesSource, Param(store, "group"),
            Param(store, "qc"), Param(store, "sample_names"))
  }

  predicate NothingSelected(f: Filters) {
    f.runNames == [] && f.species == [] && f.groups == [] && f.qcs == [] && f.sampleNames == []
  }

  /**
   * The filters of a sample query: each form field, or the store's value
   * when the field is empty. With no click and nothing selected the update
   * is interrupted.
   */
  method UpdateSelectedSamples(nClicks: int, store: ParamStore, form: FormState) returns (r: Result<Filters, Interrupted>)
    ensures r.Err? <==> nClicks == 0 && NothingSelected(ResolveFilters(store, form))
    ensures r.Ok? ==> r.value == ResolveFilters(store, form)
  {
    var sampleNames: seq<string>;
    if form.sampleNames.Some? && form.sampleNames.value != "" {
      sampleNames := Split(form.sampleNames.value, '\n');
    } else {
      sampleNames := Param(store, "sample_names");
    }
    var runNames := form.runNames;
    if runNames.None? || runNames.value == [] {
      runNames := Some(Param(store, "run"));
    }
    var groups := form.groups;
    if groups.None? || groups.value == [] {
      groups := Some(Param(store, "group"));
    }
    var species := form.species;
    if species.None? || species.value == [] {
      species := Some(Param(store, "species"));
    }
    var qcs := form.qcs;
    if qcs.None? || qcs.value == [] {
      qcs := Some(Param(store, "qc"));
    }
    if nClicks == 0 && sampleNames == [] && runNames.value == [] && groups.value == []
       && species.value == [] && qcs.value == [] {
      return Err(Interrupted);
    }
    return Ok(Filters(runNames.value, species.value, form.speciesSource, groups.value, qcs.value, sampleNames));
  }

  /** The form as filled from a store. */
  function FormOf(f: FilterForm, speciesSource: string): FormState {
    FormState(Some(f.runs), Some(f.species), speciesSource, Some(f.groups), Some(f.qcs), Some(f.sampleText))
  }

  /**
   * Filling the form from a store and applying it gives back the store's
   * filters, provided no sample name holds a line break.
   */
  lemma FilterFormRoundTrip(store: ParamStore, speciesSource: string)
    requires forall i :: 0 <= i < |Param(store, "sample_names")| ==> '\n' !in Param(store, "sample_names")[i]
    ensures ResolveFilters(store, FormOf(UpdateFilterValues(store), speciesSource)) == StoreFilters(store, speciesSource)
  {
    var names := Param(store, "sample_names");
    var text := Join(names, "\n");
    if text != "" {
      assert |names| >= 1;
      SplitJoin(names, '\n');
    } else if |names| == 1 {
      assert names == [""];
    }
  }

  // ---------------------------------------------------------------------------
  // Selection under the sample table

  /** A sample as the table and the sample store list it. */
  datatype SampleRecord = SampleRecord(id: string, name: string)

  /** The table's rows: none, the single empty record of an empty table, or records. */
  datatype TableData = NoTable | EmptyRecord | Records(rows: seq<SampleRecord>)

  /** A point of the summary plot's lasso selection, carrying its sample id. */
  datatype LassoPoint = LassoPoint(text: string, customdata: string)

  /** The count, the names text and the ids text shown for the selection. */
  datatype Selection = Selection(count: nat, namesText: string, idsText: string)

  datatype SelectionError = RowOutOfRange(position: int)

  /** A position of `iloc`: negative positions count from the end. */
  function Position(k: int, n: nat): (p: Option<nat>)
    ensures p.Some? <==> -(n as int) <= k < n
    ensures p.Some? ==> p.value < n && (p.value == k || p.value == k + n)
  {
    if 0 <= k < n then Some(k) else if -(n as int) <= k < 0 then Some(k + n) else None
  }

  /** The rows at the selected positions, in selection order. */
  function PickRows(rows: seq<SampleRecord>, picks: seq<int>): (r: Result<seq<SampleRecord>, SelectionError>)
    ensures r.Ok? <==> forall i :: 0 <= i < |picks| ==> Position(picks[i], |rows|).Some?
    ensures r.Ok? ==> |r.value| == |picks|
    ensures r.Ok? ==> forall i :: 0 <= i < |picks| ==> r.value[i] == rows[Position(picks[i], |rows|).value]
    ensures r.Err? ==> r.error.position in picks && Position(r.error.position, |rows|).None?
  {
    if picks == [] then Ok([])
    else
      var n := |picks| - 1;
      match PickRows(rows, picks[..n])
      case Err(e) => Err(e)
      case Ok(init) =>
        match Position(picks[n], |rows|)
        case None => Err(RowOutOfRange(picks[n]))
        case Some(p) => Ok(init + [rows[p]])
  }

  lemma {:induction false} PickRowsErrPersists(rows: seq<SampleRecord>, picks: seq<int>, j: nat)
    requires j <= |picks| && PickRows(rows, picks[..j]).Err?
    ensures PickRows(rows, picks) == PickRows(rows, picks[..j])
    decreases |picks| - j
  {
    if j == |picks| {
      assert picks[..j] == picks;
    } else {
      assert picks[..j + 1][..j] == picks[..j];
      PickRowsErrPersists(rows, picks, j + 1);
    }
  }

  /** The rows whose id is among the lasso ids, in table order. */
  function InLasso(rows: seq<SampleRecord>, ids: set<string>): (r: seq<SampleRecord>)
    ensures |r| <= |rows|
    ensures forall x :: x in r <==> x in rows && x.id in ids
  {
    if rows == [] then []
    else
      var n := |rows| - 1;
      InLasso(rows[..n], ids) + (if rows[n].id in ids then [rows[n]] else [])
  }

  /** Filtering keeps table order: the rows of two runs of the table filter separately. */
  lemma {:induction false} InLassoAppend(a: seq<SampleRecord>, b: seq<SampleRecord>, ids: set<string>)
    ensures InLasso(a + b, ids) == InLasso(a, ids) + InLasso(b, ids)
    decreases |b|
  {
    if b == [] {
      assert a + b == a;
    } else {
      var n := |b| - 1;
      assert (a + b)[..|a + b| - 1] == a + b[..n];
      assert (a + b)[|a + b| - 1] == b[n];
      InLassoAppend(a, b[..n], ids);
    }
  }

  function LassoIds(points: seq<LassoPoint>): (ids: set<string>)
    ensures forall id :: id in ids <==> exists i :: 0 <= i < |points| && points[i].customdata == id
  {
    set i | 0 <= i < |points| :: points[i].customdata
  }

  function Names(rows: seq<SampleRecord>): (ns: seq<string>)
    ensures |ns| == |rows| && forall i :: 0 <= i < |rows| ==> ns[i] == rows[i].name
  {
    seq(|rows|, i requires 0 <= i < |rows| => rows[i].name)
  }

  function Ids(rows: seq<SampleRecord>): (ns: seq<string>)
    ensures |ns| == |rows| && forall i :: 0 <= i < |rows| ==> ns[i] == rows[i].id
  {
    seq(|rows|, i requires 0 <= i < |rows| => rows[i].id)
  }

  /** The rows shown as selected: the picked rows (all rows when none are picked), then the lasso. */
  function SelectedRecords(rows: seq<SampleRecord>, picks: Option<seq<int>>, lasso: Option<seq<LassoPoint>>)
    : Result<seq<SampleRecord>, SelectionError>
  {
    var picked := if picks.Some? && |picks.value| > 0 then PickRows(rows, picks.value) else Ok(rows);
    match picked
    case Err(e) => Err(e)
    case Ok(shown) =>
      if lasso.Some? && |lasso.value| > 0 then Ok(InLasso(shown, LassoIds(lasso.value))) else Ok(shown)
  }

  function SelectionOf(lasso: Option<seq<LassoPoint>>, table: TableData, picks: Option<seq<int>>)
    : Result<Selection, SelectionError>
  {
    if table.NoTable? || table.EmptyRecord? || table.rows == [] then Ok(Selection(0, "", ""))
    else
      match SelectedRecords(table.rows, picks, lasso)
      case Err(e) => Err(e)
      case Ok(sel) => Ok(Selection(|sel|, Join(Names(sel), ", "), Join(Ids(sel), ",")))
  }

  /**
   * With a lasso selection, the listed ids are those of the shown rows whose
   * id some lasso point carries, in table order, and they read back from
   * the ids text when no id holds a comma.
   */
  lemma LassoSelection(rows: seq<SampleRecord>, picks: Option<seq<int>>, points: seq<LassoPoint>)
    requires |points| > 0
    requires SelectedRecords(rows, picks, Some(points)).Ok?
    ensures var sel := SelectedRecords(rows, picks, Some(points)).value;
      forall x :: x in sel ==> exists i :: 0 <= i < |points| && points[i].customdata == x.id
  {
  }

  /** The ids text lists the selected ids, one per comma-separated field. */
  lemma SelectionIdsReadBack(lasso: Option<seq<LassoPoint>>, rows: seq<SampleRecord>, picks: Option<seq<int>>)
    requires SelectedRecords(rows, picks, lasso).Ok?
    requires |SelectedRecords(rows, picks, lasso).value| > 0
    requires forall x :: x in rows ==> ',' !in x.id
    ensures rows != []
    ensures SelectionOf(lasso, Records(rows), picks).Ok?
    ensures Split(SelectionOf(lasso, Records(rows), picks).value.idsText, ',') == Ids(SelectedRecords(rows, picks, lasso).value)
    ensures SelectionOf(lasso, Records(rows), picks).value.count == |SelectedRecords(rows, picks, lasso).value|
  {
    var sel := SelectedRecords(rows, picks, lasso).value;
    var picked := if picks.Some? && |picks.value| > 0 then PickRows(rows, picks.value) else Ok(rows);
    assert forall x :: x in picked.value ==> x in rows;
    assert forall x :: x in sel ==> x in picked.value;
    assert sel[0] in rows;
    var ids := Ids(sel);
    forall i | 0 <= i < |ids| ensures ',' !in ids[i] {
      assert sel[i] in sel;
    }
    SplitJoin(ids, ',');
  }

  /** The rows at the selected positions, picked one by one. */
  method PickShown(rows: seq<SampleRecord>, picks: seq<int>) returns (r: Result<seq<SampleRecord>, SelectionError>)
    ensures r == PickRows(rows, picks)
  {
    var shown := [];
    for i := 0 to |picks|
      invariant PickRows(rows, picks[..i]) == Ok(shown)
    {
      assert picks[..i + 1][..i] == picks[..i];
      var p := Position(picks[i], |rows|);
      if p.None? {
        PickRowsErrPersists(rows, picks, i + 1);
        return Err(RowOutOfRange(picks[i]));
      }
      shown := shown + [rows[p.value]];
    }
    assert picks[..|picks|] == picks;
    return Ok(shown);
  }

  /** The rows whose id the lasso carries, kept one by one in table order. */
  method KeepLassoed(shown: seq<SampleRecord>, points: seq<LassoPoint>) returns (kept: seq<SampleRecord>)
    ensures kept == InLasso(shown, LassoIds(points))
  {
    var ids := LassoIds(points);
    kept := [];
    for i := 0 to |shown|
      invariant kept == InLasso(shown[..i], ids)
    {
      assert shown[..i + 1][..i] == shown[..i];
      if shown[i].id in ids {
        kept := kept + [shown[i]];
      }
    }
    assert shown[..|shown|] == shown;
  }

  /** The selection shown under the table. */
  method DisplaySelectedData(lasso: Option<seq<LassoPoint>>, table: TableData, picks: Option<seq<int>>)
    returns (r: Result<Selection, SelectionError>)
    ensures r == SelectionOf(lasso, table, picks)
  {
    if table.NoTable? || table.EmptyRecord? || table.rows == [] {
      return Ok(Selection(0, "", ""));
    }
    var shown := table.rows;
    if picks.Some? && |picks.value| > 0 {
      var picked := PickShown(table.rows, picks.value);
      if picked.Err? {
        return Err(picked.error);
      }
      shown := picked.value;
    }
    if lasso.Some? && |lasso.value| > 0 {
      shown := KeepLassoed(shown, lasso.value);
    }
    return Ok(Selection(|shown|, Join(Names(shown), ", "), Join(Ids(shown), ",")));
  }

  // ---------------------------------------------------------------------------
  // The selected-sample list

  const ListLimit := 500

  function MoreSamplesText(n: nat): string {
    NatToDecimal(n) + " more samples"
  }

  /**
   * The list of selected samples: the names of the first 500, then one
   * line counting the rest when there are more.
   */
  method StoreUpdate(store: seq<SampleRecord>) returns (rows: seq<string>)
    ensures |store| <= ListLimit ==> rows == Names(store)
    ensures |store| > ListLimit ==> rows == Names(store[..ListLimit]) + [MoreSamplesText(|store| - ListLimit)]
  {
    rows := [];
    var shown := if |store| <= ListLimit then store else store[..ListLimit];
    for i := 0 to |shown|
      invariant rows == Names(shown[..i])
    {
      rows := rows + [shown[i].name];
    }
    assert shown[..|shown|] == shown;
    if |store| > ListLimit {
      rows := rows + [MoreSamplesText(|store| - ListLimit)];
    }
  }

  /** The listed names and the counted rest account for every sample of the store. */
  lemma StoreListAccountsForAll(store: seq<SampleRecord>)
    requires |store| > ListLimit
    ensures var digits := NatToDecimal(|store| - ListLimit);
      MoreSamplesText(|store| - ListLimit)[..|digits|] == digits &&
      |Names(store[..ListLimit])| + DecimalValue(digits) == |store|
  {
    DecimalRoundTrip(|store| - ListLimit);
  }

  // ---------------------------------------------------------------------------
  // QC feedback stamps

  /** The operator's verdict on a sample. */
  datatype Verdict = Accepted | Resequence | OtherFailure

  function VerdictValue(v: Verdict): string {
    match v
    case Accepted => "pass:accepted"
    case Resequence => "fail:resequence"
    case OtherFailure => "fail:other"
  }

  /** The prefix of a radio value carrying the verdict. */
  function VerdictPrefix(v: Verdict): string {
    match v
    case Accepted => "A_"
    case Resequence => "R_"
    case OtherFailure => "O_"
  }

  /** A supplying-lab stamp as posted, without its date and address. */
  datatype Stamp = Stamp(name: string, user: string, value: string)

  function StampOf(v: Verdict, user: string): Stamp {
    Stamp("supplying_lab_check", user, VerdictValue(v))
  }

  /** A radio value read as a sample id and a verdict; "noaction" and unknown values read as nothing. */
  function ParseRadio(value: string): (p: Option<(string, Verdict)>)
    ensures p.Some? ==> value == VerdictPrefix(p.value.1) + p.value.0
  {
    if value == "noaction" then None
    else if StartsWith(value, "A_") then Some((value[2..], Accepted))
    else if StartsWith(value, "R_") then Some((value[2..], Resequence))
    else if StartsWith(value, "O_") then Some((value[2..], OtherFailure))
    else None
  }

  function RadioValue(id: string, v: Verdict): string {
    VerdictPrefix(v) + id
  }

  lemma ParseRadioValue(id: string, v: Verdict)
    ensures ParseRadio(RadioValue(id, v)) == Some((id, v))
  {
    var s := RadioValue(id, v);
    assert s[..2] == VerdictPrefix(v) && s[2..] == id;
    assert s != "noaction" by {
      assert s[0] != 'n';
    }
    match v
    case Accepted =>
    case Resequence =>
      assert !StartsWith(s, "A_") by { assert s[0] == 'R'; }
    case OtherFailure =>
      assert !StartsWith(s, "A_") by { assert s[0] == 'O'; }
      assert !StartsWith(s, "R_") by { assert s[0] == 'O'; }
  }

  /** The stamps of the radio values, in order. */
  function StampList(values: seq<string>, user: string): (l: seq<(string, Stamp)>)
    ensures |l| <= |values|
  {
    if values == [] then []
    else
      var n := |values| - 1;
      StampList(values[..n], user) +
        match ParseRadio(values[n])
        case None => []
        case Some(p) => [(p.0, StampOf(p.1, user))]
  }

  lemma {:induction false} StampListAppend(a: seq<string>, b: seq<string>, user: string)
    ensures StampList(a + b, user) == StampList(a, user) + StampList(b, user)
    decreases |b|
  {
    if b == [] {
      assert a + b == a;
    } else {
      var n := |b| - 1;
      assert (a + b)[..|a + b| - 1] == a + b[..n];
      assert (a + b)[|a + b| - 1] == b[n];
      StampListAppend(a, b[..n], user);
    }
  }

  /** A radio value that carries no verdict adds no stamp. */
  lemma UnrecognisedValueIgnored(a: seq<string>, value: string, b: seq<string>, user: string)
    requires ParseRadio(value).None?
    ensures StampList(a + [value] + b, user) == StampList(a + b, user)
  {
    StampListAppend(a + [value], b, user);
    StampListAppend(a, [value], user);
    StampListAppend(a, b, user);
    assert StampList([value], user) == [] by {
      assert [value][..0] == [];
    }
    assert StampList(a + [value], user) == StampList(a, user);
  }

  /** The radio values of a list of picks, in order. */
  function RadioValues(picks: seq<(string, Verdict)>): (values: seq<string>)
    ensures |values| == |picks|
    ensures forall k :: 0 <= k < |picks| ==> values[k] == RadioValue(picks[k].0, picks[k].1)
  {
    if picks == [] then []
    else
      var n := |picks| - 1;
      RadioValues(picks[..n]) + [RadioValue(picks[n].0, picks[n].1)]
  }

  /** The stamps of a list of picks, in order. */
  function StampsOf(picks: seq<(string, Verdict)>, user: string): (stamps: seq<(string, Stamp)>)
    ensures |stamps| == |picks|
    ensures forall k :: 0 <= k < |picks| ==> stamps[k] == (picks[k].0, StampOf(picks[k].1, user))
  {
    if picks == [] then []
    else
      var n := |picks| - 1;
      StampsOf(picks[..n], user) + [(picks[n].0, StampOf(picks[n].1, user))]
  }

  /** The radio values of a list of verdicts give back exactly those verdicts' stamps, in order. */
  lemma {:induction false} StampListRoundTrip(picks: seq<(string, Verdict)>, user: string)
    ensures StampList(RadioValues(picks), user) == StampsOf(picks, user)
  {
    if picks != [] {
      var n := |picks| - 1;
      var values := RadioValues(picks);
      assert values[..n] == RadioValues(picks[..n]);
      StampListRoundTrip(picks[..n], user);
      ParseRadioValue(picks[n].0, picks[n].1);
    }
  }

  /**
   * The feedback submission: only when the admin setting is "True", the
   * radio values become stamps in order, and a non-empty list is posted.
   */
  method PrintRadio(adminSetting: Option<string>, user: string, values: seq<string>)
    returns (posted: Option<seq<(string, Stamp)>>)
    ensures posted.Some? <==> adminSetting == Some("True") && StampList(values, user) != []
    ensures posted.Some? ==> posted.value == StampList(values, user)
  {
    if adminSetting != Some("True") {
      return None;
    }
    var stamps: seq<(string, Stamp)> := [];
    for i := 0 to |values|
      invariant stamps == StampList(values[..i], user)
    {
      assert values[..i + 1][..i] == values[..i];
      var val := values[i];
      if val != "noaction" {
        if StartsWith(val, "A_") {
          stamps := stamps + [(val[2..], StampOf(Accepted, user))];
        } else if StartsWith(val, "R_") {
          stamps := stamps + [(val[2..], StampOf(Resequence, user))];
        } else if StartsWith(val, "O_") {
          stamps := stamps + [(val[2..], StampOf(OtherFailure, user))];
        }
      }
    }
    assert values[..|values|] == values;
    if |stamps| > 0 {
      return Some(stamps);
    }
    return None;
  }
}
