/**
  The page component of `app/sjh/page.tsx` (`PhoneGeneratorPage`): the selected
  country and its restoration from browser storage, the quantity check of
  `handleGenerate`, the delayed generation, the list of generated numbers that
  reveals a hundred at a time, and the guard and file name of `handleDownload`.
 */
module PhoneGeneratorPage {
  import opened Options
  import opened JsText
  import opened PhoneCountries
  import opened IncrementalReveal
  import opened PhoneGenerator

  const PHONE_PAGE_SIZE: nat := 100
  const MIN_QUANTITY: int := 1
  const MAX_QUANTITY: int := 10000
  const DEFAULT_QUANTITY: int := 10
  /** The initial text of the quantity field. */
  const INITIAL_QUANTITY: string := "10"

  // ---------------------------------------------------------------- quantity

  /** `parseInt(quantity) || 10`: NaN and 0 are falsy and give the default. */
  function EffectiveCount(quantity: string): (n: int)
    ensures n != 0
    ensures ParseInt(quantity) in {None, Some(0)} ==> n == DEFAULT_QUANTITY
    ensures ParseInt(quantity).Some? && ParseInt(quantity).value != 0 ==> n == ParseInt(quantity).value
  {
    match ParseInt(quantity)
    case None => DEFAULT_QUANTITY
    case Some(n) => if n == 0 then DEFAULT_QUANTITY else n
  }

  /** The count `handleGenerate` asks the generator for, or None when it alerts and stops. */
  function RequestedCount(quantity: string): (r: Option<int>)
    ensures r.Some? ==> MIN_QUANTITY <= r.value <= MAX_QUANTITY
    ensures ParseInt(quantity) in {None, Some(0)} ==> r == Some(DEFAULT_QUANTITY)
    ensures var p := ParseInt(quantity);
            p.Some? && p.value != 0 ==>
              r == if MIN_QUANTITY <= p.value <= MAX_QUANTITY then Some(p.value) else None
  {
    var n := EffectiveCount(quantity);
    if n < MIN_QUANTITY || n > MAX_QUANTITY then None else Some(n)
  }

  /** Every count in range, typed as a decimal number, is requested exactly. */
  lemma RequestedCountOfDecimal(n: nat)
    requires MIN_QUANTITY <= n <= MAX_QUANTITY
    ensures RequestedCount(DecimalString(n)) == Some(n)
  {
    ParseIntOfDecimal(n);
  }

  /** A typed count above the maximum is refused. */
  lemma RequestedCountAboveMaximum(n: nat)
    requires n > MAX_QUANTITY
    ensures RequestedCount(DecimalString(n)) == None
  {
    ParseIntOfDecimal(n);
  }

  /** An empty field and a typed zero both fall back to the default of ten. */
  lemma RequestedCountDefaults()
    ensures RequestedCount("") == Some(DEFAULT_QUANTITY)
    ensures RequestedCount("0") == Some(DEFAULT_QUANTITY)
  {
    ParseIntOfDecimal(0);
    assert DecimalString(0) == "0";
  }

  /** `parseInt` stops at the exponent, so a count typed as `1e5` asks for one number. */
  lemma RequestedCountStopsAtExponent()
    ensures ParseInt("1e5") == Some(1)
    ensures RequestedCount("1e5") == Some(1)
  {
    assert TrimStart("1e5") == "1e5";
    assert LeadingDigits("1e5", 10) == "1";
    assert ValueOf("1", 10) == 1;
  }

  // ---------------------------------------------------------------- stored country

  /** `find` by code, given as the position of the entry it returns: the first position with that code. */
  function FindIndex(catalog: seq<Country>, code: string): (r: Option<nat>)
    ensures r.Some? ==> r.value < |catalog| && catalog[r.value].code == code
    ensures r.Some? ==> forall j :: 0 <= j < r.value ==> catalog[j].code != code
    ensures r.None? ==> forall j :: 0 <= j < |catalog| ==> catalog[j].code != code
    decreases |catalog|
  {
    if catalog == [] then None
    else if catalog[0].code == code then Some(0)
    else match FindIndex(catalog[1..], code)
      case None => None
      case Some(i) => Some(i + 1)
  }

  /**
    The mount effect: with a stored code (present, non-empty and parsed) that the
    catalog knows, the first entry with that code; in every other case the
    current selection stays.
   */
  function RestoredCountry(catalog: seq<Country>, current: Country, stored: Option<string>): (r: Country)
    ensures stored.None? ==> r == current
    ensures stored.Some? && (exists i :: 0 <= i < |catalog| && catalog[i].code == stored.value) ==>
              r in catalog && r.code == stored.value
    ensures stored.Some? && (forall i :: 0 <= i < |catalog| ==> catalog[i].code != stored.value) ==>
              r == current
  {
    match stored
    case None => current
    case Some(code) =>
      match FindIndex(catalog, code)
      case None => current
      case Some(i) => catalog[i]
  }

  // ---------------------------------------------------------------- download, labels

  /** What `handleDownload` passes to `downloadPhoneNumbers`. */
  datatype Download = Download(fileName: string, content: string)

  /** `${name}_手机号_${count}个.txt`. */
  function DownloadFileName(countryName: string, count: nat): (f: string)
    ensures countryName <= f
    ensures f[|countryName|..] == "_手机号_" + DecimalString(count) + "个.txt"
  {
    countryName + "_手机号_" + DecimalString(count) + "个.txt"
  }

  /** The count in a download's file name reads back as the number of exported numbers. */
  lemma DownloadFileNameReadsBack(countryName: string, count: nat)
    ensures ParseInt(DownloadFileName(countryName, count)[|countryName| + 5..]) == Some(count)
  {
    var d := DecimalString(count);
    assert DownloadFileName(countryName, count)[|countryName| + 5..] == d + "个.txt";
    ParseIntOfDigitsBefore(d, "个.txt");
    ValueOfDecimal(count);
  }

  /** The position label of the number at `index`: `#` and the one-based position padded to four digits. */
  function IndexLabel(index: nat): (tag: string)
    ensures |tag| >= 5 && tag[0] == '#'
    ensures AllDigits(tag[1..])
  {
    var padded := PadStart(DecimalString(index + 1), 4, '0');
    assert AllDigits(padded) by {
      var k := |padded| - |DecimalString(index + 1)|;
      forall i | 0 <= i < |padded| ensures IsDigit(padded[i]) {
        if i >= k { assert padded[i] == DecimalString(index + 1)[i - k]; }
      }
    }
    "#" + padded
  }

  /** The label reads back as the one-based position of the number it stands beside. */
  lemma IndexLabelReadsBack(index: nat)
    ensures ParseInt(IndexLabel(index)[1..]) == Some(index + 1)
  {
    ParseIntOfPaddedDecimal(index + 1, 4);
    assert IndexLabel(index)[1..] == PadStart(DecimalString(index + 1), 4, '0');
  }

  // ---------------------------------------------------------------- page state

  /** A generation scheduled by `handleGenerate`: the country and count it captured. */
  datatype Request = Request(country: Country, count: int)

  /** The state of the page component. */
  class Page {
    const catalog: seq<Country>
    var selected: Country
    var quantity: string          // the text of the quantity field
    var generated: seq<string>    // `generatedNumbers`
    var isGenerating: bool        // the generate button is disabled while true
    var visiblePhones: nat        // how many generated numbers are rendered
    var pending: Option<Request>  // the generation timer, while it has not fired

    ghost predicate Valid()
      reads this
    {
      && selected in catalog
      && visiblePhones >= PHONE_PAGE_SIZE
      && (pending.Some? ==> isGenerating && MIN_QUANTITY <= pending.value.count <= MAX_QUANTITY)
    }

    /** The initial state; the catalog is the static, non-empty table whose first entry is the default. */
    constructor (catalog: seq<Country>)
      requires |catalog| > 0
      ensures Valid()
      ensures this.catalog == catalog && selected == catalog[0]
      ensures quantity == INITIAL_QUANTITY && generated == [] && !isGenerating
      ensures visiblePhones == PHONE_PAGE_SIZE && pending == None
    {
      this.catalog := catalog;
      selected := catalog[0];
      quantity := INITIAL_QUANTITY;
      generated := [];
      isGenerating := false;
      visiblePhones := PHONE_PAGE_SIZE;
      pending := None;
    }

    /** The mount effect reading browser storage; `stored` is the saved code when the entry exists and parses. */
    method RestoreStored(stored: Option<string>)
      requires Valid()
      modifies this`selected
      ensures Valid()
      ensures selected == RestoredCountry(catalog, old(selected), stored)
    {
      if stored.Some? {
        var found := FindIndex(catalog, stored.value);
        if found.Some? {
          selected := catalog[found.value];
        }
      }
    }

    /** A country picked from the picker's list, which only lists catalog entries. */
    method Select(c: Country)
      requires Valid() && c in catalog
      modifies this`selected
      ensures Valid() && selected == c
    {
      selected := c;
    }

    /** Editing the quantity field. */
    method SetQuantity(text: string)
      modifies this`quantity
      ensures quantity == text
    {
      quantity := text;
    }

    /**
      `handleGenerate`, reachable while the button is enabled: an out-of-range
      count alerts and changes nothing; otherwise the list is reset to its first
      page and a generation of that count for the selected country is scheduled.
     */
    method HandleGenerate() returns (started: bool)
      requires Valid() && !isGenerating
      modifies this`isGenerating, this`visiblePhones, this`pending
      ensures Valid()
      ensures started <==> RequestedCount(quantity).Some?
      ensures started ==> isGenerating && visiblePhones == PHONE_PAGE_SIZE
                          && pending == Some(Request(selected, RequestedCount(quantity).value))
      ensures !started ==> isGenerating == old(isGenerating) && visiblePhones == old(visiblePhones)
                           && pending == old(pending)
    {
      var count := EffectiveCount(quantity);
      if count < MIN_QUANTITY || count > MAX_QUANTITY {
        return false;
      }
      isGenerating := true;
      visiblePhones := PHONE_PAGE_SIZE;
      pending := Some(Request(selected, count));
      started := true;
    }

    /**
      The generation timer fires and runs the captured batch on the draws from
      `at` on. When the batch throws, the numbers stay as they were and the
      page stays in its generating state.
     */
    method GenerationDue(entropy: Entropy, at: nat)
      requires Valid() && pending.Some?
      modifies this`generated, this`isGenerating, this`pending
      ensures Valid() && pending == None
      ensures var b := Batch(old(pending).value.country, old(pending).value.count, entropy, at);
              if b.Ok? then generated == b.value.value && !isGenerating
              else generated == old(generated) && isGenerating
      ensures !isGenerating ==> |generated| == old(pending).value.count
    {
      var request := pending.value;
      pending := None;
      var numbers := GeneratePhoneNumbers(request.country, request.count, entropy, at);
      if numbers.Ok? {
        generated := numbers.value.value;
        isGenerating := false;
      }
    }

    /** `visiblePhoneNumbers`: the first `visiblePhones` generated numbers. */
    function VisibleNumbers(): (r: seq<string>)
      reads this
      ensures |r| == if visiblePhones < |generated| then visiblePhones else |generated|
      ensures Valid() ==> |r| >= if |generated| < PHONE_PAGE_SIZE then |generated| else PHONE_PAGE_SIZE
      ensures r <= generated
    {
      Slice0(generated, visiblePhones)
    }

    /** The sentinel below the numbers scrolls into view: one more page, if any number is still hidden. */
    method SentinelSeen()
      requires Valid()
      modifies this`visiblePhones
      ensures Valid()
      ensures visiblePhones == OnSentinel(old(visiblePhones), |generated|, PHONE_PAGE_SIZE)
      ensures old(visiblePhones) < |generated| ==> old(visiblePhones) < visiblePhones <= |generated|
    {
      if visiblePhones < |generated| {
        visiblePhones := Grow(visiblePhones, |generated|, PHONE_PAGE_SIZE);
      }
    }

    /**
      `handleDownload`: refused while nothing has been generated; otherwise the
      numbers one per line, in a file named after the country and the count.
     */
    method HandleDownload() returns (d: Option<Download>)
      ensures d.None? <==> generated == []
      ensures d.Some? ==> d.value.fileName == DownloadFileName(selected.name, |generated|)
      ensures d.Some? ==> d.value.content == Join(generated)
    {
      if |generated| == 0 {
        return None;
      }
      d := Some(Download(DownloadFileName(selected.name, |generated|), Join(generated)));
    }
  }
}
