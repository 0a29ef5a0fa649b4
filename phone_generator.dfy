/**
  `lib/phoneGenerator.ts`: one phone number is a prefix chosen from the country
  record, extended with random digits up to `country.length`, poured into the
  record's format mask and preceded by the dial code; a batch repeats this.

  `crypto.getRandomValues` is replaced by an explicit stream of 32-bit draws:
  `entropy(k)` is the value the k-th call would have written into its
  one-element `Uint32Array`. Every generation step takes the index `at` of its
  first draw and reports the index after its last one, so a batch is a
  sequence of steps over consecutive, disjoint slices of the stream.
 */
module PhoneGenerator {
  import opened Options
  import opened JsText
  import opened PhoneCountries

  /** The value of one `Uint32Array` element. */
  type Uint32 = x: int | 0 <= x < 0x1_0000_0000

  /** The draws `crypto.getRandomValues` hands out, in call order. */
  type Entropy = nat -> Uint32

  /** The outcome of a generation step with the index of the next unused draw. */
  datatype Drawn<T> = Drawn(value: T, next: nat)

  // ---------------------------------------------------------------- random helpers

  /** JavaScript's `a % b` for a non-negative dividend: the result takes the dividend's sign. */
  function Remainder(a: nat, b: int): (r: nat)
    requires b != 0
    ensures r < (if b < 0 then -b else b)
    ensures b > 0 ==> r == a % b
  {
    a % (if b < 0 then -b else b)
  }

  /**
    `secureRandom(min, max)` on the draw `r`: `min + r % (max - min + 1)`.
    An empty range is `r % 0`, which is NaN in JavaScript and None here.
   */
  function SecureRandom(min: int, max: int, r: Uint32): (v: Option<int>)
    ensures v.None? <==> max - min + 1 == 0
    ensures max >= min ==> v.Some? && min <= v.value <= max && v.value - min == r % (max - min + 1)
  {
    var range := max - min + 1;
    if range == 0 then None else Some(min + Remainder(r, range))
  }

  /**
    `randomChoice(array)`: the element at index `r % |a|`. On an empty array
    the index is NaN and the element `undefined` (None).
   */
  function RandomChoice<T>(a: seq<T>, r: Uint32): (x: Option<T>)
    ensures x.None? <==> |a| == 0
    ensures |a| > 0 ==> x == Some(a[r % |a|])
    ensures x.Some? ==> x.value in a
  {
    match SecureRandom(0, |a| - 1, r)
    case None => None
    case Some(i) => Some(a[i])
  }

  /** `randomDigit()`: `secureRandom(0, 9).toString()`, one decimal digit. */
  function RandomDigit(r: Uint32): (d: string)
    ensures |d| == 1 && IsDigit(d[0])
    ensures DigitValue(d[0]) == r % 10
  {
    DecimalString(SecureRandom(0, 9, r).value)
  }

  // ---------------------------------------------------------------- the raw number

  /** How often the digit loop runs: `remainingLength` when it is positive, otherwise not at all. */
  function Iterations(length: int, prefixLength: nat): nat {
    if length > prefixLength then length - prefixLength else 0
  }

  /** The `n` digits the loop appends when its draws start at `at`; the i-th comes from draw `at + i`. */
  function Digits(entropy: Entropy, at: nat, n: nat): (ds: string)
    ensures |ds| == n && AllDigits(ds)
    decreases n
  {
    if n == 0 then [] else Digits(entropy, at, n - 1) + RandomDigit(entropy(at + n - 1))
  }

  /** The i-th appended digit is the decimal digit `r % 10` of draw `at + i`. */
  lemma {:induction false} DigitsAt(entropy: Entropy, at: nat, n: nat, i: nat)
    requires i < n
    ensures DigitValue(Digits(entropy, at, n)[i]) == entropy(at + i) % 10
    decreases n
  {
    if i < n - 1 {
      DigitsAt(entropy, at, n - 1, i);
    }
  }

  /** The prefix `randomChoice(country.prefixes)` returns when it reads draw `at`. */
  function ChosenPrefix(country: Country, entropy: Entropy, at: nat): (p: string)
    requires |country.prefixes| > 0
    ensures p in country.prefixes
  {
    country.prefixes[entropy(at) % |country.prefixes|]
  }

  /**
    The unformatted number of the generation whose first draw is `at`: the
    chosen prefix, then one digit per further draw until `country.length` is
    reached. A prefix longer than `country.length` is kept whole and gets no digits.
   */
  function RawNumber(country: Country, entropy: Entropy, at: nat): (raw: string)
    requires |country.prefixes| > 0
    ensures ChosenPrefix(country, entropy, at) <= raw
    ensures var p := ChosenPrefix(country, entropy, at);
            |raw| == (if |p| <= country.length then country.length else |p|)
    ensures forall i :: |ChosenPrefix(country, entropy, at)| <= i < |raw| ==> IsDigit(raw[i])
  {
    var p := ChosenPrefix(country, entropy, at);
    p + Digits(entropy, at + 1, Iterations(country.length, |p|))
  }

  /** The digit loop of `generatePhoneNumber` (`number += randomDigit()` while `i < remainingLength`). */
  method BuildNumber(prefix: string, length: int, entropy: Entropy, at: nat) returns (number: string, next: nat)
    ensures number == prefix + Digits(entropy, at, Iterations(length, |prefix|))
    ensures next == at + Iterations(length, |prefix|)
  {
    var remainingLength := length - |prefix|;
    number := prefix;
    var i := 0;
    while i < remainingLength
      invariant 0 <= i
      invariant remainingLength > 0 ==> i <= remainingLength
      invariant remainingLength <= 0 ==> i == 0
      invariant number == prefix + Digits(entropy, at, i)
    {
      number := number + RandomDigit(entropy(at + i));
      i := i + 1;
    }
    assert i == Iterations(length, |prefix|);
    next := at + i;
  }

  // ---------------------------------------------------------------- the format fill

  /** `s.replace('X', c)` on a one-character pattern. */
  function ReplaceFirstX(s: string, c: char): (r: string)
    ensures |r| == |s|
  {
    if s == [] then []
    else if s[0] == PLACEHOLDER then [c] + s[1..]
    else [s[0]] + ReplaceFirstX(s[1..], c)
  }

  /** The first placeholder becomes `c`; every other character, and a string without a placeholder, stays. */
  lemma {:induction false} ReplaceFirstXAt(s: string, c: char, k: nat)
    requires k < |s|
    ensures ReplaceFirstX(s, c)[k] == if s[k] == PLACEHOLDER && PLACEHOLDER !in s[..k] then c else s[k]
    decreases |s|
  {
    if s[0] != PLACEHOLDER && k > 0 {
      ReplaceFirstXAt(s[1..], c, k - 1);
      assert s[..k] == [s[0]] + s[1..][..k - 1];
    }
  }

  /** The fill loop as written: one `replace('X', ch)` per character of `number`, in order. */
  function ReplaceEach(format: string, number: string): (r: string)
    ensures |r| == |format|
    decreases |number|
  {
    if number == [] then format else ReplaceEach(ReplaceFirstX(format, number[0]), number[1..])
  }

  /** Every literal character of the mask stays at its position, whatever the number holds. */
  lemma {:induction false} ReplaceEachKeepsLiterals(format: string, number: string, k: nat)
    requires k < |format| && format[k] != PLACEHOLDER
    ensures ReplaceEach(format, number)[k] == format[k]
    decreases |number|
  {
    if number != [] {
      ReplaceFirstXAt(format, number[0], k);
      ReplaceEachKeepsLiterals(ReplaceFirstX(format, number[0]), number[1..], k);
    }
  }

  /**
    The reference fill: walk `format` left to right, putting the next unused
    character of `number` at each placeholder and keeping the placeholder once
    `number` is used up; literal characters are copied.
   */
  function Substitute(format: string, number: string): (r: string)
    ensures |r| == |format|
    decreases |format|
  {
    if format == [] then []
    else if format[0] != PLACEHOLDER then [format[0]] + Substitute(format[1..], number)
    else if number == [] then [PLACEHOLDER] + Substitute(format[1..], number)
    else [number[0]] + Substitute(format[1..], number[1..])
  }

  /**
    The fill keeps the mask's layout: a literal character stays at its position,
    and a placeholder position holds either 'X' or a character of `number`.
   */
  lemma {:induction false} SubstituteAt(format: string, number: string, k: nat)
    requires k < |format|
    ensures format[k] != PLACEHOLDER ==> Substitute(format, number)[k] == format[k]
    ensures format[k] == PLACEHOLDER ==> Substitute(format, number)[k] == PLACEHOLDER
                                         || Substitute(format, number)[k] in number
    decreases |format|
  {
    if k > 0 {
      if format[0] == PLACEHOLDER && number != [] {
        SubstituteAt(format[1..], number[1..], k - 1);
        var c := Substitute(format, number)[k];
        assert c == Substitute(format[1..], number[1..])[k - 1];
        if c in number[1..] {
          var j :| 0 <= j < |number[1..]| && number[1..][j] == c;
          assert number[j + 1] == c;
        }
      } else {
        SubstituteAt(format[1..], number, k - 1);
      }
    }
  }

  /** The characters of `s` that stand at the placeholder positions of `format`, in order. */
  function Unfill(format: string, s: string): (d: string)
    requires |s| == |format|
    ensures |d| == CountX(format)
    decreases |format|
  {
    if format == [] then []
    else (if format[0] == PLACEHOLDER then [s[0]] else []) + Unfill(format[1..], s[1..])
  }

  /** The fill loop of `generatePhoneNumber` (`formatted = formatted.replace('X', char)` for each character). */
  method FillFormat(format: string, number: string) returns (formatted: string)
    ensures formatted == ReplaceEach(format, number)
    ensures |formatted| == |format|
    ensures forall k :: 0 <= k < |format| && format[k] != PLACEHOLDER ==> formatted[k] == format[k]
    ensures PLACEHOLDER !in number ==> formatted == Substitute(format, number)
  {
    formatted := format;
    for i := 0 to |number|
      invariant ReplaceEach(formatted, number[i..]) == ReplaceEach(format, number)
    {
      assert number[i..][1..] == number[i + 1..];
      formatted := ReplaceFirstX(formatted, number[i]);
    }
    assert number[|number|..] == [];
    forall k | 0 <= k < |format| && format[k] != PLACEHOLDER ensures formatted[k] == format[k] {
      ReplaceEachKeepsLiterals(format, number, k);
    }
    if PLACEHOLDER !in number {
      ReplaceEachIsSubstitute(format, number);
    }
  }

  /** With nothing left to place, the reference fill is the identity. */
  lemma {:induction false} SubstituteNothing(format: string)
    ensures Substitute(format, []) == format
    decreases |format|
  {
    if format != [] {
      SubstituteNothing(format[1..]);
    }
  }

  /** A leading literal character is skipped by every `replace('X', _)`. */
  lemma {:induction false} ReplaceEachPastLiteral(a: char, g: string, number: string)
    requires a != PLACEHOLDER
    ensures ReplaceEach([a] + g, number) == [a] + ReplaceEach(g, number)
    decreases |number|
  {
    if number != [] {
      assert ([a] + g)[1..] == g;
      assert ReplaceFirstX([a] + g, number[0]) == [a] + ReplaceFirstX(g, number[0]);
      ReplaceEachPastLiteral(a, ReplaceFirstX(g, number[0]), number[1..]);
    }
  }

  /**
    When the raw number holds no 'X' itself, the repeated `replace` fills the
    placeholders left to right: the loop as written equals the reference fill.
   */
  lemma {:induction false} ReplaceEachIsSubstitute(format: string, number: string)
    requires PLACEHOLDER !in number
    ensures ReplaceEach(format, number) == Substitute(format, number)
    decreases |format|
  {
    if number == [] {
      SubstituteNothing(format);
    } else if format == [] {
    } else {
      var c, rest := number[0], number[1..];
      assert PLACEHOLDER !in rest by {
        forall i | 0 <= i < |rest| ensures rest[i] != PLACEHOLDER {
          assert rest[i] == number[i + 1];
        }
      }
      assert c != PLACEHOLDER by { assert number[0] in number; }
      if format[0] != PLACEHOLDER {
        assert format == [format[0]] + format[1..];
        assert ReplaceFirstX(format, c) == [format[0]] + ReplaceFirstX(format[1..], c);
        ReplaceEachPastLiteral(format[0], ReplaceFirstX(format[1..], c), rest);
        ReplaceEachIsSubstitute(format[1..], number);
      } else {
        assert ReplaceFirstX(format, c) == [c] + format[1..];
        ReplaceEachPastLiteral(c, format[1..], rest);
        ReplaceEachIsSubstitute(format[1..], rest);
      }
    }
  }

  /**
    What the placeholders of a mask with `n` of them hold after a fill with
    `number`: its first `n` characters when it is long enough (the rest is
    dropped), otherwise all of it followed by the placeholders that stay 'X'.
   */
  function Placed(number: string, n: nat): (d: string)
    ensures |d| == n
  {
    if |number| >= n then number[..n] else number + Repeat(PLACEHOLDER, n - |number|)
  }

  lemma {:induction false} FillThenUnfill(format: string, number: string)
    ensures Unfill(format, Substitute(format, number)) == Placed(number, CountX(format))
    decreases |format|
  {
    if format != [] {
      var filled := Substitute(format, number);
      if format[0] != PLACEHOLDER {
        FillThenUnfillLiteral(format, number);
      } else if number == [] {
        FillThenUnfillExhausted(format);
      } else {
        FillThenUnfillPlaced(format, number);
      }
    }
  }

  lemma {:induction false} FillThenUnfillLiteral(format: string, number: string)
    requires format != [] && format[0] != PLACEHOLDER
    ensures Unfill(format, Substitute(format, number)) == Placed(number, CountX(format))
    decreases |format|, 0
  {
    var filled := Substitute(format, number);
    assert filled[1..] == Substitute(format[1..], number);
    assert Unfill(format, filled) == Unfill(format[1..], filled[1..]);
    assert CountX(format) == CountX(format[1..]);
    FillThenUnfill(format[1..], number);
  }

  lemma {:induction false} FillThenUnfillExhausted(format: string)
    requires format != [] && format[0] == PLACEHOLDER
    ensures Unfill(format, Substitute(format, [])) == Placed([], CountX(format))
    decreases |format|, 0
  {
    var filled := Substitute(format, []);
    var n1 := CountX(format[1..]);
    assert filled[1..] == Substitute(format[1..], []);
    assert Unfill(format, filled) == [PLACEHOLDER] + Unfill(format[1..], filled[1..]);
    FillThenUnfill(format[1..], []);
    assert Placed([], n1) == Repeat(PLACEHOLDER, n1);
    assert [PLACEHOLDER] + Repeat(PLACEHOLDER, n1) == Repeat(PLACEHOLDER, n1 + 1);
    assert Placed([], n1 + 1) == Repeat(PLACEHOLDER, n1 + 1);
  }

  lemma {:induction false} FillThenUnfillPlaced(format: string, number: string)
    requires format != [] && format[0] == PLACEHOLDER && number != []
    ensures Unfill(format, Substitute(format, number)) == Placed(number, CountX(format))
    decreases |format|, 0
  {
    var filled := Substitute(format, number);
    var sub := Substitute(format[1..], number[1..]);
    assert filled == [number[0]] + sub;
    assert filled[1..] == sub;
    assert Unfill(format, filled) == [number[0]] + Unfill(format[1..], sub);
    FillThenUnfill(format[1..], number[1..]);
    PlacedFirst(number, CountX(format[1..]));
  }

  lemma PlacedFirst(number: string, n: nat)
    requires number != []
    ensures Placed(number, n + 1) == [number[0]] + Placed(number[1..], n)
  {
    if |number| >= n + 1 {
      assert [number[0]] + number[1..][..n] == number[..n + 1];
    } else {
      assert [number[0]] + number[1..] == number;
    }
  }

  // ---------------------------------------------------------------- one number

  /**
    `generatePhoneNumber(country)` when its draws start at `at`. An empty prefix
    list makes `randomChoice` return `undefined`, and reading its `length` throws.
   */
  function PhoneNumber(country: Country, entropy: Entropy, at: nat): (r: Result<Drawn<string>>)
    ensures r.Err? <==> |country.prefixes| == 0
    ensures r.Ok? ==> r.value.next > at
  {
    match RandomChoice(country.prefixes, entropy(at))
    case None => Err(PrefixUndefined)
    case Some(prefix) =>
      var n := Iterations(country.length, |prefix|);
      var formatted := ReplaceEach(country.format, prefix + Digits(entropy, at + 1, n));
      Ok(Drawn(country.dialCode + " " + formatted, at + 1 + n))
  }

  /** `generatePhoneNumber`: choose a prefix, run the digit loop, run the fill loop, prepend the dial code. */
  method GeneratePhoneNumber(country: Country, entropy: Entropy, at: nat) returns (r: Result<Drawn<string>>)
    ensures r == PhoneNumber(country, entropy, at)
    ensures r.Err? <==> |country.prefixes| == 0
    ensures r.Ok? ==> r.value.value
                      == country.dialCode + " " + ReplaceEach(country.format, RawNumber(country, entropy, at))
  {
    var choice := RandomChoice(country.prefixes, entropy(at));
    if choice.None? {
      return Err(PrefixUndefined);
    }
    var prefix := choice.value;
    var number, next := BuildNumber(prefix, country.length, entropy, at + 1);
    var formatted := FillFormat(country.format, number);
    r := Ok(Drawn(country.dialCode + " " + formatted, next));
  }

  /**
    For a record that meets its invariant, every generated number is the dial
    code, a space and the mask with its literal characters in place; the
    placeholders hold, in order, exactly `country.length` digits that start
    with one of the record's prefixes.
   */
  lemma WellFormedPhoneNumber(country: Country, entropy: Entropy, at: nat)
    requires WellFormed(country)
    ensures PhoneNumber(country, entropy, at).Ok?
    ensures var raw := RawNumber(country, entropy, at);
            && |raw| == country.length
            && AllDigits(raw)
            && PhoneNumber(country, entropy, at).value.value
               == country.dialCode + " " + Substitute(country.format, raw)
            && Unfill(country.format, Substitute(country.format, raw)) == raw
  {
    var p := ChosenPrefix(country, entropy, at);
    var raw := RawNumber(country, entropy, at);
    var i :| 0 <= i < |country.prefixes| && country.prefixes[i] == p;
    assert AllDigits(raw) by {
      forall k | 0 <= k < |raw| ensures IsDigit(raw[k]) {
        if k < |p| { assert raw[k] == p[k]; }
      }
    }
    assert PLACEHOLDER !in raw by {
      forall k | 0 <= k < |raw| ensures raw[k] != PLACEHOLDER {
        assert IsDigit(raw[k]);
      }
    }
    ReplaceEachIsSubstitute(country.format, raw);
    FillThenUnfill(country.format, raw);
  }

  // ---------------------------------------------------------------- a batch

  /**
    `generatePhoneNumbers(country, count)` when its draws start at `at`: `count`
    generations one after the other, each starting where the previous one
    stopped. The first throwing generation aborts the whole batch.
   */
  function Batch(country: Country, count: int, entropy: Entropy, at: nat): (r: Result<Drawn<seq<string>>>)
    ensures r.Err? <==> count > 0 && |country.prefixes| == 0
    ensures r.Ok? ==> |r.value.value| == (if count > 0 then count else 0)
    decreases count
  {
    if count <= 0 then Ok(Drawn([], at))
    else match PhoneNumber(country, entropy, at)
      case Err(f) => Err(f)
      case Ok(first) =>
        match Batch(country, count - 1, entropy, first.next)
        case Err(f) => Err(f)
        case Ok(rest) => Ok(Drawn([first.value] + rest.value, rest.next))
  }

  /** `xs` followed by the numbers of `r`, failing where `r` fails. */
  function Prepend(xs: seq<string>, r: Result<Drawn<seq<string>>>): Result<Drawn<seq<string>>> {
    match r
    case Err(f) => Err(f)
    case Ok(d) => Ok(Drawn(xs + d.value, d.next))
  }

  /** The loop of `generatePhoneNumbers`, pushing one number per iteration. */
  method GeneratePhoneNumbers(country: Country, count: int, entropy: Entropy, at: nat)
    returns (r: Result<Drawn<seq<string>>>)
    ensures r == Batch(country, count, entropy, at)
    ensures r.Ok? ==> |r.value.value| == (if count > 0 then count else 0)
  {
    var numbers: seq<string> := [];
    var pos := at;
    var i := 0;
    PrependNothing(Batch(country, count, entropy, at));
    while i < count
      invariant 0 <= i
      invariant count > 0 ==> i <= count
      invariant Batch(country, count, entropy, at) == Prepend(numbers, Batch(country, count - i, entropy, pos))
    {
      var one := GeneratePhoneNumber(country, entropy, pos);
      if one.Err? {
        assert Batch(country, count - i, entropy, pos).Err?;
        return Err(one.failure);
      }
      BatchUnroll(country, count - i, entropy, pos);
      PrependTwice(numbers, one.value.value, Batch(country, count - i - 1, entropy, one.value.next));
      numbers := numbers + [one.value.value];
      pos := one.value.next;
      i := i + 1;
    }
    assert numbers + [] == numbers;
    r := Ok(Drawn(numbers, pos));
  }

  lemma PrependNothing(r: Result<Drawn<seq<string>>>)
    ensures Prepend([], r) == r
  {
    if r.Ok? { assert [] + r.value.value == r.value.value; }
  }

  lemma PrependTwice(xs: seq<string>, x: string, r: Result<Drawn<seq<string>>>)
    ensures Prepend(xs, Prepend([x], r)) == Prepend(xs + [x], r)
  {
    if r.Ok? { assert xs + ([x] + r.value.value) == xs + [x] + r.value.value; }
  }

  /** A batch is its first generation followed by the rest of the batch from where that one stopped. */
  lemma BatchUnroll(country: Country, count: int, entropy: Entropy, at: nat)
    requires count > 0 && |country.prefixes| > 0
    ensures var first := PhoneNumber(country, entropy, at).value;
            Batch(country, count, entropy, at)
            == Prepend([first.value], Batch(country, count - 1, entropy, first.next))
  {
  }

  /** Where the k-th generation of a batch takes its first draw. */
  function Cursor(country: Country, entropy: Entropy, at: nat, k: nat): nat
    requires |country.prefixes| > 0
    decreases k
  {
    if k == 0 then at else Cursor(country, entropy, PhoneNumber(country, entropy, at).value.next, k - 1)
  }

  /** Generation `k` of a batch ends where generation `k + 1` starts: its draws are `[Cursor k, Cursor k+1)`. */
  lemma {:induction false} CursorNext(country: Country, entropy: Entropy, at: nat, k: nat)
    requires |country.prefixes| > 0
    ensures Cursor(country, entropy, at, k + 1)
            == PhoneNumber(country, entropy, Cursor(country, entropy, at, k)).value.next
    decreases k
  {
    if k > 0 {
      CursorNext(country, entropy, PhoneNumber(country, entropy, at).value.next, k - 1);
    }
  }

  /** The k-th number of a batch is the output of a single generation at the k-th cursor, in generation order. */
  lemma {:induction false} BatchElement(country: Country, count: int, entropy: Entropy, at: nat, k: nat)
    requires |country.prefixes| > 0 && k < count
    ensures Batch(country, count, entropy, at).value.value[k]
            == PhoneNumber(country, entropy, Cursor(country, entropy, at, k)).value.value
    decreases k
  {
    var first := PhoneNumber(country, entropy, at).value;
    BatchUnroll(country, count, entropy, at);
    if k > 0 {
      BatchElement(country, count - 1, entropy, first.next, k - 1);
    }
  }

  /** The appended digits depend only on the `n` draws from `at` on. */
  lemma {:induction false} DigitsLocal(e1: Entropy, e2: Entropy, at: nat, n: nat)
    requires forall j :: at <= j < at + n ==> e1(j) == e2(j)
    ensures Digits(e1, at, n) == Digits(e2, at, n)
    decreases n
  {
    if n > 0 {
      DigitsLocal(e1, e2, at, n - 1);
    }
  }

  /**
    One generation reads only the draws in `[at, next)`: two streams that agree
    there give the same number and the same next cursor.
   */
  lemma PhoneNumberLocal(country: Country, e1: Entropy, e2: Entropy, at: nat)
    requires |country.prefixes| > 0
    requires forall j :: at <= j < PhoneNumber(country, e1, at).value.next ==> e1(j) == e2(j)
    ensures PhoneNumber(country, e1, at) == PhoneNumber(country, e2, at)
  {
    assert e1(at) == e2(at);
    var p := ChosenPrefix(country, e1, at);
    DigitsLocal(e1, e2, at + 1, Iterations(country.length, |p|));
  }

  /** Successive generations of a batch start at ever later draws; with `CursorNext`, no draw is shared. */
  lemma {:induction false} CursorIncreases(country: Country, entropy: Entropy, at: nat, k: nat)
    requires |country.prefixes| > 0
    ensures Cursor(country, entropy, at, k + 1) > Cursor(country, entropy, at, k)
    decreases k
  {
    if k > 0 {
      CursorIncreases(country, entropy, PhoneNumber(country, entropy, at).value.next, k - 1);
    }
  }

  // ---------------------------------------------------------------- export

  /** `numbers.join('\n')`: the text `downloadPhoneNumbers` saves. */
  function Join(xs: seq<string>): string
    decreases |xs|
  {
    if |xs| == 0 then "" else if |xs| == 1 then xs[0] else xs[0] + "\n" + Join(xs[1..])
  }

  /** `s.split('\n')`: the pieces between line breaks; the empty text is one empty piece. */
  function Split(s: string): (parts: seq<string>)
    ensures |parts| >= 1
    decreases |s|
  {
    if s == [] then [""]
    else if s[0] == '\n' then [""] + Split(s[1..])
    else
      var rest := Split(s[1..]);
      [[s[0]] + rest[0]] + rest[1..]
  }

  lemma {:induction false} SplitOfLine(a: string)
    requires '\n' !in a
    ensures Split(a) == [a]
    decreases |a|
  {
    if a != [] {
      assert '\n' !in a[1..] by {
        forall i | 0 <= i < |a[1..]| ensures a[1..][i] != '\n' { assert a[1..][i] == a[i + 1]; }
      }
      SplitOfLine(a[1..]);
      assert [a[0]] + a[1..] == a;
    }
  }

  lemma {:induction false} SplitOfLines(a: string, b: string)
    requires '\n' !in a
    ensures Split(a + "\n" + b) == [a] + Split(b)
    decreases |a|
  {
    var s := a + "\n" + b;
    if a == [] {
      assert s[1..] == b;
    } else {
      assert s[1..] == a[1..] + "\n" + b;
      assert '\n' !in a[1..] by {
        forall i | 0 <= i < |a[1..]| ensures a[1..][i] != '\n' { assert a[1..][i] == a[i + 1]; }
      }
      SplitOfLines(a[1..], b);
      assert [a[0]] + a[1..] == a;
    }
  }

  /** Reading an export back line by line gives the numbers that were exported, in order. */
  lemma {:induction false} SplitJoin(xs: seq<string>)
    requires |xs| >= 1
    requires forall i :: 0 <= i < |xs| ==> '\n' !in xs[i]
    ensures Split(Join(xs)) == xs
    decreases |xs|
  {
    if |xs| == 1 {
      SplitOfLine(xs[0]);
    } else {
      SplitOfLines(xs[0], Join(xs[1..]));
      SplitJoin(xs[1..]);
      assert [xs[0]] + xs[1..] == xs;
    }
  }

  /** An empty export does not read back as an empty list but as one empty line. */
  lemma EmptyExportIsOneLine()
    ensures Split(Join([])) == [""]
  {
  }

  /**
    For a record that meets its invariant and whose dial code and mask hold no
    line break, exporting a batch and splitting the text on line breaks gives
    the batch back.
   */
  lemma ExportRoundTrip(country: Country, count: int, entropy: Entropy, at: nat)
    requires WellFormed(country) && count >= 1
    requires '\n' !in country.dialCode && '\n' !in country.format
    ensures Batch(country, count, entropy, at).Ok?
    ensures var numbers := Batch(country, count, entropy, at).value.value;
            Split(Join(numbers)) == numbers
  {
    var numbers := Batch(country, count, entropy, at).value.value;
    forall k | 0 <= k < |numbers| ensures '\n' !in numbers[k] {
      var c := Cursor(country, entropy, at, k);
      BatchElement(country, count, entropy, at, k);
      WellFormedPhoneNumber(country, entropy, c);
      var raw := RawNumber(country, entropy, c);
      var national := Substitute(country.format, raw);
      assert '\n' !in national by {
        forall j | 0 <= j < |national| ensures national[j] != '\n' {
          SubstituteAt(country.format, raw, j);
          if national[j] in raw {
            var m :| 0 <= m < |raw| && raw[m] == national[j];
            assert IsDigit(raw[m]);
          }
        }
      }
      assert numbers[k] == country.dialCode + " " + national;
    }
    SplitJoin(numbers);
  }
}
