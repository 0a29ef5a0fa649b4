/**
  The catalog record that `lib/phoneGenerator.ts` and `app/sjh/page.tsx` read.
  The catalog itself (`lib/phoneCountries`) is not part of this model; the record
  shape below is the set of fields the two files use.
 */
module PhoneCountries {
  import opened JsText

  datatype Country = Country(
    code: string,          // identifier of the entry, the value kept in browser storage
    name: string,          // display name, also part of the export file name
    dialCode: string,      // international calling code, such as "+1"
    prefixes: seq<string>, // leading digit strings of national numbers
    length: int,           // digit count of the national number, prefix included
    format: string)        // display mask; every 'X' is a digit placeholder

  /** The placeholder character of a format mask. */
  const PLACEHOLDER: char := 'X'

  /** The number of placeholders in a format mask. */
  function CountX(s: string): (n: nat)
    ensures n <= |s|
    ensures n == 0 <==> PLACEHOLDER !in s
  {
    if s == [] then 0
    else (if s[0] == PLACEHOLDER then 1 else 0) + CountX(s[1..])
  }

  /**
    The structural invariant a record is meant to satisfy: at least one prefix,
    every prefix made of digits and no longer than `length`, and exactly `length`
    placeholders in `format`. The generator does not check it; the lemmas about
    generation say what holds with it and what happens without it.
   */
  ghost predicate WellFormed(c: Country) {
    && |c.prefixes| > 0
    && c.length >= 0
    && CountX(c.format) == c.length
    && forall i :: 0 <= i < |c.prefixes| ==> |c.prefixes[i]| <= c.length && AllDigits(c.prefixes[i])
  }
}
