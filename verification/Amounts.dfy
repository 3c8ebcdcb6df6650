/**
 Decimal amounts: packages/pearl-sdk/src/amounts.ts, the order repository's own parser and formatter
 (services/otc-api/src/repository.ts) and the indexer's `valueToGrains`
 (services/pearl-indexer/src/block-poller.ts).

 `ParseFormat` and `FormatParse` are the two round trips; `ParsersDiffer` says exactly where the two parsers disagree.
 */
module Amounts {
  import opened Wrappers

  // ---- Strings and numbers ----

  /** The characters `String.prototype.trim` removes. */
  predicate IsSpace(c: char) {
    var n := c as int;
    || 9 <= n <= 13 || n == 32 || n == 0xA0 || n == 0x1680 || 0x2000 <= n <= 0x200A
    || n == 0x2028 || n == 0x2029 || n == 0x202F || n == 0x205F || n == 0x3000 || n == 0xFEFF
  }

  function TrimStart(s: string): string {
    if s != "" && IsSpace(s[0]) then TrimStart(s[1..]) else s
  }

  function TrimEnd(s: string): string {
    if s != "" && IsSpace(s[|s| - 1]) then TrimEnd(s[..|s| - 1]) else s
  }

  function Trim(s: string): string {
    TrimEnd(TrimStart(s))
  }

  /** `split('.')`. */
  function Split(s: string): (parts: seq<string>)
    ensures parts != []
  {
    if s == "" then [""]
    else
      var rest := Split(s[1..]);
      if s[0] == '.' then [""] + rest else [[s[0]] + rest[0]] + rest[1..]
  }

  function Fraction(parts: seq<string>): string {
    if |parts| > 1 then parts[1] else ""
  }

  predicate IsDigit(c: char) {
    '0' <= c <= '9'
  }

  predicate Digits(s: string) {
    forall i :: 0 <= i < |s| ==> IsDigit(s[i])
  }

  function DigitValue(c: char): nat
    requires IsDigit(c)
  {
    c as int - '0' as int
  }

  function DigitChar(n: nat): (c: char)
    requires n < 10
    ensures IsDigit(c) && DigitValue(c) == n
  {
    '0' + n as char
  }

  /** `BigInt` of a string of decimal digits; of the empty string it is 0. */
  function Value(s: string): nat
    requires Digits(s)
  {
    if s == "" then 0 else 10 * Value(s[..|s| - 1]) + DigitValue(s[|s| - 1])
  }

  function ToString(n: nat): string {
    if n < 10 then [DigitChar(n)] else ToString(n / 10) + [DigitChar(n % 10)]
  }

  function Zeros(n: nat): string {
    if n == 0 then "" else Zeros(n - 1) + "0"
  }

  function PadStart(s: string, n: nat): string {
    if |s| < n then Zeros(n - |s|) + s else s
  }

  function PadEnd(s: string, n: nat): string {
    if |s| < n then s + Zeros(n - |s|) else s
  }

  function Pow10(d: nat): (p: nat)
    ensures p > 0
  {
    if d == 0 then 1 else 10 * Pow10(d - 1)
  }

  lemma Divides(value: nat, base: nat)
    requires base > 0
    ensures value / base >= 0 && 0 <= value % base < base
  {
  }

  // ---- The parsers and formatters ----

  function ParseDecimalToUnits(amount: string, decimals: nat): Result<nat> {
    var normalized := Trim(amount);
    var parts := Split(normalized);
    var whole, fraction := parts[0], Fraction(parts);
    if normalized == "" || |parts| > 2 || whole == "" || !Digits(whole) || !Digits(fraction) || |fraction| > decimals then Thrown
    else
      PaddedDigits(fraction, decimals);
      var padded := PadEnd(fraction, decimals);
      Ok(Value(whole) * Pow10(decimals) + Value(if padded == "" then "0" else padded))
  }

  /** `parseDecimalUnits` of the order repository: no trimming, and later parts are ignored. */
  function RepoParse(value: string, decimals: nat): Result<nat> {
    var parts := Split(value);
    var whole, fraction := parts[0], Fraction(parts);
    if whole == "" || !Digits(whole) || !Digits(fraction) || |fraction| > decimals then Thrown
    else
      ZerosAre(decimals);
      Ok(Value(whole) * Pow10(decimals) + Value((fraction + Zeros(decimals))[..decimals]))
  }

  /** `formatDecimalUnits` of the order repository, for the non-negative amounts it is given. */
  function RepoFormat(value: nat, decimals: nat): string {
    Divides(value, Pow10(decimals));
    ToString(value / Pow10(decimals)) + "." + PadStart(ToString(value % Pow10(decimals)), decimals)
  }

  /** The SDK's formatter writes the same text, and refuses a negative amount. */
  function FormatUnitsToDecimal(units: int, decimals: nat): Result<string> {
    if units < 0 then Thrown else Ok(RepoFormat(units, decimals))
  }

  /** `BigInt` of a decimal string: white space around it and a sign are accepted. */
  function ToBigInt(s: string): Result<int> {
    var t := Trim(s);
    if t == "" then Ok(0)
    else if t[0] == '-' || t[0] == '+' then
      if |t| > 1 && Digits(t[1..]) then Ok((if t[0] == '-' then -1 else 1) * Value(t[1..])) else Thrown
    else if Digits(t) then Ok(Value(t))
    else Thrown
  }

  /** The grains of a decimal string, before they are turned back into text. */
  function ValueToGrains(s: string): Result<int> {
    var parts := Split(s);
    ZerosAre(8);
    var whole, fraction := ToBigInt(parts[0]), ToBigInt((Fraction(parts) + Zeros(8))[..8]);
    if whole.Ok? && fraction.Ok? then Ok(whole.value * Pow10(8) + fraction.value) else Thrown
  }

  // ---- Digits ----

  lemma {:induction false} ZerosAre(n: nat)
    ensures |Zeros(n)| == n && Digits(Zeros(n))
    ensures Value(Zeros(n)) == 0
  {
    if n > 0 {
      ZerosAre(n - 1);
      assert Zeros(n)[..n - 1] == Zeros(n - 1);
    }
  }

  lemma PaddedDigits(s: string, n: nat)
    requires Digits(s)
    ensures Digits(PadEnd(s, n)) && Digits(PadStart(s, n))
    ensures |PadEnd(s, n)| == |PadStart(s, n)| == if |s| < n then n else |s|
  {
    hide IsDigit, Zeros, Value;
    if |s| < n { ZerosAre(n - |s|); }
  }

  lemma NextPow10(v: nat, n: nat)
    ensures v * Pow10(n + 1) == 10 * (v * Pow10(n)) && v * Pow10(0) == v
  {
  }

  lemma {:induction false} ValueAppends(s: string, t: string)
    requires Digits(s) && Digits(t)
    ensures Digits(s + t) && Value(s + t) == Value(s) * Pow10(|t|) + Value(t)
  {
    hide Pow10, IsDigit;
    if t == "" {
      NextPow10(Value(s), 0);
      assert s + t == s;
    } else {
      var n := |t| - 1;
      ValueAppends(s, t[..n]);
      NextPow10(Value(s), n);
      assert (s + t)[..|s + t| - 1] == s + t[..n];
      assert (s + t)[|s + t| - 1] == t[n];
    }
  }

  lemma {:induction false} ValueBelow(s: string)
    requires Digits(s)
    ensures Value(s) < Pow10(|s|)
  {
    if s != "" {
      ValueBelow(s[..|s| - 1]);
    }
  }

  lemma {:induction false} ToStringIs(n: nat)
    ensures Digits(ToString(n)) && ToString(n) != "" && Value(ToString(n)) == n
    ensures ToString(n)[0] == '0' ==> n == 0
    ensures n == 0 ==> ToString(n) == "0"
  {
    if n >= 10 {
      ToStringIs(n / 10);
      var s := ToString(n);
      assert s[..|s| - 1] == ToString(n / 10);
    } else {
      assert ToString(n)[..0] == "";
    }
  }

  /** A spelling has no leading zero, unless it is the single digit 0. */
  predicate NoLeadingZero(s: string) {
    s != "" && (s[0] == '0' ==> |s| == 1)
  }

  function StripZeros(s: string): string {
    if |s| > 1 && s[0] == '0' then StripZeros(s[1..]) else s
  }

  lemma {:induction false} LeadingDigit(s: string)
    requires Digits(s) && s != "" && s[0] != '0'
    ensures Value(s) > 0
  {
    if |s| > 1 {
      LeadingDigit(s[..|s| - 1]);
    } else {
      assert s[..0] == "";
    }
  }

  lemma {:induction false} SpellingIsUnique(s: string)
    requires Digits(s) && NoLeadingZero(s)
    ensures ToString(Value(s)) == s
  {
    var n := |s| - 1;
    if n == 0 {
      assert s[..0] == "";
      assert s == [s[0]];
    } else {
      LeadingDigit(s[..n]);
      SpellingIsUnique(s[..n]);
      assert s == s[..n] + [s[n]];
      assert Value(s) / 10 == Value(s[..n]) && Value(s) % 10 == DigitValue(s[n]);
    }
  }

  lemma {:induction false} StripKeepsValue(s: string)
    requires Digits(s) && s != ""
    ensures Digits(StripZeros(s)) && NoLeadingZero(StripZeros(s)) && Value(StripZeros(s)) == Value(s)
  {
    if |s| > 1 && s[0] == '0' {
      StripKeepsValue(s[1..]);
      ValueAppends([s[0]], s[1..]);
      assert s == [s[0]] + s[1..];
      assert [s[0]][..0] == "";
    }
  }

  lemma {:induction false} PadStartKeepsValue(s: string, n: nat)
    requires Digits(s)
    ensures Digits(PadStart(s, n)) && Value(PadStart(s, n)) == Value(s)
  {
    hide Value, Pow10, IsDigit, Zeros;
    if |s| < n {
      ZerosAre(n - |s|);
      ValueAppends(Zeros(n - |s|), s);
    }
  }

  lemma {:induction false} ToStringShort(n: nat, d: nat)
    requires n < Pow10(d) && d >= 1
    ensures |ToString(n)| <= d
    decreases d
  {
    if n >= 10 {
      ToStringShort(n / 10, d - 1);
    }
  }

  /** Digits of one length are determined by their value. */
  lemma {:induction false} SameLengthUnique(s: string, t: string)
    requires Digits(s) && Digits(t) && |s| == |t| && Value(s) == Value(t)
    ensures s == t
  {
    if s != "" {
      var n := |s| - 1;
      SameLengthUnique(s[..n], t[..n]);
      assert s == s[..n] + [s[n]] && t == t[..n] + [t[n]];
    }
  }

  // ---- Splitting ----

  lemma {:induction false} SplitDigits(s: string)
    requires Digits(s)
    ensures Split(s) == [s]
  {
    if s != "" {
      SplitDigits(s[1..]);
      assert s == [s[0]] + s[1..];
    }
  }

  lemma {:induction false} SplitAtDot(w: string, rest: string)
    requires Digits(w)
    ensures Split(w + "." + rest) == [w] + Split(rest)
  {
    var s := w + "." + rest;
    if w == "" {
      assert s[1..] == rest;
    } else {
      SplitAtDot(w[1..], rest);
      assert s[1..] == w[1..] + "." + rest;
      assert w == [w[0]] + w[1..];
    }
  }

  /** Two parts put back together. */
  lemma {:induction false} Unsplit(s: string)
    ensures Split(s)[0] <= s
    ensures |Split(s)| == 1 ==> s == Split(s)[0]
    ensures |Split(s)| > 1 ==> |Split(s)[0]| < |s| && s[|Split(s)[0]|] == '.' && Split(s)[1..] == Split(s[|Split(s)[0]| + 1..])
  {
    if s != "" && s[0] != '.' {
      Unsplit(s[1..]);
      var k := |Split(s)[0]|;
      if |Split(s)| > 1 {
        assert s[k + 1..] == s[1..][k..];
      }
    }
  }

  lemma TrimKeeps(s: string)
    requires s != "" && !IsSpace(s[0]) && !IsSpace(s[|s| - 1])
    ensures Trim(s) == s
  {
  }

  lemma {:induction false} TrimTwice(s: string)
    ensures Trim(Trim(s)) == Trim(s)
  {
    TrimEndIs(TrimStart(s));
    TrimStartIs(s);
  }

  lemma {:induction false} TrimStartIs(s: string)
    ensures TrimStart(s) != "" ==> !IsSpace(TrimStart(s)[0])
  {
    if s != "" && IsSpace(s[0]) { TrimStartIs(s[1..]); }
  }

  lemma {:induction false} TrimEndIs(s: string)
    ensures TrimEnd(s) <= s
    ensures TrimEnd(s) != "" ==> !IsSpace(TrimEnd(s)[|TrimEnd(s)| - 1])
  {
    if s != "" && IsSpace(s[|s| - 1]) { TrimEndIs(s[..|s| - 1]); }
  }

  lemma ZeroValue()
    ensures Digits("0") && Value("0") == Value("") == 0
  {
    assert "0"[..0] == "";
  }

  /** Digits, or digits, a dot and at most `d` digits, which may be none. */
  ghost predicate IsSpelling(s: string, d: nat) {
    exists w, f :: Spells(s, w, f, d)
  }

  predicate Spells(s: string, w: string, f: string, d: nat) {
    w != "" && Digits(w) && Digits(f) && |f| <= d && ((s == w && f == "") || s == w + "." + f)
  }

  lemma SpellingSplits(s: string, w: string, f: string, d: nat)
    requires Spells(s, w, f, d)
    ensures Split(s)[0] == w && |Split(s)| <= 2 && Fraction(Split(s)) == f
  {
    hide Digits, Split;
    SplitDigits(w);
    SplitDigits(f);
    SplitAtDot(w, f);
  }

  lemma SplitSpells(s: string, d: nat)
    requires var parts := Split(s); |parts| <= 2 && parts[0] != "" && Digits(parts[0]) && Digits(Fraction(parts)) && |Fraction(parts)| <= d
    ensures Spells(s, Split(s)[0], Fraction(Split(s)), d)
  {
    hide Digits, Split;
    Unsplit(s);
    var parts := Split(s);
    if |parts| == 2 {
      var k := |parts[0]|;
      Unsplit(s[k + 1..]);
      assert s == s[..k] + [s[k]] + s[k + 1..];
    }
  }

  /** Exactly the spellings are accepted, white space around them aside, and what they are worth. */
  lemma ParseIs(amount: string, d: nat)
    ensures ParseDecimalToUnits(amount, d).Ok? <==> IsSpelling(Trim(amount), d)
    ensures ParseDecimalToUnits(amount, d).Ok? ==>
      var parts := Split(Trim(amount));
      && Spells(Trim(amount), parts[0], Fraction(parts), d)
      && Digits(PadEnd(Fraction(parts), d)) && |PadEnd(Fraction(parts), d)| == d
      && ParseDecimalToUnits(amount, d) == Ok(Value(parts[0]) * Pow10(d) + Value(PadEnd(Fraction(parts), d)))
  {
    hide Value, Pow10, Trim, IsDigit, Digits, PadEnd, Split;
    var s := Trim(amount);
    ZeroValue();
    if ParseDecimalToUnits(amount, d).Ok? {
      SplitSpells(s, d);
      PaddedDigits(Fraction(Split(s)), d);
    }
    if IsSpelling(s, d) {
      var w, f :| Spells(s, w, f, d);
      SpellingSplits(s, w, f, d);
    }
  }

  // ---- Main results ----

  lemma DigitEnds(w: string, f: string)
    requires w != "" && f != "" && Digits(w) && Digits(f)
    ensures var s := w + "." + f; !IsSpace(s[0]) && !IsSpace(s[|s| - 1])
  {
  }

  lemma PadNothing(f: string, d: nat)
    requires |f| == d
    ensures PadEnd(f, d) == f
  {
  }

  /** Parsing what was formatted gives the number back, for every number and at least one decimal; with none it throws. */
  lemma ParseFormat(units: nat, d: nat)
    ensures FormatUnitsToDecimal(units, d).Ok?
    ensures ParseDecimalToUnits(FormatUnitsToDecimal(units, d).value, d) == if d >= 1 then Ok(units) else Thrown
  {
    hide Value, Pow10, Trim, IsDigit, Digits, PadEnd, PadStart, Split, ToString, IsSpace;
    ZeroValue();
    var w, f := ToString(units / Pow10(d)), PadStart(ToString(units % Pow10(d)), d);
    var s := w + "." + f;
    ToStringIs(units / Pow10(d));
    ToStringIs(units % Pow10(d));
    PaddedDigits(ToString(units % Pow10(d)), d);
    SplitAtDot(w, f);
    SplitDigits(f);
    assert Split(s) == [w, f];
    DigitEnds(w, f);
    TrimKeeps(s);
    if d >= 1 {
      ToStringShort(units % Pow10(d), d);
      PadStartKeepsValue(ToString(units % Pow10(d)), d);
      PadNothing(f, d);
      assert units / Pow10(d) * Pow10(d) + units % Pow10(d) == units;
    }
  }

  /** Formatting what was parsed gives the canonical spelling: no leading zeros, all decimals written out. */
  lemma FormatParse(amount: string, d: nat)
    requires d >= 1 && ParseDecimalToUnits(amount, d).Ok?
    ensures var parts := Split(Trim(amount));
      FormatUnitsToDecimal(ParseDecimalToUnits(amount, d).value, d) == Ok(StripZeros(parts[0]) + "." + PadEnd(Fraction(parts), d))
  {
    hide Value, Pow10, Split, ToString, PadStart, PadEnd, Trim, StripZeros, ParseDecimalToUnits, Digits, NoLeadingZero;
    ParseIs(amount, d);
    var w, f := Split(Trim(amount))[0], PadEnd(Fraction(Split(Trim(amount))), d);
    ValueBelow(f);
    var units := Value(w) * Pow10(d) + Value(f);
    DivMod(Value(w), Value(f), Pow10(d));
    assert ParseDecimalToUnits(amount, d) == Ok(units);
    StripKeepsValue(w);
    SpellingIsUnique(StripZeros(w));
    ToStringIs(Value(f));
    ToStringShort(Value(f), d);
    PaddedDigits(ToString(Value(f)), d);
    PadStartKeepsValue(ToString(Value(f)), d);
    SameLengthUnique(PadStart(ToString(Value(f)), d), f);
  }

  lemma DivMod(q: nat, r: nat, b: nat)
    requires r < b
    ensures (q * b + r) / b == q && (q * b + r) % b == r
  {
    var x := q * b + r;
    assert (q - x / b) * b == x % b - r;
    Multiples(q - x / b, b);
  }

  lemma Multiples(k: int, b: nat)
    ensures k >= 1 ==> k * b >= b
    ensures k <= -1 ==> k * b + b <= 0
  {
  }

  lemma PaddedAlike(f: string, d: nat)
    requires |f| <= d
    ensures |(f + Zeros(d))| >= d && (f + Zeros(d))[..d] == PadEnd(f, d)
  {
    hide Zeros;
    ZerosAre(d);
    ZerosPrefix(d, d - |f|);
    var k := d - |f|;
    assert Zeros(d) == Zeros(k) + Zeros(d)[k..];
  }

  lemma {:induction false} ZerosPrefix(n: nat, k: nat)
    requires k <= n
    ensures |Zeros(n)| == n && Zeros(n)[..k] == Zeros(k)
  {
    ZerosAre(n);
    if k < n {
      ZerosPrefix(n - 1, k);
    }
  }

  /** Where both parsers accept they agree; the SDK alone accepts outer white space, the repository alone a second dot. */
  lemma ParsersDiffer(s: string, d: nat)
    ensures ParseDecimalToUnits(s, d).Ok? && RepoParse(s, d).Ok? ==> ParseDecimalToUnits(s, d) == RepoParse(s, d)
    ensures ParseDecimalToUnits(s, d).Ok? ==> (RepoParse(s, d).Ok? <==> Trim(s) == s)
    ensures RepoParse(s, d).Ok? ==> (ParseDecimalToUnits(s, d).Ok? <==> |Split(s)| <= 2)
  {
    hide Value, Pow10, Trim, IsDigit, Digits, PadEnd, Zeros, Split, IsSpace;
    ZeroValue();
    var parts := Split(s);
    Unsplit(s);
    if RepoParse(s, d).Ok? {
      PaddedAlike(Fraction(parts), d);
      PaddedDigits(Fraction(parts), d);
      if |parts| <= 2 {
        LastIsNoSpace(s);
        TrimKeeps(s);
      } else {
        ManyPartsThrow(s, d);
      }
    }
  }

  lemma LastIsNoSpace(s: string)
    requires var parts := Split(s); |parts| <= 2 && parts[0] != "" && Digits(parts[0]) && Digits(Fraction(parts))
    ensures s != "" && !IsSpace(s[0]) && !IsSpace(s[|s| - 1])
  {
    hide IsSpace, Split, Digits;
    Unsplit(s);
    var parts := Split(s);
    var k := |parts[0]|;
    NoSpaces(parts[0]);
    NoSpaces(Fraction(parts));
    assert s[0] == parts[0][0];
    if |parts| == 2 {
      Unsplit(s[k + 1..]);
      assert s == s[..k] + [s[k]] + s[k + 1..];
    }
  }

  lemma NoSpaces(s: string)
    ensures Digits(s) && s != "" ==> !IsSpace(s[0]) && !IsSpace(s[|s| - 1])
    ensures !IsSpace('.')
  {
  }

  lemma StaysAtStart(s: string)
    requires s != "" && !IsSpace(s[0])
    ensures TrimStart(s) == s
  {
  }

  lemma ThreeParts(w: string, f: string, rest: string)
    requires Digits(w) && Digits(f)
    ensures |Split(w + "." + f + "." + rest)| > 2
  {
    hide IsDigit;
    SplitAtDot(w, f + "." + rest);
    SplitAtDot(f, rest);
    assert w + "." + f + "." + rest == w + "." + (f + "." + rest);
  }

  lemma DottedThrows(s: string, d: nat)
    requires |Split(Trim(s))| > 2
    ensures ParseDecimalToUnits(s, d).Thrown?
  {
    hide Trim, Split, Pow10, Value, PadEnd;
  }

  /** A string whose first two parts are digits keeps its dots under trimming. */
  lemma ManyPartsThrow(s: string, d: nat)
    requires var parts := Split(s); |parts| > 2 && parts[0] != "" && Digits(parts[0]) && Digits(parts[1])
    ensures ParseDecimalToUnits(s, d).Thrown?
  {
    hide IsSpace, TrimStart, TrimEnd, Split, Digits, ParseDecimalToUnits;
    Unsplit(s);
    var w, f := Split(s)[0], Split(s)[1];
    var k, l := |w|, |f|;
    Unsplit(s[k + 1..]);
    assert s[..k] == w && s[k + 1..][..l] == f && s[k + 1..][l] == '.';
    NoSpaces(w);
    assert s[0] == w[0];
    StaysAtStart(s);
    TrimEndKeeps(s, k + 1 + l);
    var t := TrimEnd(s);
    assert t == w + "." + f + "." + t[k + l + 2..];
    ThreeParts(w, f, t[k + l + 2..]);
    DottedThrows(s, d);
  }

  lemma {:induction false} TrimEndKeeps(s: string, k: nat)
    requires k < |s| && !IsSpace(s[k])
    ensures k < |TrimEnd(s)| && TrimEnd(s) <= s
  {
    if IsSpace(s[|s| - 1]) {
      TrimEndKeeps(s[..|s| - 1], k);
    }
  }

  /** The repository's own round trip: it re-reads every amount it writes. */
  lemma RepoParseFormat(units: nat, d: nat)
    requires d >= 1
    ensures RepoParse(RepoFormat(units, d), d) == Ok(units)
  {
    hide Value, Pow10, IsDigit, Zeros, Split, ToString, PadStart, RepoParse, ParseDecimalToUnits, Trim, IsSpace;
    ParseFormat(units, d);
    ParsersDiffer(RepoFormat(units, d), d);
    var s := RepoFormat(units, d);
    ToStringIs(units / Pow10(d));
    ToStringIs(units % Pow10(d));
    PaddedDigits(ToString(units % Pow10(d)), d);
    DigitEnds(ToString(units / Pow10(d)), PadStart(ToString(units % Pow10(d)), d));
    TrimKeeps(s);
  }

  lemma DigitsTrim(s: string)
    requires Digits(s)
    ensures Trim(s) == s && ToBigInt(s) == Ok(Value(s))
  {
  }

  lemma GrainsPerPrl()
    ensures Pow10(8) == 100_000_000
  {
    assert Pow10(4) == 10_000;
  }

  lemma DottedGrains(w: string, f: string)
    requires w != "" && Digits(w) && Digits(f)
    ensures |Zeros(8)| == 8 && Digits((f + Zeros(8))[..8])
    ensures ValueToGrains(w + "." + f) == Ok(Value(w) * Pow10(8) + Value((f + Zeros(8))[..8]))
  {
    hide Value, Pow10, Split, Zeros, ToBigInt, IsDigit;
    SplitAtDot(w, f);
    SplitDigits(f);
    ZerosAre(8);
    DigitsTrim(w);
    DigitsTrim((f + Zeros(8))[..8]);
  }

  lemma CutDigits(f: string)
    requires Digits(f)
    ensures |Zeros(8)| == 8 && Digits((f + Zeros(8))[..8]) && Digits((f + Zeros(8))[8..])
    ensures var kept, cut := (f + Zeros(8))[..8], (f + Zeros(8))[8..];
      Value(kept) * Pow10(|f|) + Value(cut) == Value(f) * Pow10(8) && Value(cut) < Pow10(|f|)
  {
    hide Value, Pow10, Zeros, IsDigit;
    ZerosAre(8);
    var all := f + Zeros(8);
    assert all == all[..8] + all[8..];
    ValueAppends(all[..8], all[8..]);
    ValueAppends(f, Zeros(8));
    ValueBelow(all[8..]);
  }

  /** On plain decimal text of any precision `valueToGrains` rounds down to grains. */
  lemma ValueToGrainsFloors(w: string, f: string)
    requires w != "" && Digits(w) && Digits(f)
    ensures ValueToGrains(w + "." + f).Ok? && Pow10(8) == 100_000_000
    ensures var u := ValueToGrains(w + "." + f).value;
      u * Pow10(|f|) <= (Value(w) * Pow10(|f|) + Value(f)) * Pow10(8) < (u + 1) * Pow10(|f|)
  {
    hide Value, Pow10, Zeros, Digits, ValueToGrains;
    GrainsPerPrl();
    DottedGrains(w, f);
    CutDigits(f);
    var all := f + Zeros(8);
    Scaled(Value(w), Value(all[..8]), Value(all[8..]), Value(f), Pow10(|f|), Pow10(8));
  }

  lemma Scaled(w: nat, kept: nat, cut: nat, f: nat, p: nat, q: nat)
    requires kept * p + cut == f * q && cut < p
    ensures (w * q + kept) * p <= (w * p + f) * q < (w * q + kept + 1) * p
  {
    assert (w * p + f) * q == w * p * q + kept * p + cut;
    assert (w * q + kept) * p == w * p * q + kept * p;
    assert (w * q + kept + 1) * p == w * p * q + kept * p + p;
  }

  /** On untrimmed input the SDK accepts at 8 decimals, the indexer counts the same grains. */
  lemma ValueToGrainsAgrees(s: string)
    requires Trim(s) == s && ParseDecimalToUnits(s, 8).Ok?
    ensures ValueToGrains(s) == ParseDecimalToUnits(s, 8)
  {
    hide Value, Pow10, Split, Zeros, ToBigInt, IsDigit, Digits, PadEnd, Trim, ParseDecimalToUnits;
    ParseIs(s, 8);
    var parts := Split(s);
    PaddedAlike(Fraction(parts), 8);
    PaddedDigits(Fraction(parts), 8);
    DigitsTrim(parts[0]);
    DigitsTrim(PadEnd(Fraction(parts), 8));
  }
}
