/** Which fields of a powermetrics row are numbers, and that rows of decimal numbers are recovered. */
module NumericFields {
  import opened Text
  import opened Columns
  import opened ColumnFacts

  // ----- decimal texts -----

  predicate Digits(s: string) {
    forall i | 0 <= i < |s| :: s[i] in "0123456789"
  }

  /** An optional sign, digits, an optional point with digits, an optional exponent. */
  datatype Decimal = Decimal(sign: string, whole: string, fraction: string, exponent: string)

  predicate IsSign(s: string) {
    s == "" || s == "+" || s == "-"
  }

  predicate IsDecimal(d: Decimal) {
    && IsSign(d.sign) && d.whole != "" && Digits(d.whole)
    && (d.fraction == "" || (d.fraction[0] == '.' && Digits(d.fraction[1..])))
    && (d.exponent == "" ||
        (d.exponent[0] in "eE" && exists k | 1 <= k < |d.exponent| ::
           IsSign(d.exponent[1..k]) && Digits(d.exponent[k..])))
  }

  function DecimalText(d: Decimal): string {
    d.sign + d.whole + d.fraction + d.exponent
  }

  ghost predicate IsDecimalText(s: string) {
    exists d: Decimal :: IsDecimal(d) && s == DecimalText(d)
  }

  // ----- numbers and other words -----

  predicate NumberChars(s: string) {
    forall i | 0 <= i < |s| :: s[i] in "0123456789.+-eE"
  }

  /** A word that is no number: it has another character, or no digit. */
  predicate Foreign(word: string) {
    !NumberChars(word) || forall i | 0 <= i < |word| :: word[i] !in "0123456789"
  }

  lemma CharsAre(c: char)
    ensures IsNumericChar(c) <==> c in "0123456789.+-eE"
    ensures IsDigit(c) <==> c in "0123456789"
  {
    CharacterClasses(c);
  }

  /** Of words without blanks exactly the foreign ones are no numeric fields. */
  lemma NumericIffNotForeign(word: string)
    requires IsToken(word)
    ensures IsNumericField(word) <==> !Foreign(word)
  {
    TokenIsTrimmed(word);
    TrimTrims(word);
    hide Trim, IsNumericChar, IsDigit;
    forall i | 0 <= i < |word|
      ensures IsNumericChar(word[i]) <==> word[i] in "0123456789.+-eE"
      ensures IsDigit(word[i]) <==> word[i] in "0123456789"
    {
      CharsAre(word[i]);
    }
  }

  lemma TokenIsTrimmed(word: string)
    requires IsToken(word)
    ensures Trimmed(word)
  {
  }

  /** A field is split exactly when it has two words or more and none of them is foreign. */
  lemma SplitIffNumbers(field: string)
    ensures Splittable(field) <==> |Words(field)| >= 2 && forall w | w in Words(field) :: !Foreign(w)
  {
    WordsAreTokens(field);
    hide Words, IsNumericField, Foreign, IsToken;
    var words := Words(field);
    forall i | 0 <= i < |words|
      ensures IsNumericField(words[i]) <==> !Foreign(words[i])
    {
      NumericIffNotForeign(words[i]);
    }
  }

  lemma DecimalChars(d: Decimal)
    requires IsDecimal(d)
    ensures var s := DecimalText(d); NumberChars(s) && s != "" && s[|d.sign|] in "0123456789" && |d.sign| < |s|
  {
    NumberPart(d.sign, d.whole);
    NumberPart(d.sign + d.whole, d.fraction);
    NumberPart(d.sign + d.whole + d.fraction, d.exponent);
    assert NumberChars(d.sign);
    assert NumberChars(d.whole);
    FractionChars(d.fraction);
    ExponentChars(d.exponent);
    assert DecimalText(d)[|d.sign|] == d.whole[0];
  }

  lemma NumberPart(a: string, b: string)
    ensures NumberChars(a) && NumberChars(b) ==> NumberChars(a + b)
  {
  }

  lemma FractionChars(s: string)
    requires s == "" || (s[0] == '.' && Digits(s[1..]))
    ensures NumberChars(s)
  {
    assert forall i | 1 <= i < |s| :: s[i] == s[1..][i - 1];
  }

  lemma ExponentChars(s: string)
    requires s == "" || (s[0] in "eE" && exists k | 1 <= k < |s| :: IsSign(s[1..k]) && Digits(s[k..]))
    ensures NumberChars(s)
  {
    if s != "" {
      var k :| 1 <= k < |s| && IsSign(s[1..k]) && Digits(s[k..]);
      assert forall i | 1 <= i < k :: s[i] == s[1..k][i - 1];
      assert forall i | k <= i < |s| :: s[i] == s[k..][i - k];
    }
  }

  /** Every decimal text is one word and a number. */
  lemma DecimalIsNumber(s: string)
    requires IsDecimalText(s)
    ensures NumericToken(s) && !Foreign(s)
  {
    var d: Decimal :| IsDecimal(d) && s == DecimalText(d);
    DecimalChars(d);
    hide IsDecimal, DecimalText;
    NumbersAreTokens(s, |d.sign|);
  }

  lemma NumbersAreTokens(s: string, k: nat)
    requires NumberChars(s) && k < |s| && s[k] in "0123456789"
    ensures NumericToken(s) && !Foreign(s)
  {
    forall i | 0 <= i < |s|
      ensures !IsSpace(s[i])
    {
      NoSpaceInNumber(s[i]);
    }
    assert IsToken(s);
    NumericIffNotForeign(s);
    hide IsNumericField, NumberChars, IsToken;
  }

  lemma NoSpaceInNumber(c: char)
    requires c in "0123456789.+-eE"
    ensures !IsSpace(c)
  {
  }

  /** Digits, a point and digits are a decimal text. */
  lemma PointIsDecimal(whole: string, fraction: string)
    requires whole != "" && Digits(whole) && Digits(fraction)
    ensures IsDecimalText(whole + "." + fraction)
  {
    var d := Decimal("", whole, "." + fraction, "");
    assert ("." + fraction)[1..] == fraction;
    assert DecimalText(d) == whole + "." + fraction;
  }

  // ----- rows -----

  /** One-space gaps stand only between decimal texts, and every column with more words has a foreign one. */
  ghost predicate DecimalRow(columns: seq<string>, gaps: seq<nat>)
    requires |columns| == |gaps| + 1
  {
    && (forall i | 0 <= i < |gaps| :: gaps[i] == 1 ==> IsDecimalText(columns[i]) && IsDecimalText(columns[i + 1]))
    && (forall i | 0 <= i < |columns| ::
          |Words(columns[i])| < 2 || exists w :: w in Words(columns[i]) && Foreign(w))
  }

  /** Main result: rows of decimal numbers merged by single spaces are recovered exactly. */
  lemma DecimalRowsAreRecovered(columns: seq<string>, gaps: seq<nat>)
    requires IsRow(columns, gaps) && DecimalRow(columns, gaps)
    ensures Repair(TrimAll(Split(Line(columns, gaps))), |columns|) == columns
  {
    hide IsDecimalText, Words, NumericToken, Foreign, Splittable;
    forall i | 0 <= i < |gaps| && gaps[i] == 1
      ensures NumericToken(columns[i]) && NumericToken(columns[i + 1])
    {
      DecimalIsNumber(columns[i]);
      DecimalIsNumber(columns[i + 1]);
    }
    forall i | 0 <= i < |columns|
      ensures !Splittable(columns[i])
    {
      SplitIffNumbers(columns[i]);
    }
    RecoveryYieldsColumns(columns, gaps);
  }
}
