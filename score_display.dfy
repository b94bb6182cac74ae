/**
 * The score read-out: a number is drawn as a row of digit images, least-significant
 * digit at the right, padded with zeros on the left; the current score blinks for a
 * while after every hundredth point, and a best score is shown behind the letters "HI".
 */
module ScoreDisplay {
  import opened Sprites

  datatype Image = DigitImage(digit: int) | LetterImage(letter: char)

  /** One image drawn with its top-left corner at (x, y). */
  datatype Glyph = Glyph(image: Image, x: int, y: int)

  /** The width of the digits field: scores are padded to five digits. */
  const Pad: int := 5

  /** The decimal digits of n, least-significant first; none when n <= 0. */
  function Digits(n: int): (ds: seq<int>)
    ensures ds == [] <==> n <= 0
    ensures forall i :: 0 <= i < |ds| ==> 0 <= ds[i] < 10
    ensures n > 0 ==> ds[|ds| - 1] != 0
    decreases n
  {
    if n <= 0 then [] else [n % 10] + Digits(n / 10)
  }

  /** The number a row of digits stands for, least-significant first. */
  function Value(ds: seq<int>): int {
    if ds == [] then 0 else ds[0] + 10 * Value(ds[1..])
  }

  /** Reading the digits back gives the number. */
  lemma {:induction false} DigitsValue(n: int)
    requires n >= 0
    ensures Value(Digits(n)) == n
  {
    if n > 0 {
      DigitsValue(n / 10);
      assert Digits(n)[1..] == Digits(n / 10);
    }
  }

  /** Every digit row without a leading zero is the decimal form of its value. */
  lemma {:induction false} ValueDigits(ds: seq<int>)
    requires forall i :: 0 <= i < |ds| ==> 0 <= ds[i] < 10
    requires ds != [] ==> ds[|ds| - 1] != 0
    ensures Digits(Value(ds)) == ds
  {
    if ds != [] {
      var rest := ds[1..];
      ValueDigits(rest);
      ValuePositive(rest);
      var v := Value(ds);
      assert v == ds[0] + 10 * Value(rest);
      assert v > 0;
      assert v % 10 == ds[0] && v / 10 == Value(rest);
      assert Digits(v) == [ds[0]] + Digits(Value(rest));
    }
  }

  lemma {:induction false} ValuePositive(ds: seq<int>)
    requires forall i :: 0 <= i < |ds| ==> 0 <= ds[i] < 10
    requires ds != [] ==> ds[|ds| - 1] != 0
    ensures ds == [] ==> Value(ds) == 0
    ensures ds != [] ==> Value(ds) > 0
  {
    if ds != [] {
      ValuePositive(ds[1..]);
    }
  }

  /** Zeros on the most-significant side do not change the value. */
  lemma {:induction false} ValueZeroPadded(ds: seq<int>, zeros: nat)
    ensures Value(ds + Zeros(zeros)) == Value(ds)
  {
    if ds == [] {
      assert ds + Zeros(zeros) == Zeros(zeros);
      ValueZeros(zeros);
    } else {
      assert (ds + Zeros(zeros))[1..] == ds[1..] + Zeros(zeros);
      ValueZeroPadded(ds[1..], zeros);
    }
  }

  lemma {:induction false} ValueZeros(zeros: nat)
    ensures Value(Zeros(zeros)) == 0
  {
    if zeros > 0 {
      assert Zeros(zeros)[1..] == Zeros(zeros - 1);
      ValueZeros(zeros - 1);
    }
  }

  function Zeros(n: nat): seq<int> {
    seq(n, _ => 0)
  }

  /** std::max on ints, as the best score and the image count use it (Geometry.Max is
      the same on reals). */
  function MaxInt(a: int, b: int): int {
    if a < b then b else a
  }

  /** The x of the k-th image of a number drawn at offset: one digit width per step leftwards. */
  function Column(screenWidth: int, offset: int, k: int, width: int): int
    decreases k
  {
    if k <= 0 then screenWidth - offset else Column(screenWidth, offset, k - 1, width) - width
  }

  lemma ColumnStep(screenWidth: int, offset: int, k: int, width: int)
    requires k >= 0
    ensures Column(screenWidth, offset, k + 1, width) == Column(screenWidth, offset, k, width) - width
  {
  }

  /** In closed form, the k-th image is k digit widths left of screenWidth - offset. */
  lemma {:induction false} ColumnClosedForm(screenWidth: int, offset: int, k: int, width: int)
    requires k >= 0
    ensures Column(screenWidth, offset, k, width) == screenWidth - offset - k * width
  {
    if k > 0 {
      ColumnClosedForm(screenWidth, offset, k - 1, width);
    }
  }

  /** The k-th image of a number whose digits are ds: a digit, or a padding zero. */
  function DigitGlyph(ds: seq<int>, k: int, offset: int, screenWidth: int, digit: Size): Glyph {
    Glyph(DigitImage(if 0 <= k < |ds| then ds[k] else 0),
          Column(screenWidth, offset, k, digit.width), digit.height / 2)
  }

  /**
   * What drawNumber draws: the digits of num, least-significant first, at
   * x = screenWidth - offset - k * digit width for the k-th image, then zeros until
   * pad images are drawn; all on the row y = digit height / 2.
   */
  function NumberGlyphs(num: int, offset: int, pad: int, screenWidth: int, digit: Size): seq<Glyph> {
    var ds := Digits(num);
    GlyphRow(ds, MaxInt(|ds|, pad), offset, screenWidth, digit)
  }

  /** The first n images of a number whose digits are ds. */
  function GlyphRow(ds: seq<int>, n: int, offset: int, screenWidth: int, digit: Size): seq<Glyph> {
    seq(MaxInt(n, 0), k => DigitGlyph(ds, k, offset, screenWidth, digit))
  }

  lemma GlyphRowStep(ds: seq<int>, n: nat, offset: int, screenWidth: int, digit: Size)
    ensures GlyphRow(ds, n + 1, offset, screenWidth, digit)
            == GlyphRow(ds, n, offset, screenWidth, digit) + [DigitGlyph(ds, n, offset, screenWidth, digit)]
  {
  }

  /** Peeling the next digit off n: it is the next entry of the digit row. */
  lemma DigitsSuffix(ds: seq<int>, count: nat, n: int)
    requires count <= |ds| && ds[count..] == Digits(n) && n > 0
    ensures count < |ds| && ds[count] == n % 10 && ds[count + 1..] == Digits(n / 10)
  {
    assert Digits(n) == [n % 10] + Digits(n / 10);
    assert ds[count + 1..] == ds[count..][1..];
  }

  /** The digits shown by a row of glyphs, in drawing order. */
  function Shown(gs: seq<Glyph>): seq<int> {
    seq(|gs|, k requires 0 <= k < |gs| => if gs[k].image.DigitImage? then gs[k].image.digit else 0)
  }

  /**
   * The drawn row holds max(number of digits, pad) images and reads back as num
   * (as 0 when num <= 0).
   */
  lemma NumberReadsBack(num: int, offset: int, pad: int, screenWidth: int, digit: Size)
    ensures |NumberGlyphs(num, offset, pad, screenWidth, digit)| == MaxInt(|Digits(num)|, pad)
    ensures Value(Shown(NumberGlyphs(num, offset, pad, screenWidth, digit))) == MaxInt(num, 0)
  {
    var ds := Digits(num);
    var gs := NumberGlyphs(num, offset, pad, screenWidth, digit);
    var zeros := MaxInt(|ds|, pad) - |ds|;
    assert Shown(gs) == ds + Zeros(zeros);
    ValueZeroPadded(ds, zeros);
    if num >= 0 {
      DigitsValue(num);
    }
  }

  /** The images sit one digit width apart, right to left, the first at screenWidth - offset. */
  lemma NumberRightAligned(num: int, offset: int, pad: int, screenWidth: int, digit: Size)
    ensures var gs := NumberGlyphs(num, offset, pad, screenWidth, digit);
            forall k :: 0 <= k < |gs| ==> gs[k].x == screenWidth - offset - k * digit.width
  {
    var gs := NumberGlyphs(num, offset, pad, screenWidth, digit);
    forall k | 0 <= k < |gs|
      ensures gs[k].x == screenWidth - offset - k * digit.width
    {
      ColumnClosedForm(screenWidth, offset, k, digit.width);
    }
  }

  /** For num <= 0 exactly pad zeros are drawn (none when pad <= 0). */
  lemma NonPositiveDrawsZeros(num: int, offset: int, pad: int, screenWidth: int, digit: Size)
    requires num <= 0
    ensures |NumberGlyphs(num, offset, pad, screenWidth, digit)| == MaxInt(pad, 0)
    ensures forall k :: 0 <= k < |NumberGlyphs(num, offset, pad, screenWidth, digit)| ==>
              NumberGlyphs(num, offset, pad, screenWidth, digit)[k].image == DigitImage(0)
  {
  }

  /** drawNumber: the digit loop followed by the padding loop. */
  method DrawNumber(num: int, offset: int, pad: int, screenWidth: int, digit: Size) returns (drawn: seq<Glyph>)
    ensures drawn == NumberGlyphs(num, offset, pad, screenWidth, digit)
  {
    var count, addedOffset;
    drawn, count, addedOffset := DrawDigits(num, offset, screenWidth, digit);
    drawn := DrawPadding(drawn, Digits(num), count, addedOffset, offset, pad, screenWidth, digit);
  }

  /** The digit loop of drawNumber: one image per decimal digit, moving left. */
  method DrawDigits(num: int, offset: int, screenWidth: int, digit: Size)
    returns (drawn: seq<Glyph>, count: nat, addedOffset: int)
    ensures count == |Digits(num)|
    ensures screenWidth - offset - addedOffset == Column(screenWidth, offset, count, digit.width)
    ensures drawn == GlyphRow(Digits(num), count, offset, screenWidth, digit)
  {
    ghost var ds := Digits(num);
    var n := num;
    addedOffset, count := 0, 0;
    drawn := [];
    while n > 0
      invariant DigitsDrawn(ds, count, n, drawn, addedOffset, offset, screenWidth, digit)
    {
      DigitStep(ds, count, n, drawn, addedOffset, offset, screenWidth, digit);
      var d := n % 10;
      n := n / 10;
      drawn := drawn + [Glyph(DigitImage(d), screenWidth - offset - addedOffset, digit.height / 2)];
      addedOffset := addedOffset + digit.width;
      count := count + 1;
    }
    DigitsDone(ds, count, n);
  }

  /**
   * The digit loop's invariant: the digits still to draw are those of n, and the first
   * count images are drawn, the next one going at the column addedOffset gives.
   */
  ghost predicate DigitsDrawn(ds: seq<int>, count: int, n: int, drawn: seq<Glyph>, addedOffset: int,
                              offset: int, screenWidth: int, digit: Size)
  {
    0 <= count <= |ds| && Digits(n) == ds[count..]
    && screenWidth - offset - addedOffset == Column(screenWidth, offset, count, digit.width)
    && drawn == GlyphRow(ds, count, offset, screenWidth, digit)
  }

  /** One pass of the digit loop keeps its invariant. */
  lemma DigitStep(ds: seq<int>, count: nat, n: int, drawn: seq<Glyph>, addedOffset: int,
                  offset: int, screenWidth: int, digit: Size)
    requires DigitsDrawn(ds, count, n, drawn, addedOffset, offset, screenWidth, digit) && n > 0
    ensures DigitsDrawn(ds, count + 1, n / 10,
                        drawn + [Glyph(DigitImage(n % 10), screenWidth - offset - addedOffset, digit.height / 2)],
                        addedOffset + digit.width, offset, screenWidth, digit)
  {
    DigitsSuffix(ds, count, n);
    GlyphRowStep(ds, count, offset, screenWidth, digit);
    ColumnStep(screenWidth, offset, count, digit.width);
  }

  /** Once n is used up, every digit has been drawn. */
  lemma DigitsDone(ds: seq<int>, count: int, n: int)
    requires 0 <= count <= |ds| && Digits(n) == ds[count..] && n <= 0
    ensures count == |ds|
  {
  }

  /** The padding loop of drawNumber: zeros until pad images are drawn. */
  method DrawPadding(row: seq<Glyph>, ghost ds: seq<int>, count: nat, addedOffset0: int,
                     offset: int, pad: int, screenWidth: int, digit: Size) returns (drawn: seq<Glyph>)
    requires count == |ds|
    requires screenWidth - offset - addedOffset0 == Column(screenWidth, offset, count, digit.width)
    requires row == GlyphRow(ds, count, offset, screenWidth, digit)
    ensures drawn == GlyphRow(ds, MaxInt(count, pad), offset, screenWidth, digit)
  {
    drawn := row;
    var addedOffset := addedOffset0;
    var i := 0;
    while i < pad - count
      invariant 0 <= i && (i <= pad - count || i == 0)
      invariant screenWidth - offset - addedOffset == Column(screenWidth, offset, count + i, digit.width)
      invariant drawn == GlyphRow(ds, count + i, offset, screenWidth, digit)
    {
      GlyphRowStep(ds, count + i, offset, screenWidth, digit);
      drawn := drawn + [Glyph(DigitImage(0), screenWidth - offset - addedOffset, digit.height / 2)];
      ColumnStep(screenWidth, offset, count + i, digit.width);
      addedOffset := addedOffset + digit.width;
      i := i + 1;
    }
  }

  /** The value shown while the score blinks: the hundred just reached. */
  function CenturyValue(score: int): (v: int)
    requires score >= 0
    ensures v % 100 == 0 && 0 <= v <= score < v + 100
  {
    score / 100 * 100
  }

  /** While blinking, the score is drawn when (int)(scoreTimer * 3) is even. */
  predicate BlinkVisible(scoreTimer: real)
    requires scoreTimer >= 0.0
  {
    (scoreTimer * 3.0).Floor % 2 == 0
  }

  /** The blink alternates every third of a second, starting visible. */
  lemma BlinkPhase(scoreTimer: real, k: nat)
    requires k as real <= scoreTimer * 3.0 < (k + 1) as real
    ensures BlinkVisible(scoreTimer) <==> k % 2 == 0
  {
    assert (scoreTimer * 3.0).Floor == k;
  }

  /**
   * The whole read-out: the current score (or, while blinking, its hundred, and only
   * in the visible phase) right of offset 2 digits, then, once a best score exists,
   * the best score six digits further left and the letters "I" and "H" before it.
   */
  function Scoreboard(score: int, maxScore: int, blinking: bool, scoreTimer: real,
                      screenWidth: int, digit: Size): seq<Glyph>
    requires score >= 0 && scoreTimer >= 0.0
  {
    var offset := 2 * digit.width;
    var current :=
      if blinking then
        (if BlinkVisible(scoreTimer) then NumberGlyphs(CenturyValue(score), offset, Pad, screenWidth, digit) else [])
      else NumberGlyphs(score, offset, Pad, screenWidth, digit);
    var best :=
      if maxScore > 0 then
        NumberGlyphs(maxScore, offset + 6 * digit.width, Pad, screenWidth, digit)
        + [Glyph(LetterImage('I'), screenWidth - (offset + 12 * digit.width), digit.height / 2),
           Glyph(LetterImage('H'), screenWidth - (offset + 13 * digit.width), digit.height / 2)]
      else [];
    current + best
  }
}
