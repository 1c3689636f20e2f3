/** The bitmap text renderer (text.h): a font of 94 glyphs of 8x8 dots, for
    the characters 32 to 125, and a styling whose colour inks the set dots.
    getLine renders one string as an 8-pixel-high strip; getText breaks a
    message into words at single spaces, cuts words longer than the maximum
    line width into pieces, measures the image in 8-pixel cells, and copies
    each piece's strip into it, starting a new line when the next piece would
    reach the maximum width.

    Loading the font image is not part of this model: the constructor takes
    the glyph table. */
module Typography {
  import opened CppInt
  import opened CppString
  import Display

  /** A BGRA pixel (cv::Vec4b). */
  datatype Bgra = Bgra(b: Byte, g: Byte, r: Byte, a: Byte)

  /** The all-zero pixel: unset glyph dots and the background of getText. */
  const CLEAR: Bgra := Bgra(0, 0, 0, 0)

  const GLYPH_COUNT: int := 94
  const FIRST_GLYPH: int := 32
  /** Glyphs and text lines are 8 pixels square per character. */
  const CELL: int := 8

  datatype Styling = Styling(red: int, green: int, blue: int, alpha: int, fontSize: real, maxCharWidth: int)

  /** The styling the constructor sets: opaque white, scale 1, 128 characters a line. */
  const DEFAULT_STYLING: Styling := Styling(255, 255, 255, 255, 1.0, 128)

  /** The colour of set dots (each int channel narrowed to a uchar). */
  function Ink(st: Styling): Bgra
  {
    Bgra(ToByte(st.blue), ToByte(st.green), ToByte(st.red), ToByte(st.alpha))
  }

  /** Every character has a glyph: its code is in 32..125. */
  predicate Printable(s: string)
  {
    forall i :: 0 <= i < |s| ==> FIRST_GLYPH <= s[i] as int < FIRST_GLYPH + GLYPH_COUNT
  }

  // ---------------------------------------------------------------------------
  // getText, first loop: breaking the message into pieces and measuring

  /** What getText's do-while carries from one word to the next: the pieces
      pushed to wordList and the counters xDim, yDim and curr_x, in cells. */
  datatype Measure = Measure(pieces: seq<string>, xDim: int, yDim: int, currX: int)

  /** The counters' initial values: no pieces, width 0, one line. */
  const START: Measure := Measure([], 0, 1, 0)

  /** The pieces getText's inner while cuts off a word longer than m: its
      first m characters, then, skipping the character after them, the same
      on the rest. */
  function Cuts(word: string, m: nat): seq<string>
    decreases |word|
  {
    if |word| > m then [word[..m]] + Cuts(word[m + 1..], m) else []
  }

  /** What is left of the word when the inner while stops. */
  function Leftover(word: string, m: nat): string
    decreases |word|
  {
    if |word| > m then Leftover(word[m + 1..], m) else word
  }

  /** The inner while on the counters: each cut is pushed as a line of its
      own, the width becomes m and the current line is empty. */
  function Chop(st: Measure, word: string, m: nat): Measure
  {
    var cuts := Cuts(word, m);
    if cuts == [] then st else Measure(st.pieces + cuts, m, st.yDim + |cuts|, 0)
  }

  /** The rest of one iteration: push what is left of the word, start a new
      line if it would reach the width m, then advance past it (and past the
      space when one follows). */
  function Advance(st: Measure, word: string, m: nat, spaceFollows: bool): Measure
  {
    var wrap := st.currX + |word| >= m;
    var x := (if wrap then 0 else st.currX) + |word| + (if spaceFollows then 1 else 0);
    Measure(st.pieces + [word], if x > st.xDim then x else st.xDim, if wrap then st.yDim + 1 else st.yDim, x)
  }

  /** One pass of the do-while on the word `word`. */
  function Step(st: Measure, word: string, m: nat, spaceFollows: bool): Measure
  {
    Advance(Chop(st, word, m), Leftover(word, m), m, spaceFollows)
  }

  /** The do-while from the given state on the remaining text. */
  function MeasureFrom(text: string, m: nat, st: Measure): Measure
    decreases |text|
  {
    var d := Find(text, " ");
    if d > -1 then MeasureFrom(text[d + 1..], m, Step(st, text[..d], m, true))
    else Step(st, text, m, false)
  }

  /** One pass of the do-while, then the rest of the text. */
  lemma MeasureFromUnfold(text: string, m: nat, st: Measure)
    ensures Find(text, " ") > -1 ==> MeasureFrom(text, m, st) == MeasureFrom(text[Find(text, " ") + 1..], m, Step(st, text[..Find(text, " ")], m, true))
    ensures Find(text, " ") == -1 ==> MeasureFrom(text, m, st) == Step(st, text, m, false)
  {
  }

  /** The whole first loop of getText. */
  function Measured(text: string, m: nat): Measure
  {
    MeasureFrom(text, m, START)
  }

  /** The counters never go below their initial values and every piece fits a line. */
  predicate Sane(st: Measure, m: nat)
  {
    && st.xDim >= 0 && st.yDim >= 1 && st.currX >= 0
    && forall k :: 0 <= k < |st.pieces| ==> |st.pieces[k]| <= m
  }

  /** The cuts are exactly m characters long, and what is left has at most
      m characters and is the end of the word after the last dropped one. */
  lemma {:induction false} CutsShape(word: string, m: nat)
    ensures forall i :: 0 <= i < |Cuts(word, m)| ==> |Cuts(word, m)[i]| == m
    ensures |Cuts(word, m)| * (m + 1) <= |word|
    ensures Leftover(word, m) == word[|Cuts(word, m)| * (m + 1)..] && |Leftover(word, m)| <= m
    decreases |word|
  {
    if |word| > m {
      var w := word[m + 1..];
      CutsShape(w, m);
      assert forall i :: 0 < i < |Cuts(word, m)| ==> Cuts(word, m)[i] == Cuts(w, m)[i - 1];
      var n := |Cuts(word, m)|;
      NextMultiple(n, m + 1);
      var off := (n - 1) * (m + 1);
      assert Leftover(w, m) == w[off..] == word[m + 1 + off..];
    }
  }

  /** piece is the i-th block of m characters of word, the blocks starting
      m + 1 apart. */
  predicate CutAt(word: string, m: nat, i: int, piece: string)
  {
    0 <= i * (m + 1) && i * (m + 1) + m <= |word| && piece == word[i * (m + 1)..i * (m + 1) + m]
  }

  /** The i-th cut starts i * (m + 1) characters into the word: the character
      after each cut is dropped and nothing else is. */
  lemma {:induction false} CutsPositions(word: string, m: nat)
    ensures forall i :: 0 <= i < |Cuts(word, m)| ==> CutAt(word, m, i, Cuts(word, m)[i])
    decreases |word|
  {
    if |word| > m {
      var w := word[m + 1..];
      CutsPositions(w, m);
      forall i | 0 <= i < |Cuts(word, m)|
        ensures CutAt(word, m, i, Cuts(word, m)[i])
      {
        if i > 0 {
          NextMultiple(i, m + 1);
          var o := (i - 1) * (m + 1);
          assert CutAt(w, m, i - 1, Cuts(w, m)[i - 1]);
          assert Cuts(word, m)[i] == Cuts(w, m)[i - 1] == w[o..o + m] == word[m + 1 + o..m + 1 + o + m];
        }
      }
    }
  }

  /** One more multiple of c is c further on. */
  lemma NextMultiple(i: int, c: int)
    ensures (i - 1) * c + c == i * c
  {
  }

  /** One pass keeps the counters sane and pushes at least one piece. */
  lemma StepSane(st: Measure, word: string, m: nat, spaceFollows: bool)
    requires Sane(st, m)
    ensures Sane(Step(st, word, m, spaceFollows), m)
    ensures |Step(st, word, m, spaceFollows).pieces| > |st.pieces|
  {
    CutsShape(word, m);
    var st1 := Chop(st, word, m);
    forall k | 0 <= k < |st1.pieces|
      ensures |st1.pieces[k]| <= m
    {
      if k >= |st.pieces| {
        assert st1.pieces[k] == Cuts(word, m)[k - |st.pieces|];
      }
    }
  }

  /** The first loop of getText keeps every piece within the maximum line
      width, the width non-negative and the height at least one line, so the
      image is at least 8 pixels high and both sides are multiples of 8. */
  lemma {:induction false} MeasureFromSane(text: string, m: nat, st: Measure)
    requires Sane(st, m)
    ensures Sane(MeasureFrom(text, m, st), m)
    ensures |MeasureFrom(text, m, st).pieces| > |st.pieces|
    decreases |text|
  {
    var d := Find(text, " ");
    if d > -1 {
      StepSane(st, text[..d], m, true);
      MeasureFromSane(text[d + 1..], m, Step(st, text[..d], m, true));
    } else {
      StepSane(st, text, m, false);
    }
  }

  /** A word no longer than m is pushed whole, as the one piece of its pass. */
  lemma StepShortWord(st: Measure, word: string, m: nat, spaceFollows: bool)
    requires |word| <= m
    ensures Step(st, word, m, spaceFollows).pieces == st.pieces + [word]
  {
    assert Cuts(word, m) == [] && Leftover(word, m) == word;
  }

  /** The do-while over a list of words: every word but the last is followed
      by a space. */
  function Steps(st: Measure, words: seq<string>, m: nat): Measure
    requires |words| >= 1
    decreases |words|
  {
    if |words| == 1 then Step(st, words[0], m, false)
    else Steps(Step(st, words[0], m, true), words[1..], m)
  }

  /** The first loop of getText visits exactly the words between single
      spaces, in order, the last one without a following space. */
  lemma {:induction false} MeasureFromSplit(text: string, m: nat, st: Measure)
    ensures |Split(text, " ")| >= 1
    ensures MeasureFrom(text, m, st) == Steps(st, Split(text, " "), m)
    decreases |text|
  {
    var d := Find(text, " ");
    if d > -1 {
      var ws := Split(text[d + 1..], " ");
      assert Split(text, " ") == [text[..d]] + ws;
      MeasureFromSplit(text[d + 1..], m, Step(st, text[..d], m, true));
      assert ([text[..d]] + ws)[1..] == ws;
    } else {
      assert Split(text, " ") == [text];
    }
  }

  /** Over words no longer than m the pieces are exactly the words. */
  lemma {:induction false} StepsShortWords(st: Measure, words: seq<string>, m: nat)
    requires |words| >= 1 && forall k :: 0 <= k < |words| ==> |words[k]| <= m
    ensures Steps(st, words, m).pieces == st.pieces + words
    decreases |words|
  {
    if |words| == 1 {
      StepShortWord(st, words[0], m, false);
    } else {
      StepShortWord(st, words[0], m, true);
      StepsShortWords(Step(st, words[0], m, true), words[1..], m);
      assert st.pieces + [words[0]] + words[1..] == st.pieces + words;
    }
  }

  /** When no word is longer than the maximum width, the pieces are exactly
      the words between single spaces, in order. */
  lemma MeasureFromWords(text: string, m: nat, st: Measure)
    requires forall k :: 0 <= k < |Split(text, " ")| ==> |Split(text, " ")[k]| <= m
    ensures MeasureFrom(text, m, st).pieces == st.pieces + Split(text, " ")
  {
    MeasureFromSplit(text, m, st);
    StepsShortWords(st, Split(text, " "), m);
  }

  // ---------------------------------------------------------------------------
  // getText, second loop: placing the pieces

  /** Where getText's copy loop puts each piece, continuing from offsets
      (xOff, yOff): a piece after the start of a line moves to the next line
      when the line would then reach the maximum width m; each piece is 8
      pixels high and 8 per character wide, and is followed by an 8-pixel gap. */
  function Layout(pieces: seq<string>, m: int, xOff: int, yOff: int): (boxes: seq<Display.Rect>)
    ensures |boxes| == |pieces|
    decreases |pieces|
  {
    if pieces == [] then []
    else
      var cols := CELL * |pieces[0]|;
      var wrap := xOff != 0 && (xOff + cols) / CELL >= m;
      var x := if wrap then 0 else xOff;
      var y := if wrap then yOff + CELL else yOff;
      [Display.Rect(x, y, cols, CELL)] + Layout(pieces[1..], m, x + cols + CELL, y)
  }

  /** A rectangle lies inside a width x height image (cv::Mat's ROI check). */
  predicate Fits(r: Display.Rect, width: int, height: int)
  {
    0 <= r.x && 0 <= r.width && r.x + r.width <= width && 0 <= r.y && 0 <= r.height && r.y + r.height <= height
  }

  predicate AllFit(boxes: seq<Display.Rect>, width: int, height: int)
  {
    forall k :: 0 <= k < |boxes| ==> Fits(boxes[k], width, height)
  }

  /** The smallest image holding every box: the largest right and bottom edges. */
  function Extent(boxes: seq<Display.Rect>): (e: (int, int))
    ensures e.0 >= 0 && e.1 >= 0
    ensures forall k :: 0 <= k < |boxes| ==> boxes[k].x + boxes[k].width <= e.0 && boxes[k].y + boxes[k].height <= e.1
    ensures e.0 == 0 || exists k :: 0 <= k < |boxes| && boxes[k].x + boxes[k].width == e.0
    ensures e.1 == 0 || exists k :: 0 <= k < |boxes| && boxes[k].y + boxes[k].height == e.1
    decreases |boxes|
  {
    if boxes == [] then (0, 0)
    else
      var e := Extent(boxes[1..]);
      var b := boxes[0];
      assert forall k :: 1 <= k < |boxes| ==> boxes[k] == boxes[1..][k - 1];
      (Max(e.0, b.x + b.width), Max(e.1, b.y + b.height))
  }

  /** Every box has a non-negative corner and extent. */
  predicate Anchored(boxes: seq<Display.Rect>)
  {
    forall k :: 0 <= k < |boxes| ==> boxes[k].x >= 0 && boxes[k].y >= 0 && boxes[k].width >= 0 && boxes[k].height >= 0
  }

  lemma {:induction false} LayoutAnchored(pieces: seq<string>, m: int, xOff: nat, yOff: nat)
    ensures Anchored(Layout(pieces, m, xOff, yOff))
    decreases |pieces|
  {
    if pieces != [] {
      var cols := CELL * |pieces[0]|;
      var wrap := xOff != 0 && (xOff + cols) / CELL >= m;
      var x := if wrap then 0 else xOff;
      var y := if wrap then yOff + CELL else yOff;
      LayoutAnchored(pieces[1..], m, x + cols + CELL, y);
      var rest := Layout(pieces[1..], m, x + cols + CELL, y);
      assert forall k :: 1 <= k < |pieces| ==> Layout(pieces, m, xOff, yOff)[k] == rest[k - 1];
    }
  }

  /** An image holds all the boxes exactly when it is at least as wide and as
      high as their extent. */
  lemma FitsIffWithinExtent(boxes: seq<Display.Rect>, width: nat, height: nat)
    requires Anchored(boxes)
    ensures AllFit(boxes, width, height) <==> width >= Extent(boxes).0 && height >= Extent(boxes).1
  {
    var e := Extent(boxes);
    if width >= e.0 && height >= e.1 {
      forall k | 0 <= k < |boxes|
        ensures Fits(boxes[k], width, height)
      {
      }
    }
    if AllFit(boxes, width, height) {
      if e.0 != 0 {
        var k :| 0 <= k < |boxes| && boxes[k].x + boxes[k].width == e.0;
        assert Fits(boxes[k], width, height);
      }
      if e.1 != 0 {
        var k :| 0 <= k < |boxes| && boxes[k].y + boxes[k].height == e.1;
        assert Fits(boxes[k], width, height);
      }
    }
  }

  /** A string without the character c does not contain [c]. */
  lemma FindAbsent(s: string, c: char)
    requires forall i :: 0 <= i < |s| ==> s[i] != c
    ensures Find(s, [c]) == -1
  {
    forall i | 0 <= i <= |s|
      ensures !OccursAt(s, [c], i)
    {
      if i < |s| {
        assert s[i..i + 1][0] == s[i];
      }
    }
  }

  /** The words of "a aaaa". */
  lemma RowsShortWords()
    ensures Split("a aaaa", " ") == ["a", "aaaa"]
  {
    FindAbsent("a", ' ');
    FindAbsent("aaaa", ' ');
    assert Join(["a", "aaaa"], " ") == "a aaaa" by {
      assert ["a", "aaaa"][1..] == ["aaaa"];
    }
    JoinSplit(["a", "aaaa"], " ");
  }

  /** "aaaa" with a maximum width of 2 is cut once, leaving "a". */
  lemma RowsShortCut()
    ensures Cuts("aaaa", 2) == ["aa"] && Leftover("aaaa", 2) == "a"
  {
    var rest := "aaaa";
    assert rest[..2] == "aa" && rest[3..] == "a";
  }

  /** The two passes of the do-while on "a" and "aaaa". */
  lemma RowsShortSteps()
    ensures Steps(START, ["a", "aaaa"], 2) == Measure(["a", "aa", "a"], 2, 2, 1)
  {
    var st1 := Step(START, "a", 2, true);
    assert st1 == Measure(["a"], 2, 1, 2);
    RowsShortCut();
    assert Chop(st1, "aaaa", 2) == Measure(["a", "aa"], 2, 2, 0);
    assert ["a", "aaaa"][1..] == ["aaaa"];
  }

  /** The first pass of getText on "a aaaa" with a maximum width of 2. */
  lemma RowsShortMeasure()
    ensures Measured("a aaaa", 2) == Measure(["a", "aa", "a"], 2, 2, 1)
  {
    RowsShortWords();
    MeasureFromSplit("a aaaa", 2, START);
    RowsShortSteps();
  }

  /** The boxes the copy loop gives those three pieces. */
  lemma RowsShortLayout()
    ensures Layout(["a", "aa", "a"], 2, 0, 0) == [Display.Rect(0, 0, 8, 8), Display.Rect(0, 8, 16, 8), Display.Rect(0, 16, 8, 8)]
  {
    var pieces := ["a", "aa", "a"];
    assert pieces[1..] == ["aa", "a"] && pieces[1..][1..] == ["a"] && pieces[1..][1..][1..] == [];
    assert Layout(["a"], 2, 24, 8) == [Display.Rect(0, 16, 8, 8)];
    assert Layout(["aa", "a"], 2, 16, 0) == [Display.Rect(0, 8, 16, 8), Display.Rect(0, 16, 8, 8)];
  }

  /** As written, the measuring pass can count fewer lines than the copy
      loop uses: with a maximum width of 2, "a aaaa" is measured as two lines
      (the long word is cut into "aa" on a line of its own and a last "a"
      that fits after it), but the copy loop breaks the line before "aa" and
      again before the last "a", whose box starts at row 16 of a 16-row image. */
  lemma GetTextRowsShort()
    ensures Measured("a aaaa", 2) == Measure(["a", "aa", "a"], 2, 2, 1)
    ensures Layout(["a", "aa", "a"], 2, 0, 0)[2] == Display.Rect(0, 16, 8, 8)
    ensures !AllFit(Layout(["a", "aa", "a"], 2, 0, 0), CELL * 2, CELL * 2)
  {
    RowsShortMeasure();
    RowsShortLayout();
    assert !Fits(Display.Rect(0, 16, 8, 8), 16, 16);
  }

  /** Sized to the extent of its layout, the image holds every piece the
      copy loop places, and it is no larger than any image that does. */
  lemma SizedLayoutFits(text: string, m: nat, width: nat, height: nat)
    ensures var boxes := Layout(Measured(text, m).pieces, m, 0, 0);
      && AllFit(boxes, Extent(boxes).0, Extent(boxes).1)
      && (AllFit(boxes, width, height) ==> Extent(boxes).0 <= width && Extent(boxes).1 <= height)
  {
    var boxes := Layout(Measured(text, m).pieces, m, 0, 0);
    LayoutAnchored(Measured(text, m).pieces, m, 0, 0);
    FitsIffWithinExtent(boxes, Extent(boxes).0, Extent(boxes).1);
    FitsIffWithinExtent(boxes, width, height);
  }

  /** The offsets the copy loop carries after placing the first k pieces. */
  function LayoutState(pieces: seq<string>, m: int, k: nat): (xy: (int, int))
    requires k <= |pieces|
    decreases k
  {
    if k == 0 then (0, 0)
    else
      var (xOff, yOff) := LayoutState(pieces, m, k - 1);
      var cols := CELL * |pieces[k - 1]|;
      var wrap := xOff != 0 && (xOff + cols) / CELL >= m;
      ((if wrap then 0 else xOff) + cols + CELL, if wrap then yOff + CELL else yOff)
  }

  /** The k-th box: the carried offsets, moved to the start of the next line
      when the piece would reach the maximum width. */
  lemma LayoutAt(pieces: seq<string>, m: int, k: nat)
    requires k < |pieces|
    ensures var (xOff, yOff) := LayoutState(pieces, m, k); var cols := CELL * |pieces[k]|;
      var wrap := xOff != 0 && (xOff + cols) / CELL >= m;
      Layout(pieces, m, 0, 0)[k] == Display.Rect(if wrap then 0 else xOff, if wrap then yOff + CELL else yOff, cols, CELL)
  {
    LayoutSuffix(pieces, m, k);
    assert Layout(pieces, m, 0, 0)[k] == Layout(pieces, m, 0, 0)[k..][0];
  }

  /** The layout of the remaining pieces continues from the carried offsets. */
  lemma {:induction false} LayoutSuffix(pieces: seq<string>, m: int, k: nat)
    requires k <= |pieces|
    ensures Layout(pieces[k..], m, LayoutState(pieces, m, k).0, LayoutState(pieces, m, k).1) == Layout(pieces, m, 0, 0)[k..]
    decreases k
  {
    if k > 0 {
      LayoutSuffix(pieces, m, k - 1);
      var (xOff, yOff) := LayoutState(pieces, m, k - 1);
      var tail := pieces[k - 1..];
      assert tail[1..] == pieces[k..];
      assert Layout(tail, m, xOff, yOff)[1..] == Layout(pieces, m, 0, 0)[k - 1..][1..];
    } else {
      assert pieces[0..] == pieces;
    }
  }

  // ---------------------------------------------------------------------------
  // The renderer object

  class Text {
    /** characters[c - 32][y][x]: whether dot (y, x) of character c is set. */
    const characters: array3<bool>
    var styling: Styling

    ghost predicate Valid()
      reads this
    {
      characters.Length0 == GLYPH_COUNT && characters.Length1 == CELL && characters.Length2 == CELL
    }

    /** Text(fontFile) with the font already decoded into a glyph table. */
    constructor (glyphs: array3<bool>)
      requires glyphs.Length0 == GLYPH_COUNT && glyphs.Length1 == CELL && glyphs.Length2 == CELL
      ensures Valid() && characters == glyphs && styling == DEFAULT_STYLING
    {
      characters := glyphs;
      styling := DEFAULT_STYLING;
    }

    /** Pixel (y, x) of getLine(s): the ink colour where the glyph of the
        character covering column x has dot (y, x mod 8) set, else all zero. */
    function LinePixel(s: string, y: int, x: int): Bgra
      reads this, characters
      requires Valid() && Printable(s) && 0 <= y < CELL && 0 <= x < CELL * |s|
    {
      if characters[s[x / CELL] as int - FIRST_GLYPH, y, x % CELL] then Ink(styling) else CLEAR
    }

    /** Pixel (y, x) after the first k pieces have been copied into their
        boxes on a blank image: the last box covering it wins. */
    function TextPixel(pieces: seq<string>, boxes: seq<Display.Rect>, k: nat, y: int, x: int): Bgra
      reads this, characters
      requires Valid() && k <= |pieces| == |boxes|
      requires forall j :: 0 <= j < |pieces| ==> Printable(pieces[j])
      decreases k
    {
      if k == 0 then CLEAR
      else
        var b := boxes[k - 1];
        if 0 <= y - b.y < CELL && 0 <= x - b.x < CELL * |pieces[k - 1]| then LinePixel(pieces[k - 1], y - b.y, x - b.x)
        else TextPixel(pieces, boxes, k - 1, y, x)
    }

    /** getLine: an 8 x 8|s| strip with each character's glyph in its own 8x8 cell. */
    method GetLine(text: string) returns (wordImage: array2<Bgra>)
      requires Valid() && Printable(text)
      ensures fresh(wordImage) && wordImage.Length0 == CELL && wordImage.Length1 == CELL * |text|
      ensures forall y, x :: 0 <= y < CELL && 0 <= x < CELL * |text| ==> wordImage[y, x] == LinePixel(text, y, x)
    {
      wordImage := new Bgra[CELL, CELL * |text|];
      for i := 0 to |text|
        invariant forall y, x :: 0 <= y < CELL && 0 <= x < CELL * i ==> wordImage[y, x] == LinePixel(text, y, x)
      {
        for y := 0 to CELL
          invariant forall yy, x :: 0 <= yy < CELL && 0 <= x < CELL * i ==> wordImage[yy, x] == LinePixel(text, yy, x)
          invariant forall yy, x :: 0 <= yy < y && CELL * i <= x < CELL * i + CELL ==> wordImage[yy, x] == LinePixel(text, yy, x)
        {
          for x := 0 to CELL
            invariant forall yy, xx :: 0 <= yy < CELL && 0 <= xx < CELL * i ==> wordImage[yy, xx] == LinePixel(text, yy, xx)
            invariant forall yy, xx :: 0 <= yy < y && CELL * i <= xx < CELL * i + CELL ==> wordImage[yy, xx] == LinePixel(text, yy, xx)
            invariant forall xx :: CELL * i <= xx < CELL * i + x ==> wordImage[y, xx] == LinePixel(text, y, xx)
          {
            assert (x + i * CELL) / CELL == i && (x + i * CELL) % CELL == x;
            wordImage[y, x + i * CELL] :=
              if characters[text[i] as int - FIRST_GLYPH, y, x] then Ink(styling) else CLEAR;
          }
        }
      }
    }

    /** getText's first loop (the do-while over the words). */
    method MeasureWords(text: string) returns (ms: Measure)
      requires styling.maxCharWidth >= 0
      ensures ms == Measured(text, styling.maxCharWidth)
    {
      var m := styling.maxCharWidth;
      var xDim, yDim, currX := 0, 1, 0;
      var wordList: seq<string> := [];
      var t := text;
      var delimPos := 0;
      var again := true;
      while again
        invariant again ==> MeasureFrom(t, m, Measure(wordList, xDim, yDim, currX)) == Measured(text, m)
        invariant !again ==> Measure(wordList, xDim, yDim, currX) == Measured(text, m)
        decreases |t| + (if again then 1 else 0)
      {
        delimPos := Find(t, " ");
        var word := if delimPos > -1 then t[..delimPos] else t;
        var st0 := Measure(wordList, xDim, yDim, currX);
        var cut;
        cut, word := CutWord(st0, word, m);
        var next := PushWord(cut, word, m, delimPos > -1);
        wordList, xDim, yDim, currX := next.pieces, next.xDim, next.yDim, next.currX;
        MeasureFromUnfold(t, m, st0);
        if delimPos > -1 {
          t := t[delimPos + 1..];
        } else {
          again := false;
        }
      }
      ms := Measure(wordList, xDim, yDim, currX);
    }

    /** getText's second loop: a blank width x height image, and each piece's
        strip copied into the box the layout gives it. ok is false when a box
        falls outside the image, where cv::Mat's ROI check throws. */
    method Render(pieces: seq<string>, width: nat, height: nat) returns (ok: bool, image: array2<Bgra>)
      requires Valid() && forall j :: 0 <= j < |pieces| ==> Printable(pieces[j])
      ensures ok == AllFit(Layout(pieces, styling.maxCharWidth, 0, 0), width, height)
      ensures ok ==> fresh(image) && image.Length0 == height && image.Length1 == width
      ensures ok ==> forall y, x :: 0 <= y < height && 0 <= x < width ==>
        image[y, x] == TextPixel(pieces, Layout(pieces, styling.maxCharWidth, 0, 0), |pieces|, y, x)
    {
      var m := styling.maxCharWidth;
      ghost var boxes := Layout(pieces, m, 0, 0);
      image := new Bgra[height, width]((y, x) => CLEAR);
      var xOff, yOff := 0, 0;
      for k := 0 to |pieces|
        invariant (xOff, yOff) == LayoutState(pieces, m, k)
        invariant forall j :: 0 <= j < k ==> Fits(boxes[j], width, height)
        invariant fresh(image) && image.Length0 == height && image.Length1 == width
        invariant forall y, x :: 0 <= y < height && 0 <= x < width ==> image[y, x] == TextPixel(pieces, boxes, k, y, x)
      {
        LayoutAt(pieces, m, k);
        var cols := CELL * |pieces[k]|;
        if xOff != 0 && (xOff + cols) / CELL >= m {
          yOff := yOff + CELL;
          xOff := 0;
        }
        assert boxes[k] == Display.Rect(xOff, yOff, cols, CELL);
        if !(0 <= xOff && xOff + cols <= width && 0 <= yOff && yOff + CELL <= height) {
          assert !Fits(boxes[k], width, height);
          return false, image;
        }
        PasteNext(pieces, boxes, k, image, xOff, yOff);
        assert LayoutState(pieces, m, k + 1) == (xOff + cols + CELL, yOff);
        xOff := xOff + cols + CELL;
      }
      ok := true;
    }

    /** Copying piece k over the image of the first k pieces. */
    lemma TextPixelNext(pieces: seq<string>, boxes: seq<Display.Rect>, k: nat, y: int, x: int)
      requires Valid() && k < |pieces| == |boxes|
      requires forall j :: 0 <= j < |pieces| ==> Printable(pieces[j])
      ensures var b := boxes[k];
        TextPixel(pieces, boxes, k + 1, y, x)
          == if b.y <= y < b.y + CELL && b.x <= x < b.x + CELL * |pieces[k]|
             then LinePixel(pieces[k], y - b.y, x - b.x) else TextPixel(pieces, boxes, k, y, x)
    {
    }

    /** One pass of getText's copy loop: the piece's strip, copied into the
        image at (x0, y0). */
    method PastePiece(s: string, image: array2<Bgra>, x0: int, y0: int)
      requires Valid() && Printable(s)
      requires 0 <= x0 && x0 + CELL * |s| <= image.Length1 && 0 <= y0 && y0 + CELL <= image.Length0
      modifies image
      ensures forall y, x :: 0 <= y < image.Length0 && 0 <= x < image.Length1 ==>
        image[y, x] == if y0 <= y < y0 + CELL && x0 <= x < x0 + CELL * |s| then LinePixel(s, y - y0, x - x0) else old(image[y, x])
    {
      var word := GetLine(s);
      CopyTo(word, image, x0, y0);
    }

    /** Copying piece k into its box turns the image of the first k pieces
        into the image of the first k + 1. */
    method PasteNext(pieces: seq<string>, ghost boxes: seq<Display.Rect>, k: nat, image: array2<Bgra>, x0: int, y0: int)
      requires Valid() && k < |pieces| == |boxes|
      requires forall j :: 0 <= j < |pieces| ==> Printable(pieces[j])
      requires boxes[k] == Display.Rect(x0, y0, CELL * |pieces[k]|, CELL)
      requires 0 <= x0 && x0 + CELL * |pieces[k]| <= image.Length1 && 0 <= y0 && y0 + CELL <= image.Length0
      requires forall y, x :: 0 <= y < image.Length0 && 0 <= x < image.Length1 ==> image[y, x] == TextPixel(pieces, boxes, k, y, x)
      modifies image
      ensures forall y, x :: 0 <= y < image.Length0 && 0 <= x < image.Length1 ==> image[y, x] == TextPixel(pieces, boxes, k + 1, y, x)
    {
      PastePiece(pieces[k], image, x0, y0);
      forall y, x | 0 <= y < image.Length0 && 0 <= x < image.Length1
        ensures image[y, x] == TextPixel(pieces, boxes, k + 1, y, x)
      {
        TextPixelNext(pieces, boxes, k, y, x);
      }
    }

    /** getText: measure the message, then render its pieces into an image of
        the measured size, 8 pixels per cell. */
    method GetText(text: string) returns (ok: bool, image: array2<Bgra>)
      requires Valid() && Printable(text) && styling.maxCharWidth >= 0
      ensures var ms := Measured(text, styling.maxCharWidth);
        ok == AllFit(Layout(ms.pieces, styling.maxCharWidth, 0, 0), CELL * ms.xDim, CELL * ms.yDim)
      ensures forall j :: 0 <= j < |Measured(text, styling.maxCharWidth).pieces| ==> Printable(Measured(text, styling.maxCharWidth).pieces[j])
      ensures ok ==> fresh(image) && image.Length0 >= CELL && image.Length0 % CELL == 0 && image.Length1 % CELL == 0
      ensures ok ==> var ms := Measured(text, styling.maxCharWidth);
        image.Length0 == CELL * ms.yDim && image.Length1 == CELL * ms.xDim
        && forall y, x :: 0 <= y < image.Length0 && 0 <= x < image.Length1 ==>
             image[y, x] == TextPixel(ms.pieces, Layout(ms.pieces, styling.maxCharWidth, 0, 0), |ms.pieces|, y, x)
    {
      var ms := MeasureWords(text);
      MeasureFromSane(text, styling.maxCharWidth, START);
      PiecesPrintable(text, styling.maxCharWidth);
      ok, image := Render(ms.pieces, CELL * ms.xDim, CELL * ms.yDim);
    }

    /** getText with the image sized to the layout the copy loop uses: every
        copy lands inside the image. */
    method GetTextSized(text: string) returns (image: array2<Bgra>)
      requires Valid() && Printable(text) && styling.maxCharWidth >= 0
      ensures fresh(image)
      ensures forall j :: 0 <= j < |Measured(text, styling.maxCharWidth).pieces| ==> Printable(Measured(text, styling.maxCharWidth).pieces[j])
      ensures var ms := Measured(text, styling.maxCharWidth); var boxes := Layout(ms.pieces, styling.maxCharWidth, 0, 0);
        && image.Length1 == Extent(boxes).0 && image.Length0 == Extent(boxes).1
        && forall y, x :: 0 <= y < image.Length0 && 0 <= x < image.Length1 ==>
             image[y, x] == TextPixel(ms.pieces, boxes, |ms.pieces|, y, x)
    {
      var ms := MeasureWords(text);
      PiecesPrintable(text, styling.maxCharWidth);
      var boxes := Layout(ms.pieces, styling.maxCharWidth, 0, 0);
      var e := Extent(boxes);
      SizedLayoutFits(text, styling.maxCharWidth, e.0, e.1);
      var ok;
      ok, image := Render(ms.pieces, e.0, e.1);
    }

    /** setStyling(Styling). */
    method SetStyling(s: Styling)
      modifies this`styling
      ensures styling == s
    {
      styling := s;
    }

    /** setStyling(r, g, b, a, s, w): each field from its argument. */
    method SetStylingFields(r: int, g: int, b: int, a: int, s: real, w: int)
      modifies this`styling
      ensures styling == Styling(r, g, b, a, s, w)
    {
      styling := Styling(r, g, b, a, s, w);
    }

    method GetStyling() returns (s: Styling)
      ensures s == styling
    {
      s := styling;
    }
  }

  /** The pieces are made of the message's characters, so they have glyphs too. */
  lemma PiecesPrintable(text: string, m: nat)
    requires Printable(text)
    ensures forall j :: 0 <= j < |Measured(text, m).pieces| ==> Printable(Measured(text, m).pieces[j])
  {
    PiecesPrintableFrom(text, m, START);
  }

  /** The cuts and the leftover are slices of the word, so they have glyphs too. */
  lemma {:induction false} CutsPrintable(word: string, m: nat)
    requires Printable(word)
    ensures forall i :: 0 <= i < |Cuts(word, m)| ==> Printable(Cuts(word, m)[i])
    ensures Printable(Leftover(word, m))
    decreases |word|
  {
    if |word| > m {
      var w := word[m + 1..];
      assert forall i :: 0 <= i < |w| ==> w[i] == word[m + 1 + i];
      CutsPrintable(w, m);
      forall i | 0 < i < |Cuts(word, m)|
        ensures Printable(Cuts(word, m)[i])
      {
        assert Cuts(word, m)[i] == Cuts(w, m)[i - 1];
      }
    }
  }

  lemma {:induction false} PiecesPrintableFrom(text: string, m: nat, st: Measure)
    requires Printable(text) && forall j :: 0 <= j < |st.pieces| ==> Printable(st.pieces[j])
    ensures forall j :: 0 <= j < |MeasureFrom(text, m, st).pieces| ==> Printable(MeasureFrom(text, m, st).pieces[j])
    decreases |text|
  {
    var d := Find(text, " ");
    var word := if d > -1 then text[..d] else text;
    CutsPrintable(word, m);
    var cuts := Cuts(word, m);
    var st1 := Step(st, word, m, d > -1);
    assert st1.pieces == st.pieces + cuts + [Leftover(word, m)];
    forall j | 0 <= j < |st1.pieces|
      ensures Printable(st1.pieces[j])
    {
      if |st.pieces| <= j < |st.pieces| + |cuts| {
        assert st1.pieces[j] == cuts[j - |st.pieces|];
      }
    }
    if d > -1 {
      PiecesPrintableFrom(text[d + 1..], m, st1);
    }
  }

  /** The rest of one pass, after the cuts: push the leftover, wrap to a new
      line if it would reach the width m, advance past it and its space. */
  method PushWord(st: Measure, word: string, m: nat, spaceFollows: bool) returns (next: Measure)
    ensures next == Advance(st, word, m, spaceFollows)
  {
    var wordList, xDim, yDim, currX := st.pieces + [word], st.xDim, st.yDim, st.currX;
    if currX + |word| >= m {
      yDim := yDim + 1;
      currX := 0;
    }
    currX := currX + |word| + (if spaceFollows then 1 else 0);
    if currX > xDim {
      xDim := currX;
    }
    next := Measure(wordList, xDim, yDim, currX);
  }

  /** getText's inner while: as long as the word is longer than m, push its
      first m characters as a line of their own and go on after the character
      that follows them. */
  method CutWord(st: Measure, word: string, m: nat) returns (cut: Measure, rest: string)
    ensures cut == Chop(st, word, m) && rest == Leftover(word, m)
  {
    cut, rest := st, word;
    while |rest| > m
      invariant Chop(cut, rest, m) == Chop(st, word, m)
      invariant Leftover(rest, m) == Leftover(word, m)
      decreases |rest|
    {
      assert Cuts(rest, m) == [rest[..m]] + Cuts(rest[m + 1..], m);
      assert cut.pieces + Cuts(rest, m) == (cut.pieces + [rest[..m]]) + Cuts(rest[m + 1..], m);
      cut := Measure(cut.pieces + [rest[..m]], m, cut.yDim + 1, 0);
      rest := rest[m + 1..];
      // the source searches the unchanged text for the space again here
    }
  }

  /** cv::Mat::copyTo into the region of dst at (x0, y0) the size of src. */
  method CopyTo(src: array2<Bgra>, dst: array2<Bgra>, x0: int, y0: int)
    requires src != dst
    requires 0 <= x0 && x0 + src.Length1 <= dst.Length1 && 0 <= y0 && y0 + src.Length0 <= dst.Length0
    modifies dst
    ensures forall y, x :: 0 <= y < dst.Length0 && 0 <= x < dst.Length1 ==>
      dst[y, x] == if y0 <= y < y0 + src.Length0 && x0 <= x < x0 + src.Length1 then src[y - y0, x - x0] else old(dst[y, x])
  {
    for i := 0 to src.Length0
      invariant forall y, x :: 0 <= y < dst.Length0 && 0 <= x < dst.Length1 ==>
        dst[y, x] == if y0 <= y < y0 + i && x0 <= x < x0 + src.Length1 then src[y - y0, x - x0] else old(dst[y, x])
    {
      for j := 0 to src.Length1
        invariant forall y, x :: 0 <= y < dst.Length0 && 0 <= x < dst.Length1 ==>
          dst[y, x] == if (y0 <= y < y0 + i && x0 <= x < x0 + src.Length1) || (y == y0 + i && x0 <= x < x0 + j)
                       then src[y - y0, x - x0] else old(dst[y, x])
      {
        dst[y0 + i, x0 + j] := src[i, j];
      }
    }
  }
}
