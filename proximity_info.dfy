/** The keyboard geometry index of the native suggestion engine. From the
    keyboard's per-key rectangles and codes and its proximity grid (for each
    grid cell, a fixed number of slots holding the codes of keys near that
    cell), it derives the cell size and a reverse table from character code
    to key. From a touch point and the primary key code it then fills a
    fixed-capacity buffer with the plausible key codes. */
module Proximity {
  import opened Wrappers

  /** Collaborators that the geometry index uses but does not define: the
      constants of defines.h, the case folding of char_utils.h, the locale
      tables of AdditionalProximityChars and the on-key test of the class
      header. */
  datatype Platform = Platform(
    keycodeSpace: int,            // KEYCODE_SPACE
    notACode: int,                // NOT_A_CODE
    notAnIndex: int,              // NOT_AN_INDEX
    maxCharCode: nat,             // MAX_CHAR_CODE
    maxKeyCountInAKeyboard: nat,  // MAX_KEY_COUNT_IN_A_KEYBOARD
    delimiterCode: int,           // ADDITIONAL_PROXIMITY_CHAR_DELIMITER_CODE
    toBaseLowerCase: int -> int,
    additionalChars: (string, int) -> seq<int>,
    isOnKey: (int, int, int) -> bool)
  {
    /** The only property the geometry index needs of them: "no key" is a
        negative index, as the key-distance test expects. */
    predicate Valid()
    {
      notAnIndex < 0
    }
  }

  /** C++ integer division of ints: the quotient is truncated toward zero, so
      the remainder has the sign of the dividend. */
  function TruncDiv(a: int, b: int): (q: int)
    requires b > 0
    ensures a >= 0 ==> 0 <= a - q * b < b
    ensures a < 0 ==> -b < a - q * b <= 0
    ensures (a >= 0 ==> q >= 0) && (a <= 0 ==> q <= 0)
  {
    if a >= 0 then a / b else -((-a) / b)
  }

  /** The conversion to `unsigned short`: the low 16 bits. */
  function Low16(v: int): (r: int)
    ensures 0 <= r < 0x1_0000 && (v - r) % 0x1_0000 == 0
  {
    v % 0x1_0000
  }

  /** The cell size of the grid along one axis, `(pixels + cells - 1) / cells`:
      the ceiling of pixels divided by cells. */
  function CellSize(pixels: int, cells: int): (size: int)
    requires cells > 0
    ensures pixels >= 0 ==> size >= 0 && (size - 1) * cells < pixels <= size * cells
  {
    TruncDiv(pixels + cells - 1, cells)
  }

  /** copyOrFillZero: the first `count` values of the source array, or zeros
      when the array is absent. */
  function CopyOrFillZero(from: Option<seq<int>>, count: nat): (r: seq<int>)
    requires from.Some? ==> |from.value| >= count
    ensures |r| == count
    ensures forall i :: 0 <= i < count ==> r[i] == (if from.Some? then from.value[i] else 0)
  {
    match from
    case Some(values) => values[..count]
    case None => seq(count, i => 0)
  }

  /** The highest index holding `code`, or -1 when no index does. */
  function LastIndexOf(codes: seq<int>, code: int): (i: int)
    ensures -1 <= i < |codes|
    ensures i >= 0 ==> codes[i] == code && forall j :: i < j < |codes| ==> codes[j] != code
    ensures i == -1 <==> code !in codes
  {
    if codes == [] then -1
    else if codes[|codes| - 1] == code then |codes| - 1
    else LastIndexOf(codes[..|codes| - 1], code)
  }

  /** The reverse table from code to key index that initializeCodeToKeyIndex
      builds: for every code in 0..maxCharCode, the highest key carrying it. */
  function CodeToKeyTable(keyCharCodes: seq<int>, maxCharCode: nat): (table: seq<int>)
    ensures |table| == maxCharCode + 1
    ensures forall c :: 0 <= c <= maxCharCode ==>
              table[c] == -1 || (0 <= table[c] < |keyCharCodes| && keyCharCodes[table[c]] == c)
    ensures forall c :: 0 <= c <= maxCharCode ==> (table[c] == -1 <==> c !in keyCharCodes)
  {
    seq(maxCharCode + 1, c => LastIndexOf(keyCharCodes, c))
  }

  /** A key code outside 0..maxCharCode leaves the table as it is. */
  lemma CodeToKeyTableIgnoresOutOfRange(keyCharCodes: seq<int>, code: int, maxCharCode: nat)
    requires code < 0 || code > maxCharCode
    ensures CodeToKeyTable(keyCharCodes + [code], maxCharCode) == CodeToKeyTable(keyCharCodes, maxCharCode)
  {
    var codes := keyCharCodes + [code];
    assert codes[..|codes| - 1] == keyCharCodes;
  }

  /** A key whose code is in range takes the entry for it, over every earlier
      key with the same code. */
  lemma CodeToKeyTableLastKeyWins(keyCharCodes: seq<int>, code: int, maxCharCode: nat)
    requires 0 <= code <= maxCharCode
    ensures CodeToKeyTable(keyCharCodes + [code], maxCharCode)
            == CodeToKeyTable(keyCharCodes, maxCharCode)[code := |keyCharCodes|]
  {
    var codes := keyCharCodes + [code];
    assert codes[..|codes| - 1] == keyCharCodes;
  }

  /** The locale's additional codes appended to `out` in order, each only if
      it is not already there, stopping once `out` reaches the capacity. */
  function AppendNew(out: seq<int>, extra: seq<int>, capacity: int): (r: seq<int>)
    ensures |out| <= |r| && r[..|out|] == out
    ensures |out| <= capacity ==> |r| <= capacity
    ensures |r| <= |out| + |extra|
    decreases |extra|
  {
    if extra == [] || |out| >= capacity then out
    else if extra[0] in out then AppendNew(out, extra[1..], capacity)
    else AppendNew(out + [extra[0]], extra[1..], capacity)
  }

  /** What AppendNew adds: `out` stays a prefix, the length stays within the
      capacity (when `out` did), every added code is one of the additional
      codes and new at its position, and when the capacity is not reached
      every additional code ends up present. */
  lemma {:induction false} AppendNewProperties(out: seq<int>, extra: seq<int>, capacity: int)
    requires |out| <= capacity
    ensures var r := AppendNew(out, extra, capacity);
      && |out| <= |r| <= capacity
      && r[..|out|] == out
      && (forall i :: |out| <= i < |r| ==> r[i] in extra && r[i] !in r[..i])
      && (|r| < capacity ==> forall e :: e in extra ==> e in r)
    decreases |extra|
  {
    var r := AppendNew(out, extra, capacity);
    if extra == [] || |out| >= capacity {
    } else if extra[0] in out {
      AppendNewProperties(out, extra[1..], capacity);
      assert forall e :: e in extra ==> e == extra[0] || e in extra[1..];
    } else {
      var out' := out + [extra[0]];
      AppendNewProperties(out', extra[1..], capacity);
      assert r[..|out'|] == out';
      assert r[..|out|] == out' [..|out|] == out;
      assert r[|out|] == extra[0];
      assert forall e :: e in extra ==> e == extra[0] || e in extra[1..];
      forall e | e in extra && |r| < capacity ensures e in r {
        if e == extra[0] {
          assert r[|out|] == e;
        }
      }
    }
  }

  /** `n` copies of the no-code value. */
  function Padding(n: nat, notACode: int): (r: seq<int>)
    ensures |r| == n && forall i :: 0 <= i < n ==> r[i] == notACode
  {
    seq(n, i => notACode)
  }

  class ProximityInfo {
    const platform: Platform
    const localeStr: string
    const maxProximityCharsSize: int
    const keyboardWidth: int
    const keyboardHeight: int
    const gridWidth: int
    const gridHeight: int
    const mostCommonKeyWidthSquare: int
    const cellWidth: int
    const cellHeight: int
    const keyCount: nat
    const hasTouchPositionCorrectionData: bool
    /** The proximity grid, flattened: the slots of the cell in row `r` and
        column `c` start at `(r * gridWidth + c) * maxProximityCharsSize`. */
    const proximityChars: seq<int>
    const keyXCoordinates: seq<int>
    const keyYCoordinates: seq<int>
    const keyWidths: seq<int>
    const keyHeights: seq<int>
    const keyCharCodes: seq<int>
    /** Indexed by code in 0..maxCharCode; filled in place at construction. */
    const codeToKeyIndex: array<int>

    /** The per-key arrays hold one value per key. */
    predicate KeyArraysValid()
    {
      && |keyXCoordinates| == keyCount && |keyYCoordinates| == keyCount
      && |keyWidths| == keyCount && |keyHeights| == keyCount && |keyCharCodes| == keyCount
    }

    /** The reverse table is the one built from the key codes. */
    ghost predicate KeyTableValid()
      reads this, codeToKeyIndex
    {
      && platform.Valid()
      && KeyArraysValid()
      && codeToKeyIndex[..] == CodeToKeyTable(keyCharCodes, platform.maxCharCode)
    }

    ghost predicate Valid()
      reads this, codeToKeyIndex
    {
      && KeyTableValid()
      && gridWidth > 0 && gridHeight > 0 && maxProximityCharsSize >= 0
      && cellWidth == CellSize(keyboardWidth, gridWidth)
      && cellHeight == CellSize(keyboardHeight, gridHeight)
      && |proximityChars| == gridWidth * gridHeight * maxProximityCharsSize
      && keyCount <= platform.maxKeyCountInAKeyboard
    }

    /** The constructor: copies the grid, clamps the key count, copies the
        per-key arrays or fills them with zeros, and builds the reverse
        table. Touch-position correction is available only with keys and
        all eight per-key arrays. The three sweet-spot arrays hold floats
        that nothing here reads: only their presence is given. */
    constructor (platform: Platform, localeStr: string, maxProximityCharsSize: int,
                 keyboardWidth: int, keyboardHeight: int, gridWidth: int, gridHeight: int,
                 mostCommonKeyWidth: int, proximityCharsArray: seq<int>, keyCount: int,
                 keyXCoordinates: Option<seq<int>>, keyYCoordinates: Option<seq<int>>,
                 keyWidths: Option<seq<int>>, keyHeights: Option<seq<int>>,
                 keyCharCodes: Option<seq<int>>, hasSweetSpotCenterXs: bool,
                 hasSweetSpotCenterYs: bool, hasSweetSpotRadii: bool)
      requires platform.Valid()
      requires gridWidth > 0 && gridHeight > 0 && maxProximityCharsSize >= 0 && keyCount >= 0
      requires |proximityCharsArray| >= gridWidth * gridHeight * maxProximityCharsSize
      requires var n := if keyCount < platform.maxKeyCountInAKeyboard then keyCount
                        else platform.maxKeyCountInAKeyboard;
        && (keyXCoordinates.Some? ==> |keyXCoordinates.value| >= n)
        && (keyYCoordinates.Some? ==> |keyYCoordinates.value| >= n)
        && (keyWidths.Some? ==> |keyWidths.value| >= n)
        && (keyHeights.Some? ==> |keyHeights.value| >= n)
        && (keyCharCodes.Some? ==> |keyCharCodes.value| >= n)
      ensures Valid() && fresh(codeToKeyIndex)
      ensures this.platform == platform && this.localeStr == localeStr
      ensures this.maxProximityCharsSize == maxProximityCharsSize
      ensures this.keyboardWidth == keyboardWidth && this.keyboardHeight == keyboardHeight
      ensures this.gridWidth == gridWidth && this.gridHeight == gridHeight
      ensures mostCommonKeyWidthSquare == mostCommonKeyWidth * mostCommonKeyWidth
      ensures this.keyCount <= keyCount && this.keyCount <= platform.maxKeyCountInAKeyboard
      ensures this.keyCount == keyCount || this.keyCount == platform.maxKeyCountInAKeyboard
      ensures hasTouchPositionCorrectionData <==>
                && keyCount > 0 && keyXCoordinates.Some? && keyYCoordinates.Some?
                && keyWidths.Some? && keyHeights.Some? && keyCharCodes.Some?
                && hasSweetSpotCenterXs && hasSweetSpotCenterYs && hasSweetSpotRadii
      ensures proximityChars == proximityCharsArray[..gridWidth * gridHeight * maxProximityCharsSize]
      ensures this.keyXCoordinates == CopyOrFillZero(keyXCoordinates, this.keyCount)
      ensures this.keyYCoordinates == CopyOrFillZero(keyYCoordinates, this.keyCount)
      ensures this.keyWidths == CopyOrFillZero(keyWidths, this.keyCount)
      ensures this.keyHeights == CopyOrFillZero(keyHeights, this.keyCount)
      ensures this.keyCharCodes == CopyOrFillZero(keyCharCodes, this.keyCount)
    {
      this.platform := platform;
      this.localeStr := localeStr;
      this.maxProximityCharsSize := maxProximityCharsSize;
      this.keyboardWidth := keyboardWidth;
      this.keyboardHeight := keyboardHeight;
      this.gridWidth := gridWidth;
      this.gridHeight := gridHeight;
      this.mostCommonKeyWidthSquare := mostCommonKeyWidth * mostCommonKeyWidth;
      this.cellWidth := CellSize(keyboardWidth, gridWidth);
      this.cellHeight := CellSize(keyboardHeight, gridHeight);
      var count := if keyCount < platform.maxKeyCountInAKeyboard then keyCount
                   else platform.maxKeyCountInAKeyboard;
      this.keyCount := count;
      this.hasTouchPositionCorrectionData :=
        keyCount > 0 && keyXCoordinates.Some? && keyYCoordinates.Some? && keyWidths.Some?
        && keyHeights.Some? && keyCharCodes.Some? && hasSweetSpotCenterXs
        && hasSweetSpotCenterYs && hasSweetSpotRadii;
      ProductNonNegative(gridWidth, gridHeight);
      ProductNonNegative(gridWidth * gridHeight, maxProximityCharsSize);
      this.proximityChars := proximityCharsArray[..gridWidth * gridHeight * maxProximityCharsSize];
      this.keyXCoordinates := CopyOrFillZero(keyXCoordinates, count);
      this.keyYCoordinates := CopyOrFillZero(keyYCoordinates, count);
      this.keyWidths := CopyOrFillZero(keyWidths, count);
      this.keyHeights := CopyOrFillZero(keyHeights, count);
      this.keyCharCodes := CopyOrFillZero(keyCharCodes, count);
      this.codeToKeyIndex := new int[platform.maxCharCode + 1];
      new;
      InitializeCodeToKeyIndex();
    }

    /** Builds the reverse table in place: every entry -1, then, key by key,
        the entry of the key's code (when in range) set to the key's index. */
    method InitializeCodeToKeyIndex()
      requires codeToKeyIndex.Length == platform.maxCharCode + 1
      requires |keyCharCodes| == keyCount
      modifies codeToKeyIndex
      ensures codeToKeyIndex[..] == CodeToKeyTable(keyCharCodes, platform.maxCharCode)
    {
      forall c | 0 <= c < codeToKeyIndex.Length {
        codeToKeyIndex[c] := -1;
      }
      var i := 0;
      while i < keyCount
        invariant 0 <= i <= keyCount
        invariant forall c :: 0 <= c < codeToKeyIndex.Length ==>
                    codeToKeyIndex[c] == LastIndexOf(keyCharCodes[..i], c)
      {
        var code := keyCharCodes[i];
        assert keyCharCodes[..i + 1][..i] == keyCharCodes[..i];
        if 0 <= code && code <= platform.maxCharCode {
          codeToKeyIndex[code] := i;
        }
        i := i + 1;
      }
      assert keyCharCodes[..keyCount] == keyCharCodes;
    }

    /** getStartIndexFromCoordinates: the first slot of the grid cell
        covering (x, y). Every cell starts on a multiple of the cell's slot
        count, and a point with non-negative coordinates never gives a
        negative start. */
    function StartIndex(x: int, y: int): (start: int)
      requires cellWidth > 0 && cellHeight > 0
      ensures maxProximityCharsSize > 0 ==> start % maxProximityCharsSize == 0
      ensures x >= 0 && y >= 0 && gridWidth >= 0 && maxProximityCharsSize >= 0 ==> start >= 0
    {
      var cellIndex := TruncDiv(y, cellHeight) * gridWidth + TruncDiv(x, cellWidth);
      assert x >= 0 && y >= 0 && gridWidth >= 0 && maxProximityCharsSize >= 0
             ==> cellIndex * maxProximityCharsSize >= 0 by {
        if x >= 0 && y >= 0 && gridWidth >= 0 && maxProximityCharsSize >= 0 {
          ProductNonNegative(TruncDiv(y, cellHeight), gridWidth);
          ProductNonNegative(cellIndex, maxProximityCharsSize);
        }
      }
      MultipleMod(cellIndex, maxProximityCharsSize);
      cellIndex * maxProximityCharsSize
    }

    /** The slots of the cell starting at `start`. */
    function Cell(start: int): seq<int>
      requires maxProximityCharsSize >= 0
      requires 0 <= start && start + maxProximityCharsSize <= |proximityChars|
    {
      proximityChars[start..start + maxProximityCharsSize]
    }

    /** A touch point on the keyboard lies in a cell of the grid, and that
        cell's slots lie inside the grid array. */
    lemma StartIndexOnKeyboard(x: int, y: int)
      requires Valid()
      requires 0 <= x < keyboardWidth && 0 <= y < keyboardHeight
      ensures cellWidth > 0 && cellHeight > 0
      ensures var row, col := TruncDiv(y, cellHeight), TruncDiv(x, cellWidth);
        && 0 <= row < gridHeight && 0 <= col < gridWidth
        && StartIndex(x, y) == (row * gridWidth + col) * maxProximityCharsSize
        && 0 <= StartIndex(x, y) && StartIndex(x, y) + maxProximityCharsSize <= |proximityChars|
    {
      CellOfPoint(x, keyboardWidth, gridWidth);
      CellOfPoint(y, keyboardHeight, gridHeight);
      SlotsInGrid(TruncDiv(y, cellHeight), TruncDiv(x, cellWidth), gridWidth, gridHeight,
                  maxProximityCharsSize);
    }

    /** Whether the space code occurs in the cell covering (x, y); false for
        a negative coordinate. */
    method HasSpaceProximity(x: int, y: int) returns (r: bool)
      requires Valid()
      requires x >= 0 && y >= 0 ==>
        cellWidth > 0 && cellHeight > 0 && StartIndex(x, y) + maxProximityCharsSize <= |proximityChars|
      ensures r <==> x >= 0 && y >= 0 && 0 <= StartIndex(x, y) && platform.keycodeSpace in Cell(StartIndex(x, y))
    {
      if x < 0 || y < 0 {
        return false;
      }
      var startIndex := StartIndex(x, y);
      var i := 0;
      while i < maxProximityCharsSize
        invariant 0 <= i <= maxProximityCharsSize
        invariant platform.keycodeSpace !in proximityChars[startIndex..startIndex + i]
      {
        if proximityChars[startIndex + i] == platform.keycodeSpace {
          assert Cell(startIndex)[i] == platform.keycodeSpace;
          return true;
        }
        assert proximityChars[startIndex..startIndex + i + 1]
               == proximityChars[startIndex..startIndex + i] + [proximityChars[startIndex + i]];
        i := i + 1;
      }
      return false;
    }

    /** The index of the key carrying the base lower-case form of `c`, or "no
        key" when there are no keys, when that form is beyond the table, or
        when no key carries it. Of several keys with the code, the last. This
        is the direct search over the key codes that the reverse table
        answers in one lookup. */
    function KeyIndexOf(c: int): (index: int)
      requires platform.Valid() && KeyArraysValid()
      ensures index < keyCount
    {
      var base := Low16(platform.toBaseLowerCase(c));
      if keyCount == 0 || base > platform.maxCharCode then platform.notAnIndex
      else LastIndexOf(keyCharCodes, base)
    }

    /** What KeyIndexOf finds: "no key" exactly when there are no keys, the
        base form is beyond the table or no key carries it; otherwise the
        last key carrying the base form. */
    lemma KeyIndexOfMeaning(c: int)
      requires platform.Valid() && KeyArraysValid()
      ensures var base, index := Low16(platform.toBaseLowerCase(c)), KeyIndexOf(c);
        && (keyCount == 0 || base > platform.maxCharCode ==> index == platform.notAnIndex)
        && (index < 0 <==> keyCount == 0 || base > platform.maxCharCode || base !in keyCharCodes)
        && (index >= 0 ==> keyCharCodes[index] == base)
        && (index >= 0 ==> forall j :: index < j < keyCount ==> keyCharCodes[j] != base)
    {
    }

    /** getKeyIndex: the reverse-table lookup, which agrees with the direct
        search. */
    function GetKeyIndex(c: int): (index: int)
      requires KeyTableValid()
      reads this, codeToKeyIndex
      ensures index == KeyIndexOf(c)
    {
      if keyCount == 0 then platform.notAnIndex
      else
        var baseLowerC := Low16(platform.toBaseLowerCase(c));
        if baseLowerC > platform.maxCharCode then platform.notAnIndex
        else
          assert codeToKeyIndex[baseLowerC] == codeToKeyIndex[..][baseLowerC];
          codeToKeyIndex[baseLowerC]
    }

    /** The squared distance from (x, y) to the rectangle of a key, measured
        to the point of the rectangle nearest along each axis; 1 (the C++
        `true`) for a negative key id. */
    function SquaredDistanceToEdge(keyId: int, x: int, y: int): (d: int)
      requires KeyArraysValid() && keyId < keyCount
      ensures d >= 0
      ensures keyId < 0 ==> d == 1
      ensures keyId >= 0 ==>
        var left := keyXCoordinates[keyId];
        var top := keyYCoordinates[keyId];
        var right := left + keyWidths[keyId];
        var bottom := top + keyHeights[keyId];
        (left <= x <= right && top <= y <= bottom ==> d == 0)
    {
      if keyId < 0 then 1
      else
        var left := keyXCoordinates[keyId];
        var top := keyYCoordinates[keyId];
        var right := left + keyWidths[keyId];
        var bottom := top + keyHeights[keyId];
        var edgeX := if x < left then left else if x > right then right else x;
        var edgeY := if y < top then top else if y > bottom then bottom else y;
        var dx := x - edgeX;
        var dy := y - edgeY;
        Square(dx) + Square(dy)
    }

    /** Away from a key, the distance is the squared distance from (x, y) to
        the point of the rectangle reached by clamping each axis. */
    lemma SquaredDistanceToClampedPoint(keyId: int, x: int, y: int)
      requires KeyArraysValid() && 0 <= keyId < keyCount
      ensures var left, top := keyXCoordinates[keyId], keyYCoordinates[keyId];
        var right, bottom := left + keyWidths[keyId], top + keyHeights[keyId];
        SquaredDistanceToEdge(keyId, x, y)
          == Square(x - Clamp(x, left, right)) + Square(y - Clamp(y, top, bottom))
    {
    }

    /** No point of a key's rectangle is nearer to (x, y) than the distance
        SquaredDistanceToEdge measures, and the distance is 0 only inside. */
    lemma SquaredDistanceIsNearest(keyId: int, x: int, y: int, px: int, py: int)
      requires KeyArraysValid() && 0 <= keyId < keyCount
      requires keyWidths[keyId] >= 0 && keyHeights[keyId] >= 0
      requires keyXCoordinates[keyId] <= px <= keyXCoordinates[keyId] + keyWidths[keyId]
      requires keyYCoordinates[keyId] <= py <= keyYCoordinates[keyId] + keyHeights[keyId]
      ensures SquaredDistanceToEdge(keyId, x, y) <= Square(x - px) + Square(y - py)
      ensures SquaredDistanceToEdge(keyId, x, y) == 0 ==>
        && keyXCoordinates[keyId] <= x <= keyXCoordinates[keyId] + keyWidths[keyId]
        && keyYCoordinates[keyId] <= y <= keyYCoordinates[keyId] + keyHeights[keyId]
    {
      var left := keyXCoordinates[keyId];
      var top := keyYCoordinates[keyId];
      ClampIsNearest(x, left, left + keyWidths[keyId], px);
      ClampIsNearest(y, top, top + keyHeights[keyId], py);
    }

    /** Moving the touch point away from a key's rectangle, along either
        axis or both, on either side, never brings it nearer. */
    lemma SquaredDistanceGrowsAwayFromKey(keyId: int, x: int, y: int, x': int, y': int)
      requires KeyArraysValid() && 0 <= keyId < keyCount
      requires keyWidths[keyId] >= 0 && keyHeights[keyId] >= 0
      requires MovesAway(x, x', keyXCoordinates[keyId], keyXCoordinates[keyId] + keyWidths[keyId])
      requires MovesAway(y, y', keyYCoordinates[keyId], keyYCoordinates[keyId] + keyHeights[keyId])
      ensures SquaredDistanceToEdge(keyId, x, y) <= SquaredDistanceToEdge(keyId, x', y')
    {
      var left, top := keyXCoordinates[keyId], keyYCoordinates[keyId];
      AxisDistanceGrows(x, x', left, left + keyWidths[keyId]);
      AxisDistanceGrows(y, y', top, top + keyHeights[keyId]);
    }

    /** Whether the grid loop keeps code `c` for the touch point (x, y). */
    predicate KeepsCode(x: int, y: int, primaryKey: int, c: int)
      requires platform.Valid() && KeyArraysValid()
    {
      && c >= platform.keycodeSpace && c != primaryKey
      && var keyIndex := KeyIndexOf(c);
         platform.isOnKey(keyIndex, x, y)
         || SquaredDistanceToEdge(keyIndex, x, y) < mostCommonKeyWidthSquare
    }

    /** The source reads the grid cell only when its start index is not
        negative, and then the whole cell must lie inside the grid. */
    predicate CellReadable(x: int, y: int)
    {
      && cellWidth > 0 && cellHeight > 0
      && (StartIndex(x, y) >= 0 ==> StartIndex(x, y) + maxProximityCharsSize <= |proximityChars|)
    }

    /** The codes calculateNearbyKeyCodes writes through its insert cursor,
        before the tail is padded: the primary code; then, when the cell can
        be read, the kept grid codes; then, while room is left and the locale
        has additional codes, the delimiter and the additional codes not yet
        written. Writing stops as soon as the buffer is full. */
    function WrittenCodes(x: int, y: int, primaryKey: int): (w: seq<int>)
      requires platform.Valid() && KeyArraysValid() && CellReadable(x, y) && maxProximityCharsSize >= 2
      ensures 1 <= |w| <= maxProximityCharsSize && w[0] == primaryKey
    {
      var M := maxProximityCharsSize;
      var start := StartIndex(x, y);
      if start < 0 then [primaryKey]
      else
        var head := [primaryKey] + KeptCodes(Cell(start), x, y, primaryKey);
        if |head| >= M then head[..M]
        else
          var extra := platform.additionalChars(localeStr, primaryKey);
          if |extra| == 0 then head
          else if |head| + 1 >= M then head + [platform.delimiterCode]
          else
            AppendNewProperties(head + [platform.delimiterCode], extra, M);
            AppendNew(head + [platform.delimiterCode], extra, M)
    }

    /** The whole buffer after calculateNearbyKeyCodes: the written codes,
        then the no-code value up to the capacity. */
    function NearbyCodes(x: int, y: int, primaryKey: int): (r: seq<int>)
      requires platform.Valid() && KeyArraysValid() && CellReadable(x, y) && maxProximityCharsSize >= 2
      ensures |r| == maxProximityCharsSize && r[0] == primaryKey
    {
      var w := WrittenCodes(x, y, primaryKey);
      w + Padding(maxProximityCharsSize - |w|, platform.notACode)
    }

    /** Off the grid (a negative start index) the buffer holds the primary
        code and padding only. */
    lemma NearbyOffGrid(x: int, y: int, primaryKey: int)
      requires platform.Valid() && KeyArraysValid() && CellReadable(x, y)
      requires maxProximityCharsSize >= 2 && StartIndex(x, y) < 0
      ensures NearbyCodes(x, y, primaryKey)
              == [primaryKey] + Padding(maxProximityCharsSize - 1, platform.notACode)
    {
    }

    /** On the grid, the written codes start with the primary code and the
        kept codes of the cell, as many as fit. */
    lemma WrittenStartsWithHead(x: int, y: int, primaryKey: int)
      requires platform.Valid() && KeyArraysValid() && CellReadable(x, y)
      requires maxProximityCharsSize >= 2 && StartIndex(x, y) >= 0
      ensures var head := [primaryKey] + KeptCodes(Cell(StartIndex(x, y)), x, y, primaryKey);
        var n := if |head| < maxProximityCharsSize then |head| else maxProximityCharsSize;
        var w := WrittenCodes(x, y, primaryKey);
        && n <= |w| && w[..n] == head[..n]
        && (|head| >= maxProximityCharsSize ==> w == head[..maxProximityCharsSize])
    {
      var M := maxProximityCharsSize;
      var head := [primaryKey] + KeptCodes(Cell(StartIndex(x, y)), x, y, primaryKey);
      var extra := platform.additionalChars(localeStr, primaryKey);
      if |head| < M && |extra| > 0 && |head| + 1 < M {
        var out := head + [platform.delimiterCode];
        AppendNewProperties(out, extra, M);
        assert AppendNew(out, extra, M)[..|head|] == out[..|head|];
      }
    }

    /** The grid part of the buffer: after the primary code come the kept
        codes of the cell in cell order, as many as fit, and each of them is
        a code of the cell that passes the test of the grid loop (so it is
        neither the primary code nor below the space code). */
    lemma NearbyGridCodes(x: int, y: int, primaryKey: int)
      requires platform.Valid() && KeyArraysValid() && CellReadable(x, y)
      requires maxProximityCharsSize >= 2 && StartIndex(x, y) >= 0
      ensures var kept := KeptCodes(Cell(StartIndex(x, y)), x, y, primaryKey);
        var n := if |kept| < maxProximityCharsSize - 1 then |kept| else maxProximityCharsSize - 1;
        var r := NearbyCodes(x, y, primaryKey);
        && r[1..1 + n] == kept[..n]
        && forall k :: 1 <= k <= n ==>
             r[k] in Cell(StartIndex(x, y)) && KeepsCode(x, y, primaryKey, r[k])
    {
      var M := maxProximityCharsSize;
      var cell := Cell(StartIndex(x, y));
      var kept := KeptCodes(cell, x, y, primaryKey);
      var head := [primaryKey] + kept;
      var n := if |kept| < M - 1 then |kept| else M - 1;
      var w := WrittenCodes(x, y, primaryKey);
      var r := NearbyCodes(x, y, primaryKey);
      WrittenStartsWithHead(x, y, primaryKey);
      assert w[..n + 1] == head[..n + 1];
      assert r[..|w|] == w;
      assert r[1..1 + n] == head[1..1 + n];
      assert head[1..1 + n] == kept[..n];
      KeptCodesMembers(cell, x, y, primaryKey);
      forall k | 1 <= k <= n
        ensures r[k] in cell && KeepsCode(x, y, primaryKey, r[k])
      {
        assert r[k] == kept[k - 1];
      }
    }

    /** The locale part of the buffer, when the grid codes leave room. With
        no additional codes for the primary key the grid codes are followed
        by padding alone. Otherwise the delimiter follows them, and after it
        come additional codes only, each one absent from everything written
        before it; when room is still left at the end, every additional code
        is in the buffer. The no-code value fills the rest. */
    lemma NearbyAdditionalCodes(x: int, y: int, primaryKey: int)
      requires platform.Valid() && KeyArraysValid() && CellReadable(x, y)
      requires maxProximityCharsSize >= 2 && StartIndex(x, y) >= 0
      requires |[primaryKey] + KeptCodes(Cell(StartIndex(x, y)), x, y, primaryKey)| < maxProximityCharsSize
      ensures var head := [primaryKey] + KeptCodes(Cell(StartIndex(x, y)), x, y, primaryKey);
        var extra := platform.additionalChars(localeStr, primaryKey);
        var w := WrittenCodes(x, y, primaryKey);
        var r := NearbyCodes(x, y, primaryKey);
        && r[..|w|] == w
        && (forall k :: |w| <= k < maxProximityCharsSize ==> r[k] == platform.notACode)
        && (|extra| == 0 ==> w == head)
        && (|extra| > 0 ==> |w| > |head| && r[|head|] == platform.delimiterCode)
        && (forall k :: |head| < k < |w| ==> r[k] in extra && r[k] !in r[..k])
        && (|extra| > 0 && |w| < maxProximityCharsSize ==> forall e :: e in extra ==> e in w)
    {
      var M := maxProximityCharsSize;
      var head := [primaryKey] + KeptCodes(Cell(StartIndex(x, y)), x, y, primaryKey);
      var extra := platform.additionalChars(localeStr, primaryKey);
      var w := WrittenCodes(x, y, primaryKey);
      var r := NearbyCodes(x, y, primaryKey);
      assert r[..|w|] == w;
      if |extra| > 0 {
        var out := head + [platform.delimiterCode];
        if |out| < M {
          AppendNewProperties(out, extra, M);
          assert w[..|out|] == out;
          assert w[|head|] == out[|head|];
          forall k | |head| < k < |w|
            ensures r[k] in extra && r[k] !in r[..k]
          {
            assert r[..k] == w[..k];
          }
        }
      }
    }

    /** Fills `inputCodes[..maxProximityCharsSize]` with the plausible codes
        for a touch at (x, y) on the key `primaryKey`; nothing past the
        capacity is written. The three phases of the source routine (grid
        codes, additional codes, padding) are the three methods below. */
    method CalculateNearbyKeyCodes(x: int, y: int, primaryKey: int, inputCodes: array<int>)
      requires Valid() && CellReadable(x, y) && maxProximityCharsSize >= 2
      requires inputCodes.Length >= maxProximityCharsSize && inputCodes != codeToKeyIndex
      modifies inputCodes
      ensures inputCodes[..maxProximityCharsSize] == NearbyCodes(x, y, primaryKey)
      ensures inputCodes[maxProximityCharsSize..] == old(inputCodes[maxProximityCharsSize..])
    {
      var M := maxProximityCharsSize;
      ghost var w := WrittenCodes(x, y, primaryKey);
      var insertPos := 0;
      inputCodes[insertPos] := primaryKey;
      insertPos := insertPos + 1;
      var startIndex := StartIndex(x, y);
      if startIndex >= 0 {
        insertPos := WriteGridCodes(x, y, primaryKey, inputCodes, startIndex);
        ghost var head := [primaryKey] + KeptCodes(Cell(startIndex), x, y, primaryKey);
        if insertPos >= M {
          assert inputCodes[..M] == w;
          assert w + Padding(0, platform.notACode) == w;
          return;
        }
        assert inputCodes[..insertPos] == head;
        insertPos := WriteAdditionalCodes(primaryKey, inputCodes, insertPos);
        assert inputCodes[..insertPos] == w;
      } else {
        assert inputCodes[..insertPos] == w;
      }
      PadTail(inputCodes, insertPos);
    }

    /** The grid phase: appends the kept codes of the cell after the primary
        code, stopping as soon as the buffer is full. */
    method WriteGridCodes(x: int, y: int, primaryKey: int, inputCodes: array<int>, startIndex: int)
      returns (insertPos: int)
      requires KeyTableValid() && maxProximityCharsSize >= 2
      requires 0 <= startIndex && startIndex + maxProximityCharsSize <= |proximityChars|
      requires inputCodes.Length >= maxProximityCharsSize && inputCodes != codeToKeyIndex
      requires inputCodes[0] == primaryKey
      modifies inputCodes
      ensures var head := [primaryKey] + KeptCodes(Cell(startIndex), x, y, primaryKey);
        && insertPos == (if |head| >= maxProximityCharsSize then maxProximityCharsSize else |head|)
        && inputCodes[..insertPos] == head[..insertPos]
      ensures inputCodes[maxProximityCharsSize..] == old(inputCodes[maxProximityCharsSize..])
    {
      var M := maxProximityCharsSize;
      ghost var cell := Cell(startIndex);
      ghost var head := [primaryKey] + KeptCodes(cell, x, y, primaryKey);
      ghost var written := [primaryKey];
      insertPos := 1;
      assert inputCodes[..1] == written;
      var i := 0;
      while i < M
        invariant 0 <= i <= M && 1 <= insertPos < M && |written| == insertPos
        invariant inputCodes[..insertPos] == written
        invariant written + KeptCodes(cell[i..], x, y, primaryKey) == head
        invariant inputCodes[M..] == old(inputCodes[M..])
      {
        var c := proximityChars[startIndex + i];
        ghost var later := KeptCodes(cell[i + 1..], x, y, primaryKey);
        KeptCodesStep(cell, i, x, y, primaryKey);
        var keep := IsNearbyCode(x, y, primaryKey, c);
        if keep {
          AppendAssociative(written, [c], later);
          inputCodes[insertPos] := c;
          written := written + [c];
          insertPos := insertPos + 1;
          assert inputCodes[..insertPos] == written;
          if insertPos >= M {
            assert head[..M] == written;
            return;
          }
        } else {
          assert KeptCodes(cell[i..], x, y, primaryKey) == later;
        }
        i := i + 1;
      }
      assert cell[M..] == [];
    }

    /** The test of the grid loop for one cell code: not below the space
        code, not the primary code, and on its key or near enough to it. */
    method IsNearbyCode(x: int, y: int, primaryKey: int, c: int) returns (keep: bool)
      requires KeyTableValid()
      ensures keep == KeepsCode(x, y, primaryKey, c)
    {
      keep := false;
      if c >= platform.keycodeSpace && c != primaryKey {
        var keyIndex := GetKeyIndex(c);
        var onKey := platform.isOnKey(keyIndex, x, y);
        var distance := SquaredDistanceToEdge(keyIndex, x, y);
        keep := onKey || distance < mostCommonKeyWidthSquare;
      }
    }

    /** The locale phase: when the locale has additional codes for the
        primary key, appends the delimiter and then each additional code not
        already written, stopping as soon as the buffer is full. */
    method WriteAdditionalCodes(primaryKey: int, inputCodes: array<int>, insertPos: int)
      returns (newPos: int)
      requires 1 <= insertPos < maxProximityCharsSize <= inputCodes.Length
      modifies inputCodes
      ensures insertPos <= newPos <= maxProximityCharsSize
      ensures |platform.additionalChars(localeStr, primaryKey)| == 0 ==>
                newPos == insertPos && inputCodes[..] == old(inputCodes[..])
      ensures var cur := old(inputCodes[..insertPos]);
        var extra := platform.additionalChars(localeStr, primaryKey);
        inputCodes[..newPos] ==
          if |extra| == 0 then cur
          else if |cur| + 1 >= maxProximityCharsSize then cur + [platform.delimiterCode]
          else AppendNew(cur + [platform.delimiterCode], extra, maxProximityCharsSize)
      ensures inputCodes[maxProximityCharsSize..] == old(inputCodes[maxProximityCharsSize..])
    {
      var M := maxProximityCharsSize;
      newPos := insertPos;
      var extra := platform.additionalChars(localeStr, primaryKey);
      var additionalProximitySize := |extra|;
      if additionalProximitySize > 0 {
        ghost var cur := inputCodes[..newPos];
        inputCodes[newPos] := platform.delimiterCode;
        newPos := newPos + 1;
        assert inputCodes[..newPos] == cur + [platform.delimiterCode];
        if newPos >= M {
          return;
        }
        ghost var target := AppendNew(cur + [platform.delimiterCode], extra, M);
        var j := 0;
        while j < additionalProximitySize
          invariant 0 <= j <= |extra| && insertPos < newPos < M
          invariant AppendNew(inputCodes[..newPos], extra[j..], M) == target
          invariant inputCodes[M..] == old(inputCodes[M..])
        {
          var ac := extra[j];
          assert extra[j..][0] == ac && extra[j..][1..] == extra[j + 1..];
          var k := 0;
          while k < newPos && ac != inputCodes[k]
            invariant 0 <= k <= newPos
            invariant forall t :: 0 <= t < k ==> inputCodes[t] != ac
          {
            k := k + 1;
          }
          if k < newPos {
            assert ac in inputCodes[..newPos];
          } else {
            assert ac !in inputCodes[..newPos];
            ghost var before := inputCodes[..newPos];
            inputCodes[newPos] := ac;
            assert inputCodes[..newPos + 1] == before + [ac];
            newPos := newPos + 1;
            if newPos >= M {
              return;
            }
          }
          j := j + 1;
        }
        assert extra[|extra|..] == [];
      }
    }

    /** The padding phase: the no-code value in every slot from the cursor
        up to the capacity. */
    method PadTail(inputCodes: array<int>, insertPos: int)
      requires 0 <= insertPos <= maxProximityCharsSize <= inputCodes.Length
      modifies inputCodes
      ensures inputCodes[..maxProximityCharsSize]
              == old(inputCodes[..insertPos]) + Padding(maxProximityCharsSize - insertPos, platform.notACode)
      ensures inputCodes[maxProximityCharsSize..] == old(inputCodes[maxProximityCharsSize..])
    {
      var M := maxProximityCharsSize;
      var i := insertPos;
      while i < M
        invariant insertPos <= i <= M
        invariant inputCodes[..insertPos] == old(inputCodes[..insertPos])
        invariant forall u :: insertPos <= u < i ==> inputCodes[u] == platform.notACode
        invariant inputCodes[M..] == old(inputCodes[M..])
      {
        inputCodes[i] := platform.notACode;
        i := i + 1;
      }
      assert inputCodes[..M] == old(inputCodes[..insertPos]) + Padding(M - insertPos, platform.notACode);
    }

    /** One step of KeptCodes taken at position `i` of `cell`. */
    lemma KeptCodesStep(cell: seq<int>, i: int, x: int, y: int, primaryKey: int)
      requires platform.Valid() && KeyArraysValid() && 0 <= i < |cell|
      ensures KeptCodes(cell[i..], x, y, primaryKey)
              == (if KeepsCode(x, y, primaryKey, cell[i]) then [cell[i]] else [])
                 + KeptCodes(cell[i + 1..], x, y, primaryKey)
    {
      assert cell[i..][0] == cell[i] && cell[i..][1..] == cell[i + 1..];
    }

    /** The codes of `cell` that the grid loop keeps, in cell order;
        duplicates are kept. */
    function KeptCodes(cell: seq<int>, x: int, y: int, primaryKey: int): (r: seq<int>)
      requires platform.Valid() && KeyArraysValid()
      ensures |r| <= |cell|
    {
      if cell == [] then []
      else (if KeepsCode(x, y, primaryKey, cell[0]) then [cell[0]] else [])
           + KeptCodes(cell[1..], x, y, primaryKey)
    }

    /** A code is kept exactly when it is in the cell and passes the test;
        a kept cell of codes that all pass is the whole cell. */
    lemma {:induction false} KeptCodesMembers(cell: seq<int>, x: int, y: int, primaryKey: int)
      requires platform.Valid() && KeyArraysValid()
      ensures forall c :: c in KeptCodes(cell, x, y, primaryKey) <==> c in cell && KeepsCode(x, y, primaryKey, c)
      ensures (forall c :: c in cell ==> KeepsCode(x, y, primaryKey, c)) ==> KeptCodes(cell, x, y, primaryKey) == cell
    {
      if cell != [] {
        KeptCodesMembers(cell[1..], x, y, primaryKey);
        assert forall c :: c in cell <==> c == cell[0] || c in cell[1..];
        if forall c :: c in cell ==> KeepsCode(x, y, primaryKey, c) {
          assert cell == [cell[0]] + cell[1..];
        }
      }
    }
  }

  lemma AppendAssociative(a: seq<int>, b: seq<int>, c: seq<int>)
    ensures (a + b) + c == a + (b + c)
  {
  }

  function Square(v: int): (s: int)
    ensures s >= 0
  {
    v * v
  }

  /** The axis clamp of calculateNearbyKeyCodes: `lo` below it, `hi` above. */
  function Clamp(v: int, lo: int, hi: int): (r: int)
    ensures lo <= hi ==> lo <= r <= hi
    ensures lo <= v <= hi ==> r == v
  {
    if v < lo then lo else if v > hi then hi else v
  }

  lemma SquareMonotone(a: int, b: int)
    requires 0 <= a <= b
    ensures Square(a) <= Square(b)
  {
    MulMonotone(a, b, a);
    MulMonotone(a, b, b);
  }

  lemma MulMonotone(a: int, b: int, c: int)
    requires a <= b && c >= 0
    ensures a * c <= b * c
  {
  }

  /** The clamped value is the nearest point of [lo, hi] to v. */
  lemma ClampIsNearest(v: int, lo: int, hi: int, p: int)
    requires lo <= p <= hi
    ensures Square(v - Clamp(v, lo, hi)) <= Square(v - p)
    ensures Square(v - Clamp(v, lo, hi)) == 0 ==> lo <= v <= hi
  {
    var c := Clamp(v, lo, hi);
    if v < lo {
      SquareMonotone(lo - v, p - v);
      assert Square(v - c) == Square(lo - v) && Square(v - p) == Square(p - v);
    } else if v > hi {
      SquareMonotone(v - hi, v - p);
    }
  }

  /** Along one axis, `v'` is `v` or lies further out than `v` on the same
      side of [lo, hi]. */
  predicate MovesAway(v: int, v': int, lo: int, hi: int)
  {
    v == v' || hi <= v <= v' || v' <= v <= lo
  }

  /** Along one axis, moving away from [lo, hi] never shortens the distance
      to the clamped point. */
  lemma AxisDistanceGrows(v: int, v': int, lo: int, hi: int)
    requires lo <= hi && MovesAway(v, v', lo, hi)
    ensures Square(v - Clamp(v, lo, hi)) <= Square(v' - Clamp(v', lo, hi))
  {
    if v == v' {
    } else if hi <= v <= v' {
      SquareMonotone(v - hi, v' - hi);
    } else {
      SquareMonotone(lo - v, lo - v');
      assert Square(v - lo) == Square(lo - v) && Square(v' - lo) == Square(lo - v');
    }
  }

  /** A multiple of m leaves no remainder. */
  lemma MultipleMod(a: int, m: int)
    ensures m > 0 ==> (a * m) % m == 0
  {
    if m > 0 {
      var q, r := (a * m) / m, (a * m) % m;
      assert a * m == q * m + r && 0 <= r < m;
      assert (a - q) * m == r;
      if a - q >= 1 {
        MulMonotone(1, a - q, m);
      } else if a - q <= -1 {
        MulMonotone(a - q, -1, m);
      }
    }
  }

  lemma ProductNonNegative(a: int, b: int)
    requires a >= 0 && b >= 0
    ensures a * b >= 0
  {
  }

  /** A coordinate inside the keyboard falls in one of the grid's cells. */
  lemma CellOfPoint(v: int, pixels: int, cells: int)
    requires cells > 0 && 0 <= v < pixels
    ensures CellSize(pixels, cells) > 0
    ensures 0 <= TruncDiv(v, CellSize(pixels, cells)) < cells
  {
    var size := CellSize(pixels, cells);
    assert pixels <= size * cells;
    if size <= 0 {
      MulMonotone(size, 0, cells);
      assert false;
    }
    var q := TruncDiv(v, size);
    assert q * size <= v;
    if q >= cells {
      MulMonotone(cells, q, size);
      assert false;
    }
  }

  /** The slots of the cell in row `row` and column `col` lie inside a grid
      of `gw` by `gh` cells of `m` slots. */
  lemma SlotsInGrid(row: int, col: int, gw: int, gh: int, m: int)
    requires 0 <= row < gh && 0 <= col < gw && m >= 0
    ensures 0 <= (row * gw + col) * m
    ensures (row * gw + col) * m + m <= gw * gh * m
  {
    var cellIndex := row * gw + col;
    MulMonotone(row, gh - 1, gw);
    assert (gh - 1) * gw == gh * gw - gw;
    assert cellIndex + 1 <= gw * gh;
    ProductNonNegative(row, gw);
    ProductNonNegative(cellIndex, m);
    MulMonotone(cellIndex + 1, gw * gh, m);
    assert (cellIndex + 1) * m == cellIndex * m + m;
  }
}
