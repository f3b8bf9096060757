# Proximity, dictionary flags and word composition of the Latin IME

This project models three pieces of the Android Latin input method and proves
properties of them.

- **Keyboard geometry index** (`ProximityInfo`, module `Proximity`). It divides
  the keyboard into a grid whose cells list the key codes near that cell. It
  builds a reverse table from character code to key index. It measures how far
  a touch point is from a key rectangle. For a touch point and the primary key
  code, `calculateNearbyKeyCodes` fills a fixed-capacity buffer with:
  - the primary code;
  - the grid codes that pass the nearness test;
  - the locale's additional codes behind a delimiter;
  - the no-code value in the rest of the buffer.

  The constructor derives the cell sizes, the clamped key count and the
  touch-correction flag, and fills the reverse table in place. The buffer is an
  `array`, filled through an insert cursor with early returns, and is proved to
  equal a specification function. The reverse table is filled by a loop over
  its array. The grid scans of `hasSpaceProximity` and of the grid phase are
  loops too, over the grid held as a sequence that is fixed after
  construction.
- **Dictionary flag bytes** (module `UnigramDictionary`). These are the group
  flags byte and the attribute (bigram/shortcut) flags byte of the binary trie.
  Each is decoded to a record and encoded back. An attribute also carries a
  signed offset: a big-endian magnitude of 0 to 3 bytes, negated when the sign
  flag is set. Attribute lists end at the first entry whose has-next bit is
  clear. The round trips are proved. So is the relation between the two error
  budgets.
- **Composing word** (`WordComposer`, module `Composer`). A class that holds:
  - one code array per keystroke;
  - the typed word in UTF-16 code units;
  - the count of upper-case units;
  - two fixed coordinate arrays, written while they have room;
  - the capitalisation flags and the preferred word.

  Its invariant `Valid()` holds across every modelled operation: the lengths agree and
  the caps count is the number of upper-case units. The queries are proved
  against that invariant.

Collaborators whose code is not part of this model are parameters:
- `toBaseLowerCase`, the locale's additional characters and `isOnKey` are
  functions in `Proximity.Platform`.
- The constants `KEYCODE_SPACE`, `NOT_A_CODE`, `NOT_AN_INDEX`, `MAX_CHAR_CODE`,
  `MAX_KEY_COUNT_IN_A_KEYBOARD` and the additional-character delimiter are
  fields of `Proximity.Platform`. `MAX_CHAR_CODE` and
  `MAX_KEY_COUNT_IN_A_KEYBOARD` are non-negative, since the model types them
  as natural numbers. `NOT_AN_INDEX` must be negative. Nothing else is
  required of them.
- `Character.isUpperCase` is a function given to the `WordComposer`
  constructor.
- `BinaryDictionary.MAX_WORD_LENGTH` is the constructor's `maxWordLength`.

C++ integer division truncates toward zero. It is written out as `TruncDiv`,
which matters for negative touch coordinates. The `unsigned short` cast is
written out as `Low16`, and the Java `(char)` cast as `ToChar`.

Grid codes are not deduplicated. The grid loop screens them only against the
primary code (proximity_info.cpp:146). Only the additional codes are checked
against everything already written (proximity_info.cpp:177-185). `KeptCodes`
therefore keeps duplicates.

## Model

| member | source | states |
|---|---|---|
| Proximity.TruncDiv | native/jni/src/proximity_info.cpp:94-97 | C++ division of ints truncates toward zero: the remainder lies strictly within the divisor's size, has the dividend's sign, and the quotient's sign follows the dividend |
| Proximity.Low16 | native/jni/src/proximity_info.cpp:207 | the cast to unsigned short gives a value in 0..65535 congruent to the input modulo 2^16 |
| Proximity.CellSize | native/jni/src/proximity_info.cpp:49-50 | for a non-negative keyboard size the cell size is the ceiling of pixels over cells: (size-1)*cells < pixels <= size*cells |
| Proximity.CopyOrFillZero | native/jni/src/proximity_info.cpp:31-37 | the result has `count` entries, each the source's entry when the source array is present and 0 when it is absent |
| Proximity.LastIndexOf | native/jni/src/proximity_info.cpp:82-87 | the highest index holding the code, no later index holds it, and -1 exactly when no index does |
| Proximity.CodeToKeyTable | native/jni/src/proximity_info.cpp:80-88 | the table has MAX_CHAR_CODE+1 entries; each entry is -1 or a key index whose key carries that code, and -1 exactly when no key carries it |
| Proximity.CodeToKeyTableIgnoresOutOfRange | native/jni/src/proximity_info.cpp:83-86 | a key whose code is outside 0..MAX_CHAR_CODE leaves the table as it is |
| Proximity.CodeToKeyTableLastKeyWins | native/jni/src/proximity_info.cpp:83-86 | a later key with an in-range code overwrites the entry with its own index, over every earlier key with that code |
| Proximity.AppendNew | native/jni/src/proximity_info.cpp:175-193 | the deduplicating append keeps what was written as a prefix, never shrinks it, adds at most one code per additional code, and stays within capacity |
| Proximity.AppendNewProperties | native/jni/src/proximity_info.cpp:176-193 | appending additional codes keeps the written prefix and stays within capacity; each added code is an additional code absent from everything before it; if capacity is not reached, every additional code ends up present |
| Proximity.ProximityInfo.constructor | native/jni/src/proximity_info.cpp:39-76 | stores the dimensions; cell sizes are CellSize of keyboard and grid; key count is min(keyCount, MAX_KEY_COUNT_IN_A_KEYBOARD); touch correction is on iff keyCount > 0 and all eight arrays are present; absent per-key arrays are zeros; the grid is copied; the reverse table is built; Valid() holds |
| Proximity.ProximityInfo.InitializeCodeToKeyIndex | native/jni/src/proximity_info.cpp:80-88 | after filling every entry with -1 and writing each key's index at its in-range code, the array equals CodeToKeyTable of the key codes |
| Proximity.ProximityInfo.StartIndexOnKeyboard | native/jni/src/proximity_info.cpp:94-97 | a touch point on the keyboard falls in a cell whose row and column lie in the grid, and that cell's slots lie inside the grid array |
| Proximity.ProximityInfo.StartIndex | native/jni/src/proximity_info.cpp:94-97 | the start slot of a cell is a multiple of MAX_PROXIMITY_CHARS_SIZE, and non-negative coordinates give a non-negative start |
| Proximity.ProximityInfo.HasSpaceProximity | native/jni/src/proximity_info.cpp:99-122 | true iff both coordinates are non-negative and KEYCODE_SPACE occurs among the cell's MAX_PROXIMITY_CHARS_SIZE slots; false for a negative coordinate |
| Proximity.ProximityInfo.KeyIndexOfMeaning | native/jni/src/proximity_info.cpp:202-212 | no key (NOT_AN_INDEX) when there are no keys or the base lower-case code exceeds MAX_CHAR_CODE; a negative index iff that, or no key carries the code; otherwise the last key carrying the base code |
| Proximity.ProximityInfo.GetKeyIndex | native/jni/src/proximity_info.cpp:202-212 | the reverse-table lookup returns the same index as a direct search over the key codes |
| Proximity.ProximityInfo.SquaredDistanceToEdge | native/jni/src/proximity_info.cpp:124-135 | the distance is never negative; it is 1 (the C++ `true`) for a negative key id and 0 for every point of the key's closed rectangle |
| Proximity.ProximityInfo.SquaredDistanceToClampedPoint | native/jni/src/proximity_info.cpp:126-134 | for a key, the distance is dx²+dy² measured to the point reached by clamping each axis to the rectangle |
| Proximity.ProximityInfo.SquaredDistanceIsNearest | native/jni/src/proximity_info.cpp:124-135 | no point of the rectangle is closer than the distance returned, and a zero distance means the point is inside |
| Proximity.ProximityInfo.SquaredDistanceGrowsAwayFromKey | native/jni/src/proximity_info.cpp:124-135 | moving a touch point away from a key's rectangle never decreases its distance: along x, along y or both, toward the left, right, top or bottom |
| Proximity.ProximityInfo.KeptCodes | native/jni/src/proximity_info.cpp:144-161 | the grid filter keeps the cell's codes that pass the test, in cell order, never more codes than the cell has; which codes is stated by KeptCodesMembers |
| Proximity.ProximityInfo.KeptCodesMembers | native/jni/src/proximity_info.cpp:143-160 | a code is among the kept grid codes iff it is in the cell and passes the test (>= KEYCODE_SPACE, not the primary code, on its key or nearer than MOST_COMMON_KEY_WIDTH_SQUARE) |
| Proximity.ProximityInfo.IsNearbyCode | native/jni/src/proximity_info.cpp:145-152 | the loop's test for one cell code is KeepsCode: the table lookup, isOnKey and the distance bound |
| Proximity.ProximityInfo.WrittenCodes | native/jni/src/proximity_info.cpp:137-194 | the cursor part of the buffer has between 1 and MAX_PROXIMITY_CHARS_SIZE codes and starts with the primary code |
| Proximity.ProximityInfo.NearbyCodes | native/jni/src/proximity_info.cpp:137-199 | the whole buffer has exactly MAX_PROXIMITY_CHARS_SIZE entries, the first being the primary code |
| Proximity.ProximityInfo.CalculateNearbyKeyCodes | native/jni/src/proximity_info.cpp:137-200 | the first MAX_PROXIMITY_CHARS_SIZE slots of the array equal NearbyCodes, and no slot past them is written |
| Proximity.ProximityInfo.WriteGridCodes | native/jni/src/proximity_info.cpp:143-160 | the grid loop writes the primary code plus the kept codes, stopping at capacity; the cursor ends at the shorter of their length and the capacity |
| Proximity.ProximityInfo.WriteAdditionalCodes | native/jni/src/proximity_info.cpp:161-194 | without additional codes the cursor does not move and no slot of the array changes; otherwise the delimiter is written, then, if room remains, AppendNew of the additional codes; the cursor stays within capacity |
| Proximity.ProximityInfo.PadTail | native/jni/src/proximity_info.cpp:196-199 | the slots from the cursor to capacity hold NOT_A_CODE; the slots before it are unchanged |
| Proximity.ProximityInfo.NearbyOffGrid | native/jni/src/proximity_info.cpp:140-143 | with a negative start index the buffer is the primary code followed by NOT_A_CODE padding |
| Proximity.ProximityInfo.WrittenStartsWithHead | native/jni/src/proximity_info.cpp:140-160 | on the grid, the written codes begin with the primary code and the kept codes, as many as fit; when they fill the buffer, they are all of it |
| Proximity.ProximityInfo.NearbyGridCodes | native/jni/src/proximity_info.cpp:143-160 | slots 1.. hold the kept grid codes in cell order, truncated at capacity; each is a cell code passing the test, duplicates included |
| Proximity.ProximityInfo.NearbyAdditionalCodes | native/jni/src/proximity_info.cpp:161-199 | if room remains after the grid codes: with no additional codes, padding follows at once; otherwise the delimiter comes next, then only additional codes absent from earlier slots; all of them are present if room remains at the end; NOT_A_CODE fills the rest |
| UnigramDictionary.AddressBytes | native/jni/src/unigram_dictionary.h:36-41 | an address selector announces 0 to 3 bytes, and 0 only for "no address" |
| UnigramDictionary.DecodeGroupAddressType | native/jni/src/unigram_dictionary.h:36-41 | every value of flags & 0xC0 is one of the four declared selectors: the decoded type's pattern equals those bits |
| UnigramDictionary.DecodeGroupFlags | native/jni/src/unigram_dictionary.h:36-52 | the children address width is (flags & 0xC0) >> 6 bytes; multi-char, terminal, shortcut and bigram are bits 0x20, 0x10, 0x08 and 0x04 |
| UnigramDictionary.EncodeGroupFlags | native/jni/src/unigram_dictionary.h:36-52 | an encoded group byte leaves the two undeclared low bits clear and decodes back to the same record |
| UnigramDictionary.GroupMasksPartition | native/jni/src/unigram_dictionary.h:36-52 | the group masks are pairwise disjoint and together cover every bit except 0x03 |
| UnigramDictionary.GroupFlagsRoundTrip | native/jni/src/unigram_dictionary.h:36-52 | re-encoding a decoded group byte gives flags & 0xFC |
| UnigramDictionary.DecodeAttributeAddressType | native/jni/src/unigram_dictionary.h:63-67 | the decoded offset type's pattern equals flags & 0x30 |
| UnigramDictionary.DecodeAttributeFlags | native/jni/src/unigram_dictionary.h:54-67 | has-next is bit 0x80, negative offset is bit 0x40, the offset width is (flags & 0x30) >> 4 bytes, the frequency is flags & 0x0F |
| UnigramDictionary.EncodeAttributeFlags | native/jni/src/unigram_dictionary.h:54-67 | an encoded attribute byte decodes back to the same record |
| UnigramDictionary.AttributeFlagsRoundTrip | native/jni/src/unigram_dictionary.h:54-67 | the four attribute fields partition the byte: decode then encode is the identity on all 256 values |
| UnigramDictionary.ReadMagnitude | native/jni/src/unigram_dictionary.h:63-67 | a magnitude read from n bytes is below 256^n |
| UnigramDictionary.MagnitudeRoundTrip | native/jni/src/unigram_dictionary.h:63-67 | a magnitude below 256^n written on n big-endian bytes reads back unchanged |
| UnigramDictionary.DecodeAttributeOffset | native/jni/src/unigram_dictionary.h:57-58 | the offset decodes iff the announced number of bytes is present, and is the magnitude, negated exactly when the sign flag is set |
| UnigramDictionary.DecodeAttribute | native/jni/src/unigram_dictionary.h:54-67 | a decoded entry takes 1 + width bytes, has the flags of its first byte, and an offset strictly within ±256^width |
| UnigramDictionary.DecodeAttributeList | native/jni/src/unigram_dictionary.h:55-56 | a decoded list is non-empty, its last entry has has-next clear and every earlier entry has it set, so the list ends at the first entry without has-next |
| UnigramDictionary.AttributeOffsetRoundTrip | native/jni/src/unigram_dictionary.h:57-58 | the offset bytes of an encodable entry decode to its offset whatever follows them |
| UnigramDictionary.AttributeRoundTrip | native/jni/src/unigram_dictionary.h:54-67 | an encoded entry decodes to itself and its length whatever follows it |
| UnigramDictionary.AttributeListRoundTrip | native/jni/src/unigram_dictionary.h:54-67 | an encoded attribute list decodes to itself whatever follows it |
| UnigramDictionary.TwoWordBudgetIsStricter | native/jni/src/unigram_dictionary.h:69-71 | the two-word error budget is positive and strictly smaller than the default one |
| Composer.ToChar | java/src/com/android/inputmethod/latin/WordComposer.java:120 | the `(char)` cast keeps the code modulo 2^16 |
| Composer.CountUpperAppend | java/src/com/android/inputmethod/latin/WordComposer.java:128 | appending a unit raises the upper-case count by one exactly when it is upper case |
| Composer.CountUpperAll | java/src/com/android/inputmethod/latin/WordComposer.java:191-193 | the upper-case count equals the length iff every unit is upper case |
| Composer.CountUpperPositive | java/src/com/android/inputmethod/latin/WordComposer.java:191-193 | the upper-case count is positive iff some unit is upper case |
| Composer.CountUpperMoreThanOne | java/src/com/android/inputmethod/latin/WordComposer.java:214-216 | the upper-case count exceeds one iff two distinct units are upper case |
| Composer.Juxtaposed | java/src/com/android/inputmethod/latin/WordComposer.java:138-144 | length and multiset are unchanged; under the swap condition the primary code comes first and the old first code second; elements from index 2 on never change; otherwise the codes are unchanged |
| Composer.JuxtaposedIdempotent | java/src/com/android/inputmethod/latin/WordComposer.java:138-144 | correcting twice equals correcting once, and a real code followed by the primary code is corrected to the primary code first |
| Composer.WordComposer.constructor | java/src/com/android/inputmethod/latin/WordComposer.java:56-63 | empty codes and typed word, zero length and caps count, no preferred word, isFirstCharCapitalized() and isAutoCapitalized() false; fresh coordinate arrays of MAX_WORD_LENGTH entries, all zero; Valid() holds |
| Composer.WordComposer.Copy | java/src/com/android/inputmethod/latin/WordComposer.java:65-75 | the copy has the source's state and shares its coordinate arrays and per-keystroke arrays; Valid() holds |
| Composer.WordComposer.Reset | java/src/com/android/inputmethod/latin/WordComposer.java:80-87 | codes and typed word empty, caps count zero, preferred word cleared, isFirstCharCapitalized() false, isAutoCapitalized() unchanged, Valid() kept |
| Composer.WordComposer.Size | java/src/com/android/inputmethod/latin/WordComposer.java:93-95 | the keystroke count equals the typed word's length and the typed length |
| Composer.WordComposer.GetCodesAt | java/src/com/android/inputmethod/latin/WordComposer.java:102-104 | a keystroke's array is returned exactly for indices in 0..size()-1; other indices are the failed list access |
| Composer.WordComposer.Add | java/src/com/android/inputmethod/latin/WordComposer.java:119-129 | the cast unit is appended to the typed word and the corrected array to the list; coordinates are written only at the old length and only below MAX_WORD_LENGTH, with every other coordinate unchanged; the caps count rises iff the unit is upper case; Valid() kept |
| Composer.WordComposer.CorrectPrimaryJuxtapos | java/src/com/android/inputmethod/latin/WordComposer.java:138-144 | the array afterwards equals Juxtaposed of its old contents |
| Composer.WordComposer.DeleteLast | java/src/com/android/inputmethod/latin/WordComposer.java:149-161 | a no-op on an empty composer; otherwise removes exactly the last keystroke and the last unit, lowers the caps count iff that unit was upper case, and keeps the rest; Valid() kept |
| Composer.WordComposer.GetTypedWord | java/src/com/android/inputmethod/latin/WordComposer.java:167-173 | absent (null) iff size() is 0; otherwise the typed word |
| Composer.WordComposer.IsAllUpperCase | java/src/com/android/inputmethod/latin/WordComposer.java:191-193 | true iff the typed word is non-empty and every unit is upper case |
| Composer.WordComposer.GetPreferredWord | java/src/com/android/inputmethod/latin/WordComposer.java:207-209 | the preferred word if set, else the typed word; absent only when neither exists |
| Composer.WordComposer.IsMostlyCaps | java/src/com/android/inputmethod/latin/WordComposer.java:214-216 | true iff two distinct typed units are upper case |
| Composer.WordComposer.SetFirstCharCapitalized | java/src/com/android/inputmethod/latin/WordComposer.java:175-177 | the flag read back is the one set; nothing else changes; Valid() kept |
| Composer.WordComposer.IsFirstCharCapitalized | java/src/com/android/inputmethod/latin/WordComposer.java:183-185 | the first-character flag as last set by setFirstCharCapitalized, false after construction and after reset |
| Composer.WordComposer.SetPreferredWord | java/src/com/android/inputmethod/latin/WordComposer.java:199-201 | the preferred word is the one given; nothing else changes; Valid() kept |
| Composer.WordComposer.SetAutoCapitalized | java/src/com/android/inputmethod/latin/WordComposer.java:223-225 | the flag read back is the one set; nothing else changes; Valid() kept |
| Composer.WordComposer.IsAutoCapitalized | java/src/com/android/inputmethod/latin/WordComposer.java:231-233 | the auto-capitalisation flag as last set by setAutoCapitalized, false after construction and kept by reset |
| Composer.AddThenDeleteLast | java/src/com/android/inputmethod/latin/WordComposer.java:119-161 | add followed by deleteLast restores size(), the list of codes, the typed word and the caps count |

## Left out

- Proximity.ProximityInfo.CalculateNearbyKeyCodes: requires MAX_PROXIMITY_CHARS_SIZE >= 2, and so do WrittenCodes, NearbyCodes and the lemmas about them. With capacity 1, the routine writes slot 1 (a grid code or the delimiter) before it checks the cursor.
- Proximity.ProximityInfo.CalculateNearbyKeyCodes: the buffer must be a different array from the reverse table. In the source it is always a caller's buffer.
- Composer.WordComposer.Add: requires that the code array is neither of the coordinate arrays. The source does not exclude aliasing them; the requirement keeps the frame of the coordinate writes separate from the swap of the codes.
- Proximity.ProximityInfo.constructor: requires a non-negative MAX_PROXIMITY_CHARS_SIZE. The source copies the grid with a size computed from it (proximity_info.cpp:56-62) without checking its sign.
- Proximity.ProximityInfo.CalculateNearbyKeyCodes: requires `CellReadable`, that is, the touched cell lies inside the grid array. The source checks only that the start index is not negative (proximity_info.cpp:143), with no upper bound. A touch below the last grid row or right of the last column then makes the loop at proximity_info.cpp:144-145 read past the grid array. The model excludes such touches.
- Proximity.ProximityInfo.HasSpaceProximity: requires the touched cell to lie inside the grid array when both coordinates are non-negative. The source checks only the signs of the coordinates (proximity_info.cpp:100-106), so an off-grid touch makes the scan at proximity_info.cpp:113-117 read past the grid array. The model excludes such touches.
- Proximity.ProximityInfo.constructor: requires a positive grid width and height, because the source divides by them unguarded (proximity_info.cpp:49-50) and a zero divisor is undefined.
- Proximity.ProximityInfo.constructor: requires a non-negative key count. The source takes any int; a negative count gives a negative KEY_COUNT, and every copy or fill then gets a huge size. That is undefined behaviour, which the model does not describe.
- Composer.WordComposer.Add: the code array is never null. In the source, a null array makes `correctPrimaryJuxtapos` throw after the unit has been appended to the typed word and before the array reaches the list. The typed word then holds one more unit than the list, so `Valid()` fails on that path. The model does not cover it.
- Composer.WordComposer.GetTypedWord and Composer.WordComposer.GetPreferredWord: they return the word as a value. The source returns its live StringBuilder, which later `add`, `deleteLast` and `reset` calls change under the caller. That aliasing is not modelled.
- Proximity.ProximityInfo.constructor: the three sweet-spot arrays hold floats that nothing here reads. Only whether each is present is modelled, because it decides the touch-correction flag.
- Proximity.ProximityInfo.SquaredDistanceToEdge: the arithmetic is unbounded. The 32-bit overflow of `dx * dx + dy * dy` and of the grid index for huge coordinates is not modelled.
- Proximity.ProximityInfo.StartIndex: it is only given positive cell sizes. The source divides by zero for an empty keyboard.
- Proximity.Platform: `isOnKey`, `toBaseLowerCase` and the locale's additional characters are left uninterpreted, because their code is not part of this model. So are the platform constants. The two additional-character queries (its size and its codes) are one function returning a sequence.
- UnigramDictionary.DecodeAttributeOffset: the offset bytes are read big-endian, because the reader of the binary format is not part of this model. The attribute address pattern 0x00 has no declared name and is read here as an offset of zero bytes.
- The trie search, scoring and multi-word routines of `UnigramDictionary` have only their declarations in the header, so they are not modelled. Neither are the digraph tables, which are defined elsewhere. FLAG_MULTIPLE_SUGGEST_* are kept as constants only.
- Memory management (`new`, `delete`, `memcpy`, `memset`) is replaced by sequence values, and the destructor is not modelled. Debug logging and the `DEBUG_DICT` asserts are dropped.
- WordComposer `getXCoordinates` and `getYCoordinates` return the array references, which the model exposes as the fields `xCoordinates` and `yCoordinates`.
- The setup activity of the input method is Android lifecycle, intents and views, and is not modelled.
